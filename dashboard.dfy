/**
 * The dashboard page's state (frontend/src/pages/Dashboard.tsx): the loaded
 * records, the loading flag, the search text, the selected type, whether the
 * add dialog is open and whether a create is in flight. Network replies are
 * parameters; the toasts they trigger are not modelled.
 */
module Dashboard {
  import opened Types
  import opened DashboardFilter
  import PropertyForm

  /** How `GET /api/properties` ends: no response at all, or a status with a body that may fail to parse. */
  datatype ListReply = ListUnreachable | ListReplied(ok: bool, json: Option<seq<Property>>)

  /**
   * How `POST /api/properties` ends: no response at all, in which case `fetch`
   * rejects with the browser's network error and its message, or a status.
   */
  datatype PostReply = PostUnreachable(message: string) | PostReplied(ok: bool)

  /** The message `addProperty` throws when the POST answers with a non-ok status. */
  const CreateFailedMessage: string := "Failed to create property"

  /** A list reply that reaches `setProperties`: it arrived, was ok and its body parsed. */
  predicate Usable(reply: ListReply) {
    reply.ListReplied? && reply.ok && reply.json.Some?
  }

  class Page {
    var properties: seq<Property>
    var loading: bool
    var query: string
    var selectedType: string
    var openAdd: bool
    var isSubmitting: bool

    /** The initial state of every `useState` hook. */
    constructor ()
      ensures properties == [] && loading && query == "" && selectedType == AllTypes
      ensures !openAdd && !isSubmitting
    {
      properties := [];
      loading := true;
      query := "";
      selectedType := AllTypes;
      openAdd := false;
      isSubmitting := false;
    }

    /** The cards on screen: the `filtered` memo. */
    function Visible(): seq<Property>
      reads this
    {
      Filtered(properties, query, selectedType)
    }

    /** The options of the type selector: the `types` memo. */
    function Options(): seq<string>
      reads this
    {
      TypeOptions(properties)
    }

    /** The search box's `onChange`. */
    method SetQuery(q: string)
      modifies this
      ensures query == q
      ensures properties == old(properties) && selectedType == old(selectedType) && loading == old(loading)
      ensures openAdd == old(openAdd) && isSubmitting == old(isSubmitting)
      ensures Visible() == Filtered(old(properties), q, old(selectedType))
      ensures Options() == old(Options())
    {
      query := q;
    }

    /** The type selector's `onChange`. */
    method SetType(t: string)
      modifies this
      ensures selectedType == t
      ensures properties == old(properties) && query == old(query) && loading == old(loading)
      ensures openAdd == old(openAdd) && isSubmitting == old(isSubmitting)
      ensures Visible() == Filtered(old(properties), old(query), t)
      ensures Options() == old(Options())
    {
      selectedType := t;
    }

    /** The dialog's `onOpenChange`: the add button opens it, dismissing it closes it. */
    method SetOpenAdd(open: bool)
      modifies this
      ensures openAdd == open
      ensures properties == old(properties) && query == old(query) && selectedType == old(selectedType)
      ensures loading == old(loading) && isSubmitting == old(isSubmitting)
    {
      openAdd := open;
    }

    /**
     * `fetchProperties`: loading ends whatever happens; a usable reply
     * replaces the records, any failure leaves them as they were. It never throws.
     */
    method FetchProperties(reply: ListReply)
      modifies this
      ensures !loading
      ensures Usable(reply) ==> properties == reply.json.value
      ensures !Usable(reply) ==> properties == old(properties)
      ensures query == old(query) && selectedType == old(selectedType)
      ensures openAdd == old(openAdd) && isSubmitting == old(isSubmitting)
    {
      loading := true;
      if Usable(reply) {
        properties := reply.json.value;
      }
      loading := false;
    }

    /**
     * `addProperty`: a failed POST rejects before anything changes; a
     * successful one refetches the list and resolves, even when the refetch fails.
     * `payload` is the POST body; the POST itself is abstracted to its reply `post`,
     * so the payload does not influence the outcome.
     */
    method AddProperty(payload: Draft, post: PostReply, refetch: ListReply) returns (outcome: Settled)
      modifies this
      ensures outcome.Rejected? <==> post != PostReplied(true)
      ensures post.PostUnreachable? ==> outcome == Rejected(Some(post.message))
      ensures post == PostReplied(false) ==> outcome == Rejected(Some(CreateFailedMessage))
      ensures outcome.Rejected? ==> properties == old(properties) && loading == old(loading)
      ensures outcome.Resolved? ==> !loading
      ensures outcome.Resolved? ==>
        properties == if Usable(refetch) then refetch.json.value else old(properties)
      ensures query == old(query) && selectedType == old(selectedType)
      ensures openAdd == old(openAdd) && isSubmitting == old(isSubmitting)
    {
      match post
      case PostUnreachable(m) => return Rejected(Some(m));
      case PostReplied(ok) =>
        if !ok {
          return Rejected(Some(CreateFailedMessage));
        }
        FetchProperties(refetch);
        outcome := Resolved;
    }

    /**
     * The `onCreated` callback given to the form: it marks a create in
     * flight, closes the dialog only when the create succeeded, and catches
     * every failure, so the promise the form awaits always resolves.
     * `payload` is only passed on as the POST body (see AddProperty).
     */
    method OnCreated(payload: Draft, post: PostReply, refetch: ListReply) returns (outcome: Settled)
      modifies this
      ensures outcome == Resolved
      ensures !isSubmitting
      ensures openAdd == (old(openAdd) && post != PostReplied(true))
      ensures post != PostReplied(true) ==> properties == old(properties) && loading == old(loading)
      ensures post == PostReplied(true) ==> !loading
      ensures post == PostReplied(true) ==>
        properties == if Usable(refetch) then refetch.json.value else old(properties)
      ensures query == old(query) && selectedType == old(selectedType)
    {
      isSubmitting := true;
      var added := AddProperty(payload, post, refetch);
      if added.Resolved? {
        openAdd := false;
      }
      isSubmitting := false;
      outcome := Resolved;
    }

    /**
     * A submit of the add-property form shown in this page's dialog. Because
     * `onCreated` swallows failures, a draft that passes the presence check is
     * reset to the initial record even when the POST fails and the dialog
     * stays open.
     */
    method SubmitForm(form: PropertyForm.AddPropertyForm, post: PostReply, refetch: ListReply)
      returns (payload: Option<Draft>)
      modifies this, form
      ensures payload == if PropertyForm.PassesPresenceCheck(old(form.values)) then Some(old(form.values)) else None
      ensures query == old(query) && selectedType == old(selectedType)
      ensures payload.None? ==>
        form.values == old(form.values) && form.error == Some(PropertyForm.MissingFieldsMessage)
        && form.loading == old(form.loading)
      ensures payload.None? ==>
        properties == old(properties) && loading == old(loading)
        && openAdd == old(openAdd) && isSubmitting == old(isSubmitting)
      ensures payload.Some? ==> form.values == PropertyForm.InitialDraft && form.error == None && !form.loading
      ensures payload.Some? ==> openAdd == (old(openAdd) && post != PostReplied(true)) && !isSubmitting
      ensures payload.Some? && post != PostReplied(true) ==> properties == old(properties) && loading == old(loading)
      ensures payload.Some? && post == PostReplied(true) ==>
        !loading && properties == if Usable(refetch) then refetch.json.value else old(properties)
    {
      payload := form.BeginSubmit();
      if payload.Some? {
        var outcome := OnCreated(payload.value, post, refetch);
        form.CompleteSubmit(outcome);
      }
    }
  }
}
