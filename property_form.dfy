/**
 * The add-property form (frontend/src/components/dev/addPropertyForm.tsx):
 * its field values, its error message and its loading flag, edited one
 * field at a time and submitted to an `onCreated` callback whose outcome is
 * a parameter here.
 */
module PropertyForm {
  import opened Types

  /** The message shown when a required field is missing. */
  const MissingFieldsMessage: string := "Please fill name, type, price, and location."

  /** The message shown when `onCreated` rejects without a usable message. */
  const DefaultFailureMessage: string := "Failed to add property"

  /** The values the form starts with and returns to after a successful submit. */
  const InitialDraft: Draft := Draft("", "", 0, "", "", None, None, Some(""))

  /** The keys `update` accepts. */
  datatype Key = NameKey | KindKey | PriceKey | LocationKey | DescriptionKey | LatKey | LngKey | ImageUrlKey

  /** A key together with a value of that key's type. */
  datatype FieldValue =
    | NameValue(name: string)
    | KindValue(kind: string)
    | PriceValue(price: int)
    | LocationValue(location: string)
    | DescriptionValue(description: string)
    | LatValue(lat: Option<real>)
    | LngValue(lng: Option<real>)
    | ImageUrlValue(imageUrl: Option<string>)
  {
    function KeyOf(): Key {
      match this
      case NameValue(_) => NameKey
      case KindValue(_) => KindKey
      case PriceValue(_) => PriceKey
      case LocationValue(_) => LocationKey
      case DescriptionValue(_) => DescriptionKey
      case LatValue(_) => LatKey
      case LngValue(_) => LngKey
      case ImageUrlValue(_) => ImageUrlKey
    }
  }

  /** Reads one field of a draft, tagged with its key. */
  function Get(d: Draft, k: Key): (v: FieldValue)
    ensures v.KeyOf() == k
  {
    match k
    case NameKey => NameValue(d.name)
    case KindKey => KindValue(d.kind)
    case PriceKey => PriceValue(d.price)
    case LocationKey => LocationValue(d.location)
    case DescriptionKey => DescriptionValue(d.description)
    case LatKey => LatValue(d.lat)
    case LngKey => LngValue(d.lng)
    case ImageUrlKey => ImageUrlValue(d.imageUrl)
  }

  /** `{ ...v, [key]: val }`: the field named by `f` takes its value, every other field is kept. */
  function With(d: Draft, f: FieldValue): (r: Draft)
    ensures forall k :: Get(r, k) == if k == f.KeyOf() then f else Get(d, k)
  {
    match f
    case NameValue(x) => d.(name := x)
    case KindValue(x) => d.(kind := x)
    case PriceValue(x) => d.(price := x)
    case LocationValue(x) => d.(location := x)
    case DescriptionValue(x) => d.(description := x)
    case LatValue(x) => d.(lat := x)
    case LngValue(x) => d.(lng := x)
    case ImageUrlValue(x) => d.(imageUrl := x)
  }

  /** A draft is determined by its fields. */
  lemma DraftExtensional(d: Draft, e: Draft)
    requires forall k :: Get(d, k) == Get(e, k)
    ensures d == e
  {
    assert Get(d, NameKey) == Get(e, NameKey);
    assert Get(d, KindKey) == Get(e, KindKey);
    assert Get(d, PriceKey) == Get(e, PriceKey);
    assert Get(d, LocationKey) == Get(e, LocationKey);
    assert Get(d, DescriptionKey) == Get(e, DescriptionKey);
    assert Get(d, LatKey) == Get(e, LatKey);
    assert Get(d, LngKey) == Get(e, LngKey);
    assert Get(d, ImageUrlKey) == Get(e, ImageUrlKey);
  }

  /** Writing back the value a field already has changes nothing. */
  lemma WithCurrentValue(d: Draft, k: Key)
    ensures With(d, Get(d, k)) == d
  {
    DraftExtensional(With(d, Get(d, k)), d);
  }

  /** Updates of two different fields commute; a second update of the same field wins. */
  lemma WithCommutes(d: Draft, f: FieldValue, g: FieldValue)
    ensures f.KeyOf() != g.KeyOf() ==> With(With(d, f), g) == With(With(d, g), f)
    ensures f.KeyOf() == g.KeyOf() ==> With(With(d, f), g) == With(d, g)
  {
    if f.KeyOf() != g.KeyOf() {
      DraftExtensional(With(With(d, f), g), With(With(d, g), f));
    } else {
      DraftExtensional(With(With(d, f), g), With(d, g));
    }
  }

  /**
   * The presence check of `onSubmit` with JavaScript truthiness: an empty
   * string and the number 0 are falsy.
   */
  predicate PassesPresenceCheck(d: Draft) {
    d.name != "" && d.kind != "" && d.location != "" && d.price != 0
  }

  /** The untouched form never passes the check. */
  lemma InitialDraftRejected()
    ensures !PassesPresenceCheck(InitialDraft)
  {
  }

  /**
   * The check rejects a zero price but lets any other price through,
   * negative ones included, once the three text fields are filled in.
   */
  lemma PriceCheckIsTruthiness(d: Draft)
    requires d.name != "" && d.kind != "" && d.location != ""
    ensures PassesPresenceCheck(d) <==> d.price != 0
    ensures d.price < 0 ==> PassesPresenceCheck(d)
  {
  }

  /** `err?.message || "Failed to add property"`: the error text a rejection leaves on the form. */
  function FailureText(message: Option<string>): (text: string)
    ensures text != ""
    ensures message.Some? && message.value != "" ==> text == message.value
    ensures !(message.Some? && message.value != "") ==> text == DefaultFailureMessage
  {
    if message.Some? && message.value != "" then message.value else DefaultFailureMessage
  }

  class AddPropertyForm {
    var values: Draft
    var error: Option<string>
    var loading: bool

    constructor ()
      ensures values == InitialDraft && error == None && !loading
    {
      values := InitialDraft;
      error := None;
      loading := false;
    }

    /** `update(key, val)`: one field changes, the others and the rest of the state do not. */
    method Update(f: FieldValue)
      modifies this
      ensures values == With(old(values), f)
      ensures Get(values, f.KeyOf()) == f
      ensures forall k :: k != f.KeyOf() ==> Get(values, k) == Get(old(values), k)
      ensures error == old(error) && loading == old(loading)
    {
      values := With(values, f);
    }

    /**
     * `onSubmit` up to its `await`: the error is cleared; a draft that fails
     * the presence check sets the fixed message and stops; otherwise the form
     * starts loading and hands its current values to `onCreated`.
     */
    method BeginSubmit() returns (payload: Option<Draft>)
      modifies this
      ensures payload == if PassesPresenceCheck(old(values)) then Some(old(values)) else None
      ensures values == old(values)
      ensures payload.None? ==> error == Some(MissingFieldsMessage) && loading == old(loading)
      ensures payload.Some? ==> error == None && loading
    {
      error := None;
      if !PassesPresenceCheck(values) {
        error := Some(MissingFieldsMessage);
        return None;
      }
      loading := true;
      payload := Some(values);
    }

    /**
     * `onSubmit` after `onCreated` settles: a resolved call resets the values
     * to the initial record, a rejected one keeps them and shows its message;
     * either way loading ends.
     */
    method CompleteSubmit(outcome: Settled)
      modifies this
      ensures !loading
      ensures outcome.Resolved? ==> values == InitialDraft && error == old(error)
      ensures outcome.Rejected? ==> values == old(values) && error == Some(FailureText(outcome.message))
    {
      if outcome.Resolved? {
        values := InitialDraft;
      } else {
        error := Some(FailureText(outcome.message));
      }
      loading := false;
    }

    /**
     * The whole `onSubmit` for a given outcome of `onCreated`; `payload` is what
     * `onCreated` receives, None when it is not called.
     */
    method OnSubmit(outcome: Settled) returns (payload: Option<Draft>)
      modifies this
      ensures payload == if PassesPresenceCheck(old(values)) then Some(old(values)) else None
      ensures payload.None? ==> values == old(values) && error == Some(MissingFieldsMessage) && loading == old(loading)
      ensures payload.Some? && outcome.Resolved? ==> values == InitialDraft && error == None && !loading
      ensures payload.Some? && outcome.Rejected? ==>
        values == old(values) && error == Some(FailureText(outcome.message)) && !loading
    {
      payload := BeginSubmit();
      if payload.Some? {
        CompleteSubmit(outcome);
      }
    }
  }
}
