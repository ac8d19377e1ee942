/**
 * The records shared by the dashboard and the add-property form
 * (frontend/src/lib/types.ts), and the outcome of an awaited promise.
 */
module Types {

  datatype Option<+T> = None | Some(value: T)

  /**
   * A listing as the dashboard receives it from the listing service.
   * The source's `type` field is called `kind` here (`type` is a Dafny
   * keyword); prices are whole numbers and coordinates are kept opaque.
   */
  datatype Property = Property(
    id: string,
    name: string,
    kind: string,
    price: int,
    location: string,
    description: string,
    lat: Option<real>,
    lng: Option<real>,
    imageUrl: Option<string>)

  /** The fields the add-property form edits and submits: a Property without its id. */
  datatype Draft = Draft(
    name: string,
    kind: string,
    price: int,
    location: string,
    description: string,
    lat: Option<real>,
    lng: Option<real>,
    imageUrl: Option<string>)

  /**
   * How an awaited promise settles: it resolves, or it rejects with an
   * error whose `message` may be missing.
   */
  datatype Settled = Resolved | Rejected(message: Option<string>)
}
