/**
 * The tracking event record that the events API returns and the dashboard
 * renders (the `NotehubEvent` interfaces of the table, map and page
 * components). Coordinates and sensor readings are JavaScript numbers that
 * the modelled logic only tests for presence and passes along, so they are
 * opaque `real`s here.
 */
module Events {
  import opened Wrappers

  /**
   * A timestamp property of `body`, as far as `typeof x === "string"` can
   * tell it apart: missing, a string, or some other JSON value.
   */
  datatype BodyField = Absent | Str(text: string) | NonString

  datatype Body = Body(
    voltage: Option<real>,
    temperature: Option<real>,
    when: BodyField,
    time: BodyField)

  /**
   * One tracking event. A missing top-level `when` is represented by the
   * empty string: `parseInt` and the truthiness test treat `undefined` and
   * `""` alike.
   */
  datatype Event = Event(
    uid: string,
    file: string,
    captured: string,
    received: string,
    when: string,
    bestLat: Option<real>,
    bestLon: Option<real>,
    body: Body)
}
