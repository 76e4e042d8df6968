/** The values the core passes around: router locations and the key-value bags
    that make up page metadata and event payloads. */
module Values {

  /** A router location object. The core compares locations by object identity,
      so `id` stands for that identity: distinct objects have distinct ids, and two
      values are equal exactly when they stand for the same object. This is an
      assumption of the model, not a field of the router's location (whose `key`
      may be missing). `pathname` is carried into event payloads and read by no
      operation of the core. */
  datatype Location = Location(id: nat, pathname: string)

  /** A metadata value: opaque to the core apart from the location it adds. */
  datatype Value =
    | StringValue(s: string)
    | NumberValue(n: int)
    | BoolValue(b: bool)
    | LocationValue(location: Location)

  /** A shallow key-value bag (a plain object spread with `...`). */
  type Properties = map<string, Value>
}
