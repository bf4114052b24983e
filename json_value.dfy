/** The order-preserving JSON value of src/main.rs: the six-variant `JsonValue`
    enum (the value kinds of section 3 of RFC 8259). An object is its sequence of
    members in `IndexMap` order; a number is kept opaque, as the text its
    `Display` prints. */
module JsonValues {

  /** `serde_json::Number`, known here only through the text it displays as. */
  datatype JsonNumber = JsonNumber(display: string)

  datatype Member = Member(key: string, value: JsonValue)

  datatype JsonValue =
    | Object(members: seq<Member>)
    | Array(elements: seq<JsonValue>)
    | String(text: string)
    | Number(number: JsonNumber)
    | Bool(flag: bool)
    | Null

  predicate IsScalar(v: JsonValue) {
    v.String? || v.Number? || v.Bool? || v.Null?
  }

  /** An `IndexMap` holds each key at most once. */
  predicate DistinctKeys(ms: seq<Member>) {
    forall i, j :: 0 <= i < j < |ms| ==> ms[i].key != ms[j].key
  }
}
