/** JSON documents as the contract tools walk them. */
module JsonValues {
  import opened Wrappers

  /** Object members are in order, and a parsed object has no two members of one name. */
  datatype Json = Obj(fields: seq<Member>) | Arr(items: seq<Json>) | Str(text: string) | Scalar

  datatype Member = Member(name: string, value: Json)

  function Field(fields: seq<Member>, name: string): Option<Json> {
    if fields == [] then None
    else if fields[0].name == name then Some(fields[0].value)
    else Field(fields[1..], name)
  }
}
