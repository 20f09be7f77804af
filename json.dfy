/**
 * The part of serde_json the entry serialization relies on: a JSON value
 * (`serde_json::Value`) and its compact text form (`Value::to_string`),
 * `,` between items and members, `:` after keys, no whitespace. The
 * escaping of string contents belongs to serde_json and is a parameter.
 */
module Json {

  datatype Value =
    | Bool(b: bool)
    | Str(s: string)
    | Array(items: seq<Value>)
    | Object(members: seq<Member>)

  datatype Member = Member(key: string, value: Value)

  /** The parts with `sep` between consecutive ones. */
  function Join(parts: seq<string>, sep: string): string {
    if |parts| == 0 then ""
    else if |parts| == 1 then parts[0]
    else parts[0] + sep + Join(parts[1..], sep)
  }

  /** A JSON string literal: the escaped text between double quotes. */
  function Quote(s: string, escape: string -> string): string {
    "\"" + escape(s) + "\""
  }

  function Serialize(v: Value, escape: string -> string): string
    decreases v
  {
    match v
    case Bool(b) => if b then "true" else "false"
    case Str(s) => Quote(s, escape)
    case Array(items) => "[" + SerializeItems(items, escape) + "]"
    case Object(members) => "{" + SerializeMembers(members, escape) + "}"
  }

  function SerializeItems(items: seq<Value>, escape: string -> string): string
    decreases items
  {
    if |items| == 0 then ""
    else if |items| == 1 then Serialize(items[0], escape)
    else Serialize(items[0], escape) + "," + SerializeItems(items[1..], escape)
  }

  /** A member's text, `"key":value`, from the key text and the value text. */
  function MemberText(keyText: string, valueText: string): string {
    "\"" + keyText + "\":" + valueText
  }

  function SerializeMember(m: Member, escape: string -> string): string
    decreases m
  {
    MemberText(escape(m.key), Serialize(m.value, escape))
  }

  function SerializeMembers(members: seq<Member>, escape: string -> string): string
    decreases members
  {
    if |members| == 0 then ""
    else if |members| == 1 then SerializeMember(members[0], escape)
    else SerializeMember(members[0], escape) + "," + SerializeMembers(members[1..], escape)
  }

  /** The texts of the members, one per member. */
  function MemberTexts(members: seq<Member>, escape: string -> string): (r: seq<string>)
    ensures |r| == |members|
    ensures forall i :: 0 <= i < |members| ==> r[i] == SerializeMember(members[i], escape)
  {
    seq(|members|, i requires 0 <= i < |members| => SerializeMember(members[i], escape))
  }

  /** An object's members are written one after another, separated by commas. */
  lemma {:induction false} SerializeMembersJoined(members: seq<Member>, escape: string -> string)
    ensures SerializeMembers(members, escape) == Join(MemberTexts(members, escape), ",")
    decreases |members|
  {
    if |members| > 1 {
      SerializeMembersJoined(members[1..], escape);
      assert MemberTexts(members, escape)[1..] == MemberTexts(members[1..], escape);
    }
  }

  /** An array of strings, as `Vec<String>` serializes. */
  function Strings(xs: seq<string>): (v: Value)
    ensures v.Array? && |v.items| == |xs|
    ensures forall i :: 0 <= i < |xs| ==> v.items[i] == Str(xs[i])
  {
    Array(seq(|xs|, i requires 0 <= i < |xs| => Str(xs[i])))
  }

  /** The quoted form of each string. */
  function Quoted(xs: seq<string>, escape: string -> string): (r: seq<string>)
    ensures |r| == |xs|
    ensures forall i :: 0 <= i < |xs| ==> r[i] == Quote(xs[i], escape)
  {
    seq(|xs|, i requires 0 <= i < |xs| => Quote(xs[i], escape))
  }

  /** A list of strings is written as its quoted items, in order, between brackets. */
  lemma SerializeStrings(xs: seq<string>, escape: string -> string)
    ensures Serialize(Strings(xs), escape) == "[" + Join(Quoted(xs, escape), ",") + "]"
  {
    StringItems(xs, escape);
  }

  lemma {:induction false} StringItems(xs: seq<string>, escape: string -> string)
    ensures SerializeItems(Strings(xs).items, escape) == Join(Quoted(xs, escape), ",")
    decreases |xs|
  {
    if |xs| > 1 {
      assert Strings(xs).items[1..] == Strings(xs[1..]).items;
      assert Quoted(xs, escape)[1..] == Quoted(xs[1..], escape);
      StringItems(xs[1..], escape);
    }
  }
}
