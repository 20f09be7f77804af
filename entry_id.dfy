/**
 * `EntryId`: a newtype around the entry's identifier string. Parsing only
 * wraps the string, so it never fails and validates nothing.
 */
module EntryIds {
  import opened Wrappers

  datatype EntryId = EntryId(raw: string)

  /** `EntryIdParseError`: declared by the source, never produced. */
  datatype EntryIdParseError = EntryIdParseError

  /** `Display for EntryId`: the wrapped string, unchanged. */
  function ToString(id: EntryId): (s: string)
    ensures EntryId(s) == id
  {
    id.raw
  }

  /** `EntryId::from_str`: always succeeds and displays as its input. */
  function FromStr(s: string): (r: Result<EntryId, EntryIdParseError>)
    ensures r.Success?
    ensures ToString(r.value) == s
  {
    Success(EntryId(s))
  }

  /** Parsing is injective: two strings give the same id exactly when they are equal. */
  lemma FromStrInjective(a: string, b: string)
    ensures FromStr(a) == FromStr(b) <==> a == b
  {
  }

  /** The unit test of entry_id.rs. */
  lemma FromStrExample()
    ensures FromStr("2500000000") == Success(EntryId("2500000000"))
    ensures ToString(FromStr("2500000000").value) == "2500000000"
  {
  }
}
