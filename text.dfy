/** The two `str` operations the template reader and the body wrapper rely on. */
module Text {
  import opened Wrappers

  /** `str::strip_prefix`: the rest of `s` after `prefix`, when `s` starts with it. */
  function StripPrefix(s: string, prefix: string): (r: Option<string>)
    ensures r.Some? <==> prefix <= s
    ensures r.Some? ==> prefix + r.value == s
  {
    if prefix <= s then
      assert prefix + s[|prefix|..] == s;
      Some(s[|prefix|..])
    else None
  }

  lemma StripPrefixOfConcat(prefix: string, rest: string)
    ensures StripPrefix(prefix + rest, prefix) == Some(rest)
  {
    assert (prefix + rest)[|prefix|..] == rest;
  }

  /**
   * `s` cut before the first `c`: the text before it, and the rest starting
   * with `c` (empty when `c` does not occur).
   */
  function SplitAt(s: string, c: char): (r: (string, string))
    ensures r.0 + r.1 == s
    ensures c !in r.0
    ensures |r.1| > 0 ==> r.1[0] == c
  {
    if |s| == 0 then ("", "")
    else if s[0] == c then ("", s)
    else
      var (before, after) := SplitAt(s[1..], c);
      assert [s[0]] + before + after == s;
      ([s[0]] + before, after)
  }

  /** The cut is unique: text free of `c` followed by text starting with `c` splits back apart. */
  lemma SplitAtConcat(before: string, after: string, c: char)
    requires c !in before
    requires |after| > 0 && after[0] == c
    ensures SplitAt(before + after, c) == (before, after)
  {
    var r := SplitAt(before + after, c);
    assert r.0 == (before + after)[..|r.0|];
    assert before == (before + after)[..|before|];
    assert r.1 == (before + after)[|r.0|..];
  }
}
