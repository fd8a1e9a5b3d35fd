/** Cutting strings at slashes. */
module Slashes {
  /** `s.split("/")[0]` */
  function FirstPart(s: string): (r: string)
    ensures '/' !in r && r <= s
    ensures '/' in s ==> r + "/" <= s
    ensures '/' !in s ==> r == s
  {
    if s == "" || s[0] == '/' then ""
    else
      assert s == [s[0]] + s[1..];
      [s[0]] + FirstPart(s[1..])
  }

  /** What follows the first slash. */
  function AfterFirst(s: string): string
    requires '/' in s
  {
    s[|FirstPart(s)| + 1..]
  }

  lemma {:induction false} FirstPartIs(d: string, s: string)
    requires '/' !in d && d + "/" <= s
    ensures '/' in s && FirstPart(s) == d
  {
    assert s[|d|] == (d + "/")[|d|] == '/';
    if d != "" {
      assert s[0] == d[0] && d[1..] + "/" <= s[1..];
      FirstPartIs(d[1..], s[1..]);
    }
  }
}
