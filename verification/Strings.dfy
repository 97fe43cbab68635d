/** The few string operations the other modules share. */
module Strings {

  /** `sub` occurs in `s` at position `i`. */
  predicate IsAt(s: string, sub: string, i: int) {
    0 <= i <= |s| - |sub| && s[i..i + |sub|] == sub
  }

  /** The first position from `i` on at which `sub` occurs in `s`, or -1. */
  function IndexFrom(s: string, sub: string, i: nat): (r: int)
    ensures r == -1 || (i <= r && IsAt(s, sub, r))
    ensures forall j :: i <= j && IsAt(s, sub, j) ==> 0 <= r <= j
    decreases |s| - i
  {
    if IsAt(s, sub, i) then i else if i >= |s| then -1 else IndexFrom(s, sub, i + 1)
  }

  /** The first position at which `sub` occurs in `s`, or -1. */
  function Index(s: string, sub: string): (r: int)
    ensures r == -1 || IsAt(s, sub, r)
    ensures forall i :: IsAt(s, sub, i) ==> 0 <= r <= i
  {
    IndexFrom(s, sub, 0)
  }

  /** The first occurrence replaced, `strings.Replace` with a count of one. */
  function ReplaceOnce(s: string, what: string, with: string): string {
    var k := Index(s, what);
    if k < 0 then s else s[..k] + with + s[k + |what|..]
  }

  /** The first position of one character, after a stretch without it. */
  lemma IndexOfChar(before: string, c: char, after: string)
    requires c !in before
    ensures Index(before + [c] + after, [c]) == |before|
  {
    var s := before + [c] + after;
    assert IsAt(s, [c], |before|);
    var r := Index(s, [c]);
    assert s[r] == s[r..r + 1][0] == c;
  }

  lemma IndexPresent(s: string, c: char)
    ensures Index(s, [c]) >= 0 ==> c !in s[..Index(s, [c])] && s[Index(s, [c])] == c
    ensures Index(s, [c]) < 0 ==> c !in s
  {
    var r := Index(s, [c]);
    if r >= 0 {
      assert s[r] == s[r..r + 1][0];
    }
    if i :| 0 <= i < |s| && s[i] == c && (r < 0 || i < r) {
      assert s[i..i + 1] == [c];
      assert IsAt(s, [c], i);
    }
  }

  lemma IndexAbsent(s: string, c: char)
    requires c !in s
    ensures Index(s, [c]) == -1
  {
    IndexPresent(s, c);
  }

  lemma FirstChars(s: string, sub: string)
    requires sub != ""
    ensures forall i :: IsAt(s, sub, i) ==> i < |s| && s[i] == sub[0]
  {
    forall i | IsAt(s, sub, i) ensures i < |s| && s[i] == sub[0] {
      assert s[i] == s[i..i + |sub|][0];
    }
  }
}
