/** Cutting strings up, as Go's package strings does. */
module Strings {

  function TrimPrefix(s: string, prefix: string): string {
    if prefix <= s then s[|prefix|..] else s
  }

  /** Where `c` first occurs; the length of `s` when it does not. */
  function IndexOf(s: string, c: char): (k: nat)
    ensures k <= |s|
    ensures c !in s[..k]
    ensures k < |s| ==> s[k] == c
  {
    if s == "" || s[0] == c then 0
    else
      var k := IndexOf(s[1..], c);
      assert s[..k + 1] == [s[0]] + s[1..][..k];
      k + 1
  }

  lemma {:induction false} IndexOfFirst(left: string, c: char, right: string)
    requires c !in left && (right == "" || right[0] == c)
    ensures IndexOf(left + right, c) == |left|
  {
    if left != "" {
      assert (left + right)[1..] == left[1..] + right;
      IndexOfFirst(left[1..], c, right);
    } else {
      assert left + right == right;
    }
  }
}
