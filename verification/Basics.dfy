/** Small things several modules share. */
module Basics {

  /** One more than the largest 32-bit number. */
  const WORD := 0x1_0000_0000

  datatype Option<+T> = None | Some(value: T)

  // ASCII case, as in the C locale.

  function ToLower(c: char): char { if 'A' <= c <= 'Z' then (c as int + 32) as char else c }

  function Lower(s: string): string { seq(|s|, i requires 0 <= i < |s| => ToLower(s[i])) }

  /** The same character, or the same letter in either case: capitals are 32 below small letters. */
  predicate SameLetter(c: char, d: char) {
    c == d || ('A' <= c <= 'Z' && d as int == c as int + 32) || ('A' <= d <= 'Z' && c as int == d as int + 32)
  }

  predicate SameText(a: string, b: string) {
    |a| == |b| && forall i :: 0 <= i < |a| ==> SameLetter(a[i], b[i])
  }

  /** Lower case identifies exactly the two forms of a letter. */
  lemma LowerIdentifies(c: char, d: char)
    ensures ToLower(c) == ToLower(d) <==> SameLetter(c, d)
  {
  }

  lemma LowerIsSameText(a: string, b: string)
    ensures Lower(a) == Lower(b) <==> SameText(a, b)
  {
    if Lower(a) == Lower(b) {
      assert |a| == |Lower(a)| == |Lower(b)| == |b|;
      forall i | 0 <= i < |a| ensures SameLetter(a[i], b[i]) {
        assert Lower(a)[i] == Lower(b)[i];
        LowerIdentifies(a[i], b[i]);
      }
    }
    if SameText(a, b) {
      forall i | 0 <= i < |a| ensures ToLower(a[i]) == ToLower(b[i]) {
        LowerIdentifies(a[i], b[i]);
      }
    }
  }
}
