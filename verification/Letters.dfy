/** Upper and lower case. */
module Letters {

  /** One letter in either case, or the same character. */
  predicate SameLetter(c: char, d: char) {
    c == d || IsPair(c, d) || IsPair(d, c)
  }

  predicate IsPair(upper: char, lower: char) {
    'A' <= upper <= 'Z' && (lower as int) - ('a' as int) == (upper as int) - ('A' as int)
  }

  predicate SameIgnoringCase(x: string, y: string) {
    |x| == |y| && forall i :: 0 <= i < |x| ==> SameLetter(x[i], y[i])
  }

  function LowerChar(c: char): char {
    if 'A' <= c <= 'Z' then c - 'A' + 'a' else c
  }

  /** `lower`. */
  function Lower(s: string): string {
    seq(|s|, i requires 0 <= i < |s| => LowerChar(s[i]))
  }

  const UPPER := "ABCDEFGHIJKLMNOPQRSTUVWXYZ"
  const LOWER := "abcdefghijklmnopqrstuvwxyz"

  /** The letters that are taken for the same, by the alphabet. */
  lemma LettersExactly(c: char, d: char)
    ensures SameLetter(c, d) <==>
            c == d || exists k :: 0 <= k < 26 && ((c == UPPER[k] && d == LOWER[k]) || (c == LOWER[k] && d == UPPER[k]))
  {
    PairIsInAlphabet(c, d);
    PairIsInAlphabet(d, c);
  }

  lemma PairIsInAlphabet(u: char, l: char)
    ensures IsPair(u, l) <==> exists k :: 0 <= k < 26 && u == UPPER[k] && l == LOWER[k]
  {
    assert forall k :: 0 <= k < 26 ==> UPPER[k] as int == 'A' as int + k && LOWER[k] as int == 'a' as int + k;
    if IsPair(u, l) {
      var k := (u as int) - ('A' as int);
      assert u == UPPER[k] && l == LOWER[k];
    }
  }

  /** Comparing in lower case is comparing letters. */
  lemma LowerExactly(x: string, y: string)
    ensures Lower(x) == Lower(y) <==> SameIgnoringCase(x, y)
  {
    assert forall c, d :: LowerChar(c) == LowerChar(d) <==> SameLetter(c, d);
    if Lower(x) == Lower(y) {
      assert |Lower(x)| == |x| && |Lower(y)| == |y|;
      assert forall i :: 0 <= i < |x| ==> Lower(x)[i] == LowerChar(x[i]) && Lower(y)[i] == LowerChar(y[i]);
    }
  }
}
