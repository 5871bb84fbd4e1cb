/** Small shared definitions: optional values, machine words and decimal text. */
module Basics {

  const TWO32: nat := 0x1_0000_0000

  datatype Option<+T> = None | Some(value: T)

  /** `pat` occurs in `s` at position `i`. */
  predicate OccursAt(s: string, pat: string, i: int) {
    0 <= i && i + |pat| <= |s| && s[i..i + |pat|] == pat
  }

  predicate Contains(s: string, pat: string) {
    exists i :: 0 <= i <= |s| && OccursAt(s, pat, i)
  }

  /** Decimal text of a number, as `ostream << n` prints it. */
  function Dec(n: nat): (s: string)
    ensures |s| > 0
    ensures forall i :: 0 <= i < |s| ==> '0' <= s[i] <= '9'
  {
    if n < 10 then [Digit(n)] else Dec(n / 10) + [Digit(n % 10)]
  }

  function Digit(d: nat): (c: char)
    requires d < 10
    ensures '0' <= c <= '9' && c as int - '0' as int == d
  {
    '0' + d as char
  }

  function FromDec(s: string): int {
    if s == [] then 0 else 10 * FromDec(s[..|s| - 1]) + (s[|s| - 1] as int - '0' as int)
  }

  lemma {:induction false} FromDecUndoesDec(n: nat)
    ensures FromDec(Dec(n)) == n
  {
    if n >= 10 {
      FromDecUndoesDec(n / 10);
      assert Dec(n)[..|Dec(n)| - 1] == Dec(n / 10);
    } else {
      assert Dec(n)[..0] == [];
    }
  }

  lemma DecInjective(a: nat, b: nat)
    requires Dec(a) == Dec(b)
    ensures a == b
  {
    FromDecUndoesDec(a);
    FromDecUndoesDec(b);
  }

  /** A separator that the two heads do not contain cuts the text in one way only. */
  lemma CutUnique(a: string, b: string, a': string, b': string, sep: char)
    requires a + [sep] + b == a' + [sep] + b'
    requires sep !in a && sep !in a'
    ensures a == a' && b == b'
  {
    var s := a + [sep] + b;
    FirstSeparator(a, b, sep);
    FirstSeparator(a', b', sep);
    assert s[|a|] == sep && s[|a'|] == sep;
    assert |a| == |a'|;
    assert a == s[..|a|] && a' == s[..|a'|];
    assert b == s[|a| + 1..] && b' == s[|a'| + 1..];
  }

  lemma FirstSeparator(a: string, b: string, sep: char)
    requires sep !in a
    ensures (a + [sep] + b)[|a|] == sep
    ensures forall i :: 0 <= i < |a| ==> (a + [sep] + b)[i] != sep
  {
    forall i | 0 <= i < |a| ensures (a + [sep] + b)[i] != sep {
      assert (a + [sep] + b)[i] == a[i];
    }
  }

  /** std::string::find of one character from a position on; -1 stands for npos. */
  function FindChar(s: string, c: char, from: nat): (k: int)
    ensures k == -1 ==> forall i :: from <= i < |s| ==> s[i] != c
    ensures k != -1 ==> from <= k < |s| && s[k] == c && forall i :: from <= i < k ==> s[i] != c
    decreases |s| - from
  {
    if from >= |s| then -1 else if s[from] == c then from else FindChar(s, c, from + 1)
  }

  /** The next n bytes of a text, handed to a buffer in front of which `disk` has been written. */
  lemma NextBytes<A>(disk: seq<A>, buf: seq<A>, text: seq<A>, n: nat)
    requires disk + buf <= text && |disk| + |buf| + n <= |text|
    ensures disk + (buf + text[|disk| + |buf|..|disk| + |buf| + n]) <= text
  {
    var out := disk + buf;
    assert out == text[..|out|];
    assert disk + (buf + text[|out|..|out| + n]) == text[..|out| + n];
  }
}
