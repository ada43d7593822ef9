/** The few `str` operations the modelled code uses: `join`, `in`, `split` and `replace` on one character. */
module Texts {

  /** `sep.join(parts)`. */
  function Join(parts: seq<string>, sep: string): string
  {
    if parts == [] then "" else if |parts| == 1 then parts[0] else parts[0] + sep + Join(parts[1..], sep)
  }

  /** `t in s` for two strings. */
  predicate HasSubstring(s: string, t: string)
  {
    exists i | 0 <= i <= |s| - |t| :: OccursAt(s, t, i)
  }

  predicate OccursAt(s: string, t: string, i: int)
  {
    0 <= i <= |s| - |t| && s[i..i + |t|] == t
  }

  lemma SubstringAt(a: string, t: string, b: string)
    ensures HasSubstring(a + t + b, t)
  {
    var s := a + t + b;
    assert OccursAt(s, t, |a|);
  }

  lemma SubstringOfPart(s: string, a: string, b: string, t: string)
    requires s == a + b
    requires HasSubstring(b, t)
    ensures HasSubstring(s, t)
  {
    var i :| 0 <= i <= |b| - |t| && OccursAt(b, t, i);
    assert |s| == |a| + |b|;
    assert s[|a| + i..|a| + i + |t|] == b[i..i + |t|];
    assert OccursAt(s, t, |a| + i);
  }

  lemma SubstringOfHead(s: string, a: string, b: string, t: string)
    requires s == a + b
    requires HasSubstring(a, t)
    ensures HasSubstring(s, t)
  {
    var i :| 0 <= i <= |a| - |t| && OccursAt(a, t, i);
    assert s[i..i + |t|] == a[i..i + |t|];
    assert OccursAt(s, t, i);
  }

  /** Every part of a joined list occurs in the joined text. */
  lemma {:induction false} JoinHasPart(parts: seq<string>, sep: string, i: nat)
    requires i < |parts|
    ensures HasSubstring(Join(parts, sep), parts[i])
  {
    if |parts| == 1 {
      SubstringAt("", parts[0], "");
      assert "" + parts[0] + "" == parts[0];
    } else if i == 0 {
      SubstringAt("", parts[0], sep + Join(parts[1..], sep));
      assert Join(parts, sep) == "" + parts[0] + (sep + Join(parts[1..], sep));
    } else {
      JoinHasPart(parts[1..], sep, i - 1);
      SubstringOfPart(Join(parts, sep), parts[0] + sep, Join(parts[1..], sep), parts[i]);
    }
  }

  /** `s.replace(c, d)` for single characters. */
  function ReplaceChar(s: string, c: char, d: char): (r: string)
    ensures |r| == |s|
    ensures c != d ==> c !in r
    ensures forall x :: x in r ==> x == d || x in s
    ensures c !in s ==> r == s
  {
    seq(|s|, i requires 0 <= i < |s| => if s[i] == c then d else s[i])
  }

  /** `s.split(c)` for a single character: the pieces between occurrences of `c`, in order. */
  function SplitOn(s: string, c: char): (parts: seq<string>)
    ensures |parts| >= 1
    ensures c !in s ==> parts == [s]
    decreases |s|
  {
    if c !in s then [s]
    else
      var i := FirstIndex(s, c);
      [s[..i]] + SplitOn(s[i + 1..], c)
  }

  function FirstIndex(s: string, c: char): (i: nat)
    requires c in s
    ensures i < |s| && s[i] == c && c !in s[..i]
  {
    if s[0] == c then 0 else 1 + FirstIndex(s[1..], c)
  }

  /** Splitting `a + "." + b` where `a` has no dot and `b` none either gives the two halves. */
  lemma SplitTwo(a: string, b: string, c: char)
    requires c !in a && c !in b
    ensures SplitOn(a + [c] + b, c) == [a, b]
  {
    var s := a + [c] + b;
    assert s[|a|] == c;
    var i := FirstIndex(s, c);
    assert i == |a|;
    assert s[..i] == a;
    assert s[i + 1..] == b;
  }
}
