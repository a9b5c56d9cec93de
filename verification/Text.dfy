/**
 Python string operations the pipeline relies on: slicing, `find`, `strip` and the code-point
 order of `<` on strings.
 */
module Text {

  /** The characters that `str.strip()` removes. */
  predicate IsSpace(c: char) {
    var n := c as int;
    || 0x09 <= n <= 0x0D || 0x1C <= n <= 0x20 || n == 0x85 || n == 0xA0 || n == 0x1680
    || 0x2000 <= n <= 0x200A || n == 0x2028 || n == 0x2029 || n == 0x202F || n == 0x205F || n == 0x3000
  }

  /** `not s.strip()` */
  predicate Blank(s: string) {
    forall i :: 0 <= i < |s| ==> IsSpace(s[i])
  }

  /** `text[start:end]` for non-negative bounds: Python clamps both of them to the length. */
  function Slice(text: string, start: nat, end: nat): string {
    var hi := if end < |text| then end else |text|;
    if start < hi then text[start..hi] else ""
  }

  predicate OccursAt(text: string, quote: string, i: int) {
    0 <= i && i + |quote| <= |text| && text[i..i + |quote|] == quote
  }

  /** `quote in text` */
  predicate Occurs(text: string, quote: string) {
    exists i :: 0 <= i <= |text| && OccursAt(text, quote, i)
  }

  /** Overlapping occurrences count: no second start position exists, wherever it lies. */
  ghost predicate OnlyOccurrence(text: string, quote: string, i: int) {
    OccursAt(text, quote, i) && forall j :: OccursAt(text, quote, j) ==> j == i
  }

  ghost predicate OccursOnce(text: string, quote: string) {
    exists i :: OnlyOccurrence(text, quote, i)
  }

  /** `text.find(quote, from)`: the first occurrence at or after `from`, or -1. */
  function Find(text: string, quote: string, from: nat): (i: int)
    ensures i == -1 || (from <= i && OccursAt(text, quote, i))
    ensures forall j :: from <= j && OccursAt(text, quote, j) ==> 0 <= i <= j
    decreases |text| - from
  {
    if from + |quote| > |text| then -1
    else if OccursAt(text, quote, from) then from
    else if from < |text| then Find(text, quote, from + 1)
    else -1
  }

  /** An exact slice of the quote's own length is the same thing as an occurrence. */
  lemma SliceIsOccurrence(text: string, quote: string, i: nat)
    requires quote != ""
    ensures OccursAt(text, quote, i) <==> i + |quote| <= |text| && Slice(text, i, i + |quote|) == quote
  {
  }

  /** Python's `a < b` on strings. */
  predicate StrLess(a: string, b: string) {
    if b == "" then false
    else if a == "" then true
    else if a[0] != b[0] then a[0] < b[0]
    else StrLess(a[1..], b[1..])
  }

  predicate StrLeq(a: string, b: string) {
    !StrLess(b, a)
  }

  lemma {:induction false} StrLessTrichotomy(a: string, b: string)
    ensures StrLess(a, b) || StrLess(b, a) || a == b
    ensures !(StrLess(a, b) && StrLess(b, a))
    ensures !StrLess(a, a)
  {
    if a != "" {
      StrLessTrichotomy(a[1..], a[1..]);
    }
    if a != "" && b != "" && a[0] == b[0] {
      StrLessTrichotomy(a[1..], b[1..]);
      assert a == [a[0]] + a[1..] && b == [b[0]] + b[1..];
    }
  }

  lemma {:induction false} StrLessTransitive(a: string, b: string, c: string)
    requires StrLess(a, b) && StrLess(b, c)
    ensures StrLess(a, c)
  {
    if a != "" && a[0] == b[0] == c[0] {
      StrLessTransitive(a[1..], b[1..], c[1..]);
    }
  }

  lemma StrLeqTransitive(a: string, b: string, c: string)
    requires StrLeq(a, b) && StrLeq(b, c)
    ensures StrLeq(a, c)
  {
    if StrLess(c, a) {
      StrLessTrichotomy(a, b);
      StrLessTrichotomy(b, c);
      if a != b && b != c {
        StrLessTransitive(a, b, c);
        StrLessTrichotomy(a, c);
      }
    }
  }

  /** Strings with equally long first parts compare part by part. */
  lemma {:induction false} StrLessConcat(a: string, b: string, p: string, q: string)
    requires |a| == |b|
    ensures StrLess(a + p, b + q) <==> StrLess(a, b) || (a == b && StrLess(p, q))
  {
    if a == "" {
      assert a + p == p && b + q == q;
    } else {
      assert (a + p)[1..] == a[1..] + p && (b + q)[1..] == b[1..] + q;
      assert a == [a[0]] + a[1..] && b == [b[0]] + b[1..];
      StrLessConcat(a[1..], b[1..], p, q);
    }
  }
}
