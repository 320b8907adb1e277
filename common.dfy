/** Building blocks shared by every page: failure-carrying results, the JavaScript
    array and string operations the pages use (filter, toLowerCase, includes,
    split(...).pop(), number-to-string), stated as functions with contracts. */
module Common {

  datatype Option<T> = None | Some(value: T)

  /** The `{ data, error }` pair a remote call returns: data, or an error with its message. */
  datatype Result<T> = Ok(value: T) | Err(message: string)

  /** The outcome of a remote call that returns no data. */
  datatype Outcome = Done | Failed(message: string)

  function Min(a: int, b: int): int { if a <= b then a else b }

  function Max(a: int, b: int): int { if a <= b then b else a }

  // ---------------------------------------------------------------------------
  // Array.prototype.filter

  /** `b` contains the elements of `a` in the same order, possibly with others between them. */
  predicate IsSubsequence<T(==)>(a: seq<T>, b: seq<T>)
    decreases |b|
  {
    a == [] || (b != [] && ((a[0] == b[0] && IsSubsequence(a[1..], b[1..])) || IsSubsequence(a, b[1..])))
  }

  /** `s.filter(p)`: the elements satisfying `p`, every occurrence kept, in their original order. */
  function Filter<T(==, !new)>(s: seq<T>, p: T -> bool): (r: seq<T>)
    ensures |r| <= |s|
    ensures forall x :: x in r <==> x in s && p(x)
    ensures forall x :: multiset(r)[x] == if p(x) then multiset(s)[x] else 0
    ensures IsSubsequence(r, s)
  {
    if s == [] then []
    else
      var rest := Filter(s[1..], p);
      assert s == [s[0]] + s[1..];
      if p(s[0]) then
        assert ([s[0]] + rest)[1..] == rest;
        [s[0]] + rest
      else
        rest
  }

  /** A filter that rejects nothing returns its input unchanged. */
  lemma {:induction false} FilterKeepsAll<T(!new)>(s: seq<T>, p: T -> bool)
    requires forall x :: x in s ==> p(x)
    ensures Filter(s, p) == s
  {
    if s != [] {
      assert s == [s[0]] + s[1..];
      FilterKeepsAll(s[1..], p);
    }
  }

  // ---------------------------------------------------------------------------
  // String.prototype.toLowerCase (ASCII letters) and String.prototype.includes

  function LowerChar(c: char): char
  {
    if 'A' <= c <= 'Z' then (c as int + 32) as char else c
  }

  function Lower(s: string): (r: string)
    ensures |r| == |s|
    ensures forall i :: 0 <= i < |s| ==> r[i] == LowerChar(s[i])
  {
    seq(|s|, i requires 0 <= i < |s| => LowerChar(s[i]))
  }

  /** `needle` occurs in `hay` starting at offset `i`. */
  predicate OccursAt(hay: string, needle: string, i: int)
  {
    0 <= i && i + |needle| <= |hay| && hay[i..i + |needle|] == needle
  }

  /** `hay.includes(needle)`, scanning from the left. */
  function Contains(hay: string, needle: string): (b: bool)
    ensures b <==> exists i :: OccursAt(hay, needle, i)
    decreases |hay|
  {
    if needle <= hay then
      assert OccursAt(hay, needle, 0);
      true
    else if hay == [] then
      assert forall i :: !OccursAt(hay, needle, i);
      false
    else
      var b := Contains(hay[1..], needle);
      if b then
        var j :| OccursAt(hay[1..], needle, j);
        OccursShift(hay, needle, j + 1);
        true
      else
        assert forall i :: !OccursAt(hay, needle, i) by {
          forall i ensures !OccursAt(hay, needle, i) {
            if 0 < i {
              OccursShift(hay, needle, i);
            }
          }
        }
        false
  }

  /** An occurrence past the first character is an occurrence in the tail. */
  lemma OccursShift(hay: string, needle: string, i: int)
    requires 0 < i && hay != []
    ensures OccursAt(hay, needle, i) <==> OccursAt(hay[1..], needle, i - 1)
  {
    if i + |needle| <= |hay| {
      assert hay[1..][i - 1..i - 1 + |needle|] == hay[i..i + |needle|];
    }
  }

  /** `hay.toLowerCase().includes(needle.toLowerCase())`, also the meaning of SQL `ILIKE '%needle%'`. */
  predicate ContainsIgnoreCase(hay: string, needle: string)
  {
    Contains(Lower(hay), Lower(needle))
  }

  // ---------------------------------------------------------------------------
  // String.prototype.split(sep).pop()

  /** The position of the last `sep` among the first `k` characters of `s`, or -1. */
  function LastIndex(s: string, sep: char, k: nat): (i: int)
    requires k <= |s|
    ensures -1 <= i < k
    ensures i >= 0 ==> s[i] == sep
    ensures forall j :: i < j < k ==> s[j] != sep
    decreases k
  {
    if k == 0 then -1
    else if s[k - 1] == sep then k - 1
    else LastIndex(s, sep, k - 1)
  }

  /** `s.split(sep).pop()`: the text after the last `sep` in `s`, or all of `s` when it has none.
      The three postconditions determine the result: a suffix of `s` free of `sep` that is
      either all of `s` or preceded by `sep`. */
  function AfterLast(s: string, sep: char): (r: string)
    ensures sep !in r
    ensures |r| <= |s| && r == s[|s| - |r|..]
    ensures |r| < |s| ==> s[|s| - |r| - 1] == sep
  {
    s[LastIndex(s, sep, |s|) + 1..]
  }

  /** A value absent from a sequence is absent from each of its suffixes. */
  lemma SuffixExcludes<T>(s: seq<T>, k: nat, x: T)
    requires k <= |s| && x !in s
    ensures x !in s[k..]
  {
    forall i | 0 <= i < |s| - k ensures s[k..][i] != x {
      assert s[k..][i] == s[k + i];
    }
  }

  /** A value absent from two sequences is absent from their concatenation. */
  lemma ConcatExcludes<T>(a: seq<T>, b: seq<T>, x: T)
    requires x !in a && x !in b
    ensures x !in a + b
  {
    forall i | 0 <= i < |a + b| ensures (a + b)[i] != x {
      if i < |a| {
        assert (a + b)[i] == a[i];
      } else {
        assert (a + b)[i] == b[i - |a|];
      }
    }
  }

  /** Joining `a` and a `sep`-free `b` with `sep` in between, then splitting at the last
      `sep`, gives back `b`. */
  lemma {:induction false} AfterLastOfJoin(a: string, sep: char, b: string)
    requires sep !in b
    ensures AfterLast(a + [sep] + b, sep) == b
  {
    var s := a + [sep] + b;
    assert s[|s| - |b|..] == b;
    assert s[|s| - |b| - 1] == sep;
  }

  // ---------------------------------------------------------------------------
  // Number.prototype.toString and parseInt / parseFloat on decimal numerals

  predicate IsDigit(c: char) { '0' <= c <= '9' }

  /** A non-empty string of decimal digits, as a `type="number"` input holds for a whole number. */
  predicate Numeral(s: string)
  {
    |s| > 0 && forall i :: 0 <= i < |s| ==> IsDigit(s[i])
  }

  function DigitChar(d: nat): char
    requires d < 10
  {
    ('0' as int + d) as char
  }

  /** `n.toString()` for a whole number. */
  function DecimalString(n: nat): (s: string)
    ensures Numeral(s)
    ensures |s| > 1 ==> s[0] != '0'
  {
    if n < 10 then [DigitChar(n)] else DecimalString(n / 10) + [DigitChar(n % 10)]
  }

  function Pow10(k: nat): (p: nat)
    ensures p >= 1
  {
    if k == 0 then 1 else 10 * Pow10(k - 1)
  }

  /** `parseInt(s)` (and `parseFloat(s)`) for a numeral: the last digit is the units
      digit, and k digits give a number below 10^k. */
  function ParseDecimal(s: string): (n: nat)
    requires Numeral(s)
    ensures n % 10 == s[|s| - 1] as int - '0' as int
    ensures n < Pow10(|s|)
  {
    var d := s[|s| - 1] as int - '0' as int;
    assert IsDigit(s[|s| - 1]);
    if |s| == 1 then d
    else
      var m := ParseDecimal(s[..|s| - 1]);
      assert m * 10 + d < Pow10(|s|) by {
        assert m + 1 <= Pow10(|s| - 1);
        assert (m + 1) * 10 <= Pow10(|s| - 1) * 10;
      }
      m * 10 + d
  }

  /** Rendering a whole number as text and parsing it back gives the number. */
  lemma {:induction false} ParseDecimalString(n: nat)
    ensures ParseDecimal(DecimalString(n)) == n
  {
    if n >= 10 {
      var s := DecimalString(n);
      assert s[..|s| - 1] == DecimalString(n / 10);
      ParseDecimalString(n / 10);
    }
  }
}
