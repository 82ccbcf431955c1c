/** The few pieces of Python's string behaviour the pipeline relies on:
    the `in` operator on strings, `str.join`, and `str()` of an integer. */
module Strings {

  /** `sub` occurs in `s` starting at index `i`. */
  predicate OccursAt(s: string, sub: string, i: int)
  {
    0 <= i && i + |sub| <= |s| && s[i..i + |sub|] == sub
  }

  /** Python's `sub in s`: `sub` occurs in `s` as a contiguous substring.
      Every string contains the empty string. */
  predicate Contains(s: string, sub: string)
  {
    exists i | 0 <= i <= |s| - |sub| :: OccursAt(s, sub, i)
  }

  /** A string contains each piece it is built from. */
  lemma ContainsMiddle(a: string, b: string, c: string)
    ensures Contains(a + b + c, b)
  {
    SliceInMiddle(a, b, c, 0, |b|);
    assert OccursAt(a + b + c, b, |a|);
  }

  /** Containment is transitive: a string that contains `t` contains every
      substring of `t`. */
  lemma ContainsTransitive(s: string, t: string, u: string)
    requires Contains(s, t) && Contains(t, u)
    ensures Contains(s, u)
  {
    var i :| 0 <= i <= |s| - |t| && OccursAt(s, t, i);
    var j :| 0 <= j <= |t| - |u| && OccursAt(t, u, j);
    forall k | 0 <= k < |u|
      ensures s[i + j + k] == u[k]
    {
      assert t[j + k] == u[k];
      assert s[i..i + |t|][j + k] == s[i + j + k];
    }
    assert s[i + j..i + j + |u|] == u;
    assert OccursAt(s, u, i + j);
  }

  /** A non-empty string whose first character never appears in `s` does
      not occur in `s`. */
  lemma AbsentFirstChar(s: string, sub: string)
    requires |sub| > 0 && sub[0] !in s
    ensures !Contains(s, sub)
  {
  }

  /** A slice taken inside the first piece of a concatenation. */
  lemma SliceOfFront(a: string, b: string, c: string, i: nat, j: nat)
    requires i <= j <= |a|
    ensures (a + b + c)[i..j] == a[i..j]
  {
  }

  /** A slice taken inside the middle piece of a concatenation. */
  lemma SliceInMiddle(a: string, b: string, c: string, i: nat, j: nat)
    requires i <= j <= |b|
    ensures (a + b + c)[|a| + i..|a| + j] == b[i..j]
  {
  }

  /** Python's `sep.join(parts)`. */
  function Join(parts: seq<string>, sep: string): string
    decreases |parts|
  {
    if |parts| == 0 then ""
    else if |parts| == 1 then parts[0]
    else Join(parts[..|parts| - 1], sep) + sep + parts[|parts| - 1]
  }

  /** Where the `i`-th part begins in `Join(parts, sep)` (for `i == |parts|`,
      where a further part would begin). */
  function Offset(parts: seq<string>, sep: string, i: nat): nat
    requires i <= |parts|
  {
    if i == 0 then 0 else Offset(parts, sep, i - 1) + |parts[i - 1]| + |sep|
  }

  lemma {:induction false} OffsetOfPrefix(parts: seq<string>, sep: string, n: nat, i: nat)
    requires i <= n <= |parts|
    ensures Offset(parts[..n], sep, i) == Offset(parts, sep, i)
  {
    if i > 0 {
      OffsetOfPrefix(parts, sep, n, i - 1);
    }
  }

  /** The joined string holds the parts and the separators and nothing else. */
  lemma {:induction false} JoinLength(parts: seq<string>, sep: string)
    requires |parts| > 0
    ensures |Join(parts, sep)| + |sep| == Offset(parts, sep, |parts|)
    decreases |parts|
  {
    var n := |parts|;
    if n > 1 {
      JoinLength(parts[..n - 1], sep);
      OffsetOfPrefix(parts, sep, n - 1, n - 1);
    }
  }

  /** The `i`-th part sits at its offset in the joined string. */
  lemma {:induction false} JoinPartAt(parts: seq<string>, sep: string, i: nat)
    requires i < |parts|
    ensures OccursAt(Join(parts, sep), parts[i], Offset(parts, sep, i))
    decreases |parts|
  {
    var n := |parts|;
    if n == 1 {
      assert Join(parts, sep)[0..|parts[0]|] == parts[0];
    } else {
      var init := parts[..n - 1];
      var j := Join(init, sep);
      assert Join(parts, sep) == j + sep + parts[n - 1];
      OffsetOfPrefix(parts, sep, n - 1, i);
      if i < n - 1 {
        var o := Offset(init, sep, i);
        JoinPartAt(init, sep, i);
        assert init[i] == parts[i];
        SliceOfFront(j, sep, parts[n - 1], o, o + |parts[i]|);
      } else {
        JoinLength(init, sep);
        SliceInMiddle(j + sep, parts[n - 1], [], 0, |parts[n - 1]|);
        assert j + sep + parts[n - 1] == (j + sep) + parts[n - 1] + [];
      }
    }
  }

  /** Exactly one separator stands between consecutive parts. */
  lemma {:induction false} JoinSepAt(parts: seq<string>, sep: string, i: nat)
    requires i + 1 < |parts|
    ensures OccursAt(Join(parts, sep), sep, Offset(parts, sep, i) + |parts[i]|)
    ensures Offset(parts, sep, i + 1) == Offset(parts, sep, i) + |parts[i]| + |sep|
    decreases |parts|
  {
    var n := |parts|;
    var init := parts[..n - 1];
    var j := Join(init, sep);
    assert Join(parts, sep) == j + sep + parts[n - 1];
    assert init[i] == parts[i];
    OffsetOfPrefix(parts, sep, n - 1, i);
    var e := Offset(init, sep, i) + |init[i]|;
    if i + 2 < n {
      JoinSepAt(init, sep, i);
      SliceOfFront(j, sep, parts[n - 1], e, e + |sep|);
    } else {
      JoinLength(init, sep);
      SliceInMiddle(j, sep, parts[n - 1], 0, |sep|);
    }
  }

  /** The first of four concatenated pieces is a prefix of the whole. */
  lemma PrefixOfFour(a: string, b: string, c: string, d: string)
    ensures a <= a + b + c + d
  {
    assert (a + b + c + d)[..|a|] == a;
  }

  /** A slice taken inside the second of four concatenated pieces. */
  lemma SliceInSecond(a: string, b: string, c: string, d: string, i: nat, j: nat)
    requires i <= j <= |b|
    ensures (a + b + c + d)[|a| + i..|a| + j] == b[i..j]
  {
    SliceInMiddle(a, b, c + d, i, j);
    assert a + b + c + d == a + b + (c + d);
  }

  lemma PrefixOfConcat(a: string, b: string)
    ensures a <= a + b
  {
    assert (a + b)[..|a|] == a;
  }

  /** A prefix of an occurring string occurs at the same place. */
  lemma PrefixOccurs(s: string, sub: string, pre: string, i: int)
    requires OccursAt(s, sub, i) && pre <= sub
    ensures OccursAt(s, pre, i)
  {
    assert s[i..i + |pre|] == s[i..i + |sub|][..|pre|];
  }

  /** The decimal digit for `d`. */
  function Digit(d: nat): (c: char)
    requires d < 10
    ensures '0' <= c <= '9'
  {
    (48 + d) as char
  }

  predicate IsDecimal(s: string)
  {
    |s| > 0 && forall k :: 0 <= k < |s| ==> '0' <= s[k] <= '9'
  }

  /** Python's `str(n)` for a non-negative integer: its decimal digits,
      without leading zeros. */
  function NatToString(n: nat): (r: string)
    ensures IsDecimal(r)
    ensures |r| > 1 ==> r[0] != '0'
    decreases n
  {
    if n < 10 then [Digit(n)] else NatToString(n / 10) + [Digit(n % 10)]
  }

  /** The value of a string of decimal digits. */
  function DecimalValue(s: string): nat
    requires forall k :: 0 <= k < |s| ==> '0' <= s[k] <= '9'
  {
    if s == [] then 0 else DecimalValue(s[..|s| - 1]) * 10 + (s[|s| - 1] as int - 48)
  }

  /** Reading back the digits of `n` gives `n`. */
  lemma {:induction false} DecimalRoundTrip(n: nat)
    ensures DecimalValue(NatToString(n)) == n
    decreases n
  {
    if n >= 10 {
      DecimalRoundTrip(n / 10);
      var r := NatToString(n);
      assert r[..|r| - 1] == NatToString(n / 10);
    }
  }

  /** Different counts never print the same. */
  lemma NatToStringInjective(a: nat, b: nat)
    requires NatToString(a) == NatToString(b)
    ensures a == b
  {
    DecimalRoundTrip(a);
    DecimalRoundTrip(b);
  }

  /** Python's `str(i)` for any integer. */
  function IntToString(i: int): (r: string)
    ensures i < 0 <==> (|r| > 0 && r[0] == '-')
  {
    if i < 0 then "-" + NatToString(-i) else NatToString(i)
  }

  /** Reading back `str(i)`: the digits after an optional minus sign give
      the magnitude of `i`. */
  lemma IntToStringRoundTrip(i: int)
    ensures i >= 0 ==> DecimalValue(IntToString(i)) == i
    ensures i < 0 ==> IntToString(i)[1..] == NatToString(-i)
    ensures i < 0 ==> DecimalValue(IntToString(i)[1..]) == -i
  {
    if i >= 0 {
      DecimalRoundTrip(i);
    } else {
      DecimalRoundTrip(-i);
      assert IntToString(i)[1..] == NatToString(-i);
    }
  }
}
