/**
 * The few java.lang / java.util behaviours the modelled code depends on, with
 * their edge cases written out: String.split with a one-character separator,
 * String.replace, lastIndexOf, List.indexOf, decimal formatting and parsing of
 * int and long, Boolean.parseBoolean, and 32-bit hash arithmetic.
 */
module JavaLang {
  import opened Wrappers

  // ---------------------------------------------------------------- split

  /** The full split of s at every c, empty pieces included (one more piece than separators). */
  function SplitAll(s: string, c: char): (r: seq<string>)
    ensures |r| >= 1
    ensures forall i :: 0 <= i < |r| ==> c !in r[i]
  {
    if |s| == 0 then [""]
    else
      var rest := SplitAll(s[1..], c);
      if s[0] == c then [""] + rest
      else [[s[0]] + rest[0]] + rest[1..]
  }

  /** Puts the pieces back together with c between them. */
  function Join(xs: seq<string>, c: char): string
    requires |xs| >= 1
  {
    if |xs| == 1 then xs[0] else xs[0] + [c] + Join(xs[1..], c)
  }

  /** Drops the empty strings at the end, as String.split does with no limit. */
  function DropTrailingEmpty(xs: seq<string>): (r: seq<string>)
    ensures |r| <= |xs| && r == xs[..|r|]
    ensures |r| > 0 ==> r[|r| - 1] != ""
    ensures forall i :: |r| <= i < |xs| ==> xs[i] == ""
  {
    if |xs| == 0 then []
    else if xs[|xs| - 1] == "" then DropTrailingEmpty(xs[..|xs| - 1])
    else xs
  }

  /** A non-empty piece and every piece before it survive the dropping of empty tails. */
  lemma DropTrailingKeeps(xs: seq<string>, i: nat)
    requires i < |xs| && xs[i] != ""
    ensures i < |DropTrailingEmpty(xs)| && DropTrailingEmpty(xs)[i] == xs[i]
  {
  }

  /**
   * String.split(c) for a single non-special character c: a string without c
   * is its own only piece (so "" gives [""]); otherwise the full split with
   * trailing empty pieces dropped (so a string of separators only gives []).
   */
  function Split(s: string, c: char): seq<string>
  {
    if c !in s then [s] else DropTrailingEmpty(SplitAll(s, c))
  }

  /** Joining the full split gives back the string. */
  lemma {:induction false} JoinSplitAll(s: string, c: char)
    ensures Join(SplitAll(s, c), c) == s
    decreases |s|
  {
    if |s| > 0 {
      JoinSplitAll(s[1..], c);
      var rest := SplitAll(s[1..], c);
      if s[0] == c {
        assert SplitAll(s, c)[1..] == rest;
      } else {
        JoinCons(s[0], rest, c);
      }
      assert s == [s[0]] + s[1..];
    }
  }

  lemma {:induction false} JoinCons(x: char, xs: seq<string>, c: char)
    requires |xs| >= 1
    ensures Join([[x] + xs[0]] + xs[1..], c) == [x] + Join(xs, c)
  {
    var ys := [[x] + xs[0]] + xs[1..];
    if |xs| > 1 {
      assert ys[1..] == xs[1..];
    }
  }

  /** A string without the separator is a single piece. */
  lemma {:induction false} SplitAllNoSep(s: string, c: char)
    requires c !in s
    ensures SplitAll(s, c) == [s]
    decreases |s|
  {
    if |s| > 0 {
      SplitAllNoSep(s[1..], c);
      assert s == [s[0]] + s[1..];
    }
  }

  /** Splitting distributes over a separator. */
  lemma {:induction false} SplitAllAtSep(a: string, b: string, c: char)
    ensures SplitAll(a + [c] + b, c) == SplitAll(a, c) + SplitAll(b, c)
    decreases |a|
  {
    var s := a + [c] + b;
    if |a| == 0 {
      assert s[1..] == b;
    } else {
      assert s[1..] == a[1..] + [c] + b;
      SplitAllAtSep(a[1..], b, c);
    }
  }

  /** The string with every trailing c removed. */
  function TrimEnd(s: string, c: char): (r: string)
    ensures |r| <= |s| && r == s[..|r|]
    ensures |r| > 0 ==> r[|r| - 1] != c
    ensures forall i :: |r| <= i < |s| ==> s[i] == c
  {
    if |s| == 0 then s
    else if s[|s| - 1] == c then TrimEnd(s[..|s| - 1], c)
    else s
  }

  /** Index of the last c in s, or -1, as String.lastIndexOf. */
  function LastIndexOf(s: string, c: char): (r: int)
    ensures -1 <= r < |s|
    ensures r == -1 <==> c !in s
    ensures r >= 0 ==> s[r] == c && c !in s[r + 1..]
  {
    if |s| == 0 then -1
    else if s[|s| - 1] == c then |s| - 1
    else
      var r := LastIndexOf(s[..|s| - 1], c);
      assert s[r + 1..] == s[..|s| - 1][r + 1..] + [s[|s| - 1]];
      r
  }

  /** The text after the last c (all of s when there is none). */
  function LastSegment(s: string, c: char): (r: string)
    ensures c !in r
  {
    s[LastIndexOf(s, c) + 1..]
  }

  lemma {:induction false} SplitAllLast(s: string, c: char)
    ensures SplitAll(s, c)[|SplitAll(s, c)| - 1] == LastSegment(s, c)
  {
    var i := LastIndexOf(s, c);
    if i == -1 {
      SplitAllNoSep(s, c);
    } else {
      assert s == s[..i] + [c] + s[i + 1..];
      SplitAllAtSep(s[..i], s[i + 1..], c);
      SplitAllNoSep(s[i + 1..], c);
    }
  }

  lemma {:induction false} SplitAllSeps(n: nat, c: char)
    ensures SplitAll(Repeat(c, n), c) == RepeatEmpty(n + 1)
  {
    if n > 0 {
      assert Repeat(c, n) == [] + [c] + Repeat(c, n - 1);
      SplitAllAtSep([], Repeat(c, n - 1), c);
      SplitAllSeps(n - 1, c);
    }
  }

  function Repeat(c: char, n: nat): (r: string)
    ensures |r| == n && forall i :: 0 <= i < n ==> r[i] == c
  {
    if n == 0 then [] else [c] + Repeat(c, n - 1)
  }

  function RepeatEmpty(n: nat): (r: seq<string>)
    ensures |r| == n && forall i :: 0 <= i < n ==> r[i] == ""
  {
    if n == 0 then [] else [""] + RepeatEmpty(n - 1)
  }

  lemma {:induction false} DropEmptyTail(xs: seq<string>, n: nat)
    requires |xs| > 0 && xs[|xs| - 1] != ""
    ensures DropTrailingEmpty(xs + RepeatEmpty(n)) == xs
  {
    if n > 0 {
      assert (xs + RepeatEmpty(n))[..|xs| + n - 1] == xs + RepeatEmpty(n - 1);
      DropEmptyTail(xs, n - 1);
    }
  }

  /**
   * What String.split(c) gives at its last position: when s has a character
   * other than c, the split is non-empty and its last piece is the text between
   * the last c and the trailing run of c's; when s is non-empty and made of c's
   * only, the split is empty.
   */
  lemma {:induction false} SplitLastPiece(s: string, c: char)
    ensures TrimEnd(s, c) != "" ==>
      |Split(s, c)| > 0 && Split(s, c)[|Split(s, c)| - 1] == LastSegment(TrimEnd(s, c), c) != ""
    ensures |s| > 0 && TrimEnd(s, c) == "" ==> Split(s, c) == []
  {
    if TrimEnd(s, c) != "" {
      SplitTrimmedLast(s, c);
    } else if |s| > 0 {
      SplitSepsOnly(s, c);
    }
  }

  lemma SplitTrimmedLast(s: string, c: char)
    requires TrimEnd(s, c) != ""
    ensures |Split(s, c)| > 0 && Split(s, c)[|Split(s, c)| - 1] == LastSegment(TrimEnd(s, c), c) != ""
  {
    var t := TrimEnd(s, c);
    var k := |s| - |t|;
    TrimEndRepeat(s, c);
    SplitWithTrailingSeps(s, t, c, k);
  }

  /** A string is its trimmed form followed by the run of c's that was trimmed. */
  lemma TrimEndRepeat(s: string, c: char)
    ensures s == TrimEnd(s, c) + Repeat(c, |s| - |TrimEnd(s, c)|)
  {
    var t := TrimEnd(s, c);
    var r := t + Repeat(c, |s| - |t|);
    forall i | 0 <= i < |s|
      ensures s[i] == r[i]
    {
      if i >= |t| {
        assert r[i] == Repeat(c, |s| - |t|)[i - |t|];
      }
    }
  }

  lemma SplitSepsOnly(s: string, c: char)
    requires |s| > 0 && TrimEnd(s, c) == ""
    ensures Split(s, c) == []
  {
    TrimEndRepeat(s, c);
    assert s[0] == c;
    SplitOnlySeps(s, c, |s|);
  }

  lemma SplitWithoutSep(s: string, c: char)
    requires c !in s
    ensures TrimEnd(s, c) == s
    ensures Split(s, c) == [s] && LastSegment(s, c) == s
  {
    if |s| > 0 {
      assert s[|s| - 1] in s;
    }
  }

  lemma SplitOnlySeps(s: string, c: char, k: nat)
    requires s == Repeat(c, k) && c in s
    ensures Split(s, c) == []
  {
    SplitAllSeps(k, c);
    DropAllEmpty(k + 1);
  }

  lemma SplitWithTrailingSeps(s: string, t: string, c: char, k: nat)
    requires t != "" && t[|t| - 1] != c && s == t + Repeat(c, k)
    ensures Split(s, c) == SplitAll(t, c)
    ensures |Split(s, c)| > 0 && Split(s, c)[|Split(s, c)| - 1] == LastSegment(t, c) != ""
  {
    LastPieceNonEmpty(t, c);
    if k == 0 {
      assert s == t;
      if c !in t {
        SplitAllNoSep(t, c);
      }
    } else {
      TrailingSepsDropped(s, t, c, k);
    }
  }

  lemma LastPieceNonEmpty(t: string, c: char)
    requires t != "" && t[|t| - 1] != c
    ensures SplitAll(t, c)[|SplitAll(t, c)| - 1] == LastSegment(t, c) != ""
  {
    SplitAllLast(t, c);
    assert LastIndexOf(t, c) < |t| - 1;
  }

  lemma TrailingSepsDropped(s: string, t: string, c: char, k: nat)
    requires k > 0 && s == t + Repeat(c, k)
    requires |SplitAll(t, c)| > 0 && SplitAll(t, c)[|SplitAll(t, c)| - 1] != ""
    ensures Split(s, c) == SplitAll(t, c)
  {
    assert s[|t|] == c;
    assert s == t + [c] + Repeat(c, k - 1);
    SplitAllAtSep(t, Repeat(c, k - 1), c);
    SplitAllSeps(k - 1, c);
    DropEmptyTail(SplitAll(t, c), k);
  }

  lemma {:induction false} DropAllEmpty(n: nat)
    ensures DropTrailingEmpty(RepeatEmpty(n)) == []
  {
    if n > 0 {
      assert RepeatEmpty(n)[..n - 1] == RepeatEmpty(n - 1);
      DropAllEmpty(n - 1);
    }
  }

  // ---------------------------------------------------------------- replace

  /** String.replace(pat, rep) for a non-empty pattern: every non-overlapping occurrence, scanning left to right. */
  function ReplaceAll(s: string, pat: string, rep: string): string
    requires |pat| > 0
    decreases |s|
  {
    if |s| < |pat| then s
    else if s[..|pat|] == pat then rep + ReplaceAll(s[|pat|..], pat, rep)
    else [s[0]] + ReplaceAll(s[1..], pat, rep)
  }

  /** pat occurs in s. */
  predicate Occurs(pat: string, s: string)
  {
    exists i :: 0 <= i <= |s| && OccursAt(pat, s, i)
  }

  /** pat occurs in s starting at index i. */
  predicate OccursAt(pat: string, s: string, i: int)
  {
    0 <= i && i + |pat| <= |s| && s[i..i + |pat|] == pat
  }

  // ---------------------------------------------------------------- lists

  /** List.indexOf: the first index holding x, or -1. */
  function IndexOf<T(==)>(xs: seq<T>, x: T): (r: int)
    ensures -1 <= r < |xs|
    ensures r == -1 <==> x !in xs
    ensures r >= 0 ==> xs[r] == x && x !in xs[..r]
  {
    if |xs| == 0 then -1
    else if xs[0] == x then 0
    else
      var r := IndexOf(xs[1..], x);
      if r == -1 then -1
      else
        assert xs[..r + 1] == [xs[0]] + xs[1..][..r];
        r + 1
  }

  /** The elements satisfying p, in order (List.removeIf of the rest). */
  function Filter<T>(xs: seq<T>, p: T -> bool): (r: seq<T>)
    ensures |r| <= |xs|
    ensures forall i :: 0 <= i < |r| ==> r[i] in xs && p(r[i])
    ensures forall i :: 0 <= i < |xs| && p(xs[i]) ==> xs[i] in r
  {
    if |xs| == 0 then []
    else if p(xs[0]) then [xs[0]] + Filter(xs[1..], p)
    else Filter(xs[1..], p)
  }

  /** Filtering a concatenation filters each part: the kept elements stay in their order. */
  lemma {:induction false} FilterAppend<T>(a: seq<T>, b: seq<T>, p: T -> bool)
    ensures Filter(a + b, p) == Filter(a, p) + Filter(b, p)
    decreases |a|
  {
    if |a| > 0 {
      assert (a + b)[0] == a[0];
      assert (a + b)[1..] == a[1..] + b;
      FilterAppend(a[1..], b, p);
    } else {
      assert a + b == b;
    }
  }

  /** Some element satisfies p exactly when one before the last does or the last one does. */
  lemma ExistsSnoc<T>(xs: seq<T>, init: seq<T>, p: T -> bool)
    requires |xs| > 0 && init == xs[..|xs| - 1]
    ensures (exists i :: 0 <= i < |xs| && p(xs[i])) <==>
      (exists i :: 0 <= i < |init| && p(init[i])) || p(xs[|xs| - 1])
  {
    if exists i :: 0 <= i < |xs| && p(xs[i]) {
      var i :| 0 <= i < |xs| && p(xs[i]);
      if i < |init| {
        assert init[i] == xs[i];
      }
    }
    if exists i :: 0 <= i < |init| && p(init[i]) {
      var i :| 0 <= i < |init| && p(init[i]);
      assert xs[i] == init[i];
    }
  }

  /** Some position holds an element satisfying p exactly when some member satisfies p. */
  lemma ExistsIndex<T>(xs: seq<T>, p: T -> bool)
    ensures (exists i :: 0 <= i < |xs| && p(xs[i])) <==> (exists x :: x in xs && p(x))
  {
    if exists x :: x in xs && p(x) {
      var x :| x in xs && p(x);
      var i :| 0 <= i < |xs| && xs[i] == x;
    }
  }

  /** An element is kept exactly when it satisfies p. */
  lemma FilterOne<T>(x: T, p: T -> bool)
    ensures Filter([x], p) == if p(x) then [x] else []
  {
    assert [x][1..] == [];
  }

  /**
   * stream().map(x -> f(x).get()).collect(...): the images in order, or None
   * as soon as one element has none (Optional.get() throws).
   */
  function MapAll<A, B>(xs: seq<A>, f: A -> Option<B>): (r: Option<seq<B>>)
    ensures r.Some? <==> forall i :: 0 <= i < |xs| ==> f(xs[i]).Some?
    ensures r.Some? ==> |r.value| == |xs| && forall i :: 0 <= i < |xs| ==> f(xs[i]) == Some(r.value[i])
  {
    if |xs| == 0 then Some([])
    else
      var init := MapAll(xs[..|xs| - 1], f);
      var last := f(xs[|xs| - 1]);
      if init.Some? && last.Some? then Some(init.value + [last.value])
      else
        if init.None? then
          var i :| 0 <= i < |xs| - 1 && f(xs[..|xs| - 1][i]).None?;
          assert xs[..|xs| - 1][i] == xs[i];
          None
        else None
  }

  /** xs has no repeated element. */
  predicate NoDup<T(==)>(xs: seq<T>)
  {
    forall i, j :: 0 <= i < j < |xs| ==> xs[i] != xs[j]
  }

  /** Dropping the first element keeps the rest distinct. */
  lemma NoDupTail<T>(xs: seq<T>)
    requires |xs| > 0 && NoDup(xs)
    ensures NoDup(xs[1..])
  {
    forall i, j | 0 <= i < j < |xs| - 1
      ensures xs[1..][i] != xs[1..][j]
    {
      assert xs[1..][i] == xs[i + 1] && xs[1..][j] == xs[j + 1];
    }
  }

  // ---------------------------------------------------------------- decimal numbers

  function DigitChar(d: nat): char
    requires d < 10
  {
    "0123456789"[d]
  }

  predicate IsDigit(ch: char)
  {
    '0' <= ch <= '9'
  }

  predicate AllDigits(s: string)
  {
    forall i :: 0 <= i < |s| ==> IsDigit(s[i])
  }

  /** The value of a string of ASCII digits, most significant first. */
  function DigitsValue(s: string): nat
    requires AllDigits(s)
  {
    if |s| == 0 then 0
    else DigitsValue(s[..|s| - 1]) * 10 + (s[|s| - 1] as int - '0' as int)
  }

  /** Integer.toString / Long.toString of a non-negative value: no sign, no leading zeros. */
  function NatToString(n: nat): (r: string)
    ensures |r| > 0 && AllDigits(r)
    ensures |r| > 1 ==> r[0] != '0'
  {
    if n < 10 then [DigitChar(n)] else NatToString(n / 10) + [DigitChar(n % 10)]
  }

  /** Integer.toString / Long.toString / String.valueOf of an int or long. */
  function IntToString(n: int): string
  {
    if n < 0 then "-" + NatToString(-n) else NatToString(n)
  }

  /**
   * Integer.parseInt (lo, hi = the int range) or Long.parseLong (the long
   * range) over ASCII digits: an optional '+' or '-' followed by at least one
   * digit, with the value in range; anything else is a NumberFormatException.
   */
  function ParseDecimal(s: string, lo: int, hi: int): Option<int>
  {
    if |s| == 0 then None
    else if s[0] == '-' || s[0] == '+' then
      if |s| == 1 || !AllDigits(s[1..]) then None
      else
        var mag: int := DigitsValue(s[1..]);
        var v := if s[0] == '-' then -mag else mag;
        if lo <= v <= hi then Some(v) else None
    else if !AllDigits(s) then None
    else if lo <= DigitsValue(s) <= hi then Some(DigitsValue(s)) else None
  }

  lemma {:induction false} DigitsValueOfNatToString(n: nat)
    ensures DigitsValue(NatToString(n)) == n
  {
    if n >= 10 {
      DigitsValueOfNatToString(n / 10);
      var s := NatToString(n);
      assert s[..|s| - 1] == NatToString(n / 10);
    }
  }

  /** Parsing a formatted value gives it back. */
  lemma ParseIntToString(n: int, lo: int, hi: int)
    requires lo <= n <= hi
    ensures ParseDecimal(IntToString(n), lo, hi) == Some(n)
  {
    var t := if n < 0 then NatToString(-n) else NatToString(n);
    DigitsValueOfNatToString(if n < 0 then -n else n);
    if n < 0 {
      var s := IntToString(n);
      assert s == ['-'] + t;
      assert s[1..] == t;
      ParseNegative(s, lo, hi);
    } else {
      assert IsDigit(t[0]);
    }
  }

  /** A '-' followed by digits parses to the negated value of the digits, when that is in range. */
  lemma ParseNegative(s: string, lo: int, hi: int)
    requires |s| > 1 && s[0] == '-' && AllDigits(s[1..])
    ensures var v := -(DigitsValue(s[1..]) as int); ParseDecimal(s, lo, hi) == if lo <= v <= hi then Some(v) else None
  {
  }

  const INT_MIN: int := -0x8000_0000
  const INT_MAX: int := 0x7fff_ffff
  const LONG_MIN: int := -0x8000_0000_0000_0000
  const LONG_MAX: int := 0x7fff_ffff_ffff_ffff

  type Int32 = x: int | INT_MIN <= x <= INT_MAX
  type Int64 = x: int | LONG_MIN <= x <= LONG_MAX

  /** Two's-complement wrap-around of Java int arithmetic. */
  function WrapInt32(x: int): (r: Int32)
    ensures (r - x) % 0x1_0000_0000 == 0
  {
    (x - INT_MIN) % 0x1_0000_0000 + INT_MIN
  }

  /** String.hashCode over the characters (each character taken as one UTF-16 unit). */
  function StringHash(s: string): Int32
  {
    if |s| == 0 then 0 else WrapInt32(31 * StringHash(s[..|s| - 1]) + s[|s| - 1] as int)
  }

  // ---------------------------------------------------------------- booleans

  function ToLowerAscii(ch: char): char
  {
    if 'A' <= ch <= 'Z' then (ch as int + 32) as char else ch
  }

  /** Boolean.parseBoolean / Boolean.valueOf(String): "true" in any letter case. */
  function ParseBoolean(s: string): bool
  {
    |s| == 4 && ToLowerAscii(s[0]) == 't' && ToLowerAscii(s[1]) == 'r'
      && ToLowerAscii(s[2]) == 'u' && ToLowerAscii(s[3]) == 'e'
  }

  /** String.valueOf(boolean). */
  function BoolToString(b: bool): string
  {
    if b then "true" else "false"
  }

  lemma ParseBoolToString(b: bool)
    ensures ParseBoolean(BoolToString(b)) == b
  {
  }
}
