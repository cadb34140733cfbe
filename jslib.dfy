/**
 * The JavaScript string and array built-ins the application relies on, stated
 * on `seq<char>` and `seq<T>`. A JavaScript string is a sequence of UTF-16 code
 * units; here it is a sequence of characters (see README, "Left out").
 */
module JsLib {
  import opened Wrappers

  // ---------------------------------------------------------------------------
  // startsWith / endsWith / includes
  // ---------------------------------------------------------------------------

  /** `s.startsWith(p)` */
  predicate StartsWith(s: string, p: string) {
    |p| <= |s| && s[..|p|] == p
  }

  /** `s.endsWith(p)` */
  predicate EndsWith(s: string, p: string) {
    |p| <= |s| && s[|s| - |p|..] == p
  }

  /** `t` occurs in `s` starting at index `j`. */
  predicate OccursAt(s: string, t: string, j: int) {
    0 <= j && j + |t| <= |s| && s[j..j + |t|] == t
  }

  /** Whether `t` occurs in `s` starting at index `i`, compared character by character. */
  function MatchesAt(s: string, t: string, i: nat): (r: bool)
    requires i + |t| <= |s|
    ensures r <==> OccursAt(s, t, i)
    decreases |t|
  {
    if |t| == 0 then true
    else
      var r := s[i] == t[0] && MatchesAt(s, t[1..], i + 1);
      assert s[i..i + |t|] == [s[i]] + s[i + 1..i + 1 + |t[1..]|];
      assert t == [t[0]] + t[1..];
      r
  }

  /** Whether `t` occurs in `s` at some index `j >= i`: the scan `includes` performs. */
  function IncludesFrom(s: string, t: string, i: nat): (r: bool)
    ensures r <==> exists j :: i <= j && OccursAt(s, t, j)
    decreases |s| - i
  {
    if i + |t| > |s| then false
    else MatchesAt(s, t, i) || IncludesFrom(s, t, i + 1)
  }

  /** `s.includes(t)` */
  function Includes(s: string, t: string): (r: bool)
    ensures r <==> exists j :: OccursAt(s, t, j)
  {
    IncludesFrom(s, t, 0)
  }

  /** A string that lacks one of the characters of `t` does not contain `t`. */
  lemma AbsentCharRulesOut(s: string, t: string, c: char)
    requires c in t && c !in s
    ensures !Includes(s, t)
  {
  }

  /**
   * `t` does not occur at `j` in `pre + chunk + post` when that occurrence would
   * lie inside `chunk` and `chunk` lacks one of the characters of `t`.
   */
  lemma AbsentInChunk(pre: string, chunk: string, post: string, t: string, i: nat, j: int)
    requires i < |t| && t[i] !in chunk
    requires |pre| <= j && j + |t| <= |pre| + |chunk|
    ensures !OccursAt(pre + chunk + post, t, j)
  {
    var s := pre + chunk + post;
    assert s[j + i] == chunk[j + i - |pre|];
    assert s[j + i] != t[i];
  }

  // ---------------------------------------------------------------------------
  // slice(0, n) / substring(0, n) and the "..." abbreviation built on it
  // ---------------------------------------------------------------------------

  /** `xs.slice(0, n)` on an array, `s.substring(0, n)` on a string. */
  function Take<T>(xs: seq<T>, n: nat): (r: seq<T>)
    ensures |r| == if |xs| <= n then |xs| else n
    ensures r == xs[..|r|]
  {
    if |xs| <= n then xs else xs[..n]
  }

  /**
   * `s.substring(0, n) + (s.length > n ? "..." : "")`, equivalently
   * `s.length > n ? s.substring(0, n) + "..." : s`.
   */
  function Ellipsize(s: string, n: nat): (r: string)
    ensures |s| <= n ==> r == s
    ensures |s| > n ==> |r| == n + 3 && r[..n] == s[..n] && EndsWith(r, "...")
    ensures |r| <= n + 3
  {
    Take(s, n) + (if |s| > n then "..." else "")
  }

  /**
   * Two texts that agree on their first `n` characters and are both longer than
   * `n` abbreviate to the same string: nothing after the cut is shown.
   */
  lemma EllipsizeForgetsTail(s: string, t: string, n: nat)
    requires |s| > n && |t| > n && s[..n] == t[..n]
    ensures Ellipsize(s, n) == Ellipsize(t, n)
  {
  }

  // ---------------------------------------------------------------------------
  // split(sep) / join(sep) with a one-character separator
  // ---------------------------------------------------------------------------

  /** `s.split(sep)`: the pieces between occurrences of `sep`, empty pieces included. */
  function SplitOn(s: string, sep: char): (r: seq<string>)
    ensures |r| >= 1
    decreases |s|
  {
    if s == [] then [[]]
    else if s[0] == sep then [[]] + SplitOn(s[1..], sep)
    else
      var p := SplitOn(s[1..], sep);
      [[s[0]] + p[0]] + p[1..]
  }

  /** No piece of a split holds the separator. */
  lemma {:induction false} SplitPiecesLackSeparator(s: string, sep: char)
    ensures forall k :: 0 <= k < |SplitOn(s, sep)| ==> sep !in SplitOn(s, sep)[k]
    decreases |s|
  {
    if s != [] {
      SplitPiecesLackSeparator(s[1..], sep);
      if s[0] != sep {
        var p := SplitOn(s[1..], sep);
        assert sep !in p[0];
        assert sep !in [s[0]] + p[0];
      }
    }
  }

  /** `pieces.join(sep)` */
  function JoinWith(pieces: seq<string>, sep: char): string
    decreases |pieces|
  {
    if |pieces| == 0 then []
    else if |pieces| == 1 then pieces[0]
    else pieces[0] + [sep] + JoinWith(pieces[1..], sep)
  }

  /** A text that starts with the separator splits into an empty piece and the rest's split. */
  lemma SplitConsSep(t: string, sep: char)
    ensures SplitOn([sep] + t, sep) == [[]] + SplitOn(t, sep)
  {
    assert ([sep] + t)[0] == sep && ([sep] + t)[1..] == t;
  }

  /** A text that starts with another character extends the rest's first piece. */
  lemma SplitConsChar(c: char, t: string, sep: char)
    requires c != sep
    ensures var p := SplitOn(t, sep);
            SplitOn([c] + t, sep) == [[c] + p[0]] + p[1..]
  {
    assert ([c] + t)[0] == c && ([c] + t)[1..] == t;
  }

  /** An empty leading piece puts one separator in front of the join of the rest. */
  lemma JoinEmptyFirst(p: seq<string>, sep: char)
    requires |p| >= 1
    ensures JoinWith([[]] + p, sep) == [sep] + JoinWith(p, sep)
  {
    assert ([[]] + p)[1..] == p;
  }

  /** A character prepended to the first piece is prepended to the join. */
  lemma JoinConsFirst(c: char, p: seq<string>, sep: char)
    requires |p| >= 1
    ensures JoinWith([[c] + p[0]] + p[1..], sep) == [c] + JoinWith(p, sep)
  {
    var q := [[c] + p[0]] + p[1..];
    if |p| > 1 {
      assert q[1..] == p[1..];
      assert JoinWith(q, sep) == ([c] + p[0]) + [sep] + JoinWith(p[1..], sep);
    }
  }

  /** Joining the pieces of a split with the same separator gives back the text. */
  lemma {:induction false} JoinSplit(s: string, sep: char)
    ensures JoinWith(SplitOn(s, sep), sep) == s
    decreases |s|
  {
    if s != [] {
      var t := s[1..];
      assert s == [s[0]] + t;
      JoinSplit(t, sep);
      if s[0] == sep {
        SplitConsSep(t, sep);
        JoinEmptyFirst(SplitOn(t, sep), sep);
      } else {
        SplitConsChar(s[0], t, sep);
        JoinConsFirst(s[0], SplitOn(t, sep), sep);
      }
    }
  }

  lemma ConcatAssoc<T>(x: seq<T>, y: seq<T>, z: seq<T>)
    ensures x + (y + z) == (x + y) + z
  {
  }

  /** Prepending a character to the first piece commutes with appending more pieces. */
  lemma ConsOntoFirst(c: char, p: seq<string>, q: seq<string>)
    requires |p| >= 1
    ensures [[c] + (p + q)[0]] + (p + q)[1..] == ([[c] + p[0]] + p[1..]) + q
  {
    var pq := p + q;
    assert pq[0] == p[0];
    assert pq[1..] == p[1..] + q;
  }

  /** One step of `SplitAround` when the leading character is the separator. */
  lemma SplitAroundStepSep(t: string, b: string, sep: char)
    requires SplitOn(t + [sep] + b, sep) == SplitOn(t, sep) + SplitOn(b, sep)
    ensures SplitOn([sep] + t + [sep] + b, sep) == SplitOn([sep] + t, sep) + SplitOn(b, sep)
  {
    var p := SplitOn(t, sep);
    var q := SplitOn(b, sep);
    assert [sep] + t + [sep] + b == [sep] + (t + [sep] + b);
    SplitConsSep(t + [sep] + b, sep);
    SplitConsSep(t, sep);
    ConcatAssoc([[]], p, q);
  }

  /** One step of `SplitAround` when the leading character is not the separator. */
  lemma SplitAroundStepChar(c: char, t: string, b: string, sep: char)
    requires c != sep
    requires SplitOn(t + [sep] + b, sep) == SplitOn(t, sep) + SplitOn(b, sep)
    ensures SplitOn([c] + t + [sep] + b, sep) == SplitOn([c] + t, sep) + SplitOn(b, sep)
  {
    var p := SplitOn(t, sep);
    var q := SplitOn(b, sep);
    assert [c] + t + [sep] + b == [c] + (t + [sep] + b);
    SplitConsChar(c, t + [sep] + b, sep);
    SplitConsChar(c, t, sep);
    ConsOntoFirst(c, p, q);
  }

  /** Splitting around one separator splits each side independently. */
  lemma {:induction false} SplitAround(a: string, b: string, sep: char)
    ensures SplitOn(a + [sep] + b, sep) == SplitOn(a, sep) + SplitOn(b, sep)
    decreases |a|
  {
    if a == [] {
      assert a + [sep] + b == [sep] + b;
      SplitConsSep(b, sep);
    } else {
      SplitAround(a[1..], b, sep);
      if a[0] == sep {
        SplitAroundStepSep(a[1..], b, sep);
      } else {
        SplitAroundStepChar(a[0], a[1..], b, sep);
      }
      assert a == [a[0]] + a[1..];
    }
  }

  /** Splitting a join of separator-free pieces gives back the pieces. */
  lemma {:induction false} SplitJoin(pieces: seq<string>, sep: char)
    requires |pieces| >= 1
    requires forall k :: 0 <= k < |pieces| ==> sep !in pieces[k]
    ensures SplitOn(JoinWith(pieces, sep), sep) == pieces
    decreases |pieces|
  {
    if |pieces| == 1 {
      SplitOfSeparatorFree(pieces[0], sep);
    } else {
      SplitJoin(pieces[1..], sep);
      SplitOfSeparatorFree(pieces[0], sep);
      SplitAround(pieces[0], JoinWith(pieces[1..], sep), sep);
      assert pieces == [pieces[0]] + pieces[1..];
    }
  }

  /** A text without the separator splits into itself alone. */
  lemma {:induction false} SplitOfSeparatorFree(s: string, sep: char)
    requires sep !in s
    ensures SplitOn(s, sep) == [s]
    decreases |s|
  {
    if s != [] {
      assert s[0] in s;
      assert forall c :: c in s[1..] ==> c in s;
      SplitOfSeparatorFree(s[1..], sep);
      assert s == [s[0]] + s[1..];
    }
  }

  // ---------------------------------------------------------------------------
  // White space, trim() and split(/\s+/)
  // ---------------------------------------------------------------------------

  /**
   * The characters `\s` matches and `trim()` removes: ECMAScript WhiteSpace and
   * LineTerminator (TAB, LF, VT, FF, CR, SPACE, NBSP, U+1680, U+2000..U+200A,
   * U+2028, U+2029, U+202F, U+205F, U+3000, U+FEFF).
   */
  predicate IsJsSpace(c: char) {
    var n := c as int;
    (0x09 <= n <= 0x0D) || n == 0x20 || n == 0xA0 || n == 0x1680
    || (0x2000 <= n <= 0x200A) || n == 0x2028 || n == 0x2029 || n == 0x202F
    || n == 0x205F || n == 0x3000 || n == 0xFEFF
  }

  /** `s.trimStart()` */
  function TrimStart(s: string): (r: string)
    ensures |r| <= |s| && r == s[|s| - |r|..]
    ensures r != [] ==> !IsJsSpace(r[0])
    ensures forall k :: 0 <= k < |s| - |r| ==> IsJsSpace(s[k])
    decreases |s|
  {
    if s != [] && IsJsSpace(s[0]) then TrimStart(s[1..]) else s
  }

  /** `s.trimEnd()` */
  function TrimEnd(s: string): (r: string)
    ensures |r| <= |s| && r == s[..|r|]
    ensures r != [] ==> !IsJsSpace(r[|r| - 1])
    ensures forall k :: |r| <= k < |s| ==> IsJsSpace(s[k])
    decreases |s|
  {
    if s != [] && IsJsSpace(s[|s| - 1]) then TrimEnd(s[..|s| - 1]) else s
  }

  /** `s.trim()` */
  function Trim(s: string): string {
    TrimEnd(TrimStart(s))
  }

  /**
   * `s.split(/\s+/)`: the pieces between maximal runs of white space. A leading
   * run gives an empty first piece and a trailing run an empty last piece.
   */
  function SplitOnSpaceRuns(s: string): (r: seq<string>)
    ensures |r| >= 1
    decreases |s|
  {
    if s == [] then [[]]
    else if IsJsSpace(s[0]) then [[]] + SplitOnSpaceRuns(TrimStart(s[1..]))
    else
      var p := SplitOnSpaceRuns(s[1..]);
      [[s[0]] + p[0]] + p[1..]
  }

  /** `xs.filter(keep)`: the elements that pass, in their original order. */
  function Filter<T>(xs: seq<T>, keep: T -> bool): (r: seq<T>)
    ensures |r| <= |xs|
    ensures forall i :: 0 <= i < |r| ==> keep(r[i])
    decreases |xs|
  {
    if xs == [] then []
    else if keep(xs[0]) then [xs[0]] + Filter(xs[1..], keep)
    else Filter(xs[1..], keep)
  }

  /** An element is kept exactly when it is in the list and passes. */
  lemma {:induction false} FilterMembers<T>(xs: seq<T>, keep: T -> bool)
    ensures forall x :: x in Filter(xs, keep) <==> x in xs && keep(x)
    decreases |xs|
  {
    if xs != [] {
      FilterMembers(xs[1..], keep);
      assert xs == [xs[0]] + xs[1..];
    }
  }

  /** Filtering a concatenation filters each part. */
  lemma {:induction false} FilterAppend<T>(a: seq<T>, b: seq<T>, keep: T -> bool)
    ensures Filter(a + b, keep) == Filter(a, keep) + Filter(b, keep)
    decreases |a|
  {
    if a == [] {
      assert a + b == b;
    } else {
      var x, ab := a[0], a + b;
      FilterAppend(a[1..], b, keep);
      assert ab[0] == x && ab[1..] == a[1..] + b;
      var tail := Filter(a[1..], keep) + Filter(b, keep);
      if keep(x) {
        assert Filter(ab, keep) == [x] + tail;
        assert Filter(a, keep) == [x] + Filter(a[1..], keep);
      } else {
        assert Filter(ab, keep) == tail;
        assert Filter(a, keep) == Filter(a[1..], keep);
      }
    }
  }

  /** An element between two stretches is kept, or not, between their filtered parts. */
  lemma FilterAround<T>(before: seq<T>, x: T, after: seq<T>, keep: T -> bool)
    ensures Filter(before + [x] + after, keep) ==
            Filter(before, keep) + (if keep(x) then [x] else []) + Filter(after, keep)
  {
    FilterAppend(before + [x], after, keep);
    FilterAppend(before, [x], keep);
    assert [x][1..] == [];
  }

  /** A filter that keeps everything is the identity. */
  lemma {:induction false} FilterKeepingAll<T>(xs: seq<T>, keep: T -> bool)
    requires forall i :: 0 <= i < |xs| ==> keep(xs[i])
    ensures Filter(xs, keep) == xs
    decreases |xs|
  {
    if xs != [] {
      FilterKeepingAll(xs[1..], keep);
      assert xs == [xs[0]] + xs[1..];
    }
  }

  /** `xs.map(f)`: `f` applied to every element, in order. */
  function MapSeq<A, B>(xs: seq<A>, f: A -> B): (r: seq<B>)
    ensures |r| == |xs| && forall i :: 0 <= i < |xs| ==> r[i] == f(xs[i])
  {
    seq(|xs|, i requires 0 <= i < |xs| => f(xs[i]))
  }

  /** The elements of a mapped list are the images of the original elements. */
  lemma MapSeqMembers<A, B>(xs: seq<A>, f: A -> B)
    ensures forall y :: y in MapSeq(xs, f) <==> exists x :: x in xs && f(x) == y
  {
    var r := MapSeq(xs, f);
    forall x | x in xs ensures f(x) in r {
      var i :| 0 <= i < |xs| && xs[i] == x;
      assert r[i] == f(x);
    }
  }

  /** `pieces.filter(Boolean)` on strings: the non-empty ones, in order. */
  function NonEmpty(pieces: seq<string>): seq<string> {
    Filter(pieces, (p: string) => p != [])
  }

  // ---------------------------------------------------------------------------
  // Number.prototype.toString() on integers, padStart, and reading digits back
  // ---------------------------------------------------------------------------

  function DigitChar(d: nat): (c: char)
    requires d < 10
    ensures '0' <= c <= '9' && (c as int) - ('0' as int) == d
  {
    (('0' as int) + d) as char
  }

  /** Decimal digits of `n` without leading zeros ("0" for zero). */
  function NatToString(n: nat): (r: string)
    ensures |r| >= 1
    ensures forall k :: 0 <= k < |r| ==> IsDigit(r[k])
    ensures n >= 10 ==> r[0] != '0'
    decreases n
  {
    if n < 10 then [DigitChar(n)] else NatToString(n / 10) + [DigitChar(n % 10)]
  }

  /** `n.toString()` for an integer `n` (no exponent notation). */
  function IntToString(n: int): string {
    if n < 0 then "-" + NatToString(-n) else NatToString(n)
  }

  /** `s.padStart(len, c)` for a one-character pad string. */
  function PadStart(s: string, len: nat, c: char): (r: string)
    ensures |s| >= len ==> r == s
    ensures |s| < len ==>
              |r| == len && r[len - |s|..] == s && forall k :: 0 <= k < len - |s| ==> r[k] == c
  {
    if |s| >= len then s else seq(len - |s|, _ => c) + s
  }

  /** The value of a string of decimal digits, read left to right. */
  function DigitsValue(s: string): nat
    decreases |s|
  {
    if s == [] then 0
    else
      var d := (s[|s| - 1] as int) - ('0' as int);
      DigitsValue(s[..|s| - 1]) * 10 + (if 0 <= d < 10 then d else 0)
  }

  /** Reading the digits of `n` back gives `n`. */
  lemma {:induction false} DigitsValueOfNatToString(n: nat)
    ensures DigitsValue(NatToString(n)) == n
    decreases n
  {
    if n >= 10 {
      DigitsValueOfNatToString(n / 10);
      var s := NatToString(n / 10) + [DigitChar(n % 10)];
      assert s[..|s| - 1] == NatToString(n / 10);
    }
  }

  /** Leading zeros do not change the value of a digit string. */
  lemma {:induction false} DigitsValueLeadingZero(s: string)
    ensures DigitsValue("0" + s) == DigitsValue(s)
    decreases |s|
  {
    if s != [] {
      var t := "0" + s;
      assert t[..|t| - 1] == "0" + s[..|s| - 1];
      assert t[|t| - 1] == s[|s| - 1];
      DigitsValueLeadingZero(s[..|s| - 1]);
    }
  }

  // ---------------------------------------------------------------------------
  // parseInt(s) in base 10
  // ---------------------------------------------------------------------------

  predicate IsDigit(c: char) {
    '0' <= c <= '9'
  }

  /** The longest prefix of `s` made of decimal digits. */
  function DigitPrefix(s: string): (r: string)
    ensures |r| <= |s| && r == s[..|r|]
    ensures forall k :: 0 <= k < |r| ==> IsDigit(r[k])
    ensures |r| < |s| ==> !IsDigit(s[|r|])
    decreases |s|
  {
    if s != [] && IsDigit(s[0]) then [s[0]] + DigitPrefix(s[1..]) else []
  }

  /** A run of digits followed by a non-digit is exactly the digit prefix. */
  lemma {:induction false} DigitPrefixOfDigits(d: string, rest: string)
    requires forall k :: 0 <= k < |d| ==> IsDigit(d[k])
    requires rest == [] || !IsDigit(rest[0])
    ensures DigitPrefix(d + rest) == d
    decreases |d|
  {
    if d == [] {
      assert d + rest == rest;
    } else {
      DigitPrefixOfDigits(d[1..], rest);
      assert (d + rest)[1..] == d[1..] + rest;
    }
  }

  /**
   * `parseInt(s)` with no radix, for decimal text: leading white space is
   * skipped, one sign is read, then the longest run of digits; anything after
   * it is ignored. `None` is `NaN` (no digit where one is needed).
   */
  function ParseInt(s: string): Option<int>
  {
    var t := TrimStart(s);
    var negative := t != [] && t[0] == '-';
    var u := if t != [] && (t[0] == '-' || t[0] == '+') then t[1..] else t;
    var d := DigitPrefix(u);
    var v: int := DigitsValue(d);
    if d == [] then None else Some(if negative then -v else v)
  }

  /** Text that starts with a digit is read from its digit prefix. */
  lemma ParseIntPlain(u: string)
    requires u != [] && IsDigit(u[0])
    ensures ParseInt(u) == Some(DigitsValue(DigitPrefix(u)) as int)
  {
    assert !IsJsSpace(u[0]);
    assert TrimStart(u) == u;
    assert !(u[0] == '-' || u[0] == '+');
  }

  /** A minus sign before a digit negates the value of the digits read after it. */
  lemma ParseIntMinus(u: string, d: string)
    requires u != [] && IsDigit(u[0])
    requires d == DigitPrefix(u)
    ensures ParseInt("-" + u) == Some(-(DigitsValue(d) as int))
  {
    var s := "-" + u;
    assert s[0] == '-' && s[1..] == u;
    assert TrimStart(s) == s;
  }

  /** Digits followed by a non-digit: their value. */
  lemma ParseIntOfDigits(d: string, rest: string)
    requires d != [] && forall k :: 0 <= k < |d| ==> IsDigit(d[k])
    requires rest == [] || !IsDigit(rest[0])
    ensures ParseInt(d + rest) == Some(DigitsValue(d) as int)
  {
    assert (d + rest)[0] == d[0];
    ParseIntPlain(d + rest);
    DigitPrefixOfDigits(d, rest);
  }

  /** A minus sign, digits, then a non-digit: the negated value of the digits. */
  lemma ParseIntOfNegativeDigits(d: string, rest: string)
    requires d != [] && forall k :: 0 <= k < |d| ==> IsDigit(d[k])
    requires rest == [] || !IsDigit(rest[0])
    ensures ParseInt("-" + (d + rest)) == Some(-(DigitsValue(d) as int))
  {
    var u := d + rest;
    assert u != [] && IsDigit(u[0]) by { assert u[0] == d[0]; }
    assert DigitPrefix(u) == d by { DigitPrefixOfDigits(d, rest); }
    ParseIntMinus(u, d);
  }

  /** The text of a negative number: a minus sign, then the digits of its magnitude. */
  lemma NegativeIntText(n: int, rest: string)
    requires n < 0
    ensures IntToString(n) + rest == "-" + (NatToString(-n) + rest)
  {
    assert IntToString(n) == "-" + NatToString(-n);
  }

  /** What `parseInt` needs to know about the text of a negative number. */
  lemma NegativeIntDigits(n: int, rest: string)
    requires n < 0
    ensures var d := NatToString(-n);
      && IntToString(n) + rest == "-" + (d + rest)
      && d != [] && (forall k :: 0 <= k < |d| ==> IsDigit(d[k]))
      && DigitsValue(d) == -n
  {
    NegativeIntText(n, rest);
    DigitsValueOfNatToString(-n);
  }

  /** `parseInt` reads back a negative number written by `toString`. */
  lemma ParseIntOfNegative(n: int, rest: string)
    requires n < 0
    requires rest == [] || !IsDigit(rest[0])
    ensures ParseInt(IntToString(n) + rest) == Some(n)
  {
    NegativeIntDigits(n, rest);
    ParseIntOfNegativeDigits(NatToString(-n), rest);
  }

  /** `parseInt` reads back what `toString` writes, whatever non-digit text follows. */
  lemma ParseIntOfIntToString(n: int, rest: string)
    requires rest == [] || !IsDigit(rest[0])
    ensures ParseInt(IntToString(n) + rest) == Some(n)
  {
    if n < 0 {
      ParseIntOfNegative(n, rest);
    } else {
      DigitsValueOfNatToString(n);
      ParseIntOfDigits(NatToString(n), rest);
    }
  }

  // ---------------------------------------------------------------------------
  // toLowerCase / toUpperCase on ASCII letters
  // ---------------------------------------------------------------------------

  function LowerChar(c: char): char {
    if 'A' <= c <= 'Z' then ((c as int) + 32) as char else c
  }

  function UpperChar(c: char): char {
    if 'a' <= c <= 'z' then ((c as int) - 32) as char else c
  }

  /** `s.toLowerCase()` restricted to the ASCII letters. */
  function ToLower(s: string): (r: string)
    ensures |r| == |s| && forall k :: 0 <= k < |s| ==> r[k] == LowerChar(s[k])
  {
    seq(|s|, k requires 0 <= k < |s| => LowerChar(s[k]))
  }

  /** `s.toUpperCase()` restricted to the ASCII letters. */
  function ToUpper(s: string): (r: string)
    ensures |r| == |s| && forall k :: 0 <= k < |s| ==> r[k] == UpperChar(s[k])
  {
    seq(|s|, k requires 0 <= k < |s| => UpperChar(s[k]))
  }

  /** Upper-casing after lower-casing is upper-casing: case is forgotten. */
  lemma UpperOfLower(s: string)
    ensures ToUpper(ToLower(s)) == ToUpper(s)
  {
  }
}
