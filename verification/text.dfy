/** Splitting and joining on a separator (absl::StrSplit, absl::StrJoin) and decimal integers
    (absl::StrCat, absl::SimpleAtoi for a 32-bit int). */
module Text {
  import opened Options

  // ---- Separators ----

  /** The position of the first c in s, or |s|. */
  function IndexOf(s: string, c: char): (i: nat)
    ensures i <= |s| && c !in s[..i] && (i < |s| ==> s[i] == c)
  {
    if s == "" then 0 else if s[0] == c then 0 else
    var i := IndexOf(s[1..], c) + 1;
    assert s[..i] == [s[0]] + s[1..][..i - 1];
    i
  }

  /** The pieces between the occurrences of c; the empty string has one piece. */
  function Split(s: string, c: char): (pieces: seq<string>)
    ensures pieces != []
    decreases |s|
  {
    var i := IndexOf(s, c);
    if i == |s| then [s] else [s[..i]] + Split(s[i + 1..], c)
  }

  function Join(pieces: seq<string>, c: char): string {
    if pieces == [] then ""
    else if |pieces| == 1 then pieces[0]
    else pieces[0] + [c] + Join(pieces[1..], c)
  }

  lemma {:induction false} IndexOfPrefix(a: string, c: char, b: string)
    requires c !in a
    ensures IndexOf(a + [c] + b, c) == |a|
    ensures IndexOf(a, c) == |a|
  {
    if a != "" {
      IndexOfPrefix(a[1..], c, b);
      assert (a + [c] + b)[1..] == a[1..] + [c] + b;
    }
  }

  /** Splitting undoes joining when no piece holds the separator. */
  lemma {:induction false} SplitOfJoin(pieces: seq<string>, c: char)
    requires pieces != [] && forall k | 0 <= k < |pieces| :: c !in pieces[k]
    ensures Split(Join(pieces, c), c) == pieces
  {
    if |pieces| == 1 {
      IndexOfPrefix(pieces[0], c, "");
    } else {
      var rest := Join(pieces[1..], c);
      var s := pieces[0] + [c] + rest;
      IndexOfPrefix(pieces[0], c, rest);
      assert s[..|pieces[0]|] == pieces[0] && s[|pieces[0]| + 1..] == rest;
      SplitOfJoin(pieces[1..], c);
    }
  }

  /** Joining undoes splitting, and no piece holds the separator. */
  lemma {:induction false} JoinOfSplit(s: string, c: char)
    ensures Join(Split(s, c), c) == s
    ensures forall k | 0 <= k < |Split(s, c)| :: c !in Split(s, c)[k]
    decreases |s|
  {
    var i := IndexOf(s, c);
    if i < |s| {
      var rest := Split(s[i + 1..], c);
      JoinOfSplit(s[i + 1..], c);
      assert s == s[..i] + [c] + s[i + 1..];
      var pieces := Split(s, c);
      assert pieces == [s[..i]] + rest && pieces[1..] == rest;
      assert forall k | 0 < k < |pieces| :: pieces[k] == rest[k - 1];
    }
  }

  function Count(s: string, c: char): nat {
    if s == "" then 0 else (if s[0] == c then 1 else 0) + Count(s[1..], c)
  }

  lemma {:induction false} CountConcat(a: string, b: string, c: char)
    ensures Count(a + b, c) == Count(a, c) + Count(b, c)
  {
    if a == "" {
      assert a + b == b;
    } else {
      CountConcat(a[1..], b, c);
      assert (a + b)[1..] == a[1..] + b;
    }
  }

  lemma {:induction false} CountZero(s: string, c: char)
    ensures Count(s, c) == 0 <==> c !in s
  {
    if s != "" {
      CountZero(s[1..], c);
      assert s == [s[0]] + s[1..];
    }
  }

  lemma CountAround(a: string, c: char, b: string)
    ensures Count(a + [c] + b, c) == Count(a, c) + 1 + Count(b, c)
  {
    CountConcat(a + [c], b, c);
    CountConcat(a, [c], c);
  }

  /** One piece more than there are separators. */
  lemma {:induction false} SplitCount(s: string, c: char)
    ensures |Split(s, c)| == Count(s, c) + 1
    decreases |s|
  {
    var i := IndexOf(s, c);
    if i == |s| {
      assert s[..i] == s;
      CountZero(s, c);
    } else {
      SplitCount(s[i + 1..], c);
      CountAround(s[..i], c, s[i + 1..]);
      CountZero(s[..i], c);
      assert s[..i] + [c] + s[i + 1..] == s;
    }
  }

  /** Splitting a join gives at least as many pieces, and as many only when no piece holds the separator. */
  lemma {:induction false} PiecesOfJoin(pieces: seq<string>, c: char)
    requires pieces != []
    ensures |Split(Join(pieces, c), c)| >= |pieces|
    ensures |Split(Join(pieces, c), c)| == |pieces| <==> forall k | 0 <= k < |pieces| :: c !in pieces[k]
  {
    SplitCount(Join(pieces, c), c);
    CountZero(pieces[0], c);
    if |pieces| > 1 {
      var rest := Join(pieces[1..], c);
      PiecesOfJoin(pieces[1..], c);
      SplitCount(rest, c);
      CountAround(pieces[0], c, rest);
      assert (forall k | 0 <= k < |pieces| :: c !in pieces[k]) <==>
             c !in pieces[0] && forall k | 0 <= k < |pieces[1..]| :: c !in pieces[1..][k] by {
        assert pieces == [pieces[0]] + pieces[1..];
      }
    }
  }

  // ---- Decimal integers ----

  const INT_MAX := 0x7FFF_FFFF
  const INT_MIN := -0x8000_0000

  predicate IsDigit(c: char) { '0' <= c <= '9' }

  function DigitValue(c: char): nat
    requires IsDigit(c)
  {
    (c - '0') as nat
  }

  function DigitChar(d: nat): (c: char)
    requires d < 10
    ensures IsDigit(c) && DigitValue(c) == d
  {
    '0' + d as char
  }

  predicate AllDigits(s: string) { forall k | 0 <= k < |s| :: IsDigit(s[k]) }

  /** The decimal rendering of a natural number. */
  function Decimal(n: nat): (s: string)
    ensures s != "" && AllDigits(s)
  {
    if n < 10 then [DigitChar(n)] else Decimal(n / 10) + [DigitChar(n % 10)]
  }

  /** The value of a string of digits. */
  function DigitsValue(s: string): nat
    requires AllDigits(s)
  {
    if s == "" then 0 else DigitsValue(s[..|s| - 1]) * 10 + DigitValue(s[|s| - 1])
  }

  lemma {:induction false} DecimalRoundTrip(n: nat)
    ensures DigitsValue(Decimal(n)) == n
  {
    var s := Decimal(n);
    if n < 10 {
      assert s[..0] == "";
    } else {
      DecimalRoundTrip(n / 10);
      assert s[..|s| - 1] == Decimal(n / 10);
    }
  }

  /** absl::ascii_isspace. */
  predicate IsSpace(c: char) { c == ' ' || ('\t' <= c <= '\r') }

  function TrimLeft(s: string): string {
    if s != "" && IsSpace(s[0]) then TrimLeft(s[1..]) else s
  }

  function TrimRight(s: string): string {
    if s != "" && IsSpace(s[|s| - 1]) then TrimRight(s[..|s| - 1]) else s
  }

  /** absl::SimpleAtoi into a 32-bit int: blanks around, an optional sign, at least one digit, in range. */
  function SimpleAtoi(s: string): Option<int> {
    var t := TrimRight(TrimLeft(s));
    if t == "" then None
    else
      var negative := t[0] == '-';
      var digits := if negative || t[0] == '+' then t[1..] else t;
      if digits == "" || !AllDigits(digits) then None
      else
        var v: int := if negative then 0 - DigitsValue(digits) else DigitsValue(digits);
        if INT_MIN <= v <= INT_MAX then Some(v) else None
  }

  // ---- What SimpleAtoi accepts ----

  predicate AllBlank(s: string) { forall k | 0 <= k < |s| :: IsSpace(s[k]) }

  /** Digits, at least one, behind at most one sign. */
  predicate WritesInt(t: string, v: int) {
    && t != ""
    && (IsDigit(t[0]) ==> AllDigits(t) && v == DigitsValue(t))
    && (t[0] == '+' ==> |t| > 1 && AllDigits(t[1..]) && v == DigitsValue(t[1..]))
    && (t[0] == '-' ==> |t| > 1 && AllDigits(t[1..]) && v == 0 - DigitsValue(t[1..]))
    && (IsDigit(t[0]) || t[0] == '+' || t[0] == '-')
  }

  /** The text without the blanks before a and from b on writes v. */
  predicate WritesBetween(s: string, a: nat, b: nat, v: int) {
    a < b <= |s| && AllBlank(s[..a]) && AllBlank(s[b..]) && WritesInt(s[a..b], v)
  }

  lemma {:induction false} TrimLeftAt(s: string, a: nat)
    requires a < |s| && AllBlank(s[..a]) && !IsSpace(s[a])
    ensures TrimLeft(s) == s[a..]
  {
    if a > 0 {
      assert IsSpace(s[..a][0]) && s[..a][0] == s[0];
      assert s[1..][..a - 1] == s[..a][1..];
      TrimLeftAt(s[1..], a - 1);
    }
  }

  lemma {:induction false} TrimRightAt(s: string, b: nat)
    requires 0 < b <= |s| && AllBlank(s[b..]) && !IsSpace(s[b - 1])
    ensures TrimRight(s) == s[..b]
    decreases |s|
  {
    if b < |s| {
      var n := |s| - 1;
      assert IsSpace(s[b..][n - b]) && s[b..][n - b] == s[n];
      assert s[..n][b..] == s[b..][..n - b] && s[..n][..b] == s[..b];
      TrimRightAt(s[..n], b);
    } else {
      assert s[..b] == s;
    }
  }

  lemma {:induction false} TrimLeftFinds(s: string) returns (a: nat)
    ensures a <= |s| && AllBlank(s[..a]) && TrimLeft(s) == s[a..]
  {
    if s != "" && IsSpace(s[0]) {
      var n := TrimLeftFinds(s[1..]);
      a := n + 1;
      assert s[..a] == [s[0]] + s[1..][..n];
    } else {
      a := 0;
    }
  }

  lemma {:induction false} TrimRightFinds(s: string) returns (b: nat)
    ensures b <= |s| && AllBlank(s[b..]) && TrimRight(s) == s[..b]
    decreases |s|
  {
    if s != "" && IsSpace(s[|s| - 1]) {
      b := TrimRightFinds(s[..|s| - 1]);
      assert s[b..] == s[..|s| - 1][b..] + [s[|s| - 1]];
      assert s[..|s| - 1][..b] == s[..b];
    } else {
      b := |s|;
      assert s[..b] == s;
    }
  }

  lemma {:induction false} WrittenIsTrimmed(s: string, a: nat, b: nat, v: int)
    requires WritesBetween(s, a, b, v)
    ensures TrimRight(TrimLeft(s)) == s[a..b]
  {
    var t := s[a..b];
    assert !IsSpace(s[a]) by { assert t[0] == s[a]; }
    assert !IsSpace(s[b - 1]) by {
      assert t[|t| - 1] == s[b - 1];
      if |t| > 1 && !IsDigit(t[0]) { assert t[1..][|t| - 2] == t[|t| - 1]; }
    }
    TrimLeftAt(s, a);
    assert s[a..][b - a..] == s[b..] && s[a..][..b - a] == t;
    TrimRightAt(s[a..], b - a);
  }

  lemma {:induction false} WrittenIsRead(s: string, a: nat, b: nat, v: int)
    requires WritesBetween(s, a, b, v) && INT_MIN <= v <= INT_MAX
    ensures SimpleAtoi(s) == Some(v)
  {
    WrittenIsTrimmed(s, a, b, v);
    assert WritesInt(s[a..b], v);
  }

  lemma {:induction false} TrimmedIsBetween(s: string) returns (a: nat, b: nat)
    ensures a <= b <= |s| && AllBlank(s[..a]) && AllBlank(s[b..]) && TrimRight(TrimLeft(s)) == s[a..b]
  {
    a := TrimLeftFinds(s);
    var n := TrimRightFinds(s[a..]);
    b := a + n;
    assert s[a..][n..] == s[b..] && s[a..][..n] == s[a..b];
  }

  lemma {:induction false} ReadIsWritten(s: string)
    requires SimpleAtoi(s).Some?
    ensures exists a: nat, b: nat :: WritesBetween(s, a, b, SimpleAtoi(s).value)
  {
    var a, b := TrimmedIsBetween(s);
    var t := s[a..b];
    assert t != "" && WritesInt(t, SimpleAtoi(s).value);
    assert WritesBetween(s, a, b, SimpleAtoi(s).value);
  }

  /** SimpleAtoi reads exactly the integers of 32 bits: blanks on both sides, at most one sign, and digits. */
  lemma {:induction false} AtoiIsExact(s: string, v: int)
    ensures SimpleAtoi(s) == Some(v) <==>
            INT_MIN <= v <= INT_MAX && exists a: nat, b: nat :: WritesBetween(s, a, b, v)
  {
    if INT_MIN <= v <= INT_MAX {
      if a: nat, b: nat :| WritesBetween(s, a, b, v) { WrittenIsRead(s, a, b, v); }
    }
    if SimpleAtoi(s) == Some(v) { ReadIsWritten(s); }
  }

  lemma AtoiOfDecimal(n: nat)
    requires n <= INT_MAX
    ensures SimpleAtoi(Decimal(n)) == Some(n)
  {
    var s := Decimal(n);
    assert IsDigit(s[0]) && IsDigit(s[|s| - 1]);
    assert TrimRight(TrimLeft(s)) == s;
    DecimalRoundTrip(n);
  }

  lemma DecimalInjective(m: nat, n: nat)
    requires Decimal(m) == Decimal(n)
    ensures m == n
  {
    DecimalRoundTrip(m);
    DecimalRoundTrip(n);
  }
}
