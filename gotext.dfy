/**
 * The two pieces of Go's standard library that the network-split handler
 * runs on its form input: `strings.Split(s, ",")` and `strconv.Atoi(s)` on a
 * 64-bit platform (Go's `int` is 64 bits wide there).
 *
 * Each is given a partner: `Join` for `Split` (a round trip in both
 * directions) and `Itoa` for `Atoi`.
 */
module GoText {

  const MaxInt64: int := 0x7fff_ffff_ffff_ffff
  const MinInt64: int := -0x8000_0000_0000_0000
  const MaxUint64: int := 0xffff_ffff_ffff_ffff

  // ---------------------------------------------------------------------
  // strings.Split(s, ",") and its inverse strings.Join(pieces, ",")
  // ---------------------------------------------------------------------

  /** The pieces of `s` between commas; an empty `s` gives one empty piece. */
  function Split(s: string): (pieces: seq<string>)
    ensures |pieces| >= 1
  {
    if s == [] then [""]
    else
      var init := Split(s[..|s| - 1]);
      var c := s[|s| - 1];
      assert s == s[..|s| - 1] + [c];
      if c == ',' then init + [""]
      else init[..|init| - 1] + [init[|init| - 1] + [c]]
  }

  /** Split gives one piece more than there are commas, and no piece holds a comma. */
  lemma {:induction false} SplitPieces(s: string)
    ensures |Split(s)| == multiset(s)[','] + 1
    ensures forall i :: 0 <= i < |Split(s)| ==> ',' !in Split(s)[i]
    decreases |s|
  {
    if s != [] {
      var t, c := s[..|s| - 1], s[|s| - 1];
      SplitPieces(t);
      assert s == t + [c];
      assert multiset(s) == multiset(t) + multiset{c};
    }
  }

  /** The pieces glued back together with a comma between neighbours. */
  function Join(pieces: seq<string>): string
  {
    if |pieces| == 0 then ""
    else if |pieces| == 1 then pieces[0]
    else Join(pieces[..|pieces| - 1]) + "," + pieces[|pieces| - 1]
  }

  lemma JoinSnoc(pieces: seq<string>, x: string)
    requires |pieces| >= 1
    ensures Join(pieces + [x]) == Join(pieces) + "," + x
  {
    assert (pieces + [x])[..|pieces|] == pieces;
  }

  lemma JoinExtendLast(pieces: seq<string>, c: char)
    requires |pieces| >= 1
    ensures Join(pieces[..|pieces| - 1] + [pieces[|pieces| - 1] + [c]]) == Join(pieces) + [c]
  {
    var k := |pieces| - 1;
    var q := pieces[..k] + [pieces[k] + [c]];
    if k > 0 {
      assert q[..k] == pieces[..k];
    }
  }

  /** Joining the pieces of a split gives back the original text. */
  lemma {:induction false} JoinSplit(s: string)
    ensures Join(Split(s)) == s
    decreases |s|
  {
    if s != [] {
      var t := s[..|s| - 1];
      JoinSplit(t);
      assert s == t + [s[|s| - 1]];
      JoinSplitSnoc(t, s[|s| - 1]);
    }
  }

  lemma JoinSplitSnoc(t: string, c: char)
    requires Join(Split(t)) == t
    ensures Join(Split(t + [c])) == t + [c]
  {
    var s := t + [c];
    assert s[..|s| - 1] == t;
    if c == ',' {
      JoinSnoc(Split(t), "");
    } else {
      JoinExtendLast(Split(t), c);
    }
  }

  lemma {:induction false} SplitNoComma(t: string)
    requires ',' !in t
    ensures Split(t) == [t]
    decreases |t|
  {
    if t != [] {
      SplitNoComma(t[..|t| - 1]);
      assert t[..|t| - 1] + [t[|t| - 1]] == t;
    }
  }

  lemma {:induction false} SplitAfterComma(s: string, t: string)
    requires ',' !in t
    ensures Split(s + "," + t) == Split(s) + [t]
    decreases |t|
  {
    var w := s + "," + t;
    if t == [] {
      assert w[..|w| - 1] == s;
    } else {
      var u, c := t[..|t| - 1], t[|t| - 1];
      SplitAfterComma(s, u);
      assert w[..|w| - 1] == s + "," + u;
      assert u + [c] == t;
    }
  }

  /** Splitting a join of comma-free pieces gives back the pieces. */
  lemma {:induction false} SplitJoin(pieces: seq<string>)
    requires |pieces| >= 1
    requires forall i :: 0 <= i < |pieces| ==> ',' !in pieces[i]
    ensures Split(Join(pieces)) == pieces
    decreases |pieces|
  {
    if |pieces| == 1 {
      SplitNoComma(pieces[0]);
    } else {
      var init, last := pieces[..|pieces| - 1], pieces[|pieces| - 1];
      assert pieces == init + [last];
      SplitJoin(init);
      SplitJoinSnoc(init, last);
    }
  }

  lemma SplitJoinSnoc(init: seq<string>, last: string)
    requires |init| >= 1 && ',' !in last
    requires Split(Join(init)) == init
    ensures Split(Join(init + [last])) == init + [last]
  {
    JoinSnoc(init, last);
    SplitAfterComma(Join(init), last);
  }

  // ---------------------------------------------------------------------
  // strconv.Atoi(s) (base 10, 64-bit int) and its inverse strconv.Itoa
  // ---------------------------------------------------------------------

  /** The error part of Atoi's result: nil, ErrSyntax or ErrRange. */
  datatype NumError = NoError | ErrSyntax | ErrRange

  /** Atoi's two results: the value it returns and its error. */
  datatype Conversion = Conversion(value: int, err: NumError)

  predicate IsDigit(c: char)
  {
    '0' <= c <= '9'
  }

  predicate AllDigits(s: string)
  {
    forall i :: 0 <= i < |s| ==> IsDigit(s[i])
  }

  /** The longest prefix of `s` made of decimal digits. */
  function DigitPrefix(s: string): string
  {
    if s == [] || !IsDigit(s[0]) then [] else [s[0]] + DigitPrefix(s[1..])
  }

  /** DigitPrefix is a prefix, all digits, and stops only at a non-digit or the end. */
  lemma {:induction false} DigitPrefixShape(s: string)
    ensures DigitPrefix(s) <= s && AllDigits(DigitPrefix(s))
    ensures |DigitPrefix(s)| < |s| ==> !IsDigit(s[|DigitPrefix(s)|])
  {
    if s != [] && IsDigit(s[0]) {
      DigitPrefixShape(s[1..]);
    }
  }

  function DigitValue(c: char): int
  {
    c as int - '0' as int
  }

  /** The number a string of decimal digits denotes. */
  function DigitsValue(d: string): int
  {
    if d == [] then 0 else DigitsValue(d[..|d| - 1]) * 10 + DigitValue(d[|d| - 1])
  }

  /**
   * Go's strconv.Atoi: an optional sign, then one or more decimal digits.
   * A malformed string gives (0, ErrSyntax). A number outside int64 gives
   * the nearest int64 and ErrRange; Go's scanner reports the overflow as
   * soon as the digits read so far exceed 2^64-1, so an overflowing digit
   * run followed by junk is a range error, not a syntax error.
   */
  function Atoi(s: string): Conversion
  {
    if s == [] then Conversion(0, ErrSyntax)
    else
      var neg := s[0] == '-';
      var body := if s[0] == '-' || s[0] == '+' then s[1..] else s;
      var digits := DigitPrefix(body);
      var magnitude := DigitsValue(digits);
      if magnitude > MaxUint64 then
        Conversion(if neg then MinInt64 else MaxInt64, ErrRange)
      else if |digits| == 0 || |digits| < |body| then
        Conversion(0, ErrSyntax)
      else if !neg && magnitude > MaxInt64 then
        Conversion(MaxInt64, ErrRange)
      else if neg && magnitude > -MinInt64 then
        Conversion(MinInt64, ErrRange)
      else
        Conversion(if neg then -magnitude else magnitude, NoError)
  }

  /**
   * What Atoi can return: an int64 on success, zero on a syntax error, and
   * the int64 bound on the side of the sign on a range error. A successful
   * parse starts with a digit or a sign.
   */
  lemma AtoiResult(s: string)
    ensures var r := Atoi(s);
      && (r.err == NoError ==> MinInt64 <= r.value <= MaxInt64)
      && (r.err == NoError ==> |s| >= 1 && (IsDigit(s[0]) || s[0] == '-' || s[0] == '+'))
      && (r.err == ErrSyntax ==> r.value == 0)
      && (r.err == ErrRange ==> r.value == (if s[0] == '-' then MinInt64 else MaxInt64))
  {
    if s != [] {
      var body := if s[0] == '-' || s[0] == '+' then s[1..] else s;
      DigitPrefixShape(body);
      DigitsValueNat(DigitPrefix(body));
    }
  }

  lemma {:induction false} DigitsValueNat(d: string)
    requires AllDigits(d)
    ensures DigitsValue(d) >= 0
  {
    if d != [] {
      DigitsValueNat(d[..|d| - 1]);
    }
  }

  /** The decimal digits of a natural number, without leading zeros. */
  function NatDigits(n: nat): (d: string)
    ensures |d| >= 1 && AllDigits(d)
    ensures DigitsValue(d) == n
  {
    if n < 10 then [('0' as int + n) as char]
    else
      var d := NatDigits(n / 10) + [('0' as int + n % 10) as char];
      assert d[..|d| - 1] == NatDigits(n / 10);
      d
  }

  /** Go's strconv.Itoa: a minus sign for negatives, then the digits. */
  function Itoa(x: int): string
  {
    if x < 0 then "-" + NatDigits(-x) else NatDigits(x)
  }

  lemma DigitPrefixOfDigits(d: string)
    requires AllDigits(d)
    ensures DigitPrefix(d) == d
  {
  }

  /** Atoi reads back every int64 that Itoa prints, without error. */
  lemma AtoiItoa(x: int)
    requires MinInt64 <= x <= MaxInt64
    ensures Atoi(Itoa(x)) == Conversion(x, NoError)
  {
    var d := NatDigits(if x < 0 then -x else x);
    DigitPrefixOfDigits(d);
    if x < 0 {
      assert Itoa(x)[1..] == d;
    }
  }
}
