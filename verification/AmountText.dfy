/** Amounts as decimal text: `asset_object::amount_to_string` and `amount_from_string`. */
module AmountText {
  import opened Wrappers
  import opened Arithmetic
  import opened Ledger

  const INT64_MAX := 0x7FFF_FFFF_FFFF_FFFF

  predicate IsDigit(c: char) {
    '0' <= c <= '9'
  }

  predicate AllDigits(s: string) {
    forall i :: 0 <= i < |s| ==> IsDigit(s[i])
  }

  function DigitChar(d: nat): (c: char)
    requires d < 10
    ensures IsDigit(c) && DigitValue(c) == d
  {
    '0' + d as char
  }

  function DigitValue(c: char): nat
    requires IsDigit(c)
  {
    (c - '0') as nat
  }

  /** Decimal digits without leading zeros. */
  function Digits(n: nat): (s: string)
    ensures s != [] && AllDigits(s)
  {
    if n < 10 then [DigitChar(n)] else Digits(n / 10) + [DigitChar(n % 10)]
  }

  function Value(s: string): nat
    requires AllDigits(s)
    decreases |s|
  {
    if s == [] then 0 else Value(s[..|s| - 1]) * 10 + DigitValue(s[|s| - 1])
  }

  function IntToString(n: int): string {
    if n < 0 then "-" + Digits(-n) else Digits(n)
  }

  function Abs(n: int): nat {
    if n < 0 then -n else n
  }

  /** Whole units of a magnitude, and what is left. */
  function Whole(a: nat, precision: nat): nat {
    AtMostFloor(0, a, Pow10(precision));
    a / Pow10(precision)
  }

  function Rest(a: nat, precision: nat): (r: nat)
    ensures r < Pow10(precision)
  {
    a % Pow10(precision)
  }

  /** `amount_to_string`; division truncates toward zero. */
  function Print(amount: int, precision: nat): string {
    var q: int := Whole(Abs(amount), precision);
    var whole := IntToString(if amount < 0 then -q else q);
    var decimals := Rest(Abs(amount), precision);
    Joined(amount, whole, decimals, Digits(Pow10(precision) + decimals)[1..])
  }

  /** The whole part, and the padded digits if there are decimals. */
  function Joined(amount: int, whole: string, decimals: nat, padded: string): string {
    if decimals == 0 then whole
    else (if amount < 0 && whole == "0" then "-0" else whole) + "." + padded
  }

  datatype Marks = Marks(negative: bool, decimal: bool)

  /** Digits, at most one minus sign and at most one decimal point, in any place. */
  function Scan(s: string, seen: Marks): Option<Marks>
    decreases |s|
  {
    if s == [] then Some(seen)
    else if IsDigit(s[0]) then Scan(s[1..], seen)
    else if s[0] == '-' && !seen.negative then Scan(s[1..], seen.(negative := true))
    else if s[0] == '.' && !seen.decimal then Scan(s[1..], seen.(decimal := true))
    else None
  }

  function Find(s: string, c: char): (r: Option<nat>)
    ensures r.Some? ==> r.value < |s| && s[r.value] == c
    decreases |s|
  {
    if s == [] then None
    else if s[0] == c then Some(0)
    else match Find(s[1..], c)
      case None => None
      case Some(i) => Some(i + 1)
  }

  /** At most `n` characters from `pos` on. */
  function Substr(s: string, pos: nat, n: Option<nat>): string
    requires pos <= |s|
  {
    if n.None? || pos + n.value > |s| then s[pos..] else s[pos..pos + n.value]
  }

  function DigitPrefix(s: string): (r: string)
    ensures AllDigits(r)
    decreases |s|
  {
    if s == [] || !IsDigit(s[0]) then [] else [s[0]] + DigitPrefix(s[1..])
  }

  /** `stoll`: an optional sign and digits, and whatever follows; fails without a digit and
      out of the range of 64 bits. */
  function ToNumber(s: string): Option<int> {
    var negative := s != [] && s[0] == '-';
    var digits := DigitPrefix(if negative then s[1..] else s);
    if digits == [] || Value(digits) > INT64_MAX then None
    else
      var n: int := Value(digits);
      Some(if negative then -n else n)
  }

  predicate InRange(n: int) {
    -INT64_MAX - 1 <= n <= INT64_MAX
  }

  function Zeros(n: nat): string {
    if n == 0 then [] else Zeros(n - 1) + ['0']
  }

  /** `text` as a number, zero if there is none. */
  function NumberOrZero(text: string): Option<int> {
    if text == [] then Some(0) else ToNumber(text)
  }

  /** The digits after the decimal point, filled up with zeros. */
  function Fraction(s: string, precision: nat, point: Option<nat>): Option<int>
    requires point.Some? ==> point.value < |s|
  {
    if point.None? then Some(0)
    else
      var rhs := s[point.value + 1..];
      if |rhs| > precision then None else NumberOrZero(rhs + Zeros(precision - |rhs|))
  }

  /** `amount_from_string`. */
  function Parse(s: string, precision: nat): Option<int> {
    match Scan(s, Marks(false, false))
    case None => None
    case Some(seen) =>
      if seen.negative && s == [] then None
      else
        var point := Find(s, '.');
        match NumberOrZero(Substr(s, if seen.negative then 1 else 0, point))
        case None => None
        case Some(whole) =>
          match Fraction(s, precision, point)
          case None => None
          case Some(fraction) =>
            var scaled := whole * Pow10(precision);
            var satoshis := scaled + fraction;
            if !InRange(scaled) || !InRange(satoshis) || satoshis > MAX_SHARE_SUPPLY then None
            else Some(if seen.negative then -satoshis else satoshis)
  }

  lemma {:induction false} ValueOfDigits(n: nat)
    ensures Value(Digits(n)) == n
  {
    if n < 10 {
      assert Digits(n)[..0] == [];
    } else {
      ValueOfDigits(n / 10);
      assert Digits(n)[..|Digits(n)| - 1] == Digits(n / 10);
    }
  }

  /** The digits of a power of ten and something below it, without the leading one, are that
      something, padded. */
  lemma {:induction false} PaddedDigits(precision: nat, d: nat)
    requires d < Pow10(precision)
    ensures var s := Digits(Pow10(precision) + d)[1..];
            |s| == precision && AllDigits(s) && Value(s) == d
    decreases precision
  {
    var n := Pow10(precision) + d;
    if precision == 0 {
      assert Digits(n) == [DigitChar(1)];
    } else {
      var t := Digits(n / 10);
      assert n / 10 == Pow10(precision - 1) + d / 10 && n % 10 == d % 10;
      PaddedDigits(precision - 1, d / 10);
      var s := Digits(n)[1..];
      assert s == t[1..] + [DigitChar(d % 10)];
      assert s[..|s| - 1] == t[1..];
    }
  }

  /** The text of an amount: a sign, the whole part, and the padded decimals if any. */
  function Sign(amount: int): string {
    if amount < 0 then "-" else ""
  }

  function Decimals(amount: int, precision: nat): string {
    var decimals := Rest(Abs(amount), precision);
    Tail(decimals, Digits(Pow10(precision) + decimals)[1..])
  }

  function Tail(decimals: nat, padded: string): string {
    if decimals == 0 then "" else "." + padded
  }

  lemma WholeAndRest(a: nat, precision: nat)
    ensures a == Whole(a, precision) * Pow10(precision) + Rest(a, precision)
  {
  }

  lemma PrintShape(amount: int, precision: nat)
    ensures Print(amount, precision) ==
            Sign(amount) + Digits(Whole(Abs(amount), precision)) + Decimals(amount, precision)
  {
    hide Pow10, Whole, Rest, Digits, AllDigits, IsDigit, Joined, Tail, Sign;
    var q, r := Whole(Abs(amount), precision), Rest(Abs(amount), precision);
    SomethingLeft(Abs(amount), precision);
    ZeroText();
    Assembled(amount, q, r, Digits(q), Digits(Pow10(precision) + r)[1..]);
  }

  /** A sign, `w` for the whole part `q`, and `d` for the decimals `r`. */
  lemma Assembled(amount: int, q: nat, r: nat, w: string, d: string)
    requires q == 0 ==> w == "0" && (amount < 0 ==> r != 0)
    ensures Joined(amount, if amount < 0 && q > 0 then "-" + w else w, r, d) == Sign(amount) + w + Tail(r, d)
  {
    var s := Sign(amount) + w;
    assert s + "." + d == s + ("." + d) && s + "" == s;
    if amount < 0 {
      assert ("-" + w)[0] == '-';
      assert "-" + "0" == "-0";
    } else {
      assert s == w;
    }
  }

  lemma SomethingLeft(a: nat, precision: nat)
    ensures Whole(a, precision) == 0 && a > 0 ==> Rest(a, precision) != 0
  {
    WholeAndRest(a, precision);
  }

  lemma ZeroText()
    ensures Digits(0) == "0" && "-0" == "-" + Digits(0)
  {
  }

  lemma {:induction false} ScanDigits(s: string, t: string, seen: Marks)
    requires AllDigits(s)
    ensures Scan(s + t, seen) == Scan(t, seen)
    decreases |s|
  {
    if s == [] {
      assert s + t == t;
    } else {
      assert (s + t)[1..] == s[1..] + t;
      ScanDigits(s[1..], t, seen);
    }
  }

  lemma {:induction false} FindAfterDigits(s: string, t: string)
    requires AllDigits(s)
    ensures Find(s + t, '.') == match Find(t, '.') case None => None case Some(i) => Some(|s| + i)
    decreases |s|
  {
    if s == [] {
      assert s + t == t;
    } else {
      assert (s + t)[1..] == s[1..] + t;
      FindAfterDigits(s[1..], t);
    }
  }

  lemma {:induction false} PrefixOfDigits(s: string, t: string)
    requires AllDigits(s) && (t == [] || !IsDigit(t[0]))
    ensures DigitPrefix(s + t) == s
    decreases |s|
  {
    if s == [] {
      assert s + t == t;
    } else {
      assert (s + t)[1..] == s[1..] + t;
      PrefixOfDigits(s[1..], t);
    }
  }

  /** A sign, digits, and either nothing or a point and at most as many digits as the
      precision.  Without a sign there need be no digits before the point. */
  predicate WellFormed(negative: bool, digits: string, tail: string, precision: nat) {
    && AllDigits(digits) && (digits == [] ==> !negative)
    && (tail == [] || (tail[0] == '.' && AllDigits(tail[1..]) && |tail| <= precision + 1))
  }

  /** The number such a text stands for: a digit after the point counts less by its place. */
  function Amount(negative: bool, digits: string, tail: string, precision: nat): nat
    requires WellFormed(negative, digits, tail, precision)
  {
    Value(digits) * Pow10(precision)
    + if tail == [] then 0 else Value(tail[1..]) * Pow10(precision + 1 - |tail|)
  }

  lemma AppendZero(t: string)
    requires AllDigits(t)
    ensures AllDigits(t + ['0']) && Value(t + ['0']) == Value(t) * 10
  {
    assert (t + ['0'])[..|t|] == t;
  }

  lemma TenMore(n: nat, k: nat)
    requires k > 0
    ensures n * Pow10(k - 1) * 10 == n * Pow10(k)
  {
    assert Pow10(k) == 10 * Pow10(k - 1);
  }

  lemma {:induction false} ZerosScale(s: string, k: nat)
    requires AllDigits(s)
    ensures AllDigits(s + Zeros(k)) && |Zeros(k)| == k && Value(s + Zeros(k)) == Value(s) * Pow10(k)
    decreases k
  {
    hide Value, Pow10, AllDigits;
    if k == 0 {
      assert s + [] == s;
      NoPlaces();
    } else {
      ZerosScale(s, k - 1);
      var t := s + Zeros(k - 1);
      assert s + Zeros(k) == t + ['0'];
      AppendZero(t);
      TenMore(Value(s), k);
    }
  }

  lemma ScanWellFormed(negative: bool, digits: string, tail: string, precision: nat)
    requires WellFormed(negative, digits, tail, precision)
    ensures var s := (if negative then "-" else "") + digits + tail;
            Scan(s, Marks(false, false)) == Some(Marks(negative, tail != []))
  {
    var s := (if negative then "-" else "") + digits + tail;
    var seen := Marks(negative, false);
    if negative {
      assert s[1..] == digits + tail;
    } else {
      assert s == digits + tail;
      assert Marks(false, false) == seen;
    }
    assert !IsDigit('-') && !IsDigit('.');
    assert Scan(s, Marks(false, false)) == Scan(digits + tail, seen);
    ScanDigits(digits, tail, seen);
    if tail != [] {
      ScanDigits(tail[1..], [], seen.(decimal := true));
      assert tail[1..] + [] == tail[1..];
    }
  }

  lemma PointWellFormed(negative: bool, digits: string, tail: string, precision: nat)
    requires WellFormed(negative, digits, tail, precision)
    ensures var s := (if negative then "-" else "") + digits + tail;
            var point := Find(s, '.');
            && point == (if tail == [] then None else Some(|s| - |tail|))
            && Substr(s, if negative then 1 else 0, point) == digits + (if negative && tail != [] then "." else "")
            && (tail != [] ==> s[point.value + 1..] == tail[1..])
  {
    var s := (if negative then "-" else "") + digits + tail;
    FindAfterDigits(digits, tail);
    if negative {
      assert s[1..] == digits + tail;
    } else {
      assert s == digits + tail;
    }
  }

  /** Reading a well formed text gives the number it stands for, with its sign, exactly if
      that is at most the maximum share supply. */
  lemma ParseWellFormed(negative: bool, digits: string, tail: string, precision: nat)
    requires WellFormed(negative, digits, tail, precision)
    ensures var s := (if negative then "-" else "") + digits + tail;
            var n: int := Amount(negative, digits, tail, precision);
            Parse(s, precision) == if n <= MAX_SHARE_SUPPLY then Some(if negative then -n else n) else None
  {
    hide Scan, Find, Substr, Digits, NumberOrZero, Fraction;
    ScanWellFormed(negative, digits, tail, precision);
    PointWellFormed(negative, digits, tail, precision);
    WholeText(digits, negative && tail != []);
    var w := Value(digits);
    assert w <= w * Pow10(precision) by { ScalesUp(w, Pow10(precision)); }
    FractionText(negative, digits, tail, precision);
  }

  /** The part before the point is its digits, read up to the point. */
  lemma WholeText(digits: string, point: bool)
    requires AllDigits(digits) && (point ==> digits != [])
    ensures var n: int := Value(digits);
            NumberOrZero(digits + if point then "." else "") == if n <= INT64_MAX then Some(n) else None
  {
    hide Value, DigitPrefix;
    var lhs := digits + if point then "." else "";
    if digits != [] {
      assert lhs[0] == digits[0];
      PrefixOfDigits(digits, if point then "." else "");
    } else {
      NoDigits();
    }
  }

  lemma NoDigits()
    ensures Value([]) == 0
  {
  }

  lemma FractionText(negative: bool, digits: string, tail: string, precision: nat)
    requires WellFormed(negative, digits, tail, precision)
    ensures var s := (if negative then "-" else "") + digits + tail;
            var n: int := if tail == [] then 0 else Value(tail[1..]) * Pow10(precision + 1 - |tail|);
            Fraction(s, precision, Find(s, '.')) == if n <= INT64_MAX then Some(n) else None
  {
    hide Value, DigitPrefix, Find, NumberOrZero;
    PointWellFormed(negative, digits, tail, precision);
    if tail != [] {
      var k := precision + 1 - |tail|;
      ZerosScale(tail[1..], k);
      WholeText(tail[1..] + Zeros(k), false);
      assert tail[1..] + Zeros(k) + "" == tail[1..] + Zeros(k);
    }
  }

  /** More decimals than the precision are refused. */
  lemma TooManyDecimals(s: string, precision: nat)
    requires Find(s, '.').Some? && |s| > Find(s, '.').value + 1 + precision
    ensures Parse(s, precision) == None
  {
    hide Scan, Find, Substr, NumberOrZero;
  }

  function Count(s: string, c: char): nat {
    if s == [] then 0 else (if s[0] == c then 1 else 0) + Count(s[1..], c)
  }

  function One(b: bool): nat {
    if b then 1 else 0
  }

  /** A text passes the scan exactly if it holds nothing but digits, at most one minus sign and
      at most one point; the marks say which. */
  lemma {:induction false} ScanExactly(s: string, seen: Marks)
    ensures Scan(s, seen).Some? <==>
            && (forall i :: 0 <= i < |s| ==> IsDigit(s[i]) || s[i] == '-' || s[i] == '.')
            && Count(s, '-') + One(seen.negative) <= 1 && Count(s, '.') + One(seen.decimal) <= 1
    ensures Scan(s, seen).Some? ==>
            && (Scan(s, seen).value.negative <==> seen.negative || Count(s, '-') == 1)
            && (Scan(s, seen).value.decimal <==> seen.decimal || Count(s, '.') == 1)
    decreases |s|
  {
    if s != [] {
      assert !IsDigit('-') && !IsDigit('.');
      ScanExactly(s[1..], seen);
      ScanExactly(s[1..], seen.(negative := true));
      ScanExactly(s[1..], seen.(decimal := true));
      assert forall i :: 1 <= i < |s| ==> s[i] == s[1..][i - 1];
      assert forall i :: 0 <= i < |s| - 1 ==> s[1..][i] == s[i + 1];
    }
  }

  /** A text with a sign, wherever it is, and no point: what follows the first character is
      read, and its sign turned around. */
  lemma SignedIsTurned(s: string, precision: nat)
    requires Scan(s, Marks(false, false)) == Some(Marks(true, false)) && Find(s, '.').None?
    ensures s != []
    ensures var n := NumberOrZero(s[1..]);
            Parse(s, precision) ==
            if n.Some? && -0x8000_0000_0000_0000 <= n.value * Pow10(precision) <= MAX_SHARE_SUPPLY
            then Some(-(n.value * Pow10(precision))) else None
  {
    hide NumberOrZero, Pow10;
  }

  /** So "5-3" is accepted, and is 3. */
  lemma MisplacedSign(precision: nat)
    requires 3 * Pow10(precision) <= MAX_SHARE_SUPPLY
    ensures Parse("5-3", precision) == Some(3 * Pow10(precision))
  {
    var s := "5-3";
    assert s[1..] == "-3" && "-3"[1..] == "3" && "3"[1..] == "";
    assert Scan("3", Marks(true, false)) == Scan("", Marks(true, false)) == Some(Marks(true, false));
    assert Scan("-3", Marks(false, false)) == Scan("3", Marks(true, false));
    assert Scan(s, Marks(false, false)) == Scan("-3", Marks(false, false));
    assert Find("3", '.').None? && Find("-3", '.').None?;
    assert DigitPrefix("3") == "3";
    assert "3"[..0] == "";
    assert Value("3") == Value("") * 10 + 3;
    assert ToNumber("-3") == Some(-3);
    hide Pow10;
    SignedIsTurned(s, precision);
  }

  /** A text that does not pass the scan is refused. */
  lemma MalformedIsRefused(s: string, precision: nat)
    requires Scan(s, Marks(false, false)).None?
    ensures Parse(s, precision) == None
  {
  }

  lemma ScalesUp(w: nat, k: nat)
    requires k > 0
    ensures w <= w * k
  {
  }

  /** Printing an amount and reading the text gives the amount back if and only if its
      magnitude is at most the maximum share supply, at every precision; above it the text
      is refused. */
  lemma RoundTrip(amount: int, precision: nat)
    ensures Parse(Print(amount, precision), precision) ==
            if Abs(amount) <= MAX_SHARE_SUPPLY then Some(amount) else None
  {
    hide Parse, Print, Digits, Value, Pow10, Whole, Rest;
    var q, r := Whole(Abs(amount), precision), Rest(Abs(amount), precision);
    var tail := Decimals(amount, precision);
    PrintShape(amount, precision);
    ValueOfDigits(q);
    WholeAndRest(Abs(amount), precision);
    PaddedDigits(precision, r);
    assert r != 0 ==> precision > 0 by { NoDecimals(precision, r); }
    assert r != 0 ==> tail[1..] == Digits(Pow10(precision) + r)[1..];
    assert Pow10(0) == 1 by { NoPlaces(); }
    ParseWellFormed(amount < 0, Digits(q), tail, precision);
  }

  lemma NoPlaces()
    ensures Pow10(0) == 1
  {
  }

  lemma NoDecimals(precision: nat, r: nat)
    requires r < Pow10(precision)
    ensures r != 0 ==> precision > 0
  {
  }

  /** No two amounts within the supply print alike. */
  lemma PrintIsInjective(x: int, y: int, precision: nat)
    requires Abs(x) <= MAX_SHARE_SUPPLY && Print(x, precision) == Print(y, precision)
    ensures x == y
  {
    hide Parse, Print;
    RoundTrip(x, precision);
    RoundTrip(y, precision);
  }

  /** The scan and the padding loop of `amount_from_string`. */
  method AmountFromString(s: string, precision: nat) returns (r: Option<int>)
    ensures r == Parse(s, precision)
  {
    hide Scan, Find, Substr, NumberOrZero, Fraction, Pow10;
    var marks := ScanLoop(s);
    if marks.None? {
      return None;
    }
    var negative := marks.value.negative;
    if negative && s == [] {
      return None;
    }
    var point := Find(s, '.');
    var whole := NumberOrZero(Substr(s, if negative then 1 else 0, point));
    if whole.None? {
      return None;
    }
    var fraction := FractionLoop(s, precision, point);
    if fraction.None? {
      return None;
    }
    var scaled := whole.value * Pow10(precision);
    var satoshis := scaled + fraction.value;
    if !InRange(scaled) || !InRange(satoshis) || satoshis > MAX_SHARE_SUPPLY {
      return None;
    }
    r := Some(if negative then -satoshis else satoshis);
  }

  method ScanLoop(s: string) returns (r: Option<Marks>)
    ensures r == Scan(s, Marks(false, false))
  {
    var seen, i := Marks(false, false), 0;
    assert s[0..] == s;
    while i < |s|
      invariant 0 <= i <= |s| && Scan(s, Marks(false, false)) == Scan(s[i..], seen)
    {
      var c := s[i];
      assert s[i..][1..] == s[i + 1..];
      if !IsDigit(c) {
        if c == '-' && !seen.negative {
          seen := seen.(negative := true);
        } else if c == '.' && !seen.decimal {
          seen := seen.(decimal := true);
        } else {
          return None;
        }
      }
      i := i + 1;
    }
    r := Some(seen);
  }

  method FractionLoop(s: string, precision: nat, point: Option<nat>) returns (r: Option<int>)
    requires point.Some? ==> point.value < |s|
    ensures r == Fraction(s, precision, point)
  {
    hide NumberOrZero;
    if point.None? {
      return Some(0);
    }
    var rhs := s[point.value + 1..];
    if |rhs| > precision {
      return None;
    }
    ghost var digits := rhs;
    assert digits + Zeros(0) == digits;
    while |rhs| < precision
      invariant |digits| <= |rhs| <= precision && rhs == digits + Zeros(|rhs| - |digits|)
    {
      rhs := rhs + "0";
      assert rhs == digits + Zeros(|rhs| - |digits|);
    }
    r := NumberOrZero(rhs);
  }
}
