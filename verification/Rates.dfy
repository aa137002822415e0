/** Printing and parsing of exchange rates (store/app/exchange_rates.py). A decimal is an integer and
    a number of decimal places. */
module Rates {
  import opened Common

  datatype Dec = Dec(units: int, scale: nat)

  function Pow10(n: nat): (r: nat)
    ensures r >= 1
  {
    if n == 0 then 1 else 10 * Pow10(n - 1)
  }

  predicate SameValue(a: Dec, b: Dec) {
    a.units * Pow10(b.scale) == b.units * Pow10(a.scale)
  }

  // ---------------------------------------------------------------- digits

  predicate IsDigit(c: char) {
    '0' <= c <= '9'
  }

  predicate AllDigits(s: string) {
    forall i :: 0 <= i < |s| ==> IsDigit(s[i])
  }

  function DigitOf(n: nat): (c: char)
    requires n < 10
    ensures IsDigit(c) && ValueOf(c) == n
  {
    '0' + n as char
  }

  function ValueOf(c: char): nat
    requires IsDigit(c)
  {
    c as int - '0' as int
  }

  /** Reads a text of digits. */
  function Read(s: string): nat
    requires AllDigits(s)
  {
    if s == "" then 0 else 10 * Read(s[..|s| - 1]) + ValueOf(s[|s| - 1])
  }

  function Digits(n: nat): (s: string)
    ensures s != "" && AllDigits(s)
  {
    if n < 10 then [DigitOf(n)] else Digits(n / 10) + [DigitOf(n % 10)]
  }

  /** The last `width` digits. */
  function Padded(n: nat, width: nat): (s: string)
    ensures |s| == width && AllDigits(s)
  {
    if width == 0 then "" else Padded(n / 10, width - 1) + [DigitOf(n % 10)]
  }

  lemma ReadGrows(s: string, c: char)
    requires AllDigits(s) && IsDigit(c)
    ensures AllDigits(s + [c]) && Read(s + [c]) == 10 * Read(s) + ValueOf(c)
  {
    assert (s + [c])[..|s|] == s;
  }

  lemma {:induction false} ReadDigits(n: nat)
    ensures Read(Digits(n)) == n
  {
    if n >= 10 {
      ReadDigits(n / 10);
      ReadGrows(Digits(n / 10), DigitOf(n % 10));
    } else {
      ReadGrows("", DigitOf(n));
      assert "" + [DigitOf(n)] == [DigitOf(n)];
    }
  }

  lemma {:induction false} ReadAfter(a: string, n: nat, width: nat)
    requires AllDigits(a) && n < Pow10(width)
    ensures AllDigits(a + Padded(n, width)) && Read(a + Padded(n, width)) == Read(a) * Pow10(width) + n
  {
    if width == 0 {
      assert a + Padded(n, 0) == a;
    } else {
      ReadAfter(a, n / 10, width - 1);
      var front := a + Padded(n / 10, width - 1);
      assert a + Padded(n, width) == front + [DigitOf(n % 10)];
      ReadGrows(front, DigitOf(n % 10));
      Shift(Read(a), width);
    }
  }

  lemma Shift(a: nat, width: nat)
    requires width > 0
    ensures 10 * (a * Pow10(width - 1)) == a * Pow10(width)
  {
  }

  // ---------------------------------------------------------------- printing

  /** Half up to cents, away from zero at a tie. */
  function RoundHalfUp(d: Dec): int {
    var den := Pow10(d.scale);
    if d.units >= 0 then (200 * d.units + den) / (2 * den) else -((-200 * d.units + den) / (2 * den))
  }

  /** The cents nearest to the value, ties away from zero, and symmetric in the sign. */
  lemma RoundIsHalfUp(d: Dec)
    ensures var c, den: int := RoundHalfUp(d), Pow10(d.scale);
      && (d.units >= 0 ==> -den < 2 * (c * den - 100 * d.units) <= den)
      && (d.units > 0 ==> RoundHalfUp(Dec(-d.units, d.scale)) == -c)
  {
    var den: int := Pow10(d.scale);
    if d.units >= 0 {
      var n := 200 * d.units + den;
      Division(n, 2 * den);
      assert n / (2 * den) * (2 * den) == 2 * (n / (2 * den) * den);
    }
  }

  lemma Division(n: int, d: int)
    requires d > 0
    ensures n / d * d <= n < n / d * d + d
  {
  }

  /** Thousands are set apart by points. */
  function Grouped(n: nat): (s: string)
    ensures s != "" && IsDigit(s[0])
  {
    if n < 1000 then Digits(n) else Grouped(n / 1000) + "." + Padded(n % 1000, 3)
  }

  function Sign(c: int): string {
    if c < 0 then "-" else ""
  }

  function Abs(c: int): nat {
    if c < 0 then -c else c
  }

  /** `format_rate_for_customer` of a rate rounded to cents: whole amounts show no cents. */
  function FormatCents(c: int): string {
    Sign(c) + Grouped(Abs(c) / 100) + (if Abs(c) % 100 == 0 then "" else "," + Padded(Abs(c) % 100, 2))
  }

  // ---------------------------------------------------------------- parsing

  predicate InToken(c: char) {
    IsDigit(c) || c == '.' || c == ','
  }

  /** How far a token reaches from here. */
  function Reach(s: string): (n: nat)
    ensures n <= |s|
  {
    if s == "" || !InToken(s[0]) then 0 else 1 + Reach(s[1..])
  }

  /** The first match of a number: an optional minus, a digit, then digits, points and commas. */
  function Token(s: string): Option<string> {
    if s == "" then None
    else if IsDigit(s[0]) then Some(s[..Reach(s)])
    else if s[0] == '-' && |s| > 1 && IsDigit(s[1]) then Some(s[..1 + Reach(s[1..])])
    else Token(s[1..])
  }

  function Without(s: string, c: char): string {
    if s == "" then "" else (if s[0] == c then "" else [s[0]]) + Without(s[1..], c)
  }

  function CommaToPoint(s: string): string {
    if s == "" then "" else [if s[0] == ',' then '.' else s[0]] + CommaToPoint(s[1..])
  }

  /** The last index of the character, or -1. */
  function LastIndex(s: string, c: char): (k: int)
    ensures -1 <= k < |s| && (k >= 0 ==> s[k] == c)
    ensures forall i :: k < i < |s| ==> s[i] != c
  {
    if s == "" then -1 else if s[|s| - 1] == c then |s| - 1 else LastIndex(s[..|s| - 1], c)
  }

  /** The first index of a point, or the length. */
  function PointIndex(s: string): (k: nat)
    ensures k <= |s| && (k < |s| ==> s[k] == '.')
    ensures forall i :: 0 <= i < k ==> s[i] != '.'
  {
    if s == "" || s[0] == '.' then 0 else 1 + PointIndex(s[1..])
  }

  /** What `Decimal` makes of an unsigned text: digits with at most one point. */
  function Unsigned(s: string): Option<Dec> {
    var p := PointIndex(s);
    var whole, part := s[..p], if p < |s| then s[p + 1..] else "";
    if whole == "" || !AllDigits(whole) || !AllDigits(part) then None
    else
      assert AllDigits(whole + part);
      Some(Dec(Read(whole + part), |part|))
  }

  function DecimalOf(s: string): Option<Dec> {
    if s != "" && s[0] == '-' then
      (var d := Unsigned(s[1..]); if d.None? then None else Some(Dec(-d.value.units, d.value.scale)))
    else Unsigned(s)
  }

  /** Which of the two marks is the decimal one. */
  function Unified(token: string): string {
    if ',' in token && '.' in token then
      if LastIndex(token, ',') > LastIndex(token, '.') then CommaToPoint(Without(token, '.')) else Without(token, ',')
    else if ',' in token then CommaToPoint(Without(token, '.'))
    else token
  }

  /** `parse_decimal` of a text. */
  function ParseDecimal(text: string): Option<Dec> {
    var token := Token(text);
    if token.None? then None else DecimalOf(Unified(token.value))
  }

  // ---------------------------------------------------------------- there and back

  predicate AllInToken(s: string) {
    forall i :: 0 <= i < |s| ==> InToken(s[i])
  }

  lemma {:induction false} ReachAll(s: string)
    requires AllInToken(s)
    ensures Reach(s) == |s|
  {
    if s != "" {
      ReachAll(s[1..]);
    }
  }

  lemma TokenWhole(sign: string, s: string)
    requires (sign == "" || sign == "-") && s != "" && IsDigit(s[0]) && AllInToken(s)
    ensures Token(sign + s) == Some(sign + s)
  {
    ReachAll(s);
    if sign == "" {
      assert sign + s == s && s[..|s|] == s;
    } else {
      var t := sign + s;
      assert t[1..] == s && t[..|t|] == t;
    }
  }

  lemma {:induction false} WithoutJoins(a: string, b: string, c: char)
    ensures Without(a + b, c) == Without(a, c) + Without(b, c)
  {
    if a == "" {
      assert a + b == b;
    } else {
      WithoutJoins(a[1..], b, c);
      assert (a + b)[1..] == a[1..] + b;
      var head := if a[0] == c then "" else [a[0]];
      assert head + (Without(a[1..], c) + Without(b, c)) == (head + Without(a[1..], c)) + Without(b, c);
    }
  }

  lemma {:induction false} WithoutNone(s: string, c: char)
    requires c !in s
    ensures Without(s, c) == s
  {
    if s != "" {
      WithoutNone(s[1..], c);
      assert s == [s[0]] + s[1..];
    }
  }

  lemma {:induction false} CommaJoins(a: string, b: string)
    ensures CommaToPoint(a + b) == CommaToPoint(a) + CommaToPoint(b)
  {
    if a == "" {
      assert a + b == b;
    } else {
      CommaJoins(a[1..], b);
      assert (a + b)[1..] == a[1..] + b;
      var head := [if a[0] == ',' then '.' else a[0]];
      assert head + (CommaToPoint(a[1..]) + CommaToPoint(b)) == (head + CommaToPoint(a[1..])) + CommaToPoint(b);
    }
  }

  lemma {:induction false} CommaNone(s: string)
    requires ',' !in s
    ensures CommaToPoint(s) == s
  {
    if s != "" {
      CommaNone(s[1..]);
      assert s == [s[0]] + s[1..];
    }
  }

  lemma DigitsHaveNoMarks(s: string)
    requires AllDigits(s)
    ensures '.' !in s && ',' !in s && '-' !in s && AllInToken(s)
  {
  }

  /** Without its points a grouped number is its digits. */
  lemma {:induction false} GroupedReads(n: nat)
    ensures AllDigits(Without(Grouped(n), '.')) && Read(Without(Grouped(n), '.')) == n && Without(Grouped(n), '.') != ""
  {
    if n < 1000 {
      DigitsHaveNoMarks(Digits(n));
      WithoutNone(Digits(n), '.');
      ReadDigits(n);
    } else {
      var front, tail := Grouped(n / 1000), Padded(n % 1000, 3);
      assert Grouped(n) == front + "." + tail;
      GroupedReads(n / 1000);
      hide Grouped, Padded, Read, Without, AllDigits;
      PointsDropped(front, tail);
      ThreeDigits();
      ReadAfter(Without(front, '.'), n % 1000, 3);
    }
  }

  lemma PointsDropped(front: string, tail: string)
    requires AllDigits(tail)
    ensures Without(front + "." + tail, '.') == Without(front, '.') + tail
  {
    DigitsHaveNoMarks(tail);
    WithoutNone(tail, '.');
    PointDrops();
    hide Without;
    WithoutJoins(front + ".", tail, '.');
    WithoutJoins(front, ".", '.');
    assert Without(front, '.') + "" == Without(front, '.');
  }

  lemma {:induction false} GroupedMarks(n: nat)
    ensures AllInToken(Grouped(n)) && ',' !in Grouped(n)
  {
    if n < 1000 {
      DigitsHaveNoMarks(Digits(n));
    } else {
      GroupedMarks(n / 1000);
      DigitsHaveNoMarks(Padded(n % 1000, 3));
    }
  }

  lemma PointDrops()
    ensures Without(".", '.') == "" && CommaToPoint(",") == "."
  {
    assert "."[1..] == "" && ","[1..] == "";
  }

  lemma ThreeDigits()
    ensures Pow10(3) == 1000 && Pow10(2) == 100
  {
    assert Pow10(1) == 10;
  }

  lemma UnsignedPlain(s: string)
    requires AllDigits(s) && s != ""
    ensures Unsigned(s) == Some(Dec(Read(s), 0))
  {
    DigitsHaveNoMarks(s);
    assert PointIndex(s) == |s|;
    assert s[..|s|] == s && s + "" == s;
  }

  lemma UnsignedWithPoint(whole: string, part: string)
    requires AllDigits(whole) && whole != "" && AllDigits(part)
    ensures AllDigits(whole + part) && Unsigned(whole + "." + part) == Some(Dec(Read(whole + part), |part|))
  {
    var s := whole + "." + part;
    var p := PointIndex(s);
    assert s[|whole|] == '.';
    assert p == |whole| by {
      assert forall i :: 0 <= i < |whole| ==> s[i] == whole[i];
    }
    assert s[..p] == whole && s[p + 1..] == part;
  }

  /** Text after the first point that holds another point is no number. */
  lemma TwoPoints(s: string, i: nat, j: nat)
    requires i < j < |s| && s[i] == '.' && s[j] == '.'
    ensures Unsigned(s).None?
  {
    var p := PointIndex(s);
    assert p <= i;
    var part := s[p + 1..];
    assert part[j - p - 1] == '.';
  }

  lemma SignedOf(sign: string, s: string)
    requires (sign == "" || sign == "-") && s != "" && s[0] != '-'
    ensures sign == "" ==> DecimalOf(sign + s) == Unsigned(s)
    ensures sign == "-" ==>
              DecimalOf(sign + s) == if Unsigned(s).None? then None
                  else Some(Dec(-Unsigned(s).value.units, Unsigned(s).value.scale))
  {
    if sign == "" {
      assert sign + s == s;
    } else {
      assert (sign + s)[1..] == s;
    }
  }

  lemma MarksInOrder(a: string, p: string)
    requires ',' !in a && AllDigits(p)
    ensures var t := a + "," + p; ',' in t && LastIndex(t, ',') > LastIndex(t, '.')
  {
    var t := a + "," + p;
    assert t[|a|] == ',';
    forall i | |a| < i < |t|
      ensures t[i] != '.' && t[i] != ','
    {
      assert t[i] == p[i - |a| - 1];
    }
  }

  lemma PointsGone(a: string, p: string)
    requires AllDigits(p)
    ensures Without(a + "," + p, '.') == Without(a, '.') + "," + p
  {
    DigitsHaveNoMarks(p);
    WithoutJoins(a + ",", p, '.');
    WithoutJoins(a, ",", '.');
    WithoutNone(p, '.');
    WithoutNone(",", '.');
  }

  lemma CommaTurned(w: string, p: string)
    requires ',' !in w && AllDigits(p)
    ensures CommaToPoint(w + "," + p) == w + "." + p
  {
    DigitsHaveNoMarks(p);
    CommaJoins(w + ",", p);
    CommaJoins(w, ",");
    CommaNone(w);
    CommaNone(p);
    PointDrops();
  }

  /** With a comma before the last digits, points before it go and the comma becomes the point. */
  lemma UnifiedComma(a: string, p: string)
    requires ',' !in a && AllDigits(p)
    ensures Unified(a + "," + p) == Without(a, '.') + "." + p
  {
    MarksInOrder(a, p);
    PointsGone(a, p);
    WithoutKeeps(a, '.', ',');
    CommaTurned(Without(a, '.'), p);
    hide Without, CommaToPoint, LastIndex;
  }

  lemma {:induction false} WithoutKeeps(s: string, c: char, other: char)
    requires other !in s
    ensures other !in Without(s, c)
  {
    if s != "" {
      WithoutKeeps(s[1..], c, other);
    }
  }

  lemma SignMarks(c: int)
    ensures Sign(c) == (if c < 0 then "-" else "")
    ensures ',' !in Sign(c) && '.' !in Sign(c) && Without(Sign(c), '.') == Sign(c)
    ensures c == (if c < 0 then -(Abs(c) / 100 * 100 + Abs(c) % 100) else Abs(c) / 100 * 100 + Abs(c) % 100)
  {
    WithoutNone(Sign(c), '.');
  }

  lemma CentsText(c: int)
    requires Abs(c) % 100 != 0
    ensures FormatCents(c) == Sign(c) + (Grouped(Abs(c) / 100) + "," + Padded(Abs(c) % 100, 2))
    ensures FormatCents(c) == (Sign(c) + Grouped(Abs(c) / 100)) + "," + Padded(Abs(c) % 100, 2)
    ensures Token(FormatCents(c)) == Some(FormatCents(c))
  {
    var g, p := Grouped(Abs(c) / 100), Padded(Abs(c) % 100, 2);
    assert FormatCents(c) == Sign(c) + g + ("," + p);
    GroupedMarks(Abs(c) / 100);
    SignMarks(c);
    TextWhole(Sign(c), g, p);
  }

  lemma TextWhole(sign: string, g: string, p: string)
    requires (sign == "" || sign == "-") && g != "" && IsDigit(g[0]) && AllInToken(g) && AllDigits(p)
    ensures sign + g + ("," + p) == (sign + g) + "," + p == sign + (g + "," + p)
    ensures Token(sign + (g + "," + p)) == Some(sign + (g + "," + p))
  {
    DigitsHaveNoMarks(p);
    var body := g + "," + p;
    assert AllInToken(body) && body[0] == g[0];
    hide Token, AllInToken, AllDigits;
    TokenWhole(sign, body);
  }

  lemma UnifiedSigned(sign: string, g: string, p: string)
    requires (sign == "" || sign == "-") && ',' !in g && AllDigits(p)
    ensures Unified((sign + g) + "," + p) == sign + (Without(g, '.') + "." + p)
  {
    hide Unified, AllDigits;
    UnifiedComma(sign + g, p);
    WithoutJoins(sign, g, '.');
    WithoutNone(sign, '.');
    hide Without;
    Regroup(sign, Without(g, '.'), p);
  }

  lemma Regroup(a: string, b: string, c: string)
    ensures (a + b) + "." + c == a + (b + "." + c)
  {
  }

  lemma ParseVia(text: string)
    requires Token(text) == Some(text)
    ensures ParseDecimal(text) == DecimalOf(Unified(text))
  {
  }

  lemma CentsRead(n: nat, cc: nat)
    requires cc < 100
    ensures var w, p := Without(Grouped(n), '.'), Padded(cc, 2);
      w + "." + p != "" && (w + "." + p)[0] != '-' && Unsigned(w + "." + p) == Some(Dec(n * 100 + cc, 2))
  {
    GroupedReads(n);
    hide Grouped, Without;
    ReadsWithCents(Without(Grouped(n), '.'), cc);
  }

  lemma ReadsWithCents(w: string, cc: nat)
    requires AllDigits(w) && w != "" && cc < 100
    ensures var p := Padded(cc, 2);
      w + "." + p != "" && (w + "." + p)[0] != '-' && Unsigned(w + "." + p) == Some(Dec(Read(w) * 100 + cc, 2))
  {
    hide *;
    var p := Padded(cc, 2);
    ThreeDigits();
    ReadAfter(w, cc, 2);
    UnsignedWithPoint(w, p);
    StartsWithDigit(w, p);
  }

  lemma StartsWithDigit(w: string, p: string)
    requires AllDigits(w) && w != ""
    ensures w + "." + p != "" && (w + "." + p)[0] != '-'
  {
    assert IsDigit(w[0]);
  }

  /** With cents, the printed rate reads back exactly. */
  lemma CentsComeBack(c: int)
    requires Abs(c) % 100 != 0
    ensures ParseDecimal(FormatCents(c)) == Some(Dec(c, 2))
  {
    hide *;
    var n, cc := Abs(c) / 100, Abs(c) % 100;
    CentsText(c);
    CentsRead(n, cc);
    ParseVia(FormatCents(c));
    SignMarks(c);
    GroupedMarks(n);
    UnifiedSigned(Sign(c), Grouped(n), Padded(cc, 2));
    SignedOf(Sign(c), Without(Grouped(n), '.') + "." + Padded(cc, 2));
  }

  /** A whole amount below a thousand has neither mark. */
  lemma SmallComesBack(c: int)
    requires Abs(c) % 100 == 0 && Abs(c) < 100000
    ensures ParseDecimal(FormatCents(c)) == Some(Dec(c / 100, 0)) && c == c / 100 * 100
  {
    var n := Abs(c) / 100;
    WholeText(c);
    ParseVia(FormatCents(c));
    ReadDigits(n);
    UnsignedPlain(Digits(n));
    SignMarks(c);
    SignedOf(Sign(c), Grouped(n));
    assert Grouped(n) == Digits(n);
    hide *;
    assert c / 100 == if c < 0 then -n else n;
  }

  /** Whole thousands: one point makes them thousandths of themselves, more make them unreadable. */
  lemma ThousandsMisread(c: int)
    requires Abs(c) % 100 == 0 && Abs(c) >= 100000
    ensures ParseDecimal(FormatCents(c))
         == if Abs(c) < 100000000 then Some(Dec(c / 100, 3)) else None
  {
    hide *;
    var n := Abs(c) / 100;
    WholeText(c);
    ParseVia(FormatCents(c));
    SignMarks(c);
    assert 1000 <= n && (n < 1000000 <==> Abs(c) < 100000000);
    GroupedUnsigned(n);
    assert Grouped(n)[0] != '-' by {
      GroupedStarts(n);
    }
    SignedOf(Sign(c), Grouped(n));
    assert c / 100 == if c < 0 then -n else n;
  }

  lemma WholeText(c: int)
    requires Abs(c) % 100 == 0
    ensures FormatCents(c) == Sign(c) + Grouped(Abs(c) / 100)
    ensures Token(FormatCents(c)) == Some(FormatCents(c)) && Unified(FormatCents(c)) == FormatCents(c)
  {
    var g := Grouped(Abs(c) / 100);
    GroupedMarks(Abs(c) / 100);
    SignMarks(c);
    TokenWhole(Sign(c), g);
    hide Token, Grouped, Without, Sign;
    assert Sign(c) + g + "" == Sign(c) + g;
  }

  lemma GroupedStarts(n: nat)
    ensures Grouped(n) != "" && Grouped(n)[0] != '-'
  {
    hide Grouped;
  }

  lemma GroupedUnsigned(n: nat)
    requires n >= 1000
    ensures Unsigned(Grouped(n)) == if n < 1000000 then Some(Dec(n, 3)) else None
  {
    var front, tail := Grouped(n / 1000), Padded(n % 1000, 3);
    if n < 1000000 {
      ReadDigits(n / 1000);
      ThreeDigits();
      ReadAfter(front, n % 1000, 3);
      assert AllDigits(front);
      hide Read, AllDigits;
      UnsignedWithPoint(front, tail);
    } else {
      assert n / 1000 / 1000 == n / 1000000;
      var first, rest := Grouped(n / 1000000), Padded(n / 1000 % 1000, 3);
      assert Grouped(n) == front + "." + tail && front == first + "." + rest;
      hide *;
      var g := front + "." + tail;
      assert g[|first|] == front[|first|] == '.' && g[|front|] == '.';
      TwoPoints(g, |first|, |front|);
    }
  }

  /** Printing a rate and reading it back gives the rounded rate exactly when it has cents or is below
      a thousand. */
  lemma PrintedRateComesBackExactly(d: Dec)
    ensures var c := RoundHalfUp(d);
      var back := ParseDecimal(FormatCents(c));
      (back.Some? && SameValue(back.value, Dec(c, 2))) <==> Abs(c) % 100 != 0 || Abs(c) < 100000
  {
    var c := RoundHalfUp(d);
    ThreeDigits();
    hide ParseDecimal, FormatCents, RoundHalfUp;
    if Abs(c) % 100 != 0 {
      CentsComeBack(c);
    } else if Abs(c) < 100000 {
      SmallComesBack(c);
    } else {
      ThousandsMisread(c);
    }
  }

  // ---------------------------------------------------------------- stored rates

  /** Without trailing zeros: `normalize`. */
  function Trim(d: Dec): (r: Dec)
    requires d.units > 0
    ensures r.units > 0
    decreases d.scale
  {
    if d.scale > 0 && d.units % 10 == 0 then Trim(Dec(d.units / 10, d.scale - 1)) else d
  }

  /** What stands before the last `width` digits. */
  function Chop(n: nat, width: nat): nat {
    if width == 0 then n else Chop(n / 10, width - 1)
  }

  /** Fixed-point notation. */
  function Plain(d: Dec): string
    requires d.units >= 0
  {
    Digits(Chop(d.units, d.scale)) + (if d.scale == 0 then "" else "." + Padded(d.units, d.scale))
  }

  /** `normalize_rate_setting_value`: no number gives the empty text, a number that is not positive an
      error. */
  function NormalizeSetting(text: string): Option<string> {
    var d := ParseDecimal(text);
    if d.None? then Some("")
    else if d.value.units <= 0 then None
    else Some(Plain(Trim(d.value)))
  }

  lemma {:induction false} TrimKeepsValue(d: Dec)
    requires d.units > 0
    ensures SameValue(Trim(d), d) && Trim(Trim(d)) == Trim(d)
    decreases d.scale
  {
    if d.scale > 0 && d.units % 10 == 0 {
      var less := Dec(d.units / 10, d.scale - 1);
      TrimKeepsValue(less);
      var t := Trim(d);
      assert t.units * Pow10(d.scale) == t.units * Pow10(d.scale - 1) * 10 by {
        Shift(t.units, d.scale);
      }
      assert d.units * Pow10(t.scale) == less.units * Pow10(t.scale) * 10;
    }
  }

  lemma {:induction false} ChopRejoins(n: nat, width: nat)
    ensures AllDigits(Digits(Chop(n, width)) + Padded(n, width)) && Read(Digits(Chop(n, width)) + Padded(n, width)) == n
  {
    if width == 0 {
      ReadDigits(n);
      assert Digits(n) + "" == Digits(n);
    } else {
      ChopRejoins(n / 10, width - 1);
      var front := Digits(Chop(n, width)) + Padded(n / 10, width - 1);
      ReadGrows(front, DigitOf(n % 10));
      assert Digits(Chop(n, width)) + Padded(n, width) == front + [DigitOf(n % 10)];
    }
  }

  lemma PlainUnsigned(d: Dec)
    requires d.units >= 0
    ensures Unsigned(Plain(d)) == Some(d)
  {
    var whole, part := Digits(Chop(d.units, d.scale)), Padded(d.units, d.scale);
    ChopRejoins(d.units, d.scale);
    hide Read, AllDigits, Digits, Padded, Unsigned;
    if d.scale == 0 {
      assert whole + part == whole && whole + "" == whole;
      UnsignedPlain(whole);
    } else {
      assert Plain(d) == whole + ("." + part) == whole + "." + part;
      UnsignedWithPoint(whole, part);
    }
  }

  lemma PlainText(d: Dec)
    requires d.units >= 0
    ensures var t := Plain(d);
      t != "" && IsDigit(t[0]) && ',' !in t && Token(t) == Some(t)
  {
    var whole, part := Digits(Chop(d.units, d.scale)), Padded(d.units, d.scale);
    DigitsHaveNoMarks(whole);
    DigitsHaveNoMarks(part);
    hide Token, Digits, Padded, Chop;
    var t := Plain(d);
    assert t[0] == whole[0];
    assert AllInToken(t);
    TokenWhole("", t);
    assert "" + t == t;
  }

  /** Fixed-point notation reads back digit by digit. */
  lemma PlainComesBack(d: Dec)
    requires d.units >= 0
    ensures ParseDecimal(Plain(d)) == Some(d)
  {
    PlainText(d);
    PlainUnsigned(d);
    var t := Plain(d);
    hide Plain, Token, Unsigned;
    ParseVia(t);
    SignedOf("", t);
    assert "" + t == t;
  }

  /** Normalising a positive rate keeps its value, and normalising it again changes nothing. */
  lemma NormalizeSettles(text: string)
    requires ParseDecimal(text).Some? && ParseDecimal(text).value.units > 0
    ensures var t := NormalizeSetting(text);
      && t.Some? && NormalizeSetting(t.value) == t
      && ParseDecimal(t.value).Some? && SameValue(ParseDecimal(t.value).value, ParseDecimal(text).value)
  {
    var d := ParseDecimal(text).value;
    TrimKeepsValue(d);
    PlainComesBack(Trim(d));
    hide ParseDecimal, Plain, Trim, SameValue;
  }
}
