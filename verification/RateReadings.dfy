/** How rates written in other ways are read: amid other text, with commas between thousands, and in
    the settings. */
module RateReadings {
  import opened Common
  import opened Rates

  // ---------------------------------------------------------------- amid other text

  predicate NoDigits(s: string) {
    forall i :: 0 <= i < |s| ==> !IsDigit(s[i])
  }

  lemma {:induction false} ReachStops(s: string, tail: string)
    requires AllInToken(s) && (tail == "" || !InToken(tail[0]))
    ensures Reach(s + tail) == |s|
  {
    if s == "" {
      assert s + tail == tail;
    } else {
      ReachStops(s[1..], tail);
      assert (s + tail)[1..] == s[1..] + tail;
    }
  }

  lemma TokenHere(sign: string, s: string, tail: string)
    requires (sign == "" || sign == "-") && s != "" && IsDigit(s[0]) && AllInToken(s)
    requires tail == "" || !InToken(tail[0])
    ensures Token(sign + s + tail) == Some(sign + s)
  {
    ReachStops(s, tail);
    var t := sign + s + tail;
    if sign == "" {
      assert t == s + tail;
      assert t[..|s|] == s == sign + s;
    } else {
      assert t[1..] == s + tail;
      assert t[..1 + |s|] == sign + s;
    }
  }

  /** The number read is the first in the text, with a minus right before it, whatever stands around. */
  lemma {:induction false} TokenFound(before: string, sign: string, s: string, tail: string)
    requires NoDigits(before) && (sign == "" ==> before == "" || before[|before| - 1] != '-')
    requires (sign == "" || sign == "-") && s != "" && IsDigit(s[0]) && AllInToken(s)
    requires tail == "" || !InToken(tail[0])
    ensures Token(before + (sign + s + tail)) == Some(sign + s)
  {
    var rest := sign + s + tail;
    if before == "" {
      assert before + rest == rest;
      TokenHere(sign, s, tail);
    } else {
      TokenFound(before[1..], sign, s, tail);
      var t := before + rest;
      assert t[1..] == before[1..] + rest;
      if |before| == 1 {
        assert t[1] == rest[0];
      } else {
        assert t[1] == before[1];
      }
    }
  }

  // ---------------------------------------------------------------- commas between thousands

  /** The English way: commas between thousands. */
  function English(n: nat): (s: string)
    ensures s != "" && IsDigit(s[0])
  {
    if n < 1000 then Digits(n) else English(n / 1000) + "," + Padded(n % 1000, 3)
  }

  lemma {:induction false} EnglishMarks(n: nat)
    ensures AllInToken(English(n)) && '.' !in English(n)
  {
    if n < 1000 {
      DigitsHaveNoMarks(Digits(n));
    } else {
      EnglishMarks(n / 1000);
      DigitsHaveNoMarks(Padded(n % 1000, 3));
    }
  }

  lemma CommasDropped(front: string, tail: string)
    requires AllDigits(tail)
    ensures Without(front + "," + tail, ',') == Without(front, ',') + tail
  {
    DigitsHaveNoMarks(tail);
    WithoutNone(tail, ',');
    assert ","[1..] == "" && Without(",", ',') == "";
    hide Without;
    WithoutJoins(front + ",", tail, ',');
    WithoutJoins(front, ",", ',');
    assert Without(front, ',') + "" == Without(front, ',');
  }

  lemma {:induction false} EnglishDigits(n: nat)
    ensures var d := Without(English(n), ','); AllDigits(d) && Read(d) == n && d != ""
  {
    if n < 1000 {
      DigitsHaveNoMarks(Digits(n));
      WithoutNone(Digits(n), ',');
      ReadDigits(n);
    } else {
      var front, tail := English(n / 1000), Padded(n % 1000, 3);
      assert English(n) == front + "," + tail;
      EnglishDigits(n / 1000);
      hide English, Padded, Read, Without, AllDigits;
      CommasDropped(front, tail);
      ThreeDigits();
      ReadAfter(Without(front, ','), n % 1000, 3);
    }
  }

  lemma PointIsLast(a: string, p: string)
    requires '.' !in a && AllDigits(p)
    ensures var t := a + "." + p; '.' in t && LastIndex(t, '.') > LastIndex(t, ',')
  {
    var t := a + "." + p;
    assert t[|a|] == '.';
    forall i | |a| < i < |t|
      ensures t[i] != '.' && t[i] != ','
    {
      assert t[i] == p[i - |a| - 1];
    }
  }

  lemma CommasGone(a: string, p: string)
    requires AllDigits(p)
    ensures Without(a + "." + p, ',') == Without(a, ',') + "." + p
  {
    DigitsHaveNoMarks(p);
    WithoutJoins(a + ".", p, ',');
    WithoutJoins(a, ".", ',');
    WithoutNone(p, ',');
    WithoutNone(".", ',');
  }

  /** With a point before the last digits, commas before it go and the point stays. */
  lemma UnifiedPoint(a: string, p: string)
    requires '.' !in a && AllDigits(p)
    ensures Unified(a + "." + p) == Without(a, ',') + "." + p
  {
    PointIsLast(a, p);
    CommasGone(a, p);
    var t := a + "." + p;
    if ',' !in t {
      WithoutNone(t, ',');
    }
    hide Without, CommaToPoint, LastIndex;
  }

  lemma TextWithPoint(sign: string, g: string, p: string)
    requires (sign == "" || sign == "-") && g != "" && IsDigit(g[0]) && AllInToken(g) && AllDigits(p)
    ensures Token(sign + (g + "." + p)) == Some(sign + (g + "." + p))
  {
    DigitsHaveNoMarks(p);
    var body := g + "." + p;
    assert AllInToken(body) && body[0] == g[0];
    hide Token, AllInToken, AllDigits;
    TokenWhole(sign, body);
  }

  lemma UnifiedAsWritten(sign: string, g: string, p: string)
    requires (sign == "" || sign == "-") && '.' !in g && AllDigits(p)
    ensures Unified(sign + (g + "." + p)) == sign + (Without(g, ',') + "." + p)
  {
    hide Unified, AllDigits;
    UnifiedPoint(sign + g, p);
    WithoutJoins(sign, g, ',');
    WithoutNone(sign, ',');
    hide Without;
    Regroup(sign, g, p);
    Regroup(sign, Without(g, ','), p);
  }

  lemma EnglishCents(n: nat, cc: nat)
    requires cc < 100
    ensures var w, p := Without(English(n), ','), Padded(cc, 2);
      w + "." + p != "" && (w + "." + p)[0] != '-' && Unsigned(w + "." + p) == Some(Dec(n * 100 + cc, 2))
  {
    EnglishDigits(n);
    hide English, Without;
    ReadsWithCents(Without(English(n), ','), cc);
  }

  /** A rate with commas between thousands and a point before two digits of cents, "1,234.56" for one,
      is read as it is meant. */
  lemma EnglishRead(negative: bool, n: nat, cc: nat)
    requires cc < 100
    ensures var text := (if negative then "-" else "") + (English(n) + "." + Padded(cc, 2));
      ParseDecimal(text) == Some(Dec(if negative then -(n * 100 + cc) else n * 100 + cc, 2))
  {
    hide *;
    var sign, g, p := if negative then "-" else "", English(n), Padded(cc, 2);
    EnglishMarks(n);
    TextWithPoint(sign, g, p);
    UnifiedAsWritten(sign, g, p);
    ParseVia(sign + (g + "." + p));
    EnglishCents(n, cc);
    SignedOf(sign, Without(g, ',') + "." + p);
  }

  lemma TwoCommas(a: string, b: string, c: string)
    requires AllDigits(b) && AllDigits(c)
    ensures Unsigned(CommaToPoint(a + "," + b + "," + c)).None?
  {
    var s := a + "," + b + "," + c;
    CommaPlaces(s);
    var t := CommaToPoint(s);
    assert s[|a|] == ',' && s[|a| + 1 + |b|] == ',';
    TwoPoints(t, |a|, |a| + 1 + |b|);
  }

  lemma {:induction false} CommaPlaces(s: string)
    ensures |CommaToPoint(s)| == |s|
    ensures forall i :: 0 <= i < |s| ==> CommaToPoint(s)[i] == if s[i] == ',' then '.' else s[i]
  {
    if s != "" {
      CommaPlaces(s[1..]);
    }
  }

  /** But whole thousands written so are taken for a decimal comma: one comma makes them thousandths of
      themselves, more make them unreadable. */
  lemma EnglishThousandsMisread(n: nat)
    requires n >= 1000
    ensures ParseDecimal(English(n)) == if n < 1000000 then Some(Dec(n, 3)) else None
  {
    var front, tail := English(n / 1000), Padded(n % 1000, 3);
    var g := English(n);
    assert g == front + "," + tail;
    assert g[|front|] == ',';
    EnglishMarks(n);
    TokenWhole("", g);
    assert "" + g == g;
    WithoutNone(g, '.');
    assert Unified(g) == CommaToPoint(g);
    EnglishUnsigned(n);
    assert g[0] != ',' && CommaToPoint(g)[0] == g[0];
    hide Token, English, Padded, Unsigned, Unified, CommaToPoint;
    ParseVia(g);
    SignedOf("", CommaToPoint(g));
    assert "" + CommaToPoint(g) == CommaToPoint(g);
  }

  lemma EnglishUnsigned(n: nat)
    requires n >= 1000
    ensures Unsigned(CommaToPoint(English(n))) == if n < 1000000 then Some(Dec(n, 3)) else None
  {
    var tail := Padded(n % 1000, 3);
    if n < 1000000 {
      assert English(n) == Digits(n / 1000) + "," + tail;
      hide English;
      OneComma(n);
    } else {
      assert n / 1000 / 1000 == n / 1000000;
      var first, rest := English(n / 1000000), Padded(n / 1000 % 1000, 3);
      assert English(n) == English(n / 1000) + "," + tail && English(n / 1000) == first + "," + rest;
      hide *;
      TwoCommas(first, rest, tail);
    }
  }

  lemma ReadsTogether(n: nat)
    ensures AllDigits(Digits(n / 1000) + Padded(n % 1000, 3)) && Read(Digits(n / 1000) + Padded(n % 1000, 3)) == n
  {
    hide *;
    ReadDigits(n / 1000);
    ThreeDigits();
    ReadAfter(Digits(n / 1000), n % 1000, 3);
    assert n / 1000 * 1000 + n % 1000 == n;
  }

  lemma OneComma(n: nat)
    requires 1000 <= n < 1000000
    ensures Unsigned(CommaToPoint(Digits(n / 1000) + "," + Padded(n % 1000, 3))) == Some(Dec(n, 3))
  {
    hide *;
    var front, tail := Digits(n / 1000), Padded(n % 1000, 3);
    ReadsTogether(n);
    DigitsHaveNoMarks(front);
    CommaTurned(front, tail);
    UnsignedWithPoint(front, tail);
  }

  // ---------------------------------------------------------------- in the settings

  lemma {:induction false} TrimEnds(d: Dec)
    requires d.units > 0
    ensures Trim(d).scale == 0 || Trim(d).units % 10 != 0
    decreases d.scale
  {
    if d.scale > 0 && d.units % 10 == 0 {
      TrimEnds(Dec(d.units / 10, d.scale - 1));
    }
  }

  lemma PlainEnds(d: Dec)
    requires d.units >= 0
    ensures d.scale == 0 ==> '.' !in Plain(d)
    ensures d.scale > 0 ==> Plain(d)[|Plain(d)| - 1] == DigitOf(d.units % 10)
  {
    var whole := Digits(Chop(d.units, d.scale));
    DigitsHaveNoMarks(whole);
    if d.scale == 0 {
      assert whole + "" == whole;
    }
  }

  /** A setting is refused exactly when it reads as a number that is not positive, and emptied exactly
      when it reads as no number; else it is stored without needless zeros behind its point. */
  lemma SettingExactly(text: string)
    ensures var (d, t) := (ParseDecimal(text), NormalizeSetting(text));
      && (t == None <==> d.Some? && d.value.units <= 0)
      && (t == Some("") <==> d.None?)
      && (t.Some? && '.' in t.value ==> t.value[|t.value| - 1] != '0')
  {
    var d := ParseDecimal(text);
    if d.Some? && d.value.units > 0 {
      TrimEnds(d.value);
      PlainEnds(Trim(d.value));
      PlainText(Trim(d.value));
      assert ValueOf(DigitOf(Trim(d.value).units % 10)) == Trim(d.value).units % 10;
      assert ValueOf('0') == 0;
    }
    hide ParseDecimal, Plain, Trim;
  }
}
