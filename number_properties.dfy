/** What `Number::from_str` accepts, and how integer literals read back what is displayed. */
module NumberProperties {
  import opened Common
  import opened Numbers

  // ---------------------------------------------------------------------------
  // Digit strings

  lemma DigitsValueAppend(ds: string, c: char, radix: nat)
    ensures DigitsValue(ds + [c], radix) == DigitsValue(ds, radix) * radix + DigitValue(c)
  {
    assert (ds + [c])[..|ds|] == ds;
  }

  /** The decimal digits of `n` read back as `n`. */
  lemma {:induction false} DecimalTextValue(n: nat)
    ensures DigitsValue(DecimalText(n), 10) == n
    decreases n
  {
    if n >= 10 {
      DecimalTextValue(n / 10);
      DigitsValueAppend(DecimalText(n / 10), DecimalDigit(n % 10), 10);
    }
  }

  /** A plain digit string has none of the characters that steer `from_str` elsewhere. */
  lemma PlainDigits(ds: string)
    requires ds != [] && AllDigits(ds, 10)
    ensures '_' !in ds && '_' !in "-" + ds
    ensures !LooksLikeDecimal(ds) && !HasPrefix(ds, "0b") && !HasPrefix(ds, "0x")
    ensures AsciiLower(ds) != "nan"
    ensures ds[0] != '+' && ds[0] != '-'
    ensures ds != "+nan" && ds != "+inf" && ds != "-inf"
    ensures "-" + ds != "+nan" && "-" + ds != "+inf" && "-" + ds != "-inf"
  {
    if |ds| >= 2 {
      assert DigitValue(ds[1]) < 10;
    }
    if |ds| == 3 {
      assert DigitValue(ds[0]) < 10;
      assert AsciiLower(ds)[0] == ds[0];
    }
    assert ("-" + ds)[1] == ds[0];
    assert DigitValue(ds[0]) < 10;
  }

  /** An unsigned run of decimal digits that fits in 128 bits is stored as `U128`. */
  lemma IntegerIsU128(ds: string, floats: FloatParser, rule: NegationRule)
    requires ds != [] && AllDigits(ds, 10)
    ensures DigitsValue(ds, 10) <= MaxU128 ==> FromStr(ds, floats, rule) == Ok(U128(DigitsValue(ds, 10)))
    ensures DigitsValue(ds, 10) > MaxU128 ==> (FromStr(ds, floats, rule) ==
      match floats(ds) case None => Err(NumberError) case Some(f) => Ok(F64(f)))
  {
    PlainDigits(ds);
  }

  /** A negative literal: the sign is stripped, the rest read, and the result negated. */
  lemma NegativeLiteral(ds: string, floats: FloatParser, rule: NegationRule)
    requires ds != [] && AllDigits(ds, 10) && DigitsValue(ds, 10) <= MaxU128
    ensures FromStr("-" + ds, floats, rule) ==
      match NegateLiteral(U128(DigitsValue(ds, 10)), rule) case None => Err(TooSmallError) case Some(m) => Ok(m)
  {
    PlainDigits(ds);
    assert ("-" + ds)[1..] == ds;
    assert Unsigned(ds, floats) == Ok(U128(DigitsValue(ds, 10)));
  }

  /** Negating a non-negative literal value under either rule. */
  lemma NegateDecimal(v: int, rule: NegationRule)
    requires 0 <= v <= MaxU128
    ensures rule == RejectMin ==> NegateLiteral(U128(v), rule) == if v <= MaxI128 then Some(I128(-v)) else None
    ensures rule == AcceptMin ==> NegateLiteral(U128(v), rule) == if v <= -MinI128 then Some(I128(-v)) else None
  {
  }

  /**
   * A `-` and a run of decimal digits: the negated value when it is at least
   * `-i128::MAX`, and "Number too small" below that, `i128::MIN` included.
   */
  lemma NegativeInteger(ds: string, floats: FloatParser)
    requires ds != [] && AllDigits(ds, 10) && DigitsValue(ds, 10) <= MaxU128
    ensures var v: int := DigitsValue(ds, 10);
      FromStr("-" + ds, floats, RejectMin) == if v <= MaxI128 then Ok(I128(-v)) else Err(TooSmallError)
    ensures var v: int := DigitsValue(ds, 10);
      FromStr("-" + ds, floats, AcceptMin) == if v <= -MinI128 then Ok(I128(-v)) else Err(TooSmallError)
  {
    var v: int := DigitsValue(ds, 10);
    assert FromStr("-" + ds, floats, RejectMin) == if v <= MaxI128 then Ok(I128(-v)) else Err(TooSmallError) by {
      NegativeLiteral(ds, floats, RejectMin);
      NegateDecimal(v, RejectMin);
    }
    assert FromStr("-" + ds, floats, AcceptMin) == if v <= -MinI128 then Ok(I128(-v)) else Err(TooSmallError) by {
      NegativeLiteral(ds, floats, AcceptMin);
      NegateDecimal(v, AcceptMin);
    }
  }

  // ---------------------------------------------------------------------------
  // Display, then from_str

  /** What `from_str` makes of the displayed form of an integer. */
  lemma ReadDisplayed(n: Number, floats: FloatParser, rule: NegationRule)
    requires IsInteger(n)
    ensures IntValue(n) >= 0 ==> FromStr(IntegerText(n), floats, rule) == Ok(U128(IntValue(n)))
    ensures IntValue(n) < 0 ==> (FromStr(IntegerText(n), floats, rule) ==
      match NegateLiteral(U128(-IntValue(n)), rule) case None => Err(TooSmallError) case Some(m) => Ok(m))
  {
    var v := IntValue(n);
    var ds := DecimalText(if v < 0 then -v else v);
    DecimalTextValue(if v < 0 then -v else v);
    PlainDigits(ds);
    if v < 0 {
      assert IntegerText(n) == "-" + ds;
      assert ("-" + ds)[1..] == ds;
    }
  }

  /** As written, every integer but `i128::MIN` reads back from its displayed form. */
  lemma DisplayRoundTripAsWritten(n: Number, floats: FloatParser)
    requires IsInteger(n) && IntValue(n) != MinI128
    ensures FromStr(IntegerText(n), floats, RejectMin).Ok?
    ensures var m := FromStr(IntegerText(n), floats, RejectMin).value; IsInteger(m) && NumberEq(m, n)
  {
    ReadDisplayed(n, floats, RejectMin);
    IntegerEquality(FromStr(IntegerText(n), floats, RejectMin).value, n);
  }

  /** As written, `i128::MIN` is displayed as a literal that does not read back. */
  lemma MinLiteralRejected(floats: FloatParser)
    ensures IntegerText(I128(MinI128)) == "-" + DecimalText(-MinI128)
    ensures FromStr(IntegerText(I128(MinI128)), floats, RejectMin) == Err(TooSmallError)
  {
    ReadDisplayed(I128(MinI128), floats, RejectMin);
  }

  /** With `i128::MIN` accepted, every integer reads back from its displayed form. */
  lemma DisplayRoundTrip(n: Number, floats: FloatParser)
    requires IsInteger(n)
    ensures FromStr(IntegerText(n), floats, AcceptMin).Ok?
    ensures var m := FromStr(IntegerText(n), floats, AcceptMin).value; IsInteger(m) && NumberEq(m, n)
  {
    ReadDisplayed(n, floats, AcceptMin);
    IntegerEquality(FromStr(IntegerText(n), floats, AcceptMin).value, n);
  }

  // ---------------------------------------------------------------------------
  // Underscores, specials and NaN

  /** Underscores are dropped before anything else is looked at. */
  lemma UnderscoresIgnored(s: string, floats: FloatParser, rule: NegationRule)
    ensures FromStr(s, floats, rule) == FromStr(WithoutUnderscores(s), floats, rule)
  {
  }

  /** Exactly `+nan`, `+inf` and `-inf` are the special literals, all stored as `f32`. */
  lemma SpecialLiterals(floats: FloatParser, rule: NegationRule)
    ensures FromStr("+nan", floats, rule) == Ok(F32(Float(false, NaN)))
    ensures FromStr("+inf", floats, rule) == Ok(F32(Float(false, Infinity)))
    ensures FromStr("-inf", floats, rule) == Ok(F32(Float(true, Infinity)))
  {
  }

  /** Any other casing or sign of `nan` is refused with a hint. */
  lemma NanNeedsPlus(t: string, floats: FloatParser, rule: NegationRule)
    requires AsciiLower(t) == "nan"
    ensures FromStr(t, floats, rule) == Err(NanError)
    ensures FromStr("-" + t, floats, rule) == Err(NanError)
    ensures t != "nan" ==> FromStr("+" + t, floats, rule) == Err(NanError)
  {
    assert |t| == 3;
    assert t[0] in "nN" && t[1] in "aA" && t[2] in "nN" by {
      assert AsciiLower(t)[0] == 'n' && AsciiLower(t)[1] == 'a' && AsciiLower(t)[2] == 'n';
    }
    assert '_' !in t;
    assert ("-" + t)[1..] == t && ("+" + t)[1..] == t;
    assert '_' !in "-" + t && '_' !in "+" + t;
    if "+" + t == "+nan" {
      assert t == ("+" + t)[1..] == "nan";
    }
  }

  // ---------------------------------------------------------------------------
  // Examples

  lemma DecimalExample()
    ensures DigitsValue("123456789", 10) == 123456789
  {
    DigitsValueAppend("", '1', 10);
    assert "" + ['1'] == "1";
    DigitsValueAppend("1", '2', 10);
    assert "1" + ['2'] == "12";
    DigitsValueAppend("12", '3', 10);
    assert "12" + ['3'] == "123";
    DigitsValueAppend("123", '4', 10);
    assert "123" + ['4'] == "1234";
    DigitsValueAppend("1234", '5', 10);
    assert "1234" + ['5'] == "12345";
    DigitsValueAppend("12345", '6', 10);
    assert "12345" + ['6'] == "123456";
    DigitsValueAppend("123456", '7', 10);
    assert "123456" + ['7'] == "1234567";
    DigitsValueAppend("1234567", '8', 10);
    assert "1234567" + ['8'] == "12345678";
    DigitsValueAppend("12345678", '9', 10);
    assert "12345678" + ['9'] == "123456789";
  }

  lemma BinaryExample()
    ensures DigitsValue("101010", 2) == 42
  {
    DigitsValueAppend("", '1', 2);
    assert "" + ['1'] == "1";
    DigitsValueAppend("1", '0', 2);
    assert "1" + ['0'] == "10";
    DigitsValueAppend("10", '1', 2);
    assert "10" + ['1'] == "101";
    DigitsValueAppend("101", '0', 2);
    assert "101" + ['0'] == "1010";
    DigitsValueAppend("1010", '1', 2);
    assert "1010" + ['1'] == "10101";
    DigitsValueAppend("10101", '0', 2);
    assert "10101" + ['0'] == "101010";
  }

  lemma {:induction false} WithoutUnderscoresAppend(a: string, b: string)
    ensures WithoutUnderscores(a + b) == WithoutUnderscores(a) + WithoutUnderscores(b)
    decreases |a|
  {
    if a == [] {
      assert a + b == b;
    } else {
      var ab := a + b;
      assert ab[0] == a[0] && ab[1..] == a[1..] + b;
      var head := if a[0] == '_' then [] else [a[0]];
      var restA, restB := WithoutUnderscores(a[1..]), WithoutUnderscores(b);
      WithoutUnderscoresAppend(a[1..], b);
      calc {
        WithoutUnderscores(ab);
        head + WithoutUnderscores(ab[1..]);
        head + (restA + restB);
        (head + restA) + restB;
      }
    }
  }

  /** Three groups of characters separated by underscores lose the underscores. */
  lemma SeparatedGroups(x: string, y: string, z: string)
    requires '_' !in x && '_' !in y && '_' !in z
    ensures WithoutUnderscores(x + "_" + y + "_" + z) == x + y + z
  {
    var u := "_";
    assert WithoutUnderscores(u) == [] by {
      assert u[1..] == [];
    }
    var xu := x + u;
    var xuy := xu + y;
    var xuyu := xuy + u;
    WithoutUnderscoresAppend(x, u);
    assert WithoutUnderscores(xu) == x;
    WithoutUnderscoresAppend(xu, y);
    assert WithoutUnderscores(xuy) == x + y;
    WithoutUnderscoresAppend(xuy, u);
    assert WithoutUnderscores(xuyu) == x + y;
    WithoutUnderscoresAppend(xuyu, z);
  }

  /** Digit groups joined by underscores read as the digits alone. */
  lemma GroupedDigits(x: string, y: string, z: string, floats: FloatParser, rule: NegationRule)
    requires '_' !in x && '_' !in y && '_' !in z
    ensures FromStr(x + "_" + y + "_" + z, floats, rule) == FromStr(x + y + z, floats, rule)
  {
    SeparatedGroups(x, y, z);
    assert '_' in x + "_" + y + "_" + z by {
      assert (x + "_" + y + "_" + z)[|x|] == '_';
    }
  }

  /** `123_456_789` reads as 123456789. */
  lemma ThousandsSeparators(x: string, y: string, z: string, floats: FloatParser, rule: NegationRule)
    requires x == "123" && y == "456" && z == "789"
    ensures FromStr(x + "_" + y + "_" + z, floats, rule) == Ok(U128(123456789))
  {
    GroupedDigits(x, y, z, floats, rule);
    DecimalExample();
    assert x + y + z == "123456789";
    IntegerIsU128("123456789", floats, rule);
  }

  /** A `-` before a body with no underscore: `-inf`, the `nan` error, or the body read and then negated. */
  lemma MinusThenBody(body: string, floats: FloatParser, rule: NegationRule)
    requires '_' !in body
    ensures var u := Unsigned(body, floats);
      FromStr("-" + body, floats, rule) ==
        if body == "inf" then Ok(F32(Float(true, Infinity)))
        else if AsciiLower(body) == "nan" then Err(NanError)
        else if u.Err? then Err(u.error)
        else if NegateLiteral(u.value, rule).None? then Err(TooSmallError)
        else Ok(NegateLiteral(u.value, rule).value)
  {
    var s := "-" + body;
    assert s[0] == '-' && s[1..] == body;
    assert '_' !in s by {
      forall k | 0 <= k < |s| ensures s[k] != '_' {
        if k > 0 {
          assert s[k] == body[k - 1];
        }
      }
    }
    assert s != "+nan" && s != "+inf" by {
      assert s[0] != "+nan"[0];
    }
    assert s == "-inf" <==> body == "inf" by {
      if s == "-inf" {
        assert body == s[1..] == "-inf"[1..] == "inf";
      }
    }
  }

  lemma NegativeBinary(floats: FloatParser, rule: NegationRule)
    ensures FromStr("-0b101010", floats, rule) == Ok(I128(-42))
  {
    var body := "0b101010";
    assert "-0b101010" == "-" + body;
    assert Unsigned(body, floats) == Ok(U128(42)) by {
      assert body[2..] == "101010" && HasPrefix(body, "0b");
      BinaryExample();
      assert ParseRadix("101010", 2) == Some(42);
    }
    MinusThenBody(body, floats, rule);
    NegateDecimal(42, rule);
  }

  lemma Hexadecimal(floats: FloatParser, rule: NegationRule)
    ensures FromStr("0x1f", floats, rule) == Ok(U128(31))
  {
    assert "0x1f"[2..] == "1f" && HasPrefix("0x1f", "0b") == false && HasPrefix("0x1f", "0x");
    assert DigitsValue("1f", 16) == 31 by {
      DigitsValueAppend("", '1', 16);
      assert "" + ['1'] == "1";
      DigitsValueAppend("1", 'f', 16);
      assert "1" + ['f'] == "1f";
    }
    assert Unsigned("0x1f", floats) == Ok(U128(31));
  }

  /** `-0` is stored as the `i128` zero, equal to the `u128` zero. */
  lemma MinusZero(floats: FloatParser, rule: NegationRule)
    ensures FromStr("-0", floats, rule) == Ok(I128(0))
    ensures FromStr("0", floats, rule) == Ok(U128(0))
  {
    assert DigitsValue("0", 10) == 0;
    NegativeLiteral("0", floats, rule);
    IntegerIsU128("0", floats, rule);
  }
}
