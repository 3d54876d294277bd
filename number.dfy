/**
 * Eon's `Number`: an integer held as `i128` or `u128`, or a float. Literal
 * parsing, negation, the integer narrowing accessors, and equality and hashing
 * across the two integer representations.
 *
 * Floats are opaque here: a sign and a magnitude, the magnitude being NaN,
 * infinity, or a finite value carried as the shortest text that reads back to
 * it. Reading a float literal is the standard library's job and is a
 * parameter of the parser.
 */
module Numbers {
  import opened Common

  const MinI128: int := -0x8000_0000_0000_0000_0000_0000_0000_0000
  const MaxI128: int := 0x7FFF_FFFF_FFFF_FFFF_FFFF_FFFF_FFFF_FFFF
  const MaxU128: int := 0xFFFF_FFFF_FFFF_FFFF_FFFF_FFFF_FFFF_FFFF
  const MinI64: int := -0x8000_0000_0000_0000
  const MaxI64: int := 0x7FFF_FFFF_FFFF_FFFF
  const MaxU64: int := 0xFFFF_FFFF_FFFF_FFFF

  type Int128 = x: int | -0x8000_0000_0000_0000_0000_0000_0000_0000 <= x <= 0x7FFF_FFFF_FFFF_FFFF_FFFF_FFFF_FFFF_FFFF
  type UInt128 = x: int | 0 <= x <= 0xFFFF_FFFF_FFFF_FFFF_FFFF_FFFF_FFFF_FFFF

  datatype Magnitude = NaN | Infinity | Finite(text: string)
  datatype Float = Float(negative: bool, magnitude: Magnitude)

  datatype Number =
    | I128(i: Int128)
    | U128(u: UInt128)
    | F32(f: Float)
    | F64(f: Float)

  /** Reads a float literal the way `str::parse::<f64>` does; `None` when it is not one. */
  type FloatParser = string -> Option<Float>

  predicate IsInteger(n: Number) {
    n.I128? || n.U128?
  }

  /** The mathematical value of an integer number, whichever way it is stored. */
  function IntValue(n: Number): int
    requires IsInteger(n)
  {
    if n.I128? then n.i else n.u
  }

  // ---------------------------------------------------------------------------
  // Negation

  /**
   * `try_negate`: `None` when the negation does not fit; an integer always
   * becomes an `I128`, a float changes sign.
   */
  function TryNegate(n: Number): (r: Option<Number>)
    ensures IsInteger(n) ==> (r.Some? <==> (n.I128? && n.i != MinI128) || (n.U128? && n.u <= MaxI128))
    ensures IsInteger(n) && r.Some? ==> r.value.I128? && r.value.i == -IntValue(n)
    ensures !IsInteger(n) ==> (r.Some? && !IsInteger(r.value) && (r.value.F32? <==> n.F32?) &&
      r.value.f.magnitude == n.f.magnitude && r.value.f.negative == !n.f.negative)
  {
    match n
    case I128(v) => if v == MinI128 then None else Some(I128(-v))
    case U128(v) => if v <= MaxI128 then Some(I128(-(v as int))) else None
    case F32(f) => Some(F32(Float(!f.negative, f.magnitude)))
    case F64(f) => Some(F64(Float(!f.negative, f.magnitude)))
  }

  /** Negating twice gives back a number equal to the original. */
  lemma NegateTwice(n: Number)
    requires TryNegate(n).Some?
    ensures TryNegate(TryNegate(n).value).Some?
    ensures NumberEq(TryNegate(TryNegate(n).value).value, n)
  {
    var m := TryNegate(n).value;
    if IsInteger(n) {
      IntegerEquality(TryNegate(m).value, n);
    }
  }

  // ---------------------------------------------------------------------------
  // Narrowing accessors

  function AsI64(n: Number): (r: Option<int>)
    ensures IsInteger(n) ==> (r.Some? <==> MinI64 <= IntValue(n) <= MaxI64)
    ensures r.Some? ==> IsInteger(n) && r.value == IntValue(n)
  {
    match n
    case I128(v) => if MinI64 <= v <= MaxI64 then Some(v) else None
    case U128(v) => if v <= MaxI64 then Some(v) else None
    case _ => None
  }

  function AsU64(n: Number): (r: Option<int>)
    ensures IsInteger(n) ==> (r.Some? <==> 0 <= IntValue(n) <= MaxU64)
    ensures r.Some? ==> IsInteger(n) && r.value == IntValue(n)
  {
    match n
    case I128(v) => if 0 <= v <= MaxU64 then Some(v) else None
    case U128(v) => if v <= MaxU64 then Some(v) else None
    case _ => None
  }

  function AsI128(n: Number): (r: Option<int>)
    ensures IsInteger(n) ==> (r.Some? <==> IntValue(n) <= MaxI128)
    ensures r.Some? ==> IsInteger(n) && r.value == IntValue(n)
  {
    match n
    case I128(v) => Some(v)
    case U128(v) => if v <= MaxI128 then Some(v) else None
    case _ => None
  }

  function AsU128(n: Number): (r: Option<int>)
    ensures IsInteger(n) ==> (r.Some? <==> 0 <= IntValue(n))
    ensures r.Some? ==> IsInteger(n) && r.value == IntValue(n)
  {
    match n
    case I128(v) => if 0 <= v then Some(v) else None
    case U128(v) => Some(v)
    case _ => None
  }

  /** The narrower accessors answer only where the wider ones do, with the same value. */
  lemma NarrowingNests(n: Number)
    ensures AsI64(n).Some? ==> AsI128(n) == AsI64(n)
    ensures AsU64(n).Some? ==> AsU128(n) == AsU64(n) && AsI128(n) == AsU64(n)
    ensures IsInteger(n) ==> AsI128(n).Some? || AsU128(n).Some?
  {
  }

  // ---------------------------------------------------------------------------
  // Equality and hashing

  /** Floats compare equal when both are NaN or they are the same value. */
  predicate FloatEq(a: Float, b: Float) {
    (a.magnitude.NaN? && b.magnitude.NaN?) || a == b
  }

  /** `PartialEq`: through `as_i128`, then `as_u128`, then as floats. */
  predicate NumberEq(a: Number, b: Number): (r: bool)
    ensures a == b ==> r
    ensures r ==> IsInteger(a) == IsInteger(b)
  {
    if AsI128(a).Some? && AsI128(b).Some? then AsI128(a).value == AsI128(b).value
    else if AsU128(a).Some? && AsU128(b).Some? then AsU128(a).value == AsU128(b).value
    else !IsInteger(a) && !IsInteger(b) && FloatEq(a.f, b.f)
  }

  /** Two integers are equal exactly when their values are, however each is stored. */
  lemma IntegerEquality(a: Number, b: Number)
    requires IsInteger(a) && IsInteger(b)
    ensures NumberEq(a, b) <==> IntValue(a) == IntValue(b)
  {
    if IntValue(a) == IntValue(b) {
      assert AsI128(a).Some? <==> AsI128(b).Some?;
    } else if AsI128(a).Some? && AsI128(b).Some? {
    } else if AsU128(a).Some? && AsU128(b).Some? {
    } else {
      assert !NumberEq(a, b);
    }
  }

  /** What `Hash` feeds the hasher. */
  datatype HashInput = HashI128(i: int) | HashU128(u: int) | HashFloat(f: Float)

  function HashOf(n: Number): (r: HashInput)
    ensures IsInteger(n) ==> r == if IntValue(n) <= MaxI128 then HashI128(IntValue(n)) else HashU128(IntValue(n))
    ensures !IsInteger(n) ==> r == HashFloat(n.f)
  {
    if AsI128(n).Some? then HashI128(AsI128(n).value)
    else if AsU128(n).Some? then HashU128(AsU128(n).value)
    else HashFloat(n.f)
  }

  /** Equal integers hash alike, so `-0` and `0` land in the same bucket. */
  lemma EqualIntegersHashAlike(a: Number, b: Number)
    requires IsInteger(a) && IsInteger(b) && NumberEq(a, b)
    ensures HashOf(a) == HashOf(b)
  {
    IntegerEquality(a, b);
  }

  lemma MinusZeroIsZero()
    ensures NumberEq(I128(0), U128(0)) && HashOf(I128(0)) == HashOf(U128(0))
  {
  }

  // ---------------------------------------------------------------------------
  // Digits, as `u128::from_str_radix` reads them

  /** The value of an ASCII digit or letter (`a`/`A` is 10); 36 for anything else. */
  function DigitValue(c: char): nat {
    if '0' <= c <= '9' then c as nat - '0' as nat
    else if 'a' <= c <= 'z' then c as nat - 'a' as nat + 10
    else if 'A' <= c <= 'Z' then c as nat - 'A' as nat + 10
    else 36
  }

  predicate AllDigits(ds: string, radix: nat) {
    forall k :: 0 <= k < |ds| ==> DigitValue(ds[k]) < radix
  }

  /** The value of a digit string, most significant digit first. */
  function DigitsValue(ds: string, radix: nat): nat {
    if ds == [] then 0 else DigitsValue(ds[..|ds| - 1], radix) * radix + DigitValue(ds[|ds| - 1])
  }

  /**
   * `u128::from_str_radix`: an optional `+`, then at least one digit of the
   * radix, and the value must fit in 128 bits. A `-` is never accepted.
   */
  function ParseRadix(src: string, radix: nat): (r: Option<UInt128>)
    ensures r.Some? ==> src != [] && src != "+"
    ensures r.Some? ==> var ds := if src[0] == '+' then src[1..] else src;
      AllDigits(ds, radix) && r.value == DigitsValue(ds, radix)
    ensures src != [] && src != "+" && src != "-" &&
      (var ds := if src[0] == '+' then src[1..] else src; AllDigits(ds, radix) && DigitsValue(ds, radix) <= MaxU128)
      ==> r.Some?
  {
    if src == [] || src == "+" || src == "-" then None
    else
      var ds := if src[0] == '+' then src[1..] else src;
      if AllDigits(ds, radix) && DigitsValue(ds, radix) <= MaxU128 then Some(DigitsValue(ds, radix)) else None
  }

  // ---------------------------------------------------------------------------
  // from_str

  const NanError := "NaN must be written as '+nan'"
  const BinaryError := "Failed to parse binary number. Expected '0b\U{2026}'"
  const HexError := "Failed to parse hexadecimal number. Expected '0x\U{2026}'"
  const FloatError := "Failed to parse float number. Expected a valid float."
  const NumberError := "Failed to parse number"
  const TooSmallError := "Number too small"

  /** `s.replace('_', "")`. */
  function WithoutUnderscores(s: string): (r: string)
    ensures '_' !in r
    ensures '_' !in s ==> r == s
  {
    if s == [] then []
    else (if s[0] == '_' then [] else [s[0]]) + WithoutUnderscores(s[1..])
  }

  function AsciiLower(s: string): string {
    seq(|s|, k requires 0 <= k < |s| => if 'A' <= s[k] <= 'Z' then (s[k] as int + 32) as char else s[k])
  }

  /** `looks_like_decimal`. */
  predicate LooksLikeDecimal(s: string) {
    '.' in s || 'e' in s || 'E' in s
  }

  predicate HasPrefix(s: string, p: string) {
    |p| <= |s| && s[..|p|] == p
  }

  /** The unsigned part of a literal, after the sign. */
  function Unsigned(body: string, floats: FloatParser): Result<Number, string> {
    if HasPrefix(body, "0b") then
      match ParseRadix(body[2..], 2)
      case None => Err(BinaryError)
      case Some(v) => Ok(U128(v))
    else if HasPrefix(body, "0x") then
      match ParseRadix(body[2..], 16)
      case None => Err(HexError)
      case Some(v) => Ok(U128(v))
    else if LooksLikeDecimal(body) then
      match floats(body)
      case None => Err(FloatError)
      case Some(f) => Ok(F64(f))
    else
      match ParseRadix(body, 10)
      case Some(v) => Ok(U128(v))
      case None =>
        match floats(body)
        case None => Err(NumberError)
        case Some(f) => Ok(F64(f))
  }

  /**
   * How a negative literal is negated. `RejectMin` is `try_negate`, as the
   * source does; `AcceptMin` also accepts the magnitude of `i128::MIN`,
   * whose negation fits although the magnitude itself does not fit an `i128`.
   */
  datatype NegationRule = RejectMin | AcceptMin

  function NegateLiteral(u: Number, rule: NegationRule): Option<Number> {
    if rule == AcceptMin && u == U128(-MinI128) then Some(I128(MinI128)) else TryNegate(u)
  }

  /** `Number::from_str`. */
  function FromStr(s: string, floats: FloatParser, rule: NegationRule): (r: Result<Number, string>)
    ensures r.Ok? && r.value.I128? ==> r.value.i <= 0
    ensures r.Ok? && r.value.F32? ==> r.value.f.magnitude.NaN? || r.value.f.magnitude.Infinity?
    decreases if '_' in s then 1 else 0
  {
    if '_' in s then FromStr(WithoutUnderscores(s), floats, rule)
    else if s == "+nan" then Ok(F32(Float(false, NaN)))
    else if s == "-inf" then Ok(F32(Float(true, Infinity)))
    else if s == "+inf" then Ok(F32(Float(false, Infinity)))
    else
      var negative := |s| > 0 && s[0] == '-';
      var body := if |s| > 0 && (s[0] == '+' || s[0] == '-') then s[1..] else s;
      if AsciiLower(body) == "nan" then Err(NanError)
      else
        match Unsigned(body, floats)
        case Err(e) => Err(e)
        case Ok(u) =>
          if !negative then Ok(u)
          else
            match NegateLiteral(u, rule)
            case None => Err(TooSmallError)
            case Some(m) => Ok(m)
  }

  // ---------------------------------------------------------------------------
  // Display of integers

  function DecimalDigit(d: nat): char
    requires d < 10
  {
    ('0' as int + d) as char
  }

  /** The decimal digits of `n`, without leading zeros. */
  function DecimalText(n: nat): (r: string)
    ensures r != [] && AllDigits(r, 10)
    decreases n
  {
    if n < 10 then [DecimalDigit(n)] else DecimalText(n / 10) + [DecimalDigit(n % 10)]
  }

  /** How an integer is displayed: its decimal digits, after a `-` when negative. */
  function IntegerText(n: Number): string
    requires IsInteger(n)
  {
    var v := IntValue(n);
    if v < 0 then "-" + DecimalText(-v) else DecimalText(v)
  }
}
