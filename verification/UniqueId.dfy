/** Canonical decimal ids of unique events (unique_id.go). */
module UniqueId {
  import opened Text

  /** The dynamic type of the `id any` argument, as far as the type switch looks. */
  datatype RawId =
    | Signed(signed: int)      // int, int8, ..., int64
    | Unsigned(unsigned: nat)    // uint, ..., uint64, uintptr
    | Str(text: string)
    | Bytes(text: string)
    | Unsupported

  /** Go's fixed-width types keep integers inside 64 bits. */
  predicate Representable(id: RawId)
  {
    match id
    case Signed(v) => -0x8000_0000_0000_0000 <= v < 0x8000_0000_0000_0000
    case Unsigned(v) => v < UINT64_LIMIT
    case _ => true
  }

  function CanonicalText(s: string): Option<string>
  {
    if s == "" then None
    else match ParseUint(s)
      case None => None
      case Some(v) => Some(Decimal(v))
  }

  function Canonical(id: RawId): Option<string>
  {
    match id
    case Signed(v) => if v < 0 then None else Some(Decimal(v))
    case Unsigned(v) => Some(Decimal(v))
    case Str(s) => CanonicalText(s)
    case Bytes(s) => if |s| == 0 then None else CanonicalText(s)
    case Unsupported => None
  }

  /** The number an id denotes; None when the client must drop the event. */
  function Denotation(id: RawId): Option<nat>
  {
    match id
    case Signed(v) => if v < 0 then None else Some(v)
    case Unsigned(v) => Some(v)
    case Str(s) => ParseUint(s)
    case Bytes(s) => ParseUint(s)
    case Unsupported => None
  }

  /** Two ids get the same dedup text exactly when they denote the same number,
      whatever Go type carries it and however many leading zeros it has. */
  lemma SameTextIffSameNumber(a: RawId, b: RawId)
    requires Representable(a) && Representable(b)
    ensures Canonical(a).Some? <==> Denotation(a).Some?
    ensures Canonical(a).Some? && Canonical(b).Some? ==>
              (Canonical(a) == Canonical(b) <==> Denotation(a) == Denotation(b))
  {
    if Canonical(a).Some? && Canonical(a) == Canonical(b) {
      FormatInjective(Denotation(a).value, Denotation(b).value, 10);
    }
  }

  /** The canonical text is the one numeral of that number without leading zeros. */
  predicate Minimal(s: string)
  {
    AllDigits(s) && (s == "0" || s[0] != '0')
  }

  lemma {:induction false} DecimalMinimal(n: nat)
    ensures Minimal(Decimal(n))
    decreases n
  {
    if n >= 10 {
      DecimalMinimal(n / 10);
      var q := Decimal(n / 10);
      ValueOfFormat(n / 10, 10);
      assert Value("0", 10) == 0 by { assert "0"[..0] == ""; }
      assert q != "0";
      assert Decimal(n)[0] == q[0];
      assert |Decimal(n)| > 1;
    }
  }

  lemma {:induction false} MinimalIsDecimal(s: string)
    requires Minimal(s)
    ensures Decimal(Value(s, 10)) == s
    ensures s != "0" ==> Value(s, 10) > 0
    decreases |s|
  {
    var init, last := s[..|s| - 1], s[|s| - 1];
    assert last in s;
    assert Digit(DigitValue(last)) == last;
    if init == "" {
      assert s == [last];
    } else {
      assert init[0] == s[0];
      assert forall c | c in init :: c in s;
      assert init != "0";
      MinimalIsDecimal(init);
      var v := Value(s, 10);
      assert v == Value(init, 10) * 10 + DigitValue(last);
      assert v / 10 == Value(init, 10) && v % 10 == DigitValue(last);
      assert s == init + [last];
    }
  }

  /** Canonicalisation is idempotent and its fixed points are exactly the
      minimal numerals below 2^64. */
  lemma CanonicalFixedPoints(s: string)
    ensures CanonicalText(s) == Some(s) <==> Minimal(s) && Value(s, 10) < UINT64_LIMIT
    ensures CanonicalText(s).Some? ==> CanonicalText(CanonicalText(s).value) == CanonicalText(s)
  {
    if CanonicalText(s).Some? {
      var v := Value(s, 10);
      DecimalMinimal(v);
      ValueOfFormat(v, 10);
    }
    if Minimal(s) { MinimalIsDecimal(s); }
  }

  /** A string is accepted exactly when it is one or more decimal digits standing for a
      number below 2^64, and then becomes that number's numeral without leading zeros. */
  lemma CanonicalTextMeaning(s: string)
    ensures CanonicalText(s).Some? <==>
              s != "" && (forall c | c in s :: '0' <= c <= '9') && Value(s, 10) < 0x1_0000_0000_0000_0000
    ensures CanonicalText(s).Some? ==>
              Minimal(CanonicalText(s).value) && Value(CanonicalText(s).value, 10) == Value(s, 10)
  {
    if CanonicalText(s).Some? {
      DecimalMinimal(Value(s, 10));
      ValueOfFormat(Value(s, 10), 10);
    }
  }

  /** The same for every dynamic type: which ids are accepted, and the numeral each one
      becomes. Two minimal numerals of one number are equal. */
  lemma CanonicalMeaning(id: RawId, n: nat)
    ensures (Canonical(id).Some? && Value(Canonical(id).value, 10) == n) <==>
            match id
            case Signed(v) => v == n
            case Unsigned(v) => v == n
            case Str(s) => s != "" && (forall c | c in s :: '0' <= c <= '9') && Value(s, 10) == n < 0x1_0000_0000_0000_0000
            case Bytes(s) => s != "" && (forall c | c in s :: '0' <= c <= '9') && Value(s, 10) == n < 0x1_0000_0000_0000_0000
            case Unsupported => false
    ensures Canonical(id).Some? ==> Minimal(Canonical(id).value)
    ensures Denotation(id) == Some(n) <==> Canonical(id).Some? && Value(Canonical(id).value, 10) == n
  {
    match id
    case Signed(v) => if v >= 0 { DecimalMinimal(v); ValueOfFormat(v, 10); }
    case Unsigned(v) => DecimalMinimal(v); ValueOfFormat(v, 10);
    case Str(s) => CanonicalTextMeaning(s);
    case Bytes(s) => CanonicalTextMeaning(s);
    case Unsupported =>
  }

  lemma MinimalUnique(a: string, b: string)
    requires Minimal(a) && Minimal(b) && Value(a, 10) == Value(b, 10)
    ensures a == b
  {
    MinimalIsDecimal(a);
    MinimalIsDecimal(b);
  }

  /** Zeros in front change nothing. */
  lemma ZerosInFront(s: string)
    requires s != ""
    ensures CanonicalText("0" + s) == CanonicalText(s)
    ensures CanonicalText("010") == Some("10")
  {
    ZeroKeepsValue(s);
    CanonicalTextMeaning(s);
    CanonicalTextMeaning("0" + s);
    assert forall c | c in s :: c in "0" + s;
    assert forall c | c in "0" + s :: c == '0' || c in s;
    if CanonicalText(s).Some? { MinimalUnique(CanonicalText(s).value, CanonicalText("0" + s).value); }
    TenStaysTen();
  }

  lemma {:induction false} ZeroKeepsValue(s: string)
    ensures Value("0" + s, 10) == Value(s, 10)
  {
    if s == "" { assert "0"[..0] == ""; assert "0" + s == "0"; }
    else {
      ZeroKeepsValue(s[..|s| - 1]);
      var more := "0" + s;
      assert more[..|more| - 1] == "0" + s[..|s| - 1];
    }
  }

  lemma TenStaysTen()
    ensures CanonicalText("010") == Some("10")
  {
    assert "010"[..2] == "01" && "01"[..1] == "0" && "0"[..0] == "";
    assert Value("0", 10) == 0;
    assert Value("01", 10) == 1;
    assert Value("010", 10) == 10;
    assert Format(1, 10) == "1";
    assert Format(10, 10) == "10";
  }
}
