/// The runtime's UTF-8 codec (runtime/unicode.c:8-79): exactly the encoding of
/// sections 3 and 4 of RFC 3629.

module Utf8 {
  datatype Option<+T> = None | Some(value: T)

  type Byte = bv8

  type CodePoint = bv32

  /// A Unicode scalar value: no surrogate, nothing above U+10FFFF.
  predicate Scalar(c: CodePoint) { c <= 0x10FFFF && !(0xD800 <= c <= 0xDFFF) }

  /// The low `mask` bits of `c` after shifting, as a byte.
  function Low8(c: CodePoint): Byte { (c & 0xFF) as Byte }

  function Encode(c: CodePoint): seq<Byte> {
    if c < 0x80 then [Low8(c)]
    else if c < 0x800 then [Low8(0xC0 | (c >> 6)), Low8(0x80 | (c & 0x3F))]
    else if c < 0x10000 then [Low8(0xE0 | (c >> 12)), Low8(0x80 | ((c >> 6) & 0x3F)), Low8(0x80 | (c & 0x3F))]
    else [Low8(0xF0 | (c >> 18)), Low8(0x80 | ((c >> 12) & 0x3F)), Low8(0x80 | ((c >> 6) & 0x3F)), Low8(0x80 | (c & 0x3F))]
  }

  /// The leading byte: its bits of the value, and how many bytes follow.
  function Lead(a: Byte): Option<(CodePoint, nat)> {
    if a < 0x80 then Some((a as CodePoint, 0))
    else if a & 0xE0 == 0xC0 then if a & 0x1F < 2 then None else Some(((a & 0x1F) as CodePoint, 1))
    else if a & 0xF0 == 0xE0 then Some(((a & 0x0F) as CodePoint, 2))
    else if a & 0xF8 == 0xF0 then if a & 0x07 > 4 then None else Some(((a & 0x07) as CodePoint, 3))
    else None
  }

  predicate IsTail(b: Byte) { b & 0xC0 == 0x80 }

  function Append(v: CodePoint, b: Byte): CodePoint { (v << 6) | ((b & 0x3F) as CodePoint) }

  /// The value with all of `tail` appended, if those are continuation bytes.
  function Continue(v: CodePoint, tail: seq<Byte>): Option<CodePoint>
    decreases |tail|
  {
    if tail == [] then Some(v)
    else if !IsTail(tail[0]) then None
    else Continue(Append(v, tail[0]), tail[1..])
  }

  /// Overlong forms, surrogates and values above U+10FFFF are refused.
  predicate Accepts(v: CodePoint, need: nat) {
    !(need == 2 && v < 0x800) && !(need == 3 && v < 0x10000) && Scalar(v)
  }

  /// The first character of `d` and how many bytes it takes.
  function Decode(d: seq<Byte>): (r: Option<(CodePoint, nat)>)
    ensures r.Some? ==> 0 < r.value.1 <= |d|
  {
    if d == [] then None
    else match Lead(d[0])
      case None => None
      case Some((v, need)) =>
        if 1 + need > |d| then None
        else match Continue(v, d[1..1 + need])
          case None => None
          case Some(c) => if Accepts(c, need) then Some((c, 1 + need)) else None
  }

  // ---- the two undo each other ----

  lemma One(c: CodePoint)
    requires c < 0x80
    ensures Lead(Low8(c)) == Some((c, 0))
  {
  }

  lemma Two(c: CodePoint)
    requires 0x80 <= c < 0x800
    ensures var a, b := Low8(0xC0 | (c >> 6)), Low8(0x80 | (c & 0x3F));
      Lead(a) == Some(((a & 0x1F) as CodePoint, 1)) && IsTail(b) && Append((a & 0x1F) as CodePoint, b) == c
  {
  }

  lemma Three(c: CodePoint)
    requires 0x800 <= c < 0x10000
    ensures var a, b, e := Low8(0xE0 | (c >> 12)), Low8(0x80 | ((c >> 6) & 0x3F)), Low8(0x80 | (c & 0x3F));
      && Lead(a) == Some(((a & 0x0F) as CodePoint, 2)) && IsTail(b) && IsTail(e)
      && Append(Append((a & 0x0F) as CodePoint, b), e) == c
  {
  }

  lemma Four(c: CodePoint)
    requires 0x10000 <= c <= 0x10FFFF
    ensures var a, b, e, f := Low8(0xF0 | (c >> 18)), Low8(0x80 | ((c >> 12) & 0x3F)), Low8(0x80 | ((c >> 6) & 0x3F)), Low8(0x80 | (c & 0x3F));
      && Lead(a) == Some(((a & 0x07) as CodePoint, 3)) && IsTail(b) && IsTail(e) && IsTail(f)
      && Append(Append(Append((a & 0x07) as CodePoint, b), e), f) == c
  {
  }

  lemma ContinueOne(v: CodePoint, b: Byte)
    ensures Continue(v, [b]) == if IsTail(b) then Some(Append(v, b)) else None
  {
    hide IsTail, Append;
    assert [b][1..] == [];
  }

  lemma ContinueMore(v: CodePoint, b: Byte, rest: seq<Byte>)
    ensures Continue(v, [b] + rest) == if IsTail(b) then Continue(Append(v, b), rest) else None
  {
    hide IsTail, Append;
    assert ([b] + rest)[1..] == rest;
  }

  /// Decoding what was encoded gives the character back, whatever follows.
  lemma DecodeEncode(c: CodePoint, rest: seq<Byte>)
    requires Scalar(c)
    ensures Decode(Encode(c) + rest) == Some((c, |Encode(c)|))
  {
    var d := Encode(c) + rest;
    var e := Encode(c);
    assert d[1..1 + (|e| - 1)] == e[1..];
    assert d[0] == e[0];
    if c < 0x80 {
      One(c);
      assert e[1..] == [];
    } else if c < 0x800 {
      Two(c);
      hide Lead, IsTail, Append, Low8;
      var v := Lead(e[0]).value.0;
      assert e[1..] == [e[1]];
      ContinueOne(v, e[1]);
    } else if c < 0x10000 {
      Three(c);
      hide Lead, IsTail, Append, Low8;
      var v := Lead(e[0]).value.0;
      assert e[1..] == [e[1]] + [e[2]];
      ContinueMore(v, e[1], [e[2]]);
      ContinueOne(Append(v, e[1]), e[2]);
    } else {
      Four(c);
      hide Lead, IsTail, Append, Low8;
      var v := Lead(e[0]).value.0;
      assert e[1..] == [e[1]] + ([e[2]] + [e[3]]);
      ContinueMore(v, e[1], [e[2]] + [e[3]]);
      ContinueMore(Append(v, e[1]), e[2], [e[3]]);
      ContinueOne(Append(Append(v, e[1]), e[2]), e[3]);
    }
  }

  lemma BackOne(a: Byte)
    requires a < 0x80
    ensures Encode(a as CodePoint) == [a]
  {
  }

  lemma BitsTwo(a: Byte, b: Byte)
    requires a & 0xE0 == 0xC0 && !(a & 0x1F < 2) && IsTail(b)
    ensures var c := Append((a & 0x1F) as CodePoint, b);
      0x80 <= c < 0x800 && Low8(0xC0 | (c >> 6)) == a && Low8(0x80 | (c & 0x3F)) == b
  {
  }

  lemma BackTwo(a: Byte, b: Byte)
    requires a & 0xE0 == 0xC0 && !(a & 0x1F < 2) && IsTail(b)
    ensures Encode(Append((a & 0x1F) as CodePoint, b)) == [a, b]
  {
    BitsTwo(a, b);
    hide Append, Low8, IsTail;
  }

  lemma BitsThree(a: Byte, b: Byte, e: Byte)
    requires a & 0xF0 == 0xE0 && IsTail(b) && IsTail(e)
    ensures var c := Append(Append((a & 0x0F) as CodePoint, b), e);
      && c < 0x10000
      && Low8(0xE0 | (c >> 12)) == a && Low8(0x80 | ((c >> 6) & 0x3F)) == b && Low8(0x80 | (c & 0x3F)) == e
  {
  }

  lemma BackThree(a: Byte, b: Byte, e: Byte)
    requires a & 0xF0 == 0xE0 && IsTail(b) && IsTail(e)
    requires !(Append(Append((a & 0x0F) as CodePoint, b), e) < 0x800)
    ensures Encode(Append(Append((a & 0x0F) as CodePoint, b), e)) == [a, b, e]
  {
    BitsThree(a, b, e);
    hide Append, Low8, IsTail;
  }

  lemma BitsFour(a: Byte, b: Byte, e: Byte, f: Byte)
    requires a & 0xF8 == 0xF0 && !(a & 0x07 > 4) && IsTail(b) && IsTail(e) && IsTail(f)
    ensures var c := Append(Append(Append((a & 0x07) as CodePoint, b), e), f);
      && Low8(0xF0 | (c >> 18)) == a && Low8(0x80 | ((c >> 12) & 0x3F)) == b
      && Low8(0x80 | ((c >> 6) & 0x3F)) == e && Low8(0x80 | (c & 0x3F)) == f
  {
  }

  lemma BackFour(a: Byte, b: Byte, e: Byte, f: Byte)
    requires a & 0xF8 == 0xF0 && !(a & 0x07 > 4) && IsTail(b) && IsTail(e) && IsTail(f)
    requires !(Append(Append(Append((a & 0x07) as CodePoint, b), e), f) < 0x10000)
    ensures Encode(Append(Append(Append((a & 0x07) as CodePoint, b), e), f)) == [a, b, e, f]
  {
    BitsFour(a, b, e, f);
    hide Append, Low8, IsTail;
  }

  lemma LeadKinds(a: Byte)
    requires Lead(a).Some?
    ensures match Lead(a).value.1
      case 0 => a < 0x80 && Lead(a).value.0 == a as CodePoint
      case 1 => a & 0xE0 == 0xC0 && !(a & 0x1F < 2) && Lead(a).value.0 == (a & 0x1F) as CodePoint
      case 2 => a & 0xF0 == 0xE0 && Lead(a).value.0 == (a & 0x0F) as CodePoint
      case _ => Lead(a).value.1 == 3 && a & 0xF8 == 0xF0 && !(a & 0x07 > 4) && Lead(a).value.0 == (a & 0x07) as CodePoint
  {
  }

  /// A leading byte with its continuation bytes is the encoding of the value.
  lemma BackAll(d: seq<Byte>, v: CodePoint, need: nat)
    requires |d| == 1 + need && Lead(d[0]) == Some((v, need))
    requires Continue(v, d[1..]).Some? && Accepts(Continue(v, d[1..]).value, need)
    ensures Encode(Continue(v, d[1..]).value) == d
  {
    LeadKinds(d[0]);
    hide Lead, IsTail, Append, Low8, Encode;
    if need == 0 {
      BackOne(d[0]);
      assert d == [d[0]];
    } else if need == 1 {
      assert d == [d[0], d[1]] && d[1..] == [d[1]];
      ContinueOne(v, d[1]);
      BackTwo(d[0], d[1]);
    } else if need == 2 {
      assert d == [d[0], d[1], d[2]] && d[1..] == [d[1]] + [d[2]];
      ContinueMore(v, d[1], [d[2]]);
      ContinueOne(Append(v, d[1]), d[2]);
      BackThree(d[0], d[1], d[2]);
    } else {
      assert d == [d[0], d[1], d[2], d[3]] && d[1..] == [d[1]] + ([d[2]] + [d[3]]);
      ContinueMore(v, d[1], [d[2]] + [d[3]]);
      ContinueMore(Append(v, d[1]), d[2], [d[3]]);
      ContinueOne(Append(Append(v, d[1]), d[2]), d[3]);
      BackFour(d[0], d[1], d[2], d[3]);
    }
  }

  /// What was decoded is a scalar value, and the bytes are its encoding: there is
  /// no other way to write it.
  lemma EncodeDecode(d: seq<Byte>)
    requires Decode(d).Some?
    ensures var (c, n) := Decode(d).value; Scalar(c) && Encode(c) == d[..n]
  {
    hide Lead, Continue, Encode, Scalar;
    var (v, need) := Lead(d[0]).value;
    assert d[..1 + need][1..] == d[1..1 + need];
    BackAll(d[..1 + need], v, need);
  }

  // ---- the grammar of section 4 of RFC 3629 ----

  predicate In(b: Byte, low: Byte, high: Byte) { low <= b <= high }

  predicate TwoForm(a: Byte, b: Byte) { In(a, 0xC2, 0xDF) && In(b, 0x80, 0xBF) }

  predicate ThreeForm(a: Byte, b: Byte, e: Byte) {
    && In(e, 0x80, 0xBF)
    && (|| (a == 0xE0 && In(b, 0xA0, 0xBF)) || (In(a, 0xE1, 0xEC) && In(b, 0x80, 0xBF))
        || (a == 0xED && In(b, 0x80, 0x9F)) || (In(a, 0xEE, 0xEF) && In(b, 0x80, 0xBF)))
  }

  predicate FourForm(a: Byte, b: Byte, e: Byte, f: Byte) {
    && In(e, 0x80, 0xBF) && In(f, 0x80, 0xBF)
    && ((a == 0xF0 && In(b, 0x90, 0xBF)) || (In(a, 0xF1, 0xF3) && In(b, 0x80, 0xBF)) || (a == 0xF4 && In(b, 0x80, 0x8F)))
  }

  /// The bytes are one character by the grammar.
  predicate Grammatical(d: seq<Byte>) {
    || (|d| == 1 && d[0] <= 0x7F)
    || (|d| == 2 && TwoForm(d[0], d[1]))
    || (|d| == 3 && ThreeForm(d[0], d[1], d[2]))
    || (|d| == 4 && FourForm(d[0], d[1], d[2], d[3]))
  }

  function TwoNumber(a: Byte, b: Byte): CodePoint { (((a & 0x1F) as CodePoint) << 6) | ((b & 0x3F) as CodePoint) }

  function ThreeNumber(a: Byte, b: Byte, e: Byte): CodePoint {
    (((a & 0x0F) as CodePoint) << 12) | (((b & 0x3F) as CodePoint) << 6) | ((e & 0x3F) as CodePoint)
  }

  function FourNumber(a: Byte, b: Byte, e: Byte, f: Byte): CodePoint {
    (((a & 0x07) as CodePoint) << 18) | (((b & 0x3F) as CodePoint) << 12) | (((e & 0x3F) as CodePoint) << 6) | ((f & 0x3F) as CodePoint)
  }

  /// The number of a character: the bits that the table of section 3 marks.
  function Number(d: seq<Byte>): CodePoint
    requires 1 <= |d| <= 4
  {
    if |d| == 1 then d[0] as CodePoint
    else if |d| == 2 then TwoNumber(d[0], d[1])
    else if |d| == 3 then ThreeNumber(d[0], d[1], d[2])
    else FourNumber(d[0], d[1], d[2], d[3])
  }

  lemma TwoEncodes(a: Byte, b: Byte)
    requires TwoForm(a, b)
    ensures var c := TwoNumber(a, b); Scalar(c) && 0x80 <= c < 0x800 && Low8(0xC0 | (c >> 6)) == a && Low8(0x80 | (c & 0x3F)) == b
  {
  }

  lemma ThreeEncodes(a: Byte, b: Byte, e: Byte)
    requires ThreeForm(a, b, e)
    ensures var c := ThreeNumber(a, b, e);
      && Scalar(c) && 0x800 <= c < 0x10000
      && Low8(0xE0 | (c >> 12)) == a && Low8(0x80 | ((c >> 6) & 0x3F)) == b && Low8(0x80 | (c & 0x3F)) == e
  {
  }

  lemma FourEncodes(a: Byte, b: Byte, e: Byte, f: Byte)
    requires FourForm(a, b, e, f)
    ensures var c := FourNumber(a, b, e, f);
      && Scalar(c) && 0x10000 <= c
      && Low8(0xF0 | (c >> 18)) == a && Low8(0x80 | ((c >> 12) & 0x3F)) == b && Low8(0x80 | ((c >> 6) & 0x3F)) == e && Low8(0x80 | (c & 0x3F)) == f
  {
  }

  lemma TwoGrammar(c: CodePoint)
    requires 0x80 <= c < 0x800
    ensures TwoForm(Low8(0xC0 | (c >> 6)), Low8(0x80 | (c & 0x3F))) && TwoNumber(Low8(0xC0 | (c >> 6)), Low8(0x80 | (c & 0x3F))) == c
  {
  }

  lemma ThreeFormOf(c: CodePoint)
    requires 0x800 <= c < 0x10000 && Scalar(c)
    ensures ThreeForm(Low8(0xE0 | (c >> 12)), Low8(0x80 | ((c >> 6) & 0x3F)), Low8(0x80 | (c & 0x3F)))
  {
  }

  lemma ThreeNumberOf(c: CodePoint)
    requires c < 0x10000
    ensures ThreeNumber(Low8(0xE0 | (c >> 12)), Low8(0x80 | ((c >> 6) & 0x3F)), Low8(0x80 | (c & 0x3F))) == c
  {
  }

  lemma FourFormOf(c: CodePoint)
    requires 0x10000 <= c && Scalar(c)
    ensures FourForm(Low8(0xF0 | (c >> 18)), Low8(0x80 | ((c >> 12) & 0x3F)), Low8(0x80 | ((c >> 6) & 0x3F)), Low8(0x80 | (c & 0x3F)))
  {
  }

  lemma FourNumberOf(c: CodePoint)
    requires c <= 0x10FFFF
    ensures FourNumber(Low8(0xF0 | (c >> 18)), Low8(0x80 | ((c >> 12) & 0x3F)), Low8(0x80 | ((c >> 6) & 0x3F)), Low8(0x80 | (c & 0x3F))) == c
  {
  }

  /// What is encoded is a character of the grammar with its number.
  lemma EncodesByGrammar(c: CodePoint)
    requires Scalar(c)
    ensures Grammatical(Encode(c)) && Number(Encode(c)) == c
  {
    hide TwoForm, ThreeForm, FourForm, TwoNumber, ThreeNumber, FourNumber;
    if c < 0x80 {
      BackOneByte(c);
    } else if c < 0x800 {
      TwoGrammar(c);
    } else if c < 0x10000 {
      ThreeFormOf(c);
      ThreeNumberOf(c);
    } else {
      FourFormOf(c);
      FourNumberOf(c);
    }
    hide Low8, Scalar;
  }

  lemma BackOneByte(c: CodePoint)
    requires c < 0x80
    ensures Low8(c) <= 0x7F && Low8(c) as CodePoint == c
  {
  }

  /// The decoder accepts exactly the characters of the grammar, and yields their
  /// numbers.
  lemma DecodesByGrammar(d: seq<Byte>, n: nat)
    requires 1 <= n <= |d| && n <= 4
    ensures Grammatical(d[..n]) ==> Decode(d) == Some((Number(d[..n]), n))
    ensures Decode(d).Some? && Decode(d).value.1 == n ==> Grammatical(d[..n])
  {
    var g := d[..n];
    if Grammatical(g) {
      GrammarEncodes(g);
      hide Decode, Encode, Scalar, Grammatical, Number;
      DecodeEncode(Number(g), d[n..]);
      assert g + d[n..] == d;
    }
    if Decode(d).Some? && Decode(d).value.1 == n {
      EncodeDecode(d);
      EncodesByGrammar(Decode(d).value.0);
    }
  }

  lemma GrammarEncodes(g: seq<Byte>)
    requires Grammatical(g)
    ensures Scalar(Number(g)) && Encode(Number(g)) == g
  {
    hide Encode, Scalar, TwoForm, ThreeForm, FourForm, TwoNumber, ThreeNumber, FourNumber;
    if |g| == 1 {
      BackOne(g[0]);
      SmallScalar(g[0]);
      assert g == [g[0]];
    } else if |g| == 2 {
      TwoBack(g[0], g[1]);
      assert g == [g[0], g[1]];
    } else if |g| == 3 {
      ThreeBack(g[0], g[1], g[2]);
      assert g == [g[0], g[1], g[2]];
    } else {
      FourBack(g[0], g[1], g[2], g[3]);
      assert g == [g[0], g[1], g[2], g[3]];
    }
  }

  lemma TwoBack(a: Byte, b: Byte)
    requires TwoForm(a, b)
    ensures Scalar(TwoNumber(a, b)) && Encode(TwoNumber(a, b)) == [a, b]
  {
    TwoEncodes(a, b);
    hide TwoForm, TwoNumber, Low8, Scalar;
  }

  lemma ThreeBack(a: Byte, b: Byte, e: Byte)
    requires ThreeForm(a, b, e)
    ensures Scalar(ThreeNumber(a, b, e)) && Encode(ThreeNumber(a, b, e)) == [a, b, e]
  {
    hide ThreeForm, ThreeNumber, Low8, Scalar;
    ThreeEncodes(a, b, e);
  }

  lemma FourBack(a: Byte, b: Byte, e: Byte, f: Byte)
    requires FourForm(a, b, e, f)
    ensures Scalar(FourNumber(a, b, e, f)) && Encode(FourNumber(a, b, e, f)) == [a, b, e, f]
  {
    hide FourForm, FourNumber, Low8, Scalar;
    FourEncodes(a, b, e, f);
  }

  lemma SmallScalar(a: Byte)
    ensures Scalar(a as CodePoint)
  {
  }

  // ---- strings ----

  function EncodeAll(cs: seq<CodePoint>): seq<Byte>
    decreases cs
  {
    if cs == [] then [] else Encode(cs[0]) + EncodeAll(cs[1..])
  }

  ghost predicate AllScalar(cs: seq<CodePoint>) { forall c :: c in cs ==> Scalar(c) }

  ghost predicate WellFormed(d: seq<Byte>) { exists cs :: AllScalar(cs) && d == EncodeAll(cs) }

  function Validates(d: seq<Byte>): bool
    decreases |d|
  {
    d == [] || (Decode(d).Some? && Validates(d[Decode(d).value.1..]))
  }

  /// A byte string is accepted if and only if it is a sequence of encoded scalar values.
  lemma {:induction false} ValidatesIffWellFormed(d: seq<Byte>)
    ensures Validates(d) <==> WellFormed(d)
    decreases |d|
  {
    hide Decode, Encode, Scalar;
    if d == [] {
      assert AllScalar([]) && EncodeAll([]) == d;
    } else {
      if Decode(d).Some? {
        var (c, n) := Decode(d).value;
        EncodeDecode(d);
        ValidatesIffWellFormed(d[n..]);
        if WellFormed(d[n..]) {
          var cs :| AllScalar(cs) && d[n..] == EncodeAll(cs);
          assert ([c] + cs)[1..] == cs;
          assert d == d[..n] + d[n..];
          assert AllScalar([c] + cs) && EncodeAll([c] + cs) == d;
        }
      }
      if WellFormed(d) {
        var cs :| AllScalar(cs) && d == EncodeAll(cs);
        assert cs[0] in cs;
        var rest := EncodeAll(cs[1..]);
        DecodeEncode(cs[0], rest);
        var n := |Encode(cs[0])|;
        assert d[n..] == rest;
        assert AllScalar(cs[1..]);
        assert WellFormed(rest);
        ValidatesIffWellFormed(rest);
      }
    }
  }

  /// Encodings are unique: no two sequences of scalar values have the same bytes.
  lemma {:induction false} EncodingIsUnique(cs: seq<CodePoint>, ds: seq<CodePoint>)
    requires AllScalar(cs) && AllScalar(ds) && EncodeAll(cs) == EncodeAll(ds)
    ensures cs == ds
    decreases |cs|
  {
    hide Decode, Encode, Scalar;
    if cs == [] || ds == [] {
      EmptyEncoding(cs);
      EmptyEncoding(ds);
    } else {
      assert cs[0] in cs && ds[0] in ds;
      DecodeEncode(cs[0], EncodeAll(cs[1..]));
      DecodeEncode(ds[0], EncodeAll(ds[1..]));
      assert EncodeAll(cs)[|Encode(cs[0])|..] == EncodeAll(cs[1..]);
      assert EncodeAll(ds)[|Encode(ds[0])|..] == EncodeAll(ds[1..]);
      assert AllScalar(cs[1..]) && AllScalar(ds[1..]);
      EncodingIsUnique(cs[1..], ds[1..]);
      assert cs == [cs[0]] + cs[1..] && ds == [ds[0]] + ds[1..];
    }
  }

  lemma EmptyEncoding(cs: seq<CodePoint>)
    ensures EncodeAll(cs) == [] <==> cs == []
  {
    if cs != [] { assert |Encode(cs[0])| > 0; }
  }

  // ---- the routines ----

  /// `uinx_utf8_next`: the character at `off`, and where the next one starts.
  method NextChar(d: array<Byte>, n: nat, off: nat) returns (r: Option<(CodePoint, nat)>)
    requires n <= d.Length
    ensures off >= n ==> r == None
    ensures off < n ==> r == match Decode(d[off..n]) case None => None case Some((c, k)) => Some((c, off + k))
  {
    hide Lead, IsTail, Append;
    if off >= n { return None; }
    var i := off;
    var lead := Lead(d[i]);
    i := i + 1;
    if lead.None? { return None; }
    var (v, need) := lead.value;
    if i + need > n { return None; }
    ghost var tail := d[off..n][1..1 + need];
    var j := 0;
    assert tail[0..] == tail;
    while j < need
      invariant j <= need && i == off + 1 + j
      invariant Continue(v, tail[j..]) == Continue(lead.value.0, tail)
    {
      var b := d[i];
      assert tail[j..][0] == b && tail[j..][1..] == tail[j + 1..];
      i := i + 1;
      if !IsTail(b) { return None; }
      v := Append(v, b);
      j := j + 1;
    }
    assert tail[j..] == [];
    if !Accepts(v, need) { return None; }
    r := Some((v, i));
  }

  /// `uinx_utf8_validate`: accepts exactly the well-formed byte strings.
  method Validate(d: array<Byte>, n: nat) returns (ok: bool)
    requires n <= d.Length
    ensures ok <==> WellFormed(d[..n])
  {
    hide Decode;
    ValidatesIffWellFormed(d[..n]);
    var o := 0;
    assert d[0..n] == d[..n];
    while o < n
      invariant o <= n && Validates(d[o..n]) == Validates(d[..n])
      decreases n - o
    {
      var r := NextChar(d, n, o);
      if r.None? { return false; }
      DecodeBounds(d[o..n]);
      assert d[o..n][r.value.1 - o..] == d[r.value.1..n];
      o := r.value.1;
    }
    ok := true;
  }

  lemma DecodeBounds(d: seq<Byte>)
    ensures Decode(d).Some? ==> 0 < Decode(d).value.1 <= |d|
  {
  }

  /// `uinx_utf8_encode`: refuses what is not a scalar value.
  method EncodeInto(c: CodePoint, out: array<Byte>) returns (n: Option<nat>)
    requires out.Length == 4
    modifies out
    ensures n.Some? <==> Scalar(c)
    ensures n.Some? ==> n.value <= 4 && out[..n.value] == Encode(c) && Decode(out[..n.value]) == Some((c, n.value))
    ensures n.None? ==> out[..] == old(out[..])
  {
    hide Low8;
    if !Scalar(c) { return None; }
    ghost var bytes := Encode(c);
    if c < 0x80 {
      out[0] := Low8(c);
      n := Some(1);
    } else if c < 0x800 {
      out[0] := Low8(0xC0 | (c >> 6));
      out[1] := Low8(0x80 | (c & 0x3F));
      n := Some(2);
    } else if c < 0x10000 {
      out[0] := Low8(0xE0 | (c >> 12));
      out[1] := Low8(0x80 | ((c >> 6) & 0x3F));
      out[2] := Low8(0x80 | (c & 0x3F));
      n := Some(3);
    } else {
      out[0] := Low8(0xF0 | (c >> 18));
      out[1] := Low8(0x80 | ((c >> 12) & 0x3F));
      out[2] := Low8(0x80 | ((c >> 6) & 0x3F));
      out[3] := Low8(0x80 | (c & 0x3F));
      n := Some(4);
    }
    assert out[..n.value] == bytes;
    DecodeEncode(c, []);
    assert Encode(c) + [] == Encode(c);
  }
}
