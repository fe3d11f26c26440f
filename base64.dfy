/** Base 64 with the standard alphabet and `=` padding (RFC 4648, section 4),
    as Go's `base64.StdEncoding` encodes and decodes it. The data source uses the
    encoder to build a Basic token from `username:password` and the decoder only
    to check that a supplied `basic_auth` token is well formed.

    The decoder follows Go's non-strict behaviour: carriage returns and line
    feeds are skipped wherever they occur, the final quantum must be padded to
    four symbols, nothing may follow a padded quantum, and bits that a padded
    quantum leaves over are ignored rather than required to be zero. */
module Base64 {
  import opened Common

  const PAD: byte := 61

  /** The symbol for a six-bit value (RFC 4648, Table 1). */
  function Symbol(v: nat): (c: byte)
    requires v < 64
    ensures InAlphabet(c)
  {
    if v < 26 then (65 + v) as byte
    else if v < 52 then (97 + v - 26) as byte
    else if v < 62 then (48 + v - 52) as byte
    else if v == 62 then 43
    else 47
  }

  predicate InAlphabet(c: byte)
  {
    65 <= c <= 90 || 97 <= c <= 122 || 48 <= c <= 57 || c == 43 || c == 47
  }

  /** The six-bit value a symbol stands for: the inverse of `Symbol`. */
  function Value(c: byte): (v: nat)
    requires InAlphabet(c)
    ensures v < 64 && Symbol(v) == c
  {
    if 65 <= c <= 90 then c as int - 65
    else if 97 <= c <= 122 then c as int - 97 + 26
    else if 48 <= c <= 57 then c as int - 48 + 52
    else if c == 43 then 62
    else 63
  }

  lemma ValueOfSymbol(v: nat)
    requires v < 64
    ensures Value(Symbol(v)) == v
  {
  }

  /** Four symbols for three bytes. */
  function EncodeTriple(x: byte, y: byte, z: byte): seq<byte>
  {
    [ Symbol(x as int / 4),
      Symbol((x as int % 4) * 16 + y as int / 16),
      Symbol((y as int % 16) * 4 + z as int / 64),
      Symbol(z as int % 64) ]
  }

  /** `base64.StdEncoding.EncodeToString`. */
  function Encode(b: seq<byte>): (s: GoString)
    ensures |s| == (|b| + 2) / 3 * 4
    ensures forall i :: 0 <= i < |s| ==> InAlphabet(s[i]) || s[i] == PAD
    decreases |b|
  {
    if |b| == 0 then []
    else if |b| == 1 then
      [Symbol(b[0] as int / 4), Symbol((b[0] as int % 4) * 16), PAD, PAD]
    else if |b| == 2 then
      [ Symbol(b[0] as int / 4),
        Symbol((b[0] as int % 4) * 16 + b[1] as int / 16),
        Symbol((b[1] as int % 16) * 4),
        PAD ]
    else
      assert (|b[3..]| + 2) / 3 * 4 + 4 == (|b| + 2) / 3 * 4;
      EncodeTriple(b[0], b[1], b[2]) + Encode(b[3..])
  }

  predicate IsLineBreak(c: byte)
  {
    c == 10 || c == 13
  }

  /** The input with every carriage return and line feed taken out. */
  function StripLineBreaks(s: GoString): (r: GoString)
    ensures forall i :: 0 <= i < |r| ==> !IsLineBreak(r[i])
    ensures |r| <= |s|
  {
    if s == [] then []
    else if IsLineBreak(s[0]) then StripLineBreaks(s[1..])
    else [s[0]] + StripLineBreaks(s[1..])
  }

  /** Three bytes from four symbol values. */
  function DecodeQuantum(a: nat, b: nat, c: nat, d: nat): seq<byte>
    requires a < 64 && b < 64 && c < 64 && d < 64
  {
    [(a * 4 + b / 16) as byte, ((b % 16) * 16 + c / 4) as byte, ((c % 4) * 64 + d) as byte]
  }

  /** Decoding of a text that holds no line breaks. */
  function DecodeQuanta(s: GoString): Option<seq<byte>>
    decreases |s|
  {
    if |s| == 0 then Some([])
    else if |s| < 4 then None
    else if InAlphabet(s[0]) && InAlphabet(s[1]) && InAlphabet(s[2]) && InAlphabet(s[3]) then
      match DecodeQuanta(s[4..])
      case None => None
      case Some(rest) => Some(DecodeQuantum(Value(s[0]), Value(s[1]), Value(s[2]), Value(s[3])) + rest)
    else if |s| == 4 && InAlphabet(s[0]) && InAlphabet(s[1]) && s[2] == PAD && s[3] == PAD then
      Some([(Value(s[0]) * 4 + Value(s[1]) / 16) as byte])
    else if |s| == 4 && InAlphabet(s[0]) && InAlphabet(s[1]) && InAlphabet(s[2]) && s[3] == PAD then
      Some([ (Value(s[0]) * 4 + Value(s[1]) / 16) as byte,
             ((Value(s[1]) % 16) * 16 + Value(s[2]) / 4) as byte ])
    else None
  }

  /** `base64.StdEncoding.DecodeString`: the bytes, or `None` for its error. */
  function Decode(s: GoString): Option<seq<byte>>
  {
    DecodeQuanta(StripLineBreaks(s))
  }

  /** The check the data source applies to a supplied `basic_auth` token. */
  predicate IsValid(s: GoString)
  {
    Decode(s).Some?
  }

  lemma StripWithoutLineBreaks(s: GoString)
    requires forall i :: 0 <= i < |s| ==> !IsLineBreak(s[i])
    ensures StripLineBreaks(s) == s
  {
  }

  lemma {:induction false} StripConcat(s: GoString, t: GoString)
    ensures StripLineBreaks(s + t) == StripLineBreaks(s) + StripLineBreaks(t)
  {
    if s == [] {
      assert s + t == t;
    } else {
      assert (s + t)[0] == s[0] && (s + t)[1..] == s[1..] + t;
      StripConcat(s[1..], t);
      if IsLineBreak(s[0]) {
        assert StripLineBreaks(s + t) == StripLineBreaks(s[1..] + t);
      } else {
        assert StripLineBreaks(s + t) == [s[0]] + StripLineBreaks(s[1..] + t);
      }
    }
  }

  lemma Mix16(a: int, b: int)
    requires 0 <= b < 16
    ensures (a * 16 + b) / 16 == a && (a * 16 + b) % 16 == b
  {
  }

  lemma Mix4(a: int, b: int)
    requires 0 <= b < 4
    ensures (a * 4 + b) / 4 == a && (a * 4 + b) % 4 == b
  {
  }

  lemma TripleRoundTrip(x: byte, y: byte, z: byte)
    ensures var e := EncodeTriple(x, y, z);
      DecodeQuantum(Value(e[0]), Value(e[1]), Value(e[2]), Value(e[3])) == [x, y, z]
  {
    var c0, c1 := x as int / 4, (x as int % 4) * 16 + y as int / 16;
    var c2, c3 := (y as int % 16) * 4 + z as int / 64, z as int % 64;
    ValueOfSymbol(c0); ValueOfSymbol(c1); ValueOfSymbol(c2); ValueOfSymbol(c3);
    Mix16(x as int % 4, y as int / 16);
    Mix4(y as int % 16, z as int / 64);
    assert c0 * 4 + c1 / 16 == x as int;
    assert (c1 % 16) * 16 + c2 / 4 == y as int;
    assert (c2 % 4) * 64 + c3 == z as int;
  }

  lemma OneByteRoundTrip(x: byte)
    ensures DecodeQuanta(Encode([x])) == Some([x])
  {
    var c0, c1 := x as int / 4, (x as int % 4) * 16;
    ValueOfSymbol(c0); ValueOfSymbol(c1);
    assert c1 / 16 == x as int % 4;
    var e := Encode([x]);
    assert e == [Symbol(c0), Symbol(c1), PAD, PAD];
    assert !InAlphabet(e[3]);
    assert DecodeQuanta(e) == Some([(c0 * 4 + c1 / 16) as byte]);
  }

  lemma TwoBytesRoundTrip(x: byte, y: byte)
    ensures DecodeQuanta(Encode([x, y])) == Some([x, y])
  {
    var c0, c1 := x as int / 4, (x as int % 4) * 16 + y as int / 16;
    var c2 := (y as int % 16) * 4;
    ValueOfSymbol(c0); ValueOfSymbol(c1); ValueOfSymbol(c2);
    assert c1 / 16 == x as int % 4 && c1 % 16 == y as int / 16;
    assert c2 / 4 == y as int % 16;
    var e := Encode([x, y]);
    assert e == [Symbol(c0), Symbol(c1), Symbol(c2), PAD];
    assert !InAlphabet(e[3]);
    assert DecodeQuanta(e) == Some([(c0 * 4 + c1 / 16) as byte, ((c1 % 16) * 16 + c2 / 4) as byte]);
  }

  /** A full quantum in front of a decodable text decodes to its three bytes
      in front of the rest. */
  lemma DecodeQuantaFull(e: GoString, t: GoString)
    requires |e| == 4 && InAlphabet(e[0]) && InAlphabet(e[1]) && InAlphabet(e[2]) && InAlphabet(e[3])
    requires DecodeQuanta(t).Some?
    ensures DecodeQuanta(e + t) ==
      Some(DecodeQuantum(Value(e[0]), Value(e[1]), Value(e[2]), Value(e[3])) + DecodeQuanta(t).value)
  {
    var s := e + t;
    assert s[0] == e[0] && s[1] == e[1] && s[2] == e[2] && s[3] == e[3];
    assert s[4..] == t;
  }

  /** One encoded triple in front of an encoding that decodes back. */
  lemma TripleStep(x: byte, y: byte, z: byte, rest: seq<byte>)
    requires DecodeQuanta(Encode(rest)) == Some(rest)
    ensures DecodeQuanta(EncodeTriple(x, y, z) + Encode(rest)) == Some([x, y, z] + rest)
  {
    var e := EncodeTriple(x, y, z);
    DecodeQuantaFull(e, Encode(rest));
    TripleRoundTrip(x, y, z);
  }

  lemma SplitThree(b: seq<byte>)
    requires |b| >= 3
    ensures b == [b[0], b[1], b[2]] + b[3..]
  {
    assert b[..3] == [b[0], b[1], b[2]];
    assert b == b[..3] + b[3..];
  }

  /** The inductive step: three bytes more in front of a text that round-trips. */
  lemma LongerRoundTrip(x: byte, y: byte, z: byte, rest: seq<byte>)
    requires DecodeQuanta(Encode(rest)) == Some(rest)
    ensures DecodeQuanta(Encode([x, y, z] + rest)) == Some([x, y, z] + rest)
  {
    var b := [x, y, z] + rest;
    assert b[3..] == rest;
    assert Encode(b) == EncodeTriple(x, y, z) + Encode(rest);
    TripleStep(x, y, z, rest);
  }

  lemma {:induction false} DecodeQuantaEncode(b: seq<byte>)
    ensures DecodeQuanta(Encode(b)) == Some(b)
    decreases |b|
  {
    if |b| == 1 {
      assert b == [b[0]];
      OneByteRoundTrip(b[0]);
    } else if |b| == 2 {
      assert b == [b[0], b[1]];
      TwoBytesRoundTrip(b[0], b[1]);
    } else if |b| >= 3 {
      DecodeQuantaEncode(b[3..]);
      LongerRoundTrip(b[0], b[1], b[2], b[3..]);
      SplitThree(b);
    }
  }

  /** Decoding undoes encoding: what the data source builds from
      `username:password` passes its own well-formedness check. */
  lemma DecodeEncode(b: seq<byte>)
    ensures Decode(Encode(b)) == Some(b)
  {
    StripWithoutLineBreaks(Encode(b));
    DecodeQuantaEncode(b);
  }

  lemma EncodeIsValid(b: seq<byte>)
    ensures IsValid(Encode(b))
  {
    DecodeEncode(b);
  }

  /** A carriage return or line feed anywhere in a token changes nothing. */
  lemma DecodeSkipsLineBreak(s: GoString, c: byte, t: GoString)
    requires IsLineBreak(c)
    ensures Decode(s + [c] + t) == Decode(s + t)
  {
    assert StripLineBreaks([c]) == StripLineBreaks([c][1..]) == [];
    StripConcat(s + [c], t);
    StripConcat(s, [c]);
    StripConcat(s, t);
    assert StripLineBreaks(s + [c]) == StripLineBreaks(s);
  }

  /** A decodable text that starts with a full quantum: three bytes, then the
      decoding of the rest. */
  lemma FullQuantumLength(s: GoString)
    requires |s| >= 4 && InAlphabet(s[0]) && InAlphabet(s[1]) && InAlphabet(s[2]) && InAlphabet(s[3])
    requires DecodeQuanta(s).Some?
    ensures DecodeQuanta(s[4..]).Some?
    ensures |DecodeQuanta(s).value| == 3 + |DecodeQuanta(s[4..]).value|
  {
  }

  /** A decodable text that does not start with a full quantum is empty or a
      single padded quantum of one or two bytes. */
  lemma PartialQuantum(s: GoString)
    requires DecodeQuanta(s).Some?
    requires !(|s| >= 4 && InAlphabet(s[0]) && InAlphabet(s[1]) && InAlphabet(s[2]) && InAlphabet(s[3]))
    ensures |s| == 0 || (|s| == 4 && |DecodeQuanta(s).value| <= 2)
  {
  }

  /** Without line breaks, a decodable text is whole quanta of four symbols. */
  lemma {:induction false} DecodeQuantaLength(s: GoString)
    requires DecodeQuanta(s).Some?
    ensures |s| % 4 == 0
    ensures 4 * |DecodeQuanta(s).value| <= 3 * |s|
    decreases |s|
  {
    if |s| >= 4 && InAlphabet(s[0]) && InAlphabet(s[1]) && InAlphabet(s[2]) && InAlphabet(s[3]) {
      FullQuantumLength(s);
      DecodeQuantaLength(s[4..]);
      assert |s[4..]| == |s| - 4;
    } else {
      PartialQuantum(s);
    }
  }

  /** A valid token is whole quanta once line breaks are removed, and decodes
      to at most three bytes per quantum. */
  lemma ValidTokenLength(s: GoString)
    requires IsValid(s)
    ensures |StripLineBreaks(s)| % 4 == 0
    ensures 4 * |Decode(s).value| <= 3 * |StripLineBreaks(s)|
  {
    DecodeQuantaLength(StripLineBreaks(s));
  }

  /** A byte that is neither a symbol, padding nor a line break survives
      the removal of line breaks. */
  lemma {:induction false} StripKeeps(s: GoString, i: nat)
    requires i < |s| && !IsLineBreak(s[i])
    ensures s[i] in StripLineBreaks(s)
  {
    if i > 0 {
      StripKeeps(s[1..], i - 1);
    }
  }

  lemma {:induction false} DecodeQuantaRefuses(s: GoString, c: byte)
    requires c in s && !InAlphabet(c) && c != PAD
    ensures DecodeQuanta(s) == None
    decreases |s|
  {
    if |s| >= 4 {
      if c !in s[..4] {
        assert s == s[..4] + s[4..];
        DecodeQuantaRefuses(s[4..], c);
      } else {
        var k :| 0 <= k < 4 && s[k] == c;
      }
    }
  }

  /** A token holding a byte outside the alphabet, other than padding and line
      breaks, is refused wherever that byte stands. */
  lemma RefusesForeignByte(s: GoString, i: nat)
    requires i < |s| && !InAlphabet(s[i]) && s[i] != PAD && !IsLineBreak(s[i])
    ensures !IsValid(s)
  {
    StripKeeps(s, i);
    DecodeQuantaRefuses(StripLineBreaks(s), s[i]);
  }

  /** "foo", the three bytes every longer test vector starts with, encodes
      as "Zm9v". */
  lemma FooTriple()
    ensures EncodeTriple(102, 111, 111) == [90, 109, 57, 118]
  {
    assert Symbol(25) == 90 && Symbol(38) == 109 && Symbol(61) == 57 && Symbol(47) == 118;
  }

  /** The test vectors of RFC 4648, section 10. */
  lemma RfcTestVectorsShort()
    ensures Encode(Str("")) == Str("")
    ensures Encode(Str("f")) == Str("Zg==")
    ensures Encode(Str("fo")) == Str("Zm8=")
    ensures Encode(Str("foo")) == Str("Zm9v")
  {
    assert Str("f") == [102] && Str("Zg==") == [90, 103, 61, 61];
    assert Encode([102]) == [Symbol(25), Symbol(32), PAD, PAD];
    assert Str("fo") == [102, 111] && Str("Zm8=") == [90, 109, 56, 61];
    assert Encode([102, 111]) == [Symbol(25), Symbol(38), Symbol(60), PAD];
    assert Str("foo") == [102, 111, 111] && Str("Zm9v") == [90, 109, 57, 118];
    assert Encode([102, 111, 111]) == EncodeTriple(102, 111, 111) + Encode([]);
    FooTriple();
  }

  /** "foob" encodes as "Zm9vYg==". */
  lemma RfcTestVectorFoob()
    ensures Encode([102, 111, 111, 98]) == [90, 109, 57, 118, 89, 103, 61, 61]
  {
    var b: seq<byte> := [102, 111, 111, 98];
    assert b[3..] == [98];
    assert Encode(b) == EncodeTriple(102, 111, 111) + Encode([98]);
    FooTriple();
    assert Encode([98]) == [Symbol(24), Symbol(32), PAD, PAD];
  }

  /** "fooba" encodes as "Zm9vYmE=". */
  lemma RfcTestVectorFooba()
    ensures Encode([102, 111, 111, 98, 97]) == [90, 109, 57, 118, 89, 109, 69, 61]
  {
    var b: seq<byte> := [102, 111, 111, 98, 97];
    assert b[3..] == [98, 97];
    assert Encode(b) == EncodeTriple(102, 111, 111) + Encode([98, 97]);
    FooTriple();
    assert Encode([98, 97]) == [Symbol(24), Symbol(38), Symbol(4), PAD];
  }

  /** "foobar" encodes as "Zm9vYmFy". */
  lemma RfcTestVectorFoobar()
    ensures Encode([102, 111, 111, 98, 97, 114]) == [90, 109, 57, 118, 89, 109, 70, 121]
  {
    var b: seq<byte> := [102, 111, 111, 98, 97, 114];
    assert b[3..] == [98, 97, 114];
    assert Encode(b) == EncodeTriple(102, 111, 111) + Encode([98, 97, 114]);
    FooTriple();
    assert Encode([98, 97, 114]) == EncodeTriple(98, 97, 114) + Encode([]);
    assert EncodeTriple(98, 97, 114) == [Symbol(24), Symbol(38), Symbol(5), Symbol(50)];
  }

  /** The malformed token of the documentation is refused at its hyphen. */
  lemma NotBase64Refused()
    ensures !IsValid(Str("not-base64!!"))
  {
    RefusesForeignByte(Str("not-base64!!"), 3);
  }

  /** A line ending inserted anywhere in a token changes nothing. */
  lemma CrLfIgnored(s: GoString, t: GoString)
    ensures Decode(s + [13, 10] + t) == Decode(s + t)
  {
    assert s + [13, 10] + t == s + [13] + ([10] + t);
    DecodeSkipsLineBreak(s, 13, [10] + t);
    assert s + ([10] + t) == s + [10] + t;
    DecodeSkipsLineBreak(s, 10, t);
  }

  /** "Zm9vYg", a token without its padding, is refused. */
  lemma UnpaddedRefused()
    ensures !IsValid([90, 109, 57, 118, 89, 103])
  {
    var s: GoString := [90, 109, 57, 118, 89, 103];
    StripWithoutLineBreaks(s);
    assert s[4..] == [89, 103];
  }

  /** "Zm9vYh==" is accepted although its last symbol leaves a non-zero bit. */
  lemma LeftoverBitsIgnored()
    ensures IsValid([90, 109, 57, 118, 89, 104, 61, 61])
  {
    var s: GoString := [90, 109, 57, 118, 89, 104, 61, 61];
    StripWithoutLineBreaks(s);
    assert s[4..] == [89, 104, 61, 61];
  }
}
