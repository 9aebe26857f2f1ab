/**
 * The base64 encoding of section 4 of RFC 4648, as recovery frames carry it.
 *
 * Four characters stand for three bytes; a last group of one or two bytes is padded.
 */
module Base64 {
  type Byte = x: nat | x < 256

  function Symbol(v: nat): char
    requires v < 64
  {
    if v < 26 then ('A' as nat + v) as char
    else if v < 52 then ('a' as nat + (v - 26)) as char
    else if v < 62 then ('0' as nat + (v - 52)) as char
    else if v == 62 then '+'
    else '/'
  }

  predicate IsSymbol(c: char) {
    'A' <= c <= 'Z' || 'a' <= c <= 'z' || '0' <= c <= '9' || c == '+' || c == '/'
  }

  function Value(c: char): (v: nat)
    requires IsSymbol(c)
    ensures v < 64
  {
    if 'A' <= c <= 'Z' then c as nat - 'A' as nat
    else if 'a' <= c <= 'z' then c as nat - 'a' as nat + 26
    else if '0' <= c <= '9' then c as nat - '0' as nat + 52
    else if c == '+' then 62
    else 63
  }

  function Encode(b: seq<Byte>): string {
    if b == [] then ""
    else if |b| == 1 then [Symbol(b[0] / 4), Symbol(b[0] % 4 * 16), '=', '=']
    else if |b| == 2 then [Symbol(b[0] / 4), Symbol(b[0] % 4 * 16 + b[1] / 16), Symbol(b[1] % 16 * 4), '=']
    else Quad(b[0], b[1], b[2]) + Encode(b[3..])
  }

  function Quad(x: Byte, y: Byte, z: Byte): string {
    [Symbol(x / 4), Symbol(x % 4 * 16 + y / 16), Symbol(y % 16 * 4 + z / 64), Symbol(z % 64)]
  }

  function Triple(v0: nat, v1: nat, v2: nat, v3: nat): seq<Byte>
    requires v0 < 64 && v1 < 64 && v2 < 64 && v3 < 64
  {
    [v0 * 4 + v1 / 16, v1 % 16 * 16 + v2 / 4, v2 % 4 * 64 + v3]
  }

  /** Groups of four symbols, of which only the last may be padded. */
  predicate WellFormed(text: string) {
    text == "" ||
    (|text| >= 4 && IsSymbol(text[0]) && IsSymbol(text[1]) &&
     (if text[3] != '=' then IsSymbol(text[2]) && IsSymbol(text[3]) && WellFormed(text[4..])
      else |text| == 4 && (IsSymbol(text[2]) || text[2] == '=')))
  }

  /** Bits that padding leaves over are ignored. */
  function Decode(text: string): seq<Byte>
    requires WellFormed(text)
  {
    if text == "" then []
    else if text[3] == '=' && text[2] == '=' then [Value(text[0]) * 4 + Value(text[1]) / 16]
    else if text[3] == '=' then
      [Value(text[0]) * 4 + Value(text[1]) / 16, Value(text[1]) % 16 * 16 + Value(text[2]) / 4]
    else Triple(Value(text[0]), Value(text[1]), Value(text[2]), Value(text[3])) + Decode(text[4..])
  }

  /** The left-over bits are zero, as an encoder makes them. */
  predicate Canonical(text: string)
    requires WellFormed(text)
  {
    if text == "" then true
    else if text[3] == '=' && text[2] == '=' then Value(text[1]) % 16 == 0
    else if text[3] == '=' then Value(text[2]) % 4 == 0
    else Canonical(text[4..])
  }

  lemma SymbolValue(v: nat)
    requires v < 64
    ensures IsSymbol(Symbol(v)) && Value(Symbol(v)) == v && Symbol(v) != '='
  {
  }

  lemma ValueSymbol(c: char)
    requires IsSymbol(c)
    ensures Symbol(Value(c)) == c
  {
  }

  lemma QuadParts(x: Byte, y: Byte, z: Byte)
    ensures Triple(x / 4, x % 4 * 16 + y / 16, y % 16 * 4 + z / 64, z % 64) == [x, y, z]
  {
  }

  lemma QuadTriple(x: Byte, y: Byte, z: Byte)
    ensures var q := Quad(x, y, z);
            && IsSymbol(q[0]) && IsSymbol(q[1]) && IsSymbol(q[2]) && IsSymbol(q[3])
            && Triple(Value(q[0]), Value(q[1]), Value(q[2]), Value(q[3])) == [x, y, z]
  {
    SymbolValue(x / 4);
    SymbolValue(x % 4 * 16 + y / 16);
    SymbolValue(y % 16 * 4 + z / 64);
    SymbolValue(z % 64);
    QuadParts(x, y, z);
  }

  lemma TripleQuad(c0: char, c1: char, c2: char, c3: char)
    requires IsSymbol(c0) && IsSymbol(c1) && IsSymbol(c2) && IsSymbol(c3)
    ensures var t := Triple(Value(c0), Value(c1), Value(c2), Value(c3)); Quad(t[0], t[1], t[2]) == [c0, c1, c2, c3]
  {
    ValueSymbol(c0);
    ValueSymbol(c1);
    ValueSymbol(c2);
    ValueSymbol(c3);
    var v0, v1, v2, v3 := Value(c0), Value(c1), Value(c2), Value(c3);
    TripleParts(v0, v1, v2, v3);
  }

  lemma TripleParts(v0: nat, v1: nat, v2: nat, v3: nat)
    requires v0 < 64 && v1 < 64 && v2 < 64 && v3 < 64
    ensures var t := Triple(v0, v1, v2, v3);
            t[0] / 4 == v0 && t[0] % 4 * 16 + t[1] / 16 == v1 && t[1] % 16 * 4 + t[2] / 64 == v2 && t[2] % 64 == v3
  {
  }

  /** The text is canonical, decodes to the bytes, and has four symbols for every three bytes begun. */
  predicate Stands(text: string, b: seq<Byte>) {
    WellFormed(text) && Decode(text) == b && Canonical(text) && |text| == (|b| + 2) / 3 * 4
  }

  lemma {:induction false} EncodeStands(b: seq<Byte>)
    ensures Stands(Encode(b), b)
    decreases |b|
  {
    if |b| == 1 {
      assert b == [b[0]];
      PaddedOne(b[0]);
    } else if |b| == 2 {
      assert b == [b[0], b[1]];
      PaddedTwo(b[0], b[1]);
    } else if b != [] {
      EncodeStands(b[3..]);
      QuadStands(b[0], b[1], b[2], b[3..], Encode(b[3..]));
      assert b == [b[0], b[1], b[2]] + b[3..];
    }
  }

  lemma QuadStands(x: Byte, y: Byte, z: Byte, rest: seq<Byte>, text: string)
    requires Stands(text, rest)
    ensures Stands(Quad(x, y, z) + text, [x, y, z] + rest)
  {
    QuadThen(x, y, z, text);
    assert (|rest| + 3 + 2) / 3 == (|rest| + 2) / 3 + 1;
  }

  /** Encoded text is well-formed, decodes to what was encoded, and has four symbols for every three bytes begun. */
  lemma EncodeDecode(b: seq<Byte>)
    ensures WellFormed(Encode(b)) && Decode(Encode(b)) == b && Canonical(Encode(b))
    ensures |Encode(b)| == (|b| + 2) / 3 * 4
  {
    EncodeStands(b);
  }

  lemma PaddedOne(x: Byte)
    ensures var text := Encode([x]); |text| == 4 && WellFormed(text) && Decode(text) == [x] && Canonical(text)
  {
    SymbolValue(x / 4);
    SymbolValue(x % 4 * 16);
  }

  lemma PaddedTwo(x: Byte, y: Byte)
    ensures var text := Encode([x, y]); |text| == 4 && WellFormed(text) && Decode(text) == [x, y] && Canonical(text)
  {
    var a, b, c := x / 4, x % 4 * 16 + y / 16, y % 16 * 4;
    SymbolValue(a);
    SymbolValue(b);
    SymbolValue(c);
    PaddedBits(x, y, a, b, c);
    assert Encode([x, y]) == [Symbol(a), Symbol(b), Symbol(c), '='];
  }

  lemma PaddedBits(x: Byte, y: Byte, a: nat, b: nat, c: nat)
    requires a == x / 4 && b == x % 4 * 16 + y / 16 && c == y % 16 * 4
    ensures a * 4 + b / 16 == x && b % 16 * 16 + c / 4 == y && c % 4 == 0
  {
  }

  lemma GroupThen(group: string, rest: string)
    requires |group| == 4 && IsSymbol(group[0]) && IsSymbol(group[1]) && IsSymbol(group[2]) && IsSymbol(group[3])
    requires WellFormed(rest)
    ensures WellFormed(group + rest)
    ensures Decode(group + rest) ==
              Triple(Value(group[0]), Value(group[1]), Value(group[2]), Value(group[3])) + Decode(rest)
    ensures Canonical(group + rest) <==> Canonical(rest)
  {
    var text := group + rest;
    assert text[4..] == rest;
    assert text[0] == group[0] && text[1] == group[1] && text[2] == group[2] && text[3] == group[3];
  }

  lemma QuadThen(x: Byte, y: Byte, z: Byte, rest: string)
    requires WellFormed(rest)
    ensures var text := Quad(x, y, z) + rest;
            WellFormed(text) && Decode(text) == [x, y, z] + Decode(rest) && (Canonical(text) <==> Canonical(rest))
  {
    QuadTriple(x, y, z);
    GroupThen(Quad(x, y, z), rest);
  }

  /** Decoding loses nothing exactly when the left-over bits are zero; other text is accepted all the same. */
  lemma {:induction false} DecodeEncodeIff(text: string)
    requires WellFormed(text)
    ensures Encode(Decode(text)) == text <==> Canonical(text)
    decreases |text|
  {
    if text != "" {
      if text[3] != '=' {
        DecodeEncodeIff(text[4..]);
        DecodeFour(text);
        assert text == text[..4] + text[4..];
        assert Encode(Decode(text))[4..] == Encode(Decode(text[4..]));
      } else if text[2] != '=' {
        DecodeThree(text);
      } else {
        DecodeTwo(text);
      }
    }
  }

  lemma DecodeTwo(text: string)
    requires WellFormed(text) && |text| == 4 && text[2] == text[3] == '='
    ensures Encode(Decode(text)) == text <==> Canonical(text)
  {
    var v0, v1 := Value(text[0]), Value(text[1]);
    var b := v0 * 4 + v1 / 16;
    assert Decode(text) == [b];
    assert b / 4 == v0 && b % 4 * 16 == v1 - v1 % 16;
    ValueSymbol(text[0]);
    ValueSymbol(text[1]);
    SymbolValue(v1 - v1 % 16);
  }

  lemma DecodeThree(text: string)
    requires WellFormed(text) && |text| == 4 && text[2] != '=' && text[3] == '='
    ensures Encode(Decode(text)) == text <==> Canonical(text)
  {
    var v0, v1, v2 := Value(text[0]), Value(text[1]), Value(text[2]);
    var b0, b1 := v0 * 4 + v1 / 16, v1 % 16 * 16 + v2 / 4;
    assert Decode(text) == [b0, b1];
    assert b0 / 4 == v0 && b0 % 4 * 16 + b1 / 16 == v1 && b1 % 16 * 4 == v2 - v2 % 4;
    ValueSymbol(text[0]);
    ValueSymbol(text[1]);
    ValueSymbol(text[2]);
    SymbolValue(v2 - v2 % 4);
  }

  lemma DecodeFour(text: string)
    requires WellFormed(text) && |text| >= 4 && text[3] != '='
    ensures Encode(Decode(text)) == text[..4] + Encode(Decode(text[4..]))
  {
    TripleQuad(text[0], text[1], text[2], text[3]);
    var t := Triple(Value(text[0]), Value(text[1]), Value(text[2]), Value(text[3]));
    EncodeFour(text[..4], t, Decode(text[4..]));
  }

  lemma EncodeFour(group: string, t: seq<Byte>, rest: seq<Byte>)
    requires |group| == 4 && |t| == 3 && Quad(t[0], t[1], t[2]) == [group[0], group[1], group[2], group[3]]
    ensures Encode(t + rest) == group + Encode(rest)
  {
    assert t == [t[0], t[1], t[2]];
    assert group == [group[0], group[1], group[2], group[3]];
    EncodeThen(t[0], t[1], t[2], rest);
  }

  lemma EncodeThen(x: Byte, y: Byte, z: Byte, rest: seq<Byte>)
    ensures Encode([x, y, z] + rest) == Quad(x, y, z) + Encode(rest)
  {
    assert ([x, y, z] + rest)[3..] == rest;
  }

  /** Test vectors of section 10 of RFC 4648, and one for the last two symbols. */
  lemma TestVectors()
    ensures Encode([]) == ""
    ensures Encode([102]) == "Zg=="
    ensures Encode([102, 111]) == "Zm8="
    ensures Encode([102, 111, 111]) == "Zm9v"
    ensures Encode([102, 111, 111, 98]) == "Zm9vYg=="
    ensures Encode([251, 239, 255]) == "++//"
  {
    var foo: seq<Byte> := [102, 111, 111];
    assert Encode(foo) == Quad(102, 111, 111) + Encode([]);
    assert foo + [98] == [102, 111, 111, 98] && [102, 111, 111, 98][3..] == [98];
    assert Encode([251, 239, 255]) == Quad(251, 239, 255) + Encode([]);
  }

  predicate LetterOrDigit(c: char) {
    'A' <= c <= 'Z' || 'a' <= c <= 'z' || '0' <= c <= '9'
  }

  /** A symbol at the given place, or padding at one of the last two, the last of which is padded if the other is. */
  predicate PlaceOk(text: string, i: nat)
    requires i < |text|
  {
    || LetterOrDigit(text[i]) || text[i] == '+' || text[i] == '/'
    || (text[i] == '=' && (i == |text| - 1 || (i == |text| - 2 && text[|text| - 1] == '=')))
  }

  predicate PlacesOk(text: string) {
    forall i: nat :: i < |text| ==> PlaceOk(text, i)
  }

  /** Well-formed is a text of whole groups with symbols at all places but the last two, where padding may be. */
  lemma {:induction false} WellFormedIff(text: string)
    ensures WellFormed(text) <==> |text| % 4 == 0 && PlacesOk(text)
    decreases |text|
  {
    if |text| >= 4 {
      WellFormedIff(text[4..]);
      PlacesOfGroup(text, text[4..]);
      FirstGroup(text, text[4..]);
    }
  }

  lemma PlacesOfGroup(text: string, rest: string)
    requires |text| >= 4 && rest == text[4..]
    ensures PlacesOk(text) <==>
            PlaceOk(text, 0) && PlaceOk(text, 1) && PlaceOk(text, 2) && PlaceOk(text, 3) && PlacesOk(rest)
  {
    forall i: nat | i < |rest| ensures PlaceOk(rest, i) <==> PlaceOk(text, i + 4) {
      assert rest[i] == text[i + 4];
    }
    if PlacesOk(text) {
      forall i: nat | i < |rest| ensures PlaceOk(rest, i) {
        var j := i + 4;
        assert PlaceOk(text, j);
      }
    }
    if PlaceOk(text, 0) && PlaceOk(text, 1) && PlaceOk(text, 2) && PlaceOk(text, 3) && PlacesOk(rest) {
      forall i: nat | i < |text| ensures PlaceOk(text, i) {
        if i >= 4 {
          var j: nat := i - 4;
          assert PlaceOk(rest, j) && j + 4 == i;
        }
      }
    }
  }

  lemma FirstGroup(text: string, rest: string)
    requires |text| >= 4 && rest == text[4..] && (rest == "" ==> WellFormed(rest))
    requires WellFormed(rest) ==> |rest| % 4 == 0
    ensures WellFormed(text) <==>
            PlaceOk(text, 0) && PlaceOk(text, 1) && PlaceOk(text, 2) && PlaceOk(text, 3) && WellFormed(rest)
  {
  }
}
