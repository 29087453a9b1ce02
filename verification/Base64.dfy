/** The Base64 pair used for inline images (section 4 of RFC 4648). */
module Base64 {
  import opened Basics

  // ----- The two tables, by their ranges -----

  function ToBase64(k: nat): char
    requires k <= 64
  {
    if k < 26 then 'A' + k as char
    else if k < 52 then 'a' + (k - 26) as char
    else if k < 62 then '0' + (k - 52) as char
    else if k == 62 then '+' else if k == 63 then '/' else '='
  }

  const PAD := '='

  /** The table entry for the low seven bits of a character code; the pad counts as 0. */
  function ToBinary(c: char): (b: int)
    ensures b == -1 || 0 <= b < 64
  {
    var code := c as int % 128;
    if 65 <= code <= 90 then code - 65
    else if 97 <= code <= 122 then code - 71
    else if 48 <= code <= 57 then code + 4
    else if code == 43 then 62 else if code == 47 then 63 else if code == 61 then 0 else -1
  }

  lemma TablesAgree(k: nat)
    requires k < 64
    ensures ToBinary(ToBase64(k)) == k && ToBase64(k) != PAD
  {}

  /** The alphabet of section 4 of RFC 4648, table 1, digit by digit. */
  lemma Alphabet(k: nat)
    requires k < 64
    ensures ToBase64(k) == if k < 26 then UPPER[k] else if k < 52 then LOWER[k - 26] else REST[k - 52]
  {
    if k < 26 {
      UpperCase(k);
    } else if k < 52 {
      LowerCase(k - 26);
    }
  }

  const UPPER := "ABCDEFGHIJKLMNOPQRSTUVWXYZ"
  const LOWER := "abcdefghijklmnopqrstuvwxyz"
  const REST := "0123456789+/"

  lemma UpperCase(k: nat)
    requires k < 26
    ensures UPPER[k] == 'A' + k as char
  {}

  lemma LowerCase(k: nat)
    requires k < 26
    ensures LOWER[k] == 'a' + k as char
  {}

  /** Reading looks at the low seven bits of a character code: they stand for k exactly when they are
      those of the k-th digit, and the pad reads as 0, too. */
  lemma ReadsAs(c: char, k: nat)
    requires k < 64
    ensures ToBinary(c) == k <==> c as int % 128 == ToBase64(k) as int || (k == 0 && c as int % 128 == PAD as int)
  {}

  // ----- Encoding -----

  function Group(a: Byte, b: Byte, c: Byte): string {
    [ToBase64(a / 4), ToBase64(a % 4 * 16 + b / 16), ToBase64(b % 16 * 4 + c / 64), ToBase64(c % 64)]
  }

  function Tail(data: seq<Byte>): string
    requires |data| < 3
  {
    if |data| == 2 then
      [ToBase64(data[0] / 4), ToBase64(data[0] % 4 * 16 + data[1] / 16), ToBase64(data[1] % 16 * 4), PAD]
    else if |data| == 1 then [ToBase64(data[0] / 4), ToBase64(data[0] % 4 * 16), PAD, PAD]
    else []
  }

  function Encoding(data: seq<Byte>): string {
    if |data| < 3 then Tail(data) else Group(data[0], data[1], data[2]) + Encoding(data[3..])
  }

  /** Four digits are the number that the three bytes are, in base 64 instead of 256. */
  lemma GroupIsNumber(a: Byte, b: Byte, c: Byte)
    ensures var g := Group(a, b, c);
            ((ToBinary(g[0]) * 64 + ToBinary(g[1])) * 64 + ToBinary(g[2])) * 64 + ToBinary(g[3]) ==
            (a as int * 256 + b) * 256 + c
  {
    Sextets(a, b, c);
    TablesAgree(a / 4);
    TablesAgree(a % 4 * 16 + b / 16);
    TablesAgree(b % 16 * 4 + c / 64);
    TablesAgree(c % 64);
  }

  /** Vectors of section 10 of RFC 4648. */
  lemma ShortVectors()
    ensures Encoding([]) == "" && Encoding([102]) == "Zg==" && Encoding([102, 111]) == "Zm8="
  {}

  lemma LongVector(data: seq<Byte>)
    requires data == [102, 111, 111, 98, 97, 114]
    ensures Encoding(data) == "Zm9vYmFy"
  {
    TwoGroups(data);
    assert Group(102, 111, 111) == "Zm9v" && Group(98, 97, 114) == "YmFy";
  }

  lemma TwoGroups(data: seq<Byte>)
    requires |data| == 6
    ensures Encoding(data) == Group(data[0], data[1], data[2]) + Group(data[3], data[4], data[5])
  {
    var rest := data[3..];
    assert rest[3..] == [];
    assert Encoding(rest) == Group(rest[0], rest[1], rest[2]) + Encoding(rest[3..]);
  }

  lemma EncodingStep(data: seq<Byte>, i: nat, result: string, group: string)
    requires i + 3 <= |data| && group == Group(data[i], data[i + 1], data[i + 2])
    ensures result + Encoding(data[i..]) == (result + group) + Encoding(data[i + 3..])
  {
    var rest := data[i..];
    assert rest[3..] == data[i + 3..];
    assert Encoding(rest) == group + Encoding(rest[3..]);
    Associate(result, group, Encoding(rest[3..]));
  }

  lemma AppendFour(before: string, w: char, x: char, y: char, z: char)
    ensures before + [w] + [x] + [y] + [z] == before + [w, x, y, z]
  {}

  method Encode(data: seq<Byte>) returns (result: string)
    ensures result == Encoding(data)
  {
    result := "";
    var length := |data|;
    var lengthpad := length % 3;
    var i := 0;
    ghost var groups := length / 3;
    while i < length - 2
      invariant groups >= 0 && 0 <= i && length == i + 3 * groups + lengthpad
      invariant result + Encoding(data[i..]) == Encoding(data)
    {
      EncodingStep(data, i, result, Group(data[i], data[i + 1], data[i + 2]));
      result := AppendGroup(result, data[i], data[i + 1], data[i + 2]);
      i, groups := i + 3, groups - 1;
    }
    var j := length - lengthpad;
    assert j == i;
    result := AppendTail(result, data[j..]);
  }

  /** The body of the encoding loop: four characters for three bytes. */
  method AppendGroup(result: string, a: Byte, b: Byte, c: Byte) returns (r: string)
    ensures r == result + Group(a, b, c)
  {
    r := result + [ToBase64(a / 4)];
    r := r + [ToBase64(a % 4 * 16 + b / 16)];
    r := r + [ToBase64(b % 16 * 4 + c / 64)];
    r := r + [ToBase64(c % 64)];
    AppendFour(result, ToBase64(a / 4), ToBase64(a % 4 * 16 + b / 16), ToBase64(b % 16 * 4 + c / 64), ToBase64(c % 64));
  }

  /** The remaining 1 or 2 bytes, padded to four characters. */
  method AppendTail(result: string, data: seq<Byte>) returns (r: string)
    requires |data| < 3
    ensures r == result + Tail(data)
  {
    r := result;
    if |data| == 2 {
      r := r + [ToBase64(data[0] / 4)];
      r := r + [ToBase64(data[0] % 4 * 16 + data[1] / 16)];
      r := r + [ToBase64(data[1] % 16 * 4)];
      r := r + [ToBase64(64)];
      AppendFour(result, ToBase64(data[0] / 4), ToBase64(data[0] % 4 * 16 + data[1] / 16),
                 ToBase64(data[1] % 16 * 4), PAD);
    } else if |data| == 1 {
      r := r + [ToBase64(data[0] / 4)];
      r := r + [ToBase64(data[0] % 4 * 16)];
      r := r + [ToBase64(64)];
      r := r + [ToBase64(64)];
      AppendFour(result, ToBase64(data[0] / 4), ToBase64(data[0] % 4 * 16), PAD, PAD);
    }
  }

  lemma {:induction false} EncodingLength(data: seq<Byte>)
    ensures |Encoding(data)| == 4 * ((|data| + 2) / 3)
  {
    if |data| >= 3 {
      EncodingLength(data[3..]);
      OneGroupLess(|data|, |data[3..]|);
      assert |Encoding(data)| == 4 + |Encoding(data[3..])|;
    }
  }

  lemma OneGroupLess(n: nat, rest: nat)
    requires n == rest + 3
    ensures 4 * ((n + 2) / 3) == 4 + 4 * ((rest + 2) / 3)
  {}

  // ----- Decoding -----

  /** The bytes appended so far, and the bits decoded but not yet appended. */
  datatype Bits = Bits(bytes: seq<Byte>, leftbits: nat, leftdata: nat)

  predicate Legal(c: char) {
    ToBinary(c) != -1
  }

  function Pow2(k: nat): nat {
    if k == 0 then 1 else if k == 2 then 4 else if k == 4 then 16 else 64
  }

  /** Bits come in sixes and leave in eights. */
  predicate WellFormed(s: Bits) {
    (s.leftbits == 0 || s.leftbits == 2 || s.leftbits == 4 || s.leftbits == 6) && s.leftdata < Pow2(s.leftbits)
  }

  /** One character. Shifting by six leaves room, so `|` is addition. */
  function Taken(s: Bits, c: char): (t: Bits)
    requires WellFormed(s)
    ensures WellFormed(t)
  {
    if !Legal(c) then s
    else
      var data := s.leftdata * 64 + ToBinary(c);
      var bits := s.leftbits + 6;
      if bits >= 8 then
        var scale := Pow2(bits - 8);
        Bits(if c == PAD then s.bytes else s.bytes + [data / scale % 256], bits - 8, data % scale)
      else Bits(s.bytes, bits, data)
  }

  function TakenAll(s: Bits, text: string): (t: Bits)
    requires WellFormed(s)
    ensures WellFormed(t)
  {
    if text == "" then s else Taken(TakenAll(s, text[..|text| - 1]), text[|text| - 1])
  }

  const START := Bits([], 0, 0)

  function IndexOf(text: string, c: char): int {
    if text == "" then -1
    else if text[0] == c then 0
    else var k := IndexOf(text[1..], c); if k < 0 then -1 else k + 1
  }

  function ResultLength(text: string, offset: nat): nat
    requires offset <= |text|
  {
    var n := IndexOf(text, PAD) - offset;
    var n := if n < 0 then |text| - offset else n;
    n / 4 * 3 + n % 4 * 2 / 3
  }

  /** The JavaScript array of that length after these bytes were stored at 0, 1, ...: it grows when
      there are more of them and keeps holes when there are fewer. */
  function Filled(length: nat, bytes: seq<Byte>): seq<Option<Byte>> {
    var n := |bytes|;
    seq(if n < length then length else n, k requires 0 <= k => if k < n then Some(bytes[k]) else None)
  }

  lemma FilledGrows(length: nat, bytes: seq<Byte>, b: Byte)
    ensures var before := Filled(length, bytes);
            Filled(length, bytes + [b]) ==
            if |bytes| < |before| then before[|bytes| := Some(b)] else before + [Some(b)]
  {}

  /** None is the "Corrupted base64 string" error. */
  function Decoding(text: string, offset: nat): Option<seq<Option<Byte>>>
    requires offset <= |text|
  {
    var s := TakenAll(START, text[offset..]);
    if s.leftbits != 0 then None else Some(Filled(ResultLength(text, offset), s.bytes))
  }

  lemma TakenNext(data: string, offset: nat, i: nat)
    requires offset <= i < |data|
    ensures TakenAll(START, data[offset..i + 1]) == Taken(TakenAll(START, data[offset..i]), data[i])
  {
    assert data[offset..i + 1][..i - offset] == data[offset..i];
  }

  /** The beginning of `decode`. */
  method ExpectedLength(data: string, offset: nat) returns (resultLength: nat)
    requires offset <= |data|
    ensures resultLength == ResultLength(data, offset)
  {
    var dataLength := IndexOf(data, PAD) - offset;
    if dataLength < 0 {
      dataLength := |data| - offset;
    }
    resultLength := dataLength / 4 * 3 + dataLength % 4 * 2 / 3;
  }

  /** The state of the decoding loop represents s. */
  ghost predicate Represents(s: Bits, result: seq<Option<Byte>>, resultLength: nat, idx: nat, leftbits: nat,
                             leftdata: nat) {
    leftbits == s.leftbits && leftdata == s.leftdata && idx == |s.bytes| && result == Filled(resultLength, s.bytes)
  }

  method Decode(data: string, offset: nat) returns (r: Option<seq<Option<Byte>>>)
    requires offset <= |data|
    ensures r == Decoding(data, offset)
  {
    var resultLength := ExpectedLength(data, offset);
    var result: seq<Option<Byte>> := seq(resultLength, _ => None);
    var leftbits, leftdata, idx := 0, 0, 0;
    ghost var s := START;
    for i := offset to |data|
      invariant WellFormed(s) && s == TakenAll(START, data[offset..i])
      invariant Represents(s, result, resultLength, idx, leftbits, leftdata)
    {
      TakenNext(data, offset, i);
      result, idx, leftbits, leftdata := DecodeCharacter(s, resultLength, data[i], result, idx, leftbits, leftdata);
      s := Taken(s, data[i]);
    }
    assert data[offset..|data|] == data[offset..];
    if leftbits != 0 {
      return None;
    }
    return Some(result);
  }

  /** The body of the decoding loop. */
  method DecodeCharacter(ghost s: Bits, ghost resultLength: nat, ch: char, was: seq<Option<Byte>>, at: nat, left: nat,
                         had: nat)
    returns (result: seq<Option<Byte>>, idx: nat, leftbits: nat, leftdata: nat)
    requires WellFormed(s) && Represents(s, was, resultLength, at, left, had)
    ensures Represents(Taken(s, ch), result, resultLength, idx, leftbits, leftdata)
  {
    result, idx, leftbits, leftdata := was, at, left, had;
    var c := ToBinary(ch);
    var padding := ch == PAD;
    if c == -1 {
      return;
    }
    leftdata := leftdata * 64 + c;
    leftbits := leftbits + 6;
    if leftbits >= 8 {
      leftbits := leftbits - 8;
      if !padding {
        var byte := leftdata / Pow2(leftbits) % 256;
        result := if idx < |result| then result[idx := Some(byte)] else result + [Some(byte)];
        idx := idx + 1;
        FilledGrows(resultLength, s.bytes, byte);
      }
      leftdata := leftdata % Pow2(leftbits);
    }
  }

  // ----- When decoding fails -----

  function LegalCount(text: string): nat {
    if text == "" then 0
    else LegalCount(text[..|text| - 1]) + if Legal(text[|text| - 1]) then 1 else 0
  }

  /** The bits left over after so many sextets. */
  function LeftAfter(sextets: nat): (bits: nat)
    ensures bits == 0 || bits == 2 || bits == 4 || bits == 6
  {
    if sextets == 0 then 0 else if LeftAfter(sextets - 1) == 0 then 6 else LeftAfter(sextets - 1) - 2
  }

  lemma {:induction false} LeftAfterCycle(n: nat)
    ensures LeftAfter(4 * n) == 0 && LeftAfter(4 * n + 1) == 6 && LeftAfter(4 * n + 2) == 4 && LeftAfter(4 * n + 3) == 2
  {
    if n > 0 {
      LeftAfterCycle(n - 1);
      assert LeftAfter(4 * n) == LeftAfter(4 * (n - 1) + 3) - 2;
    }
    assert LeftAfter(4 * n + 1) == 6;
  }

  lemma {:induction false} LeftBits(text: string)
    ensures TakenAll(START, text).leftbits == LeftAfter(LegalCount(text))
  {
    if text != "" {
      LeftBits(text[..|text| - 1]);
    }
  }

  /** Whatever the text, decoding throws exactly when its legal characters, pads included, do not
      come in fours. */
  lemma {:induction false} CorruptedIff(text: string, offset: nat)
    requires offset <= |text|
    ensures Decoding(text, offset) == None <==> LegalCount(text[offset..]) % 4 != 0
  {
    var count := LegalCount(text[offset..]);
    LeftBits(text[offset..]);
    LeftAfterCycle(count / 4);
    assert count == 4 * (count / 4) + count % 4;
  }

  // ----- Round trip -----

  lemma {:induction false} TakenAppend(s: Bits, x: string, y: string)
    requires WellFormed(s)
    ensures TakenAll(s, x + y) == TakenAll(TakenAll(s, x), y)
    decreases |y|
  {
    if y == "" {
      assert x + y == x;
    } else {
      TakenAppend(s, x, y[..|y| - 1]);
      assert (x + y)[..|x + y| - 1] == x + y[..|y| - 1];
    }
  }

  lemma TakenFour(s: Bits, text: string)
    requires WellFormed(s) && |text| == 4
    ensures TakenAll(s, text) == Taken(Taken(Taken(Taken(s, text[0]), text[1]), text[2]), text[3])
  {
    assert text[..3][..2] == text[..2] && text[..2][..1] == text[..1] && text[..1][..0] == "";
    assert TakenAll(s, text[..1]) == Taken(s, text[0]);
    assert TakenAll(s, text[..2]) == Taken(TakenAll(s, text[..1]), text[1]);
    assert TakenAll(s, text[..3]) == Taken(TakenAll(s, text[..2]), text[2]);
  }

  lemma TakenDigit(s: Bits, k: nat)
    requires WellFormed(s) && k < 64
    ensures Legal(ToBase64(k))
    ensures var data := s.leftdata * 64 + k;
            Taken(s, ToBase64(k)) ==
            if s.leftbits == 0 then Bits(s.bytes, 6, data)
            else Bits(s.bytes + [data / Pow2(s.leftbits - 2) % 256], s.leftbits - 2, data % Pow2(s.leftbits - 2))
  {
    TablesAgree(k);
  }

  lemma Quotient(b: Byte, scale: nat, left: nat)
    requires (scale == 1 || scale == 4 || scale == 16) && left < scale
    ensures (b * scale + left) / scale == b && (b * scale + left) % scale == left
  {}

  lemma TakenByte(s: Bits, k: nat, b: Byte, left: nat)
    requires WellFormed(s) && s.leftbits > 0 && k < 64
    requires left < Pow2(s.leftbits - 2) && s.leftdata * 64 + k == b * Pow2(s.leftbits - 2) + left
    ensures Taken(s, ToBase64(k)) == Bits(s.bytes + [b], s.leftbits - 2, left)
  {
    TakenDigit(s, k);
    SplitData(s.leftdata * 64 + k, b, s.leftbits - 2, left);
  }

  lemma SplitData(data: nat, b: Byte, bits: nat, left: nat)
    requires (bits == 0 || bits == 2 || bits == 4) && left < Pow2(bits) && data == b * Pow2(bits) + left
    ensures data / Pow2(bits) % 256 == b && data % Pow2(bits) == left
  {
    if bits == 0 {
      Quotient(b, 1, left);
    } else if bits == 2 {
      Quotient(b, 4, left);
    } else {
      Quotient(b, 16, left);
    }
  }

  /** Two sextets give a byte and leave four bits, the next gives a byte and leaves two, the last
      gives a byte. */
  lemma FirstByte(bytes: seq<Byte>, a: Byte, left: nat, k0: nat, k1: nat)
    requires k0 < 64 && k1 < 64 && left < 16 && k0 * 64 + k1 == a * 16 + left
    ensures Taken(Taken(Bits(bytes, 0, 0), ToBase64(k0)), ToBase64(k1)) == Bits(bytes + [a], 4, left)
  {
    TakenDigit(Bits(bytes, 0, 0), k0);
    TakenByte(Bits(bytes, 6, k0), k1, a, left);
  }

  lemma SecondByte(bytes: seq<Byte>, b: Byte, had: nat, left: nat, k: nat)
    requires had < 16 && k < 64 && left < 4 && had * 64 + k == b * 4 + left
    ensures Taken(Bits(bytes, 4, had), ToBase64(k)) == Bits(bytes + [b], 2, left)
  {
    TakenByte(Bits(bytes, 4, had), k, b, left);
  }

  lemma ThirdByte(bytes: seq<Byte>, c: Byte, had: nat, k: nat)
    requires had < 4 && k < 64 && had * 64 + k == c
    ensures Taken(Bits(bytes, 2, had), ToBase64(k)) == Bits(bytes + [c], 0, 0)
  {
    TakenByte(Bits(bytes, 2, had), k, c, 0);
  }

  /** The encoder splits bytes into sextets without losing bits. */
  lemma Sextets(a: Byte, b: Byte, c: Byte)
    ensures a / 4 * 64 + (a % 4 * 16 + b / 16) == a * 16 + b / 16
    ensures b / 16 * 64 + (b % 16 * 4 + c / 64) == b * 4 + c / 64
    ensures c / 64 * 64 + c % 64 == c
    ensures a / 4 < 64 && a % 4 * 16 + b / 16 < 64 && b % 16 * 4 + c / 64 < 64
  {}

  lemma GroupDecodes(bytes: seq<Byte>, a: Byte, b: Byte, c: Byte)
    ensures TakenAll(Bits(bytes, 0, 0), Group(a, b, c)) == Bits(bytes + [a, b, c], 0, 0)
  {
    Sextets(a, b, c);
    var k0: nat, k1: nat, k2: nat, k3: nat := a / 4, a % 4 * 16 + b / 16, b % 16 * 4 + c / 64, c % 64;
    FirstByte(bytes, a, b / 16, k0, k1);
    SecondByte(bytes + [a], b, b / 16, c / 64, k2);
    ThirdByte(bytes + [a] + [b], c, c / 64, k3);
    TakenFour(Bits(bytes, 0, 0), Group(a, b, c));
    assert bytes + [a] + [b] + [c] == bytes + [a, b, c];
  }

  lemma LastByteDecodes(bytes: seq<Byte>, a: Byte)
    ensures TakenAll(Bits(bytes, 0, 0), Tail([a])) == Bits(bytes + [a], 0, 0)
  {
    Sextets(a, 0, 0);
    FirstByte(bytes, a, 0, a / 4, a % 4 * 16);
    TakenFour(Bits(bytes, 0, 0), Tail([a]));
    PadsAddNothing(bytes + [a]);
  }

  lemma LastBytesDecode(bytes: seq<Byte>, a: Byte, b: Byte)
    ensures TakenAll(Bits(bytes, 0, 0), Tail([a, b])) == Bits(bytes + [a, b], 0, 0)
  {
    Sextets(a, b, 0);
    var k0: nat, k1: nat, k2: nat := a / 4, a % 4 * 16 + b / 16, b % 16 * 4;
    FirstByte(bytes, a, b / 16, k0, k1);
    SecondByte(bytes + [a], b, b / 16, 0, k2);
    var text := [ToBase64(k0), ToBase64(k1), ToBase64(k2), PAD];
    assert Tail([a, b]) == text;
    TakenFour(Bits(bytes, 0, 0), text);
    PadsAddNothing(bytes + [a] + [b]);
    assert bytes + [a] + [b] == bytes + [a, b];
  }

  lemma TailDecodes(bytes: seq<Byte>, data: seq<Byte>)
    requires |data| < 3
    ensures TakenAll(Bits(bytes, 0, 0), Tail(data)) == Bits(bytes + data, 0, 0)
  {
    if |data| == 0 {
      assert bytes + data == bytes;
    } else if |data| == 1 {
      assert data == [data[0]];
      LastByteDecodes(bytes, data[0]);
    } else {
      assert data == [data[0], data[1]];
      LastBytesDecode(bytes, data[0], data[1]);
    }
  }

  lemma PadsAddNothing(bytes: seq<Byte>)
    ensures Taken(Taken(Bits(bytes, 4, 0), PAD), PAD) == Bits(bytes, 0, 0)
    ensures Taken(Bits(bytes, 2, 0), PAD) == Bits(bytes, 0, 0)
  {}

  lemma FirstThree(data: seq<Byte>, first: seq<Byte>)
    requires |data| >= 3 && first == [data[0], data[1], data[2]]
    ensures first + data[3..] == data
  {}

  lemma {:induction false} EncodingDecodes(bytes: seq<Byte>, data: seq<Byte>)
    ensures TakenAll(Bits(bytes, 0, 0), Encoding(data)) == Bits(bytes + data, 0, 0)
    decreases |data|
  {
    if |data| < 3 {
      TailDecodes(bytes, data);
    } else {
      var group := Group(data[0], data[1], data[2]);
      var first := [data[0], data[1], data[2]];
      TakenAppend(Bits(bytes, 0, 0), group, Encoding(data[3..]));
      GroupDecodes(bytes, data[0], data[1], data[2]);
      EncodingDecodes(bytes + first, data[3..]);
      FirstThree(data, first);
      Associate(bytes, first, data[3..]);
    }
  }

  lemma GroupHasNoPad(a: Byte, b: Byte, c: Byte)
    ensures forall k :: 0 <= k < 4 ==> Group(a, b, c)[k] != PAD
  {}

  /** The first pad stands right after the characters that carry data. */
  lemma {:induction false} PadIndex(data: seq<Byte>)
    ensures IndexOf(Encoding(data), PAD) ==
            if |data| % 3 == 0 then -1 else |data| / 3 * 4 + |data| % 3 + 1
  {
    if |data| < 3 {
      var t := Tail(data);
      if |data| == 1 {
        NoPadFirst(t, 2);
      } else if |data| == 2 {
        NoPadFirst(t, 3);
      }
    } else {
      PadIndex(data[3..]);
      assert |data| / 3 == |data[3..]| / 3 + 1 && |data| % 3 == |data[3..]| % 3;
      var t := Encoding(data);
      GroupHasNoPad(data[0], data[1], data[2]);
      NoPadFirst(t, 4);
      assert t[4..] == Encoding(data[3..]);
    }
  }

  lemma {:induction false} NoPadFirst(text: string, n: nat)
    requires n <= |text| && forall k :: 0 <= k < n ==> text[k] != PAD
    ensures IndexOf(text, PAD) == if IndexOf(text[n..], PAD) < 0 then -1 else n + IndexOf(text[n..], PAD)
  {
    if n == 0 {
      assert text[0..] == text;
    } else {
      NoPadFirst(text[1..], n - 1);
      assert text[1..][n - 1..] == text[n..];
    }
  }

  /** From the length of the text, or the place of its first pad, back to the number of bytes. */
  lemma LengthBack(n: nat)
    ensures var chars := if n % 3 == 0 then 4 * ((n + 2) / 3) else n / 3 * 4 + n % 3 + 1;
            chars / 4 * 3 + chars % 4 * 2 / 3 == n
  {
    var q, r := n / 3, n % 3;
    assert n == 3 * q + r;
    if r == 0 {
      assert (n + 2) / 3 == q;
    } else {
      assert (4 * q + (r + 1)) / 4 == q && (4 * q + (r + 1)) % 4 == r + 1;
    }
  }

  lemma {:induction false} ResultIsExact(data: seq<Byte>)
    ensures ResultLength(Encoding(data), 0) == |data|
  {
    EncodingLength(data);
    PadIndex(data);
    LengthBack(|data|);
  }

  /** Encoding and then decoding gives back the bytes, with no error and no hole. */
  lemma {:induction false} RoundTrip(data: seq<Byte>)
    ensures Decoding(Encoding(data), 0) == Some(seq(|data|, k requires 0 <= k < |data| => Some(data[k])))
  {
    var text := Encoding(data);
    assert text[0..] == text && [] + data == data;
    EncodingDecodes([], data);
    ResultIsExact(data);
    assert Filled(|data|, data) == seq(|data|, k requires 0 <= k < |data| => Some(data[k]));
  }

  lemma ResultLengthAt(prefix: string, text: string)
    requires PAD !in prefix
    ensures ResultLength(prefix + text, |prefix|) == ResultLength(text, 0)
  {
    var all := prefix + text;
    assert all[|prefix|..] == text;
    NoPadFirst(all, |prefix|);
  }

  /** So does decoding from an offset, whatever stands before it, pads excepted. */
  lemma RoundTripAt(prefix: string, data: seq<Byte>)
    requires PAD !in prefix
    ensures Decoding(prefix + Encoding(data), |prefix|) == Decoding(Encoding(data), 0)
  {
    var text := Encoding(data);
    assert (prefix + text)[|prefix|..] == text == text[0..];
    ResultLengthAt(prefix, text);
  }

  /** Characters outside the alphabet make no difference to the bytes that are read. */
  lemma IllegalIsSkipped(before: string, c: char, after: string)
    requires !Legal(c)
    ensures TakenAll(START, before + [c] + after) == TakenAll(START, before + after)
  {
    TakenAppend(START, before + [c], after);
    TakenAppend(START, before, after);
    assert (before + [c])[..|before|] == before;
  }
}
