/** JavaScript's 32-bit integer operators and the byte order of the wire. */
module Integers {
  import opened Basics

  const TWO31 := 0x8000_0000
  const TWO32 := 0x1_0000_0000

  /** The conversion every bitwise operator applies to its operands. */
  function ToInt32(n: int): int {
    var m := n % TWO32;
    if m >= TWO31 then m - TWO32 else m
  }

  /** `n >>> 0`. */
  function ToUint32(n: int): nat {
    n % TWO32
  }

  function Pow256(k: nat): nat {
    if k == 0 then 1 else if k == 1 then 0x100 else if k == 2 then 0x1_0000 else 0x100_0000
  }

  /** `n << 8 * k`, for k below 4. */
  function ShiftLeft(n: int, k: nat): int {
    ToInt32(ToInt32(n) * Pow256(k))
  }

  /** `(n >> 8 * k) & 0xff`, for k below 4: the shift is arithmetic. */
  function ByteAt(n: int, k: nat): Byte {
    ToInt32(n) / Pow256(k) % 256
  }

  function Value(bytes: seq<Byte>): nat {
    if bytes == [] then 0 else Value(bytes[..|bytes| - 1]) * 256 + bytes[|bytes| - 1]
  }

  function Bytes16(n: int): seq<Byte> {
    [ByteAt(n, 1), ByteAt(n, 0)]
  }

  function Bytes32(n: int): seq<Byte> {
    [ByteAt(n, 3), ByteAt(n, 2), ByteAt(n, 1), ByteAt(n, 0)]
  }

  lemma Value2(b: seq<Byte>)
    requires |b| == 2
    ensures Value(b) == b[0] as int * 256 + b[1]
  {
    assert b[..1] == [b[0]] && [b[0]][..0] == [];
    assert Value([b[0]]) == Value([]) * 256 + b[0];
  }

  lemma Value4(b: seq<Byte>)
    requires |b| == 4
    ensures Value(b) == ((b[0] as int * 256 + b[1]) * 256 + b[2]) * 256 + b[3]
  {
    assert b[..3][..2] == b[..2] && b[..3][2] == b[2];
    Value2(b[..2]);
  }

  /** A remainder by a product of moduli, digit by digit. */
  lemma SplitMod(m: int, low: int, high: int)
    requires low > 0 && high > 0
    ensures m / low % high * low + m % low == m % (low * high)
    ensures m / low / high == m / (low * high)
  {
    var q, r := m / low, m % low;
    var q', r' := q / high, q % high;
    var rest := r' * low + r;
    Regroup(q', high, r', low);
    Monotone(r', high - 1, low);
    Regroup(1, high, -1, low);
    DivModUnique(m, low * high, q', rest);
  }

  lemma Regroup(q: int, high: int, r: int, low: int)
    ensures (q * high + r) * low == q * (low * high) + r * low
  {}

  lemma Monotone(a: int, b: int, c: int)
    requires a <= b && 0 <= c
    ensures a * c <= b * c
  {}

  lemma DivModUnique(m: int, d: int, q: int, r: int)
    requires d > 0 && 0 <= r < d && m == q * d + r
    ensures m / d == q && m % d == r
  {
    var e := m / d - q;
    assert e * d == r - m % d;
    assert e >= 1 ==> e * d >= d;
    assert e <= -1 ==> e * d <= -d;
  }

  /** The signed shifts of the sender lose nothing modulo the width. */
  lemma Bytes16Value(n: int)
    ensures Value(Bytes16(n)) == n % 0x1_0000
  {
    var m := ToInt32(n);
    Value2(Bytes16(n));
    SplitMod(m, 0x100, 0x100);
    SameResidue16(n);
  }

  lemma SameResidue16(n: int)
    ensures ToInt32(n) % 0x1_0000 == n % 0x1_0000
  {
    var q := n / TWO32;
    var wraps := if n % TWO32 >= TWO31 then q + 1 else q;
    assert n == ToInt32(n) + wraps * 0x1_0000 * 0x1_0000;
    DivModUnique(n, 0x1_0000, ToInt32(n) / 0x1_0000 + wraps * 0x1_0000, ToInt32(n) % 0x1_0000);
  }

  lemma FourDigits(m: int)
    ensures m % TWO32 ==
            ((m / 0x100_0000 % 256 * 256 + m / 0x1_0000 % 256) * 256 + m / 0x100 % 256) * 256 + m % 256
  {
    var q := m / 0x1_0000;
    SplitMod(m, 0x1_0000, 0x1_0000);
    SplitMod(m, 0x1_0000, 0x100);
    SplitMod(q, 0x100, 0x100);
    SplitMod(m, 0x100, 0x100);
  }

  lemma Bytes32Value(n: int)
    ensures Value(Bytes32(n)) == n % TWO32
  {
    var m := ToInt32(n);
    Value4(Bytes32(n));
    FourDigits(m);
    assert ByteAt(n, 3) == m / 0x100_0000 % 256 && ByteAt(n, 2) == m / 0x1_0000 % 256;
    assert ByteAt(n, 1) == m / 0x100 % 256 && ByteAt(n, 0) == m % 256;
    SameResidue(n);
  }

  lemma LowDigits(m: int, k: nat)
    requires k < 4
    ensures m / Pow256(k) % 256 == m % (Pow256(k) * 256) / Pow256(k)
  {
    SplitMod(m, Pow256(k), 256);
    var high, low := m / Pow256(k) % 256, m % Pow256(k);
    DivModUnique(high * Pow256(k) + low, Pow256(k), high, low);
  }

  /** The bytes that go out are the digits of the number in base 256, whatever its sign and size:
      two of them, and four of them. */
  lemma DigitsGoOut(n: int)
    ensures Bytes16(n) == [n / 0x100 % 256, n % 256]
    ensures Bytes32(n) == [n / 0x100_0000 % 256, n / 0x1_0000 % 256, n / 0x100 % 256, n % 256]
  {
    ByteIsDigit(n, 0);
    ByteIsDigit(n, 1);
    ByteIsDigit(n, 2);
    ByteIsDigit(n, 3);
  }

  /** So the receiver's sum of the bytes that were pushed is the number, modulo the width. */
  lemma NumbersAreReadBack(n: int, rest: seq<Byte>)
    ensures Value((Bytes16(n) + rest)[..2]) == n % 0x1_0000
    ensures Value((Bytes32(n) + rest)[..4]) == n % 0x1_0000_0000
  {
    assert (Bytes16(n) + rest)[..2] == Bytes16(n) && (Bytes32(n) + rest)[..4] == Bytes32(n);
    Bytes16Value(n);
    Bytes32Value(n);
  }

  lemma ByteIsDigit(n: int, k: nat)
    requires k < 4
    ensures ByteAt(n, k) == n / Pow256(k) % 256
  {
    LowDigits(n, k);
    LowDigits(ToInt32(n), k);
    SameLow(n, Pow256(k) * 256);
  }

  lemma SameLow(n: int, modulus: int)
    requires modulus in {0x100, 0x1_0000, 0x100_0000, TWO32}
    ensures ToInt32(n) % modulus == n % modulus
  {
    var q := n / TWO32;
    var wraps := if n % TWO32 >= TWO31 then q + 1 else q;
    var times := TWO32 / modulus;
    assert n == ToInt32(n) + wraps * TWO32 && TWO32 == times * modulus;
    Regroup3(wraps, times, modulus);
    DivModUnique(n, modulus, ToInt32(n) / modulus + wraps * times, ToInt32(n) % modulus);
  }

  lemma Regroup3(a: int, b: int, c: int)
    ensures a * (b * c) == (a * b) * c
  {}

  lemma SameResidue(n: int)
    ensures ToInt32(n) % TWO32 == n % TWO32
  {}

  lemma {:induction false} ValueBound(bytes: seq<Byte>)
    requires |bytes| <= 4
    ensures Value(bytes) < if |bytes| < 4 then Pow256(|bytes|) else TWO32
  {
    if bytes != [] {
      ValueBound(bytes[..|bytes| - 1]);
    }
  }

  /** The value of the bytes read so far, shifted to its final place before `left` more bytes. */
  function Placed(read: seq<Byte>, left: nat): nat {
    ToUint32(Value(read) * if left == 0 then 1 else Pow256(left - 1) * 256)
  }

  /** One round of the receiver's sum, up to multiples of 2^32. */
  lemma ShiftRound(read: seq<Byte>, b: Byte, k: nat, sum: int)
    requires k < 4 && ToUint32(sum) == Placed(read, k + 1)
    ensures ToUint32(sum + ShiftLeft(b, k)) == Placed(read + [b], k)
  {
    assert (read + [b])[..|read|] == read;
    var v, p := Value(read), Pow256(k);
    assert Value(read + [b]) == v * 256 + b;
    assert k > 0 ==> p == Pow256(k - 1) * 256;
    assert (v * 256 + b) * p == v * (p * 256) + b * p;
    ShiftedByte(b, k);
    SameMod(sum, v * (p * 256), ShiftLeft(b, k), b * p);
  }

  /** The receiver's sum after the first n of the bytes. */
  function ShiftSum(bytes: seq<Byte>, n: nat): int
    requires n <= |bytes|
  {
    if n == 0 then 0 else ShiftSum(bytes, n - 1) + ShiftLeft(bytes[n - 1], |bytes| - n)
  }

  /** Summing signed shifts and reading the sum as unsigned gives the value of the bytes. */
  lemma ShiftSumValue(bytes: seq<Byte>)
    requires 1 <= |bytes| <= 4
    ensures ToUint32(ShiftSum(bytes, |bytes|)) == Value(bytes)
  {
    ShiftSumPlaced(bytes, |bytes|);
    assert bytes[..|bytes|] == bytes;
    ValueBound(bytes);
  }

  lemma {:induction false} ShiftSumPlaced(bytes: seq<Byte>, n: nat)
    requires n <= |bytes| <= 4
    ensures ToUint32(ShiftSum(bytes, n)) == Placed(bytes[..n], |bytes| - n)
  {
    if n == 0 {
      assert bytes[..0] == [];
    } else {
      ShiftSumPlaced(bytes, n - 1);
      ShiftRound(bytes[..n - 1], bytes[n - 1], |bytes| - n, ShiftSum(bytes, n - 1));
      assert bytes[..n] == bytes[..n - 1] + [bytes[n - 1]];
    }
  }

  lemma ShiftedByte(b: Byte, k: nat)
    requires k < 4
    ensures ShiftLeft(b, k) == b * Pow256(k) || ShiftLeft(b, k) == b * Pow256(k) - TWO32
  {
    assert ToInt32(b) == b;
    assert 0 <= b * Pow256(k) < TWO32;
  }

  lemma SameMod(a: int, b: int, c: int, d: int)
    requires a % TWO32 == b % TWO32 && (c == d || c == d - TWO32)
    ensures (a + c) % TWO32 == (b + d) % TWO32
  {
    var p, q, r := a / TWO32, b / TWO32, a % TWO32;
    var u, v := (r + d) / TWO32, (r + d) % TWO32;
    DivModUnique(b + d, TWO32, q + u, v);
    DivModUnique(a + c, TWO32, if c == d then p + u else p + u - 1, v);
  }
}
