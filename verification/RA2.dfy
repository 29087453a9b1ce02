/** The RA2 message channel: a 16-byte little-endian nonce counter on each side, and the
    credentials buffer. The AES-EAX cipher itself is a parameter. */
module RA2 {
  import opened Basics

  const COUNTER_SIZE := 16

  function Power(n: nat): (p: nat)
    ensures p > 0 && (n > 0 ==> p >= 256)
  {
    if n == 0 then 1 else 256 * Power(n - 1)
  }

  /** Little-endian value. */
  function Number(bytes: seq<Byte>): nat {
    if bytes == [] then 0 else bytes[0] + 256 * Number(bytes[1..])
  }

  lemma {:induction false} NumberBound(bytes: seq<Byte>)
    ensures Number(bytes) < Power(|bytes|)
  {
    if bytes != [] {
      NumberBound(bytes[1..]);
    }
  }

  lemma {:induction false} NumberInjective(x: seq<Byte>, y: seq<Byte>)
    requires |x| == |y| && Number(x) == Number(y)
    ensures x == y
  {
    if x != [] {
      NumberInjective(x[1..], y[1..]);
      assert x == [x[0]] + x[1..] && y == [y[0]] + y[1..];
    }
  }

  function Next(c: seq<Byte>): (n: seq<Byte>)
    ensures |n| == |c|
  {
    if c == [] then []
    else if c[0] == 255 then [0] + Next(c[1..])
    else [c[0] + 1] + c[1..]
  }

  /** A run of i carries, written out: zeros over 255s, one more at i, the rest as it was. */
  lemma {:induction false} CarriesAreNext(c: seq<Byte>, r: seq<Byte>, i: nat)
    requires |r| == |c| && i <= |c|
    requires forall k :: 0 <= k < i ==> c[k] == 255 && r[k] == 0
    requires i < |c| ==> c[i] != 255 && r[i] == c[i] + 1
    requires forall k :: i < k < |c| ==> r[k] == c[k]
    ensures r == Next(c)
  {
    if i == 0 {
      if c != [] {
        assert r == [r[0]] + r[1..] && r[1..] == c[1..];
      }
    } else {
      CarriesAreNext(c[1..], r[1..], i - 1);
      assert r == [r[0]] + r[1..];
    }
  }

  /** Adding one with carry wraps around exactly at the largest counter. */
  lemma {:induction false} NextCounts(c: seq<Byte>)
    ensures Number(Next(c)) == if Number(c) + 1 == Power(|c|) then 0 else Number(c) + 1
  {
    if c != [] {
      NumberBound(c[1..]);
      if c[0] == 255 {
        NextCounts(c[1..]);
      }
    }
  }

  /** The counter after n messages. */
  function Counter(n: nat): (c: seq<Byte>)
    ensures |c| == COUNTER_SIZE
  {
    if n == 0 then seq(COUNTER_SIZE, _ => 0) else Next(Counter(n - 1))
  }

  lemma {:induction false} ZeroNumber(n: nat)
    ensures Number(seq(n, _ => 0)) == 0
  {
    if n > 0 {
      assert seq(n, _ => 0)[1..] == seq(n - 1, _ => 0 as Byte);
      ZeroNumber(n - 1);
    }
  }

  /** After n messages the counter encodes n modulo 2^128. */
  lemma {:induction false} CounterCounts(n: nat)
    ensures Number(Counter(n)) == n % Power(COUNTER_SIZE)
  {
    if n == 0 {
      ZeroNumber(COUNTER_SIZE);
    } else {
      CounterCounts(n - 1);
      StepCounts(Counter(n - 1), n - 1);
    }
  }

  lemma StepCounts(c: seq<Byte>, n: nat)
    requires c != [] && Number(c) == n % Power(|c|)
    ensures Number(Next(c)) == (n + 1) % Power(|c|)
  {
    NextCounts(c);
    SuccessorMod(n, Power(|c|));
  }

  lemma SuccessorMod(n: nat, m: nat)
    requires m > 1
    ensures (n + 1) % m == if n % m + 1 == m then 0 else n % m + 1
  {
    var q, r := n / m, n % m;
    assert n == q * m + r;
    if r + 1 == m {
      assert n + 1 == (q + 1) * m;
      Remainder(n + 1, m, q + 1, 0);
    } else {
      Remainder(n + 1, m, q, r + 1);
    }
  }

  lemma Remainder(n: int, m: int, q: int, r: int)
    requires 0 <= r < m && n == q * m + r
    ensures n % m == r
  {
    var e := n / m - q;
    assert e * m == r - n % m;
    assert e >= 1 ==> e * m >= m;
    assert e <= -1 ==> e * m <= -m;
  }

  /** Two messages of one side share a nonce exactly when a multiple of 2^128 messages lies between
      them; so the first 2^128 nonces are pairwise distinct. */
  lemma NonceRepeatsIff(i: nat, j: nat)
    ensures Counter(i) == Counter(j) <==> i % Power(COUNTER_SIZE) == j % Power(COUNTER_SIZE)
  {
    CounterCounts(i);
    CounterCounts(j);
    if i % Power(COUNTER_SIZE) == j % Power(COUNTER_SIZE) {
      NumberInjective(Counter(i), Counter(j));
    }
  }

  /** The first nonces: all zeros, then the first byte counts. */
  lemma FirstNonces()
    ensures Counter(0) == [0, 0, 0, 0, 0, 0, 0, 0, 0, 0, 0, 0, 0, 0, 0, 0]
    ensures Counter(1) == [1, 0, 0, 0, 0, 0, 0, 0, 0, 0, 0, 0, 0, 0, 0, 0]
  {
    assert Counter(0) == seq(COUNTER_SIZE, _ => 0);
    assert Counter(1) == Next(Counter(0)) == [1] + Counter(0)[1..];
  }

  // ----- The channel -----

  /** AES-EAX under one session key: (nonce, associated data, message). */
  datatype Cipher = Cipher(encrypt: (seq<Byte>, seq<Byte>, seq<Byte>) -> seq<Byte>,
                           decrypt: (seq<Byte>, seq<Byte>, seq<Byte>) -> Option<seq<Byte>>)

  ghost predicate Inverse(c: Cipher) {
    forall iv: seq<Byte>, ad: seq<Byte>, m: seq<Byte> ::
      |c.encrypt(iv, ad, m)| == |m| + 16 && c.decrypt(iv, ad, c.encrypt(iv, ad, m)) == Some(m)
  }

  function AssociatedData(length: nat): seq<Byte> {
    [length / 256 % 256, length % 256]
  }

  class RA2Cipher {
    const cipher: Cipher
    const counter: array<Byte>

    constructor (cipher: Cipher)
      ensures this.cipher == cipher && fresh(counter) && counter[..] == Counter(0)
    {
      this.cipher := cipher;
      counter := new Byte[COUNTER_SIZE](_ => 0);
    }

    method Increment()
      requires counter.Length == COUNTER_SIZE
      modifies counter
      ensures counter[..] == Next(old(counter[..]))
    {
      var i := 0;
      var carry := true;
      while i < COUNTER_SIZE && carry
        invariant 0 <= i <= COUNTER_SIZE
        invariant forall k :: 0 <= k < i - 1 ==> old(counter[k]) == 255 && counter[k] == 0
        invariant i > 0 ==> counter[i - 1] == (old(counter[i - 1]) as int + 1) % 256
        invariant i > 0 ==> carry == (old(counter[i - 1]) == 255)
        invariant i == 0 ==> carry
        invariant forall k :: i <= k < COUNTER_SIZE ==> counter[k] == old(counter[k])
      {
        carry := counter[i] == 255;
        counter[i] := (counter[i] as int + 1) % 256;
        i := i + 1;
      }
      CarriesAreNext(old(counter[..]), counter[..], if carry then i else i - 1);
    }

    method MakeMessage(message: seq<Byte>) returns (res: seq<Byte>)
      requires counter.Length == COUNTER_SIZE && Inverse(cipher)
      modifies counter
      ensures counter[..] == Next(old(counter[..]))
      ensures res == Sealed(cipher, old(counter[..]), message)
      ensures |res| == |message| + 2 + 16 && res[0] == |message| / 256 % 256 && res[1] == |message| % 256
    {
      var ad := AssociatedData(|message|);
      var encrypted := cipher.encrypt(counter[..], ad, message);
      Increment();
      assert Some(message) == cipher.decrypt(old(counter[..]), ad, encrypted);
      res := ad + encrypted;
    }

    /** The counter advances whether or not the message is authentic. */
    method ReceiveMessage(length: nat, encrypted: seq<Byte>) returns (res: Option<seq<Byte>>)
      requires counter.Length == COUNTER_SIZE
      modifies counter
      ensures counter[..] == Next(old(counter[..]))
      ensures res == cipher.decrypt(old(counter[..]), [length / 256 % 256, length % 256], encrypted)
    {
      res := cipher.decrypt(counter[..], AssociatedData(length), encrypted);
      Increment();
    }
  }

  function Sealed(c: Cipher, counter: seq<Byte>, message: seq<Byte>): seq<Byte> {
    var ad := AssociatedData(|message|);
    ad + c.encrypt(counter, ad, message)
  }

  /** The wire message split as the receiver splits it: a two-byte length, then the rest. */
  function Opened(c: Cipher, counter: seq<Byte>, wire: seq<Byte>): Option<seq<Byte>>
    requires |wire| >= 2
  {
    c.decrypt(counter, AssociatedData(wire[0] as int * 256 + wire[1]), wire[2..])
  }

  /** Everything one side sends from its n-th message on, and what the other side makes of it. */
  function SealedAll(c: Cipher, n: nat, messages: seq<seq<Byte>>): (wires: seq<seq<Byte>>)
    ensures |wires| == |messages| && forall k :: 0 <= k < |wires| ==> |wires[k]| >= 2
    decreases |messages|
  {
    if messages == [] then [] else [Sealed(c, Counter(n), messages[0])] + SealedAll(c, n + 1, messages[1..])
  }

  function OpenedAll(c: Cipher, n: nat, wires: seq<seq<Byte>>): seq<Option<seq<Byte>>>
    requires forall k :: 0 <= k < |wires| ==> |wires[k]| >= 2
    decreases |wires|
  {
    if wires == [] then [] else [Opened(c, Counter(n), wires[0])] + OpenedAll(c, n + 1, wires[1..])
  }

  /** A sender and a receiver that process the same messages in order stay on the same nonce, so
      every message is read back; lengths stay below 2^16 as the two length bytes require. */
  lemma {:induction false} ChannelDelivers(c: Cipher, n: nat, messages: seq<seq<Byte>>)
    requires Inverse(c) && forall k :: 0 <= k < |messages| ==> |messages[k]| < 0x1_0000
    ensures var got := OpenedAll(c, n, SealedAll(c, n, messages));
            |got| == |messages| && forall k :: 0 <= k < |messages| ==> got[k] == Some(messages[k])
    decreases |messages|
  {
    if messages != [] {
      var wire := Sealed(c, Counter(n), messages[0]);
      var rest := SealedAll(c, n + 1, messages[1..]);
      ChannelDelivers(c, n + 1, messages[1..]);
      assert ([wire] + rest)[1..] == rest;
      LengthBytes(|messages[0]|);
      assert wire[2..] == c.encrypt(Counter(n), AssociatedData(|messages[0]|), messages[0]);
    }
  }

  lemma LengthBytes(n: nat)
    requires n < 0x1_0000
    ensures n / 256 % 256 * 256 + n % 256 == n
  {}

  // ----- Credentials -----

  /** `encodeUTF8(s).slice(0, 255)`, on the encoded bytes. */
  function Cut(s: seq<Byte>): seq<Byte> {
    if |s| > 255 then s[..255] else s
  }

  function Credentials(username: seq<Byte>, password: seq<Byte>): seq<Byte> {
    var u: seq<Byte>, p := Cut(username), Cut(password);
    [|u|] + u + [|p|] + p
  }

  /** What the other side reads: a length, that many bytes, and again. */
  function Read(buffer: seq<Byte>): Option<(seq<Byte>, seq<Byte>)> {
    if |buffer| < 1 || |buffer| < buffer[0] as int + 2 then None
    else
      var n: nat := buffer[0];
      var m: nat := buffer[n + 1];
      if |buffer| != n + m + 2 then None else Some((buffer[1..n + 1], buffer[n + 2..]))
  }

  method MakeCredentials(username: seq<Byte>, password: seq<Byte>) returns (credentials: array<Byte>)
    ensures credentials[..] == Credentials(username, password)
    ensures var n, m := if |username| < 255 then |username| else 255, if |password| < 255 then |password| else 255;
            && credentials.Length == n + m + 2 && credentials[0] == n && credentials[n + 1] == m
            && credentials[1..n + 1] == username[..n] && credentials[n + 2..] == password[..m]
  {
    var u, p := Cut(username), Cut(password);
    credentials := new Byte[|u| + |p| + 2](_ => 0);
    credentials[0] := |u|;
    credentials[|u| + 1] := |p|;
    for i := 0 to |u|
      invariant credentials[0] == |u| && credentials[|u| + 1] == |p|
      invariant forall k :: 0 <= k < i ==> credentials[k + 1] == u[k]
    {
      credentials[i + 1] := u[i];
    }
    for i := 0 to |p|
      invariant credentials[0] == |u| && credentials[|u| + 1] == |p|
      invariant forall k :: 0 <= k < |u| ==> credentials[k + 1] == u[k]
      invariant forall k :: 0 <= k < i ==> credentials[|u| + 2 + k] == p[k]
    {
      credentials[|u| + 2 + i] := p[i];
    }
    assert credentials[1..|u| + 1] == u && credentials[|u| + 2..] == p;
    assert credentials[..] ==
           [credentials[0]] + credentials[1..|u| + 1] + [credentials[|u| + 1]] + credentials[|u| + 2..];
  }

  /** The buffer gives back exactly the two strings, precisely when neither was cut. */
  lemma CredentialsReadBackIff(username: seq<Byte>, password: seq<Byte>)
    ensures Read(Credentials(username, password)) == Some((Cut(username), Cut(password)))
    ensures Read(Credentials(username, password)) == Some((username, password)) <==>
            |username| <= 255 && |password| <= 255
  {
    var u, p := Cut(username), Cut(password);
    var b := Credentials(username, password);
    assert b[1..|u| + 1] == u && b[|u| + 2..] == p;
  }
}
