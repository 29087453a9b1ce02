/** The buffering wrapper around the raw channel: a receive queue that is one growing, compacting
    byte buffer, and a send queue that is cut into messages. */
module Websocks {
  import opened Basics
  import opened Integers

  const MAX_RQ_GROW_SIZE := 40 * 1024 * 1024
  const INITIAL_RQ_SIZE := 4 * 1024 * 1024
  const SQ_SIZE := 1024 * 10

  /** The size the receive buffer is given when `unread` bytes must stay and `minFit` must fit. */
  function GrownSize(size: nat, unread: nat, minFit: nat): nat {
    var required := (unread + minFit) * 8;
    var grown := if size < required then (if size * 2 > required then size * 2 else required) else size;
    if grown > MAX_RQ_GROW_SIZE then MAX_RQ_GROW_SIZE else grown
  }

  /** A buffer never shrinks, never passes 40 MiB, and makes room unless 40 MiB are too few. It
      grows exactly when less than seven eighths would stay free, and then to double its size or to
      eight times what it must hold, whichever is more, but no further than to 40 MiB. */
  lemma GrownSizeFits(size: nat, unread: nat, minFit: nat)
    requires unread <= size <= MAX_RQ_GROW_SIZE
    ensures var grown := GrownSize(size, unread, minFit);
            && (grown > size <==> size < 8 * (unread + minFit) && size < MAX_RQ_GROW_SIZE)
            && (grown > size ==>
                 var wanted := if 2 * size > 8 * (unread + minFit) then 2 * size else 8 * (unread + minFit);
                 grown == if wanted > 40 * 1024 * 1024 then 40 * 1024 * 1024 else wanted)
    ensures size <= GrownSize(size, unread, minFit) <= MAX_RQ_GROW_SIZE
    ensures unread + minFit <= GrownSize(size, unread, minFit) <==> unread + minFit <= MAX_RQ_GROW_SIZE
  {}

  /** One round of the loop that cuts pushed bytes into the send queue: how many bytes are queued
      afterwards and how far the loop has come. */
  function PushRound(open: bool, queued: nat, offset: nat, total: nat): (nat, nat)
    requires queued <= SQ_SIZE && offset < total
  {
    var queued := if SQ_SIZE - queued < 1 && queued > 0 && open then 0 else queued;
    var chunk := if SQ_SIZE - queued > total - offset then total - offset else SQ_SIZE - queued;
    (queued + chunk, offset + chunk)
  }

  /** The loop stands still exactly on a full queue whose socket is not open. */
  lemma PushStallsIff(open: bool, queued: nat, offset: nat, total: nat)
    requires queued <= SQ_SIZE && offset < total
    ensures PushRound(open, queued, offset, total).1 == offset <==> !open && queued == SQ_SIZE
    ensures PushRound(open, queued, offset, total).1 == offset ==> PushRound(open, queued, offset, total).0 == queued
  {}

  /** The first n rounds of the loop. */
  function PushRounds(open: bool, queued: nat, offset: nat, total: nat, n: nat): (r: (nat, nat))
    requires queued <= SQ_SIZE && offset <= total
    ensures r.0 <= SQ_SIZE && r.1 <= total
    decreases n
  {
    if n == 0 || offset == total then (queued, offset)
    else
      var (q, o) := PushRound(open, queued, offset, total);
      PushRounds(open, q, o, total, n - 1)
  }

  /** `sQpushBytes` ends if and only if the socket is open or all the bytes fit into the queue. */
  lemma PushEndsIff(open: bool, queued: nat, total: nat)
    requires queued <= SQ_SIZE
    ensures (exists n: nat :: PushRounds(open, queued, 0, total, n).1 == total) <==> open || queued + total <= 10240
  {
    if open || queued + total <= SQ_SIZE {
      PushEnds(open, queued, 0, total);
    } else {
      forall n: nat ensures PushRounds(open, queued, 0, total, n).1 < total {
        PushNeverEnds(queued, 0, total, n);
      }
    }
  }

  lemma {:induction false} PushEnds(open: bool, queued: nat, offset: nat, total: nat)
    requires queued <= SQ_SIZE && offset <= total && (open || queued + (total - offset) <= SQ_SIZE)
    ensures exists n: nat :: PushRounds(open, queued, offset, total, n).1 == total
    decreases total - offset
  {
    if offset == total {
      assert PushRounds(open, queued, offset, total, 0).1 == total;
    } else {
      PushStallsIff(open, queued, offset, total);
      var (q, o) := PushRound(open, queued, offset, total);
      PushEnds(open, q, o, total);
      var n: nat :| PushRounds(open, q, o, total, n).1 == total;
      assert PushRounds(open, queued, offset, total, n + 1).1 == total;
    }
  }

  lemma {:induction false} PushNeverEnds(queued: nat, offset: nat, total: nat, n: nat)
    requires queued <= SQ_SIZE && offset <= total && queued + (total - offset) > SQ_SIZE
    ensures PushRounds(false, queued, offset, total, n).1 < total
    decreases n
  {
    if n > 0 {
      var (q, o) := PushRound(false, queued, offset, total);
      PushNeverEnds(q, o, total, n - 1);
    }
  }

  /** One byte on a full queue whose socket is not open: round after round nothing moves. */
  lemma {:induction false} FullQueueStalls(n: nat)
    ensures PushRounds(false, 10240, 0, 1, n) == (10240, 0)
  {
    if n > 0 {
      FullQueueStalls(n - 1);
    }
  }

  // ----- What the two buffers mean -----

  /** Taken out, then unread, is everything received; and what was read but not yet overwritten is
      the end of what was taken out. */
  ghost predicate Fifo(buf: seq<Byte>, i: nat, len: nat, consumed: seq<Byte>, received: seq<Byte>) {
    && i <= len <= |buf|
    && consumed + buf[i..len] == received
    && i <= |consumed| && buf[..i] == consumed[|consumed| - i..]
  }

  lemma FifoShift(buf: seq<Byte>, i: nat, len: nat, consumed: seq<Byte>, received: seq<Byte>, n: nat)
    requires Fifo(buf, i, len, consumed, received) && i + n <= len
    ensures Fifo(buf, i + n, len, consumed + buf[i..i + n], received)
    ensures buf[i..len] == buf[i..i + n] + buf[i + n..len]
  {
    assert buf[i..len] == buf[i..i + n] + buf[i + n..len];
    assert buf[..i + n] == buf[..i] + buf[i..i + n];
  }

  lemma FifoBack(buf: seq<Byte>, i: nat, len: nat, consumed: seq<Byte>, received: seq<Byte>, n: nat)
    requires Fifo(buf, i, len, consumed, received) && n <= i
    ensures Fifo(buf, i - n, len, consumed[..|consumed| - n], received)
    ensures buf[i - n..len] == consumed[|consumed| - n..] + buf[i..len]
  {
    assert buf[i - n..len] == buf[..i][i - n..] + buf[i..len];
    assert consumed == consumed[..|consumed| - n] + consumed[|consumed| - n..];
    assert buf[..i - n] == buf[..i][..i - n];
  }

  /** The unread bytes, moved to the front of any buffer that can hold them. */
  lemma FifoCompact(buf: seq<Byte>, i: nat, len: nat, consumed: seq<Byte>, received: seq<Byte>, base: seq<Byte>)
    requires Fifo(buf, i, len, consumed, received) && len - i <= |base|
    ensures var buf' := Overwritten(base, buf[i..len], 0);
            Fifo(buf', 0, len - i, consumed, received) && buf'[0..len - i] == buf[i..len]
  {
    var buf' := Overwritten(base, buf[i..len], 0);
    assert buf'[0..len - i] == buf[i..len];
  }

  /** A queue that was read to its end starts over. */
  lemma FifoRestart(buf: seq<Byte>, i: nat, consumed: seq<Byte>, received: seq<Byte>)
    requires Fifo(buf, i, i, consumed, received)
    ensures Fifo(buf, 0, 0, consumed, received)
  {
    assert buf[0..0] == buf[i..i];
  }

  lemma FifoAppend(buf: seq<Byte>, i: nat, len: nat, consumed: seq<Byte>, received: seq<Byte>, data: seq<Byte>)
    requires Fifo(buf, i, len, consumed, received) && len + |data| <= |buf|
    ensures var buf' := Overwritten(buf, data, len);
            Fifo(buf', i, len + |data|, consumed, received + data) && buf'[i..len + |data|] == buf[i..len] + data
  {
    var buf' := Overwritten(buf, data, len);
    assert buf'[..len] == buf[..len];
    assert buf'[i..len] == buf'[..len][i..] == buf[i..len];
    assert buf'[i..len + |data|] == buf'[i..len] + buf'[len..len + |data|];
    assert buf'[..i] == buf'[..len][..i] == buf[..i];
  }

  lemma NothingBack(consumed: seq<Byte>, unread: seq<Byte>)
    ensures consumed[..|consumed| - 0] == consumed && consumed[|consumed| - 0..] + unread == unread
  {}

  lemma Slices(buf: seq<Byte>, i: nat, len: nat, n: nat)
    requires i + n <= len <= |buf|
    ensures buf[i..len][..n] == buf[i..i + n] && buf[i..len][n..] == buf[i + n..len]
  {}

  lemma TakeTwice(s: seq<Byte>, n: nat, m: nat)
    requires n + m <= |s|
    ensures s[..n + m] == s[..n] + s[n..][..m] && s[n + m..] == s[n..][m..]
  {}

  /** Sent, then queued, is everything pushed, in messages of 1 to 10240 bytes. */
  ghost predicate Outgoing(buf: seq<Byte>, len: nat, sent: seq<seq<Byte>>, pushed: seq<Byte>) {
    && |buf| == SQ_SIZE && len <= SQ_SIZE
    && Concat(sent) + buf[..len] == pushed
    && forall k :: 0 <= k < |sent| ==> 1 <= |sent[k]| <= SQ_SIZE
  }

  lemma OutgoingFlush(buf: seq<Byte>, len: nat, sent: seq<seq<Byte>>, pushed: seq<Byte>)
    requires Outgoing(buf, len, sent, pushed) && len > 0
    ensures Outgoing(buf, 0, sent + [buf[..len]], pushed)
  {
    ConcatAppend(sent, buf[..len]);
  }

  lemma OutgoingStore(buf: seq<Byte>, len: nat, sent: seq<seq<Byte>>, pushed: seq<Byte>, data: seq<Byte>)
    requires Outgoing(buf, len, sent, pushed) && len + |data| <= SQ_SIZE
    ensures Outgoing(Overwritten(buf, data, len), len + |data|, sent, pushed + data)
  {
    var buf' := Overwritten(buf, data, len);
    assert buf'[..len + |data|] == buf[..len] + data;
  }

  // ----- The typed-array operations -----

  function Overwritten(s: seq<Byte>, data: seq<Byte>, at: nat): seq<Byte>
    requires at + |data| <= |s|
  {
    s[..at] + data + s[at + |data|..]
  }

  /** `a.set(data, at)`. */
  method Set(a: array<Byte>, data: seq<Byte>, at: nat)
    requires at + |data| <= a.Length
    modifies a
    ensures a[..] == Overwritten(old(a[..]), data, at)
  {
    forall k | 0 <= k < |data| {
      a[at + k] := data[k];
    }
  }

  /** `a.copyWithin(0, from, to)`. */
  method CopyToFront(a: array<Byte>, from: nat, to: nat)
    requires from <= to <= a.Length
    modifies a
    ensures a[..] == Overwritten(old(a[..]), old(a[..])[from..to], 0)
  {
    ghost var was := a[..];
    forall k | 0 <= k < to - from {
      a[k] := a[from + k];
    }
    assert forall k :: 0 <= k < to - from ==> a[..][k] == was[from + k];
    assert forall k :: to - from <= k < a.Length ==> a[..][k] == was[k];
    MovedToFront(was, from, to, a[..]);
  }

  lemma MovedToFront(was: seq<Byte>, from: nat, to: nat, now: seq<Byte>)
    requires from <= to <= |was| == |now|
    requires forall k :: 0 <= k < to - from ==> now[k] == was[from + k]
    requires forall k :: to - from <= k < |was| ==> now[k] == was[k]
    ensures now == Overwritten(was, was[from..to], 0)
  {
    var n, moved := to - from, was[from..to];
    assert now == moved + was[n..] by {
      forall k | 0 <= k < |was| ensures now[k] == (moved + was[n..])[k] {
        if k < n {
          assert moved[k] == was[from + k];
        }
      }
    }
    assert Overwritten(was, moved, 0) == moved + was[n..];
  }

  lemma OnePartMore(all: seq<Byte>, consumed: seq<Byte>, str: seq<Byte>, part: seq<Byte>)
    requires |str| + |part| <= |all| && str == all[..|str|] && part == all[|str|..][..|part|]
    ensures str + part == all[..|str + part|] && all[|str|..][|part|..] == all[|str + part|..]
    ensures consumed + str + part == consumed + (str + part)
  {
    TakeTwice(all, |str|, |part|);
  }

  lemma OneByOne(s: seq<Byte>, a: Byte, b: Byte, c: Byte, d: Byte)
    ensures s + [a] + [b] + [c] + [d] == s + [a, b, c, d]
  {}

  lemma NextPiece(s: seq<Byte>, bytes: seq<Byte>, i: nat, j: nat)
    requires i <= j <= |bytes|
    ensures s + bytes[..i] + bytes[i..j] == s + bytes[..j]
  {
    assert bytes[..i] + bytes[i..j] == bytes[..j];
  }

  class Websock {
    var rQ: array<Byte>
    var rQi: nat
    var rQlen: nat
    var rQbufferSize: nat
    var sQ: array<Byte>
    var sQlen: nat
    /** The channel: whether it is open, and the messages handed to it. */
    var open: bool
    var sent: seq<seq<Byte>>

    /** Everything ever received, taken out, and pushed. */
    ghost var received: seq<Byte>
    ghost var consumed: seq<Byte>
    ghost var pushed: seq<Byte>

    ghost function Unread(): seq<Byte>
      requires rQi <= rQlen <= rQ.Length
      reads this`rQ, this`rQi, this`rQlen, rQ
    {
      rQ[..][rQi..rQlen]
    }

    ghost predicate ReceiveValid()
      reads this`rQ, this`rQi, this`rQlen, this`rQbufferSize, this`consumed, this`received, rQ
    {
      && rQ.Length == rQbufferSize && INITIAL_RQ_SIZE <= rQbufferSize <= MAX_RQ_GROW_SIZE
      && Fifo(rQ[..], rQi, rQlen, consumed, received)
    }

    ghost predicate SendValid()
      reads this`sQ, this`sQlen, this`sent, this`pushed, sQ
    {
      Outgoing(sQ[..], sQlen, sent, pushed)
    }

    ghost predicate Valid()
      reads this, rQ, sQ
    {
      rQ != sQ && ReceiveValid() && SendValid()
    }

    constructor (open: bool)
      ensures Valid() && fresh(rQ) && fresh(sQ)
      ensures received == consumed == pushed == [] && sent == [] && this.open == open
    {
      rQi, rQlen, rQbufferSize := 0, 0, INITIAL_RQ_SIZE;
      rQ := new Byte[INITIAL_RQ_SIZE];
      sQ := new Byte[SQ_SIZE];
      sQlen := 0;
      this.open := open;
      sent, received, consumed, pushed := [], [], [], [];
    }

    // Each side's methods leave the other side's fields alone, so they keep Valid() as a whole.

    // ----- Receive queue -----

    method RQwait(num: nat, goback: nat) returns (r: Option<bool>)
      requires ReceiveValid()
      modifies this`rQi, this`consumed
      // None is the error that is thrown when the buffer no longer holds the bytes to go back to.
      ensures r == if old(|Unread()|) >= num then Some(false) else if old(rQi) < goback then None else Some(true)
      ensures ReceiveValid()
      ensures r == Some(true) ==>
                && consumed == old(consumed)[..|old(consumed)| - goback]
                && Unread() == old(consumed)[|old(consumed)| - goback..] + old(Unread())
      ensures r != Some(true) ==> rQi == old(rQi) && consumed == old(consumed)
    {
      if rQlen - rQi < num {
        if goback != 0 {
          if rQi < goback {
            return None;
          }
          GoBack(goback);
        } else {
          NothingBack(consumed, Unread());
        }
        return Some(true);
      }
      return Some(false);
    }

    /** `_rQi -= goback`. */
    method GoBack(goback: nat)
      requires ReceiveValid() && goback <= rQi
      modifies this`rQi, this`consumed
      ensures ReceiveValid() && goback <= |old(consumed)|
      ensures consumed == old(consumed)[..|old(consumed)| - goback]
      ensures Unread() == old(consumed)[|old(consumed)| - goback..] + old(Unread())
    {
      ghost var buf := rQ[..];
      FifoBack(buf, rQi, rQlen, consumed, received, goback);
      consumed := consumed[..|consumed| - goback];
      rQi := rQi - goback;
      assert rQ[..] == buf && Fifo(buf, rQi, rQlen, consumed, received);
    }

    method RQshiftBytes(len: nat) returns (bytes: seq<Byte>)
      requires ReceiveValid() && len <= |Unread()|
      modifies this`rQi, this`consumed
      ensures ReceiveValid()
      ensures bytes == old(Unread())[..len] && Unread() == old(Unread())[len..]
      ensures consumed == old(consumed) + bytes
    {
      FifoShift(rQ[..], rQi, rQlen, consumed, received, len);
      rQi := rQi + len;
      bytes := rQ[..][rQi - len..rQi];
      consumed := consumed + bytes;
    }

    method RQpeekBytes(len: nat) returns (bytes: seq<Byte>)
      requires ReceiveValid() && len <= |Unread()|
      ensures bytes == Unread()[..len]
    {
      bytes := rQ[..][rQi..rQi + len];
    }

    method RQskipBytes(len: nat)
      requires ReceiveValid() && len <= |Unread()|
      modifies this`rQi, this`consumed
      ensures ReceiveValid()
      ensures Unread() == old(Unread())[len..] && consumed == old(consumed) + old(Unread())[..len]
    {
      var skipped := RQshiftBytes(len);
    }

    method RQshiftTo(target: array<Byte>, len: nat)
      requires ReceiveValid() && len <= |Unread()| && len <= target.Length
      requires target != rQ
      modifies target, this`rQi, this`consumed
      ensures ReceiveValid()
      ensures target[..len] == old(Unread())[..len] && target[len..] == old(target[len..])
      ensures Unread() == old(Unread())[len..] && consumed == old(consumed) + target[..len]
    {
      Set(target, rQ[..][rQi..rQi + len], 0);
      assert target[..len] == target[..][..len] && target[len..] == target[..][len..];
      var taken := RQshiftBytes(len);
    }

    /** Large strings are taken in steps of 4096 bytes. */
    method RQshiftStr(len: nat) returns (str: seq<Byte>)
      requires ReceiveValid() && len <= |Unread()|
      modifies this`rQi, this`consumed
      ensures ReceiveValid()
      ensures str == old(Unread())[..len] && Unread() == old(Unread())[len..]
      ensures consumed == old(consumed) + str
    {
      ghost var all := Unread();
      str := [];
      var i := 0;
      while i < len
        invariant ReceiveValid()
        invariant |str| == if i < len then i else len
        invariant str == all[..|str|] && Unread() == all[|str|..]
        invariant consumed == old(consumed) + str
      {
        var part := RQshiftBytes(if 4096 < len - i then 4096 else len - i);
        OnePartMore(all, old(consumed), str, part);
        str := str + part;
        i := i + 4096;
      }
    }

    /** An unsigned integer of up to four bytes, summed with signed 32-bit shifts. */
    method RQshift(bytes: nat) returns (res: nat)
      requires ReceiveValid() && 1 <= bytes <= 4 && bytes <= |Unread()|
      modifies this`rQi, this`consumed
      ensures ReceiveValid()
      ensures res == Value(old(Unread())[..bytes])
      ensures Unread() == old(Unread())[bytes..] && consumed == old(consumed) + old(Unread())[..bytes]
    {
      ghost var buf, start := rQ[..], rQi;
      FifoShift(buf, start, rQlen, consumed, received, bytes);
      Slices(buf, start, rQlen, bytes);
      res := ReadNumber(bytes);
      assert rQ[..] == buf;
      consumed := consumed + buf[start..start + bytes];
    }

    /** The loop of `RQshift`. */
    method ReadNumber(bytes: nat) returns (res: nat)
      requires 1 <= bytes <= 4 && rQi + bytes <= rQlen <= rQ.Length
      modifies this`rQi
      ensures rQi == old(rQi) + bytes && res == Value(rQ[..][old(rQi)..old(rQi) + bytes])
    {
      var sum := 0;
      ghost var taken := rQ[..][rQi..rQi + bytes];
      var byte := bytes - 1;
      while byte >= 0
        invariant -1 <= byte < bytes && rQi == old(rQi) + (bytes - 1 - byte)
        invariant sum == ShiftSum(taken, bytes - 1 - byte)
      {
        assert rQ[rQi] == taken[bytes - 1 - byte];
        sum := sum + ShiftLeft(rQ[rQi], byte);
        rQi := rQi + 1;
        byte := byte - 1;
      }
      ShiftSumValue(taken);
      res := ToUint32(sum);
    }

    /** Moves the unread bytes to the front, into a larger buffer if they and the coming ones would
        fill more than an eighth. False: they cannot fit; nothing moved, but the recorded size has
        changed, so the object is of no further use. */
    method ExpandCompactRQ(minFit: nat) returns (ok: bool)
      requires ReceiveValid()
      modifies this`rQ, this`rQi, this`rQlen, this`rQbufferSize, rQ
      ensures rQbufferSize == GrownSize(old(rQbufferSize), old(|Unread()|), minFit)
      ensures ok <==> old(|Unread()|) + minFit <= MAX_RQ_GROW_SIZE
      ensures ok ==> ReceiveValid() && rQi == 0 && Unread() == old(Unread())
      ensures rQ == old(rQ) || fresh(rQ)
      ensures !ok ==> rQ == old(rQ) && rQ[..] == old(rQ[..]) && rQi == old(rQi) && rQlen == old(rQlen)
    {
      GrownSizeFits(rQbufferSize, rQlen - rQi, minFit);
      var requiredBufferSize := (rQlen - rQi + minFit) * 8;
      var resizeNeeded := rQbufferSize < requiredBufferSize;
      if resizeNeeded {
        rQbufferSize := if rQbufferSize * 2 > requiredBufferSize then rQbufferSize * 2 else requiredBufferSize;
      }
      if rQbufferSize > MAX_RQ_GROW_SIZE {
        rQbufferSize := MAX_RQ_GROW_SIZE;
        if rQbufferSize - (rQlen - rQi) < minFit {
          return false;
        }
      }
      Relocate(resizeNeeded);
      return true;
    }

    /** The second half of `ExpandCompactRQ`, once the size is settled. */
    method Relocate(resizeNeeded: bool)
      requires Fifo(rQ[..], rQi, rQlen, consumed, received) && rQlen - rQi <= rQbufferSize
      requires resizeNeeded || rQ.Length == rQbufferSize
      modifies this`rQ, this`rQi, this`rQlen, rQ
      ensures rQ.Length == rQbufferSize && rQi == 0 && Fifo(rQ[..], 0, rQlen, consumed, received)
      ensures Unread() == old(Unread())
      ensures rQ == old(rQ) || fresh(rQ)
    {
      ghost var before := rQ[..];
      if resizeNeeded {
        var oldRQbuffer := rQ;
        rQ := new Byte[rQbufferSize];
        FifoCompact(before, rQi, rQlen, consumed, received, rQ[..]);
        Set(rQ, oldRQbuffer[..][rQi..rQlen], 0);
      } else {
        FifoCompact(before, rQi, rQlen, consumed, received, before);
        CopyToFront(rQ, rQi, rQlen);
      }
      rQlen := rQlen - rQi;
      rQi := 0;
    }

    /** A message event. False: the queue would exceed 40 MiB. */
    method RecvMessage(data: seq<Byte>) returns (ok: bool)
      requires Valid()
      modifies this`rQ, this`rQi, this`rQlen, this`rQbufferSize, this`received, rQ
      ensures ok <==> old(|Unread()|) + |data| <= 40 * 1024 * 1024
      ensures ok ==> Valid() && received == old(received) + data && Unread() == old(Unread()) + data
      ensures old(rQbufferSize) <= rQbufferSize <= MAX_RQ_GROW_SIZE
      ensures rQ == old(rQ) || fresh(rQ)
    {
      if rQlen == rQi {
        FifoRestart(rQ[..], rQi, consumed, received);
        rQlen, rQi := 0, 0;
      }
      assert Valid() && Unread() == old(Unread());
      if |data| > rQbufferSize - rQlen {
        GrownSizeFits(rQbufferSize, rQlen - rQi, |data|);
        ok := ExpandCompactRQ(|data|);
        if !ok {
          return;
        }
      }
      Append(data);
      return true;
    }

    /** `_rQ.set(u8, _rQlen)`. */
    method Append(data: seq<Byte>)
      requires Valid() && |data| <= rQ.Length - rQlen
      modifies this`rQlen, this`received, rQ
      ensures Valid() && received == old(received) + data && Unread() == old(Unread()) + data
    {
      Set(rQ, data, rQlen);
      FifoAppend(old(rQ[..]), rQi, rQlen, consumed, received, data);
      rQlen := rQlen + |data|;
      received := received + data;
    }

    // ----- Send queue -----

    method Flush()
      requires SendValid()
      modifies this`sQlen, this`sent
      ensures SendValid()
      ensures open ==> sQlen == 0
      ensures sent == if old(sQlen) > 0 && open then old(sent) + [old(sQ[..][..sQlen])] else old(sent)
      ensures !(old(sQlen) > 0 && open) ==> sQlen == old(sQlen)
    {
      if sQlen > 0 && open {
        OutgoingFlush(sQ[..], sQlen, sent, pushed);
        sent := sent + [sQ[..][..sQlen]];
        sQlen := 0;
      }
    }

    method SQensureSpace(bytes: nat)
      requires SendValid() && bytes <= SQ_SIZE
      modifies this`sQlen, this`sent
      ensures SendValid()
      ensures open ==> bytes <= SQ_SIZE - sQlen
      ensures !open || bytes <= SQ_SIZE - old(sQlen) ==> sQlen == old(sQlen) && sent == old(sent)
      ensures sQlen == old(sQlen) || sQlen == 0
    {
      if SQ_SIZE - sQlen < bytes {
        Flush();
      }
    }

    /** Storing consecutive bytes at `sQlen`; the caller has made room. */
    method Store(bytes: seq<Byte>)
      requires SendValid() && |bytes| <= SQ_SIZE - sQlen
      modifies this`sQlen, this`pushed, sQ
      ensures SendValid() && pushed == old(pushed) + bytes && sQlen == old(sQlen) + |bytes|
    {
      Set(sQ, bytes, sQlen);
      OutgoingStore(old(sQ[..]), sQlen, sent, pushed, bytes);
      sQlen := sQlen + |bytes|;
      pushed := pushed + bytes;
    }

    /** On a socket that is not open a number must still fit: a typed array ignores a store past
        its end, and the byte would be lost. */
    method SQpush8(num: int)
      requires SendValid() && (open || sQlen + 1 <= SQ_SIZE)
      modifies this`sQlen, this`sent, this`pushed, sQ
      ensures SendValid() && pushed == old(pushed) + [num % 256]
    {
      SQensureSpace(1);
      Store([num % 256]);
    }

    method SQpush16(num: int)
      requires SendValid() && (open || sQlen + 2 <= SQ_SIZE)
      modifies this`sQlen, this`sent, this`pushed, sQ
      ensures SendValid() && pushed == old(pushed) + [num / 0x100 % 256, num % 256]
    {
      DigitsGoOut(num);
      SQensureSpace(2);
      Store([ByteAt(num, 1)]);
      Store([ByteAt(num, 0)]);
    }

    method SQpush32(num: int)
      requires SendValid() && (open || sQlen + 4 <= SQ_SIZE)
      modifies this`sQlen, this`sent, this`pushed, sQ
      ensures SendValid()
      ensures pushed == old(pushed) + [num / 0x100_0000 % 256, num / 0x1_0000 % 256, num / 0x100 % 256, num % 256]
    {
      DigitsGoOut(num);
      SQensureSpace(4);
      Store([ByteAt(num, 3)]);
      Store([ByteAt(num, 2)]);
      Store([ByteAt(num, 1)]);
      Store([ByteAt(num, 0)]);
      OneByOne(old(pushed), ByteAt(num, 3), ByteAt(num, 2), ByteAt(num, 1), ByteAt(num, 0));
    }

    /** One round of the loop of `SQpushBytes`. */
    method PushChunk(bytes: seq<Byte>, offset: nat) returns (next: nat)
      requires SendValid() && offset < |bytes| && (open || sQlen + (|bytes| - offset) <= SQ_SIZE)
      modifies this`sQlen, this`sent, this`pushed, sQ
      ensures SendValid() && (sQlen, next) == PushRound(open, old(sQlen), offset, |bytes|)
      ensures offset < next <= |bytes| && pushed == old(pushed) + bytes[offset..next]
    {
      SQensureSpace(1);
      var chunkSize := SQ_SIZE - sQlen;
      if chunkSize > |bytes| - offset {
        chunkSize := |bytes| - offset;
      }
      next := offset + chunkSize;
      Store(bytes[offset..next]);
    }

    /** Cuts the bytes into chunks. By `PushEndsIff` the loop would never end on a closed socket
        whose queue fills up. */
    method SQpushBytes(bytes: seq<Byte>)
      requires SendValid() && (open || sQlen + |bytes| <= SQ_SIZE)
      modifies this`sQlen, this`sent, this`pushed, sQ
      ensures SendValid() && pushed == old(pushed) + bytes
    {
      assert bytes[..|bytes|] == bytes;
      var offset := 0;
      while offset < |bytes|
        invariant 0 <= offset <= |bytes|
        invariant SendValid() && pushed == old(pushed) + bytes[..offset]
        invariant open || sQlen + (|bytes| - offset) <= SQ_SIZE
      {
        var next := PushChunk(bytes, offset);
        NextPiece(old(pushed), bytes, offset, next);
        offset := next;
      }
    }
  }
}
