/** The pool of SFTP connections as atomic steps of interleaved transfers and cleanup sweeps.

    A transfer holds one of five permits from before it asks for a connection until after it gave
    it back. Taking from the bag, adding to it and counting it are atomic, but counting and adding
    are two steps, and so are finding the bag empty and having connected. A sweep takes connections
    out one at a time until the bag is empty, and then puts back what it keeps. Time is in seconds;
    a connection is stale when it was last given back before a cutoff that a transfer, or a sweep,
    fixes at its start, or when it is no longer connected. No connection is replaced mid-transfer. */
module ConnectionPools {
  import opened Basics

  type Client = nat

  /** Where a transfer stands. `Returning` has counted the bag and found room or not. */
  datatype Phase =
    | Asking(cutoff: int)
    | Creating
    | Using(client: Client)
    | Returning(client: Client, room: bool)
    | Returned

  /** `lastUsed` are the stamps of connections that were given back; `sweep` is the cutoff of a
      sweep that is still taking connections out. */
  datatype Pool = Pool(idle: multiset<Client>, kept: multiset<Client>, transfers: map<nat, Phase>, made: set<Client>,
                       lastUsed: map<Client, int>, now: int, sweep: Option<int>)

  const MAX_POOL_SIZE := 5
  const PERMITS := 5
  const MAX_AGE := 15 * 60

  function Empty(now: int): Pool {
    Pool(multiset{}, multiset{}, map[], {}, map[], now, None)
  }

  datatype Event =
    | Tick(seconds: nat)
    | Wait(t: nat)
    | Take(t: nat, client: Client, connected: bool)
    | FindEmpty(t: nat)
    | Connected(t: nat, client: Client)
    | ConnectFailed(t: nat)
    | CheckRoom(t: nat, connected: bool)
    | GiveBack(t: nat)
    | Release(t: nat)
    | SweepBegin
    | SweepTake(client: Client, connected: bool)
    | SweepTurn
    | SweepReturn(client: Client)

  predicate In(p: Pool, t: nat, phase: Phase) {
    t in p.transfers && p.transfers[t] == phase
  }

  predicate Asks(p: Pool, t: nat) {
    t in p.transfers && p.transfers[t].Asking?
  }

  function LastUsed(p: Pool, c: Client): int {
    if c in p.lastUsed then p.lastUsed[c] else p.now
  }

  predicate Fresh(p: Pool, c: Client, cutoff: int, connected: bool) {
    LastUsed(p, c) >= cutoff && connected
  }

  /** Steps follow one another as in the code; a new connection is one never seen before. */
  predicate Enabled(p: Pool, e: Event) {
    match e
    case Tick(_) => true
    case Wait(t) => t !in p.transfers && |p.transfers| < PERMITS
    case Take(t, c, _) => Asks(p, t) && c in p.idle
    case FindEmpty(t) => Asks(p, t) && p.idle == multiset{}
    case Connected(t, c) => In(p, t, Creating) && c !in p.made
    case ConnectFailed(t) => In(p, t, Creating)
    case CheckRoom(t, _) => t in p.transfers && p.transfers[t].Using?
    case GiveBack(t) => t in p.transfers && p.transfers[t].Returning?
    case Release(t) => In(p, t, Returned)
    case SweepBegin => p.sweep == None && p.kept == multiset{}
    case SweepTake(c, _) => p.sweep.Some? && c in p.idle
    case SweepTurn => p.sweep.Some? && p.idle == multiset{}
    case SweepReturn(c) => p.sweep == None && c in p.kept
  }

  function Step(p: Pool, e: Event): Pool
    requires Enabled(p, e)
  {
    match e
    case Tick(seconds) => p.(now := p.now + seconds)
    case Wait(t) => p.(transfers := p.transfers[t := Asking(p.now - MAX_AGE)])
    case Take(t, c, connected) =>
      var asking := p.transfers[t];
      p.(idle := p.idle - multiset{c},
         transfers := p.transfers[t := if Fresh(p, c, asking.cutoff, connected) then Using(c) else asking])
    case FindEmpty(t) => p.(transfers := p.transfers[t := Creating])
    case Connected(t, c) => p.(transfers := p.transfers[t := Using(c)], made := p.made + {c})
    case ConnectFailed(t) => p.(transfers := p.transfers[t := Returned])
    case CheckRoom(t, connected) =>
      p.(transfers := p.transfers[t := Returning(p.transfers[t].client, connected && |p.idle| < MAX_POOL_SIZE)])
    case GiveBack(t) =>
      var c := p.transfers[t].client;
      if p.transfers[t].room then
        p.(transfers := p.transfers[t := Returned], idle := p.idle + multiset{c}, lastUsed := p.lastUsed[c := p.now])
      else p.(transfers := p.transfers[t := Returned])
    case Release(t) => p.(transfers := p.transfers - {t})
    case SweepBegin => p.(sweep := Some(p.now - MAX_AGE))
    case SweepTake(c, connected) =>
      p.(idle := p.idle - multiset{c},
         kept := if Fresh(p, c, p.sweep.value, connected) then p.kept + multiset{c} else p.kept)
    case SweepTurn => p.(sweep := None)
    case SweepReturn(c) => p.(kept := p.kept - multiset{c}, idle := p.idle + multiset{c})
  }

  // ----- One owner for each connection -----

  predicate Holds(p: Pool, t: nat, c: Client) {
    t in p.transfers && (p.transfers[t].Using? || p.transfers[t].Returning?) && p.transfers[t].client == c
  }

  /** A connection is in the bag once, or in a sweep's hands, or with one transfer, or gone. */
  ghost predicate Exclusive(p: Pool) {
    && (forall c :: p.idle[c] + p.kept[c] <= 1)
    && (forall c :: p.idle[c] + p.kept[c] > 0 ==> c in p.made)
    && (forall t, c :: Holds(p, t, c) ==> c in p.made && p.idle[c] == 0 && p.kept[c] == 0)
    && (forall t, u, c :: Holds(p, t, c) && Holds(p, u, c) ==> t == u)
  }

  /** A transfer gets hold of a connection only by taking it or by creating it. */
  lemma HoldsAfter(p: Pool, e: Event, t: nat, c: Client)
    requires Enabled(p, e) && Holds(Step(p, e), t, c)
    ensures Holds(p, t, c) || e == Take(t, c, true) || e == Connected(t, c)
    ensures e != GiveBack(t)
  {}

  lemma HolderStaysAlone(p: Pool, e: Event, t: nat, u: nat, c: Client)
    requires Exclusive(p) && Enabled(p, e) && Holds(Step(p, e), t, c) && Holds(Step(p, e), u, c)
    ensures t == u
  {
    HoldsAfter(p, e, t, c);
    HoldsAfter(p, e, u, c);
  }

  lemma HeldIsNotIdle(p: Pool, e: Event, t: nat, c: Client)
    requires Exclusive(p) && Enabled(p, e) && Holds(Step(p, e), t, c)
    ensures c in Step(p, e).made && Step(p, e).idle[c] == 0 && Step(p, e).kept[c] == 0
  {
    HoldsAfter(p, e, t, c);
    assert p.idle[c] + p.kept[c] <= 1;
    assert e.GiveBack? ==> Holds(p, e.t, p.transfers[e.t].client);
  }

  lemma IdleIsOnce(p: Pool, e: Event, c: Client)
    requires Exclusive(p) && Enabled(p, e)
    ensures var q := Step(p, e); q.idle[c] + q.kept[c] <= 1 && (q.idle[c] + q.kept[c] > 0 ==> c in q.made)
  {
    assert p.idle[c] + p.kept[c] <= 1;
    if e.GiveBack? {
      assert Holds(p, e.t, p.transfers[e.t].client);
      OnceAfterGiveBack(p, e, c);
    } else {
      OnceAfter(p, e, c);
    }
  }

  lemma OnceAfterGiveBack(p: Pool, e: Event, c: Client)
    requires Enabled(p, e) && e.GiveBack?
    requires p.idle[c] + p.kept[c] <= 1 && (p.idle[c] + p.kept[c] > 0 ==> c in p.made)
    requires p.transfers[e.t].client == c ==> c in p.made && p.idle[c] == 0 && p.kept[c] == 0
    ensures var q := Step(p, e); q.idle[c] + q.kept[c] <= 1 && (q.idle[c] + q.kept[c] > 0 ==> c in q.made)
  {}

  lemma OnceAfter(p: Pool, e: Event, c: Client)
    requires Enabled(p, e) && !e.GiveBack?
    requires p.idle[c] + p.kept[c] <= 1 && (p.idle[c] + p.kept[c] > 0 ==> c in p.made)
    ensures var q := Step(p, e); q.idle[c] + q.kept[c] <= 1 && (q.idle[c] + q.kept[c] > 0 ==> c in q.made)
  {}

  lemma StepKeepsExclusive(p: Pool, e: Event)
    requires Exclusive(p) && Enabled(p, e)
    ensures Exclusive(Step(p, e))
  {
    var q := Step(p, e);
    forall c ensures q.idle[c] + q.kept[c] <= 1 && (q.idle[c] + q.kept[c] > 0 ==> c in q.made) {
      IdleIsOnce(p, e, c);
    }
    forall t, c | Holds(q, t, c) ensures c in q.made && q.idle[c] == 0 && q.kept[c] == 0 {
      HeldIsNotIdle(p, e, t, c);
    }
    forall t, u, c | Holds(q, t, c) && Holds(q, u, c) ensures t == u {
      HolderStaysAlone(p, e, t, u, c);
    }
  }

  // ----- How many connections there are -----

  predicate Busy(phase: Phase) {
    phase.Creating? || phase.Using? || phase.Returning?
  }

  function BusyIn(m: map<nat, Phase>): set<nat> {
    set t | t in m && Busy(m[t])
  }

  /** Connections in the bag, in a sweep's hands, in use or being created. */
  function Total(p: Pool): nat {
    |p.idle| + |p.kept| + |BusyIn(p.transfers)|
  }

  lemma BusyUpdate(m: map<nat, Phase>, t: nat, phase: Phase)
    ensures |BusyIn(m[t := phase])| ==
            |BusyIn(m)| - (if t in m && Busy(m[t]) then 1 else 0) + (if Busy(phase) then 1 else 0)
  {
    assert BusyIn(m[t := phase]) == (BusyIn(m) - {t}) + if Busy(phase) then {t} else {};
    assert t in BusyIn(m) <==> t in m && Busy(m[t]);
  }

  lemma BusyDrop(m: map<nat, Phase>, t: nat)
    requires t in m && !Busy(m[t])
    ensures |BusyIn(m - {t})| == |BusyIn(m)| && |(m - {t}).Keys| == |m.Keys| - 1
  {
    assert BusyIn(m - {t}) == BusyIn(m);
    assert (m - {t}).Keys == m.Keys - {t};
  }

  lemma BusyFewer(m: map<nat, Phase>, t: nat)
    requires t in m && !Busy(m[t])
    ensures |BusyIn(m)| < |m.Keys|
  {
    var others := m.Keys - {t};
    assert BusyIn(m) <= others;
    SmallerSubset(BusyIn(m), others);
  }

  /** What a step does to the number of connections: only finding the bag empty adds one. */
  lemma TotalAfter(p: Pool, e: Event)
    requires Enabled(p, e)
    ensures e.FindEmpty? ==> Total(Step(p, e)) == Total(p) + 1
    ensures !e.FindEmpty? ==> Total(Step(p, e)) <= Total(p)
  {
    BusyAfter(p, e);
    var q := Step(p, e);
    match e
    case GiveBack(t) => assert |q.idle| + |q.kept| <= |p.idle| + |p.kept| + 1;
    case SweepReturn(c) => assert |q.idle| + |q.kept| == |p.idle| + |p.kept|;
    case SweepTake(c, _) => assert |q.idle| + |q.kept| <= |p.idle| + |p.kept|;
    case Take(t, c, _) => assert |q.idle| == |p.idle| - 1;
    case _ => assert q.idle == p.idle && q.kept == p.kept;
  }

  /** How many transfers have a connection or are about to, one step on. */
  lemma BusyAfter(p: Pool, e: Event)
    requires Enabled(p, e)
    ensures var m, n := |BusyIn(p.transfers)|, |BusyIn(Step(p, e).transfers)|;
            && (e.FindEmpty? ==> n == m + 1)
            && (e.GiveBack? || e.ConnectFailed? ==> n == m - 1)
            && (e.Take? ==> m <= n <= m + 1)
            && (!e.FindEmpty? && !e.GiveBack? && !e.ConnectFailed? && !e.Take? ==> n == m)
  {
    var q := Step(p, e);
    match e
    case Release(t) => BusyDrop(p.transfers, t);
    case Wait(t) => BusyUpdate(p.transfers, t, q.transfers[t]);
    case Take(t, _, _) => BusyUpdate(p.transfers, t, q.transfers[t]);
    case FindEmpty(t) => BusyUpdate(p.transfers, t, Creating);
    case Connected(t, c) => BusyUpdate(p.transfers, t, Using(c));
    case ConnectFailed(t) => BusyUpdate(p.transfers, t, Returned);
    case CheckRoom(t, _) => BusyUpdate(p.transfers, t, q.transfers[t]);
    case GiveBack(t) => BusyUpdate(p.transfers, t, Returned);
    case _ =>
  }

  ghost predicate Bounded(p: Pool) {
    Total(p) <= MAX_POOL_SIZE && |p.transfers.Keys| <= PERMITS
  }

  lemma KeysAfter(p: Pool, e: Event)
    requires Enabled(p, e)
    ensures Step(p, e).transfers.Keys ==
            if e.Wait? then p.transfers.Keys + {e.t}
            else if e.Release? then p.transfers.Keys - {e.t}
            else p.transfers.Keys
  {}

  lemma OneKey(keys: set<nat>, t: nat)
    ensures |keys - {t}| <= |keys| && |keys + {t}| <= |keys| + 1
  {
    if t !in keys {
      assert keys - {t} == keys;
    } else {
      assert keys + {t} == keys;
    }
  }

  lemma PermitsAfter(p: Pool, e: Event)
    requires Enabled(p, e) && |p.transfers.Keys| <= PERMITS
    ensures |Step(p, e).transfers.Keys| <= PERMITS
  {
    KeysAfter(p, e);
    if e.Wait? {
      assert |p.transfers.Keys| == |p.transfers| < PERMITS;
      OneKey(p.transfers.Keys, e.t);
    } else if e.Release? {
      OneKey(p.transfers.Keys, e.t);
    }
  }

  /** The bound of five survives every step but one: a transfer that finds the bag empty although
      five connections are about, which takes a sweep with some of them in its hands. */
  lemma StepKeepsBoundedIff(p: Pool, e: Event)
    requires Bounded(p) && Enabled(p, e)
    ensures Bounded(Step(p, e)) <==> !(e.FindEmpty? && |p.kept| + |BusyIn(p.transfers)| >= 5)
    ensures e.FindEmpty? && p.kept == multiset{} ==> |BusyIn(p.transfers)| < 5
  {
    TotalAfter(p, e);
    PermitsAfter(p, e);
    if e.FindEmpty? {
      BusyFewer(p.transfers, e.t);
    }
  }

  // ----- Runs -----

  predicate Possible(p: Pool, events: seq<Event>)
    decreases |events|
  {
    events == [] || (Enabled(p, events[0]) && Possible(Step(p, events[0]), events[1..]))
  }

  function Run(p: Pool, events: seq<Event>): Pool
    requires Possible(p, events)
    decreases |events|
  {
    if events == [] then p else Run(Step(p, events[0]), events[1..])
  }

  /** How often a transfer finds the bag empty while a sweep has connections in its hands. */
  function Caught(p: Pool, events: seq<Event>): nat
    requires Possible(p, events)
    decreases |events|
  {
    if events == [] then 0
    else (if events[0].FindEmpty? && p.kept != multiset{} then 1 else 0) + Caught(Step(p, events[0]), events[1..])
  }

  /** No interleaving, with sweeps or not, gives one connection to two owners. */
  lemma {:induction false} RunKeepsExclusive(p: Pool, events: seq<Event>)
    requires Exclusive(p) && Possible(p, events)
    ensures Exclusive(Run(p, events))
    decreases |events|
  {
    if events != [] {
      StepKeepsExclusive(p, events[0]);
      RunKeepsExclusive(Step(p, events[0]), events[1..]);
    }
  }

  lemma {:induction false} RunBound(p: Pool, events: seq<Event>, bound: nat)
    requires Possible(p, events) && |p.transfers.Keys| <= PERMITS
    requires MAX_POOL_SIZE <= bound && Total(p) <= bound
    ensures Total(Run(p, events)) <= bound + Caught(p, events)
    decreases |events|
  {
    if events != [] {
      var e := events[0];
      TotalAfter(p, e);
      PermitsAfter(p, e);
      if e.FindEmpty? && p.kept != multiset{} {
        RunBound(Step(p, e), events[1..], bound + 1);
      } else {
        if e.FindEmpty? {
          BusyFewer(p.transfers, e.t);
        }
        RunBound(Step(p, e), events[1..], bound);
      }
    }
  }

  /** In every interleaving of transfers and sweeps there are at most five connections, and one
      more for each time a transfer found the bag empty while a sweep held connections. */
  lemma PoolBound(now: int, events: seq<Event>)
    requires Possible(Empty(now), events)
    ensures Exclusive(Run(Empty(now), events))
    ensures Total(Run(Empty(now), events)) <= 5 + Caught(Empty(now), events)
  {
    assert BusyIn(Empty(now).transfers) == {};
    RunKeepsExclusive(Empty(now), events);
    RunBound(Empty(now), events, MAX_POOL_SIZE);
  }

  /** So where no sweep is caught half-way the bag stays within its size although counting and
      adding are two steps, and a connected client that comes back always finds room. */
  lemma CalmPool(now: int, events: seq<Event>)
    requires Possible(Empty(now), events) && Caught(Empty(now), events) == 0
    ensures var p := Run(Empty(now), events);
            && |p.idle| <= 5
            && (forall t :: t in p.transfers && p.transfers[t].Using? ==>
                 Step(p, CheckRoom(t, true)).transfers[t].room)
  {
    PoolBound(now, events);
    var p := Run(Empty(now), events);
    forall t | t in p.transfers && p.transfers[t].Using? ensures |p.idle| < MAX_POOL_SIZE {
      assert t in BusyIn(p.transfers);
    }
  }

  // ----- What a sweep that is caught half-way does -----

  lemma {:induction false} RunAppend(p: Pool, a: seq<Event>, b: seq<Event>)
    requires Possible(p, a) && Possible(Run(p, a), b)
    ensures Possible(p, a + b) && Run(p, a + b) == Run(Run(p, a), b)
    decreases |a|
  {
    if a == [] {
      assert a + b == b;
    } else {
      assert (a + b)[1..] == a[1..] + b;
      RunAppend(Step(p, a[0]), a[1..], b);
    }
  }

  lemma RunSnoc(p: Pool, events: seq<Event>, e: Event)
    requires Possible(p, events) && Enabled(Run(p, events), e)
    ensures Possible(p, events + [e]) && Run(p, events + [e]) == Step(Run(p, events), e)
  {
    var q := Run(p, events);
    assert [e][1..] == [];
    assert Possible(Step(q, e), []);
    RunAppend(p, events, [e]);
  }

  lemma {:induction false} SweepDown(p: Pool) returns (events: seq<Event>)
    requires p.sweep == None
    ensures Possible(p, events) && Run(p, events) == p.(kept := multiset{}, idle := p.idle + p.kept)
    ensures SweepBegin !in events
    decreases |p.kept|
  {
    events := [];
    if p.kept != multiset{} {
      var c :| c in p.kept;
      var e := SweepReturn(c);
      var q := Step(p, e);
      assert q.idle + q.kept == p.idle + p.kept;
      var rest := SweepDown(q);
      events := [e] + rest;
      assert events[1..] == rest;
    } else {
      assert p.idle + p.kept == p.idle;
    }
  }

  /** A transfer that creates a connection and works for one second. */
  lemma Working(p: Pool, c: Client) returns (events: seq<Event>)
    requires p.idle == multiset{} && p.transfers == map[] && c !in p.made
    ensures Possible(p, events)
    ensures Run(p, events) == p.(transfers := map[0 := Using(c)], made := p.made + {c}, now := p.now + 1)
    ensures SweepBegin !in events
  {
    var e0, e1, e2, e3 := Wait(0), FindEmpty(0), Connected(0, c), Tick(1);
    RunSnoc(p, [], e0);
    RunSnoc(p, [e0], e1);
    RunSnoc(p, [e0] + [e1], e2);
    RunSnoc(p, [e0] + [e1] + [e2], e3);
    events := [e0] + [e1] + [e2] + [e3];
    assert Run(p, events).transfers == map[0 := Using(c)];
  }

  lemma GivingBack(p: Pool, c: Client) returns (events: seq<Event>)
    requires p.idle == multiset{} && p.transfers == map[0 := Using(c)]
    ensures Possible(p, events)
    ensures Run(p, events) ==
            p.(transfers := map[0 := Returned], idle := multiset{c}, lastUsed := p.lastUsed[c := p.now])
    ensures SweepBegin !in events
  {
    var e0, e1 := CheckRoom(0, true), GiveBack(0);
    RunSnoc(p, [], e0);
    RunSnoc(p, [e0], e1);
    events := [e0] + [e1];
    assert Run(p, events).transfers == map[0 := Returned];
    assert Run(p, events).idle == multiset{c};
  }

  /** A sweep that is under way takes the connection. The sweep's cutoff is older than its stamp, so
      it keeps it. */
  lemma Leaving(p: Pool, c: Client) returns (events: seq<Event>)
    requires p.idle == multiset{c} && p.transfers == map[0 := Returned]
    requires p.sweep.Some? && p.sweep.value <= LastUsed(p, c)
    ensures Possible(p, events)
    ensures Run(p, events) == p.(transfers := map[], idle := multiset{}, kept := p.kept + multiset{c})
    ensures SweepBegin !in events
  {
    var e0, e1 := Release(0), SweepTake(c, true);
    RunSnoc(p, [], e0);
    RunSnoc(p, [e0], e1);
    events := [e0] + [e1];
    assert Run(p, events).transfers == map[];
    assert Run(p, events).idle == multiset{};
  }

  lemma Errand(p: Pool, c: Client) returns (events: seq<Event>)
    requires p.idle == multiset{} && p.transfers == map[] && c !in p.made
    requires p.sweep.Some? && p.sweep.value <= p.now
    ensures Possible(p, events)
    ensures Run(p, events) == p.(kept := p.kept + multiset{c}, made := p.made + {c}, now := p.now + 1,
                                 lastUsed := p.lastUsed[c := p.now + 1])
    ensures SweepBegin !in events
  {
    var first := Working(p, c);
    var second := GivingBack(Run(p, first), c);
    RunAppend(p, first, second);
    var third := Leaving(Run(p, first + second), c);
    RunAppend(p, first + second, third);
    events := first + second + third;
  }

  lemma FreshClient(made: set<Client>) returns (c: Client)
    ensures c !in made
  {
    var n := AllBelow(made);
    c := n;
  }

  lemma {:induction false} AllBelow(s: set<Client>) returns (n: Client)
    ensures forall c :: c in s ==> c < n
  {
    n := 0;
    if s != {} {
      var c :| c in s;
      var m := AllBelow(s - {c});
      n := if c < m then m else c + 1;
      forall d | d in s ensures d < n {
        assert d == c || d in s - {c};
      }
    }
  }

  /** n transfers of one second each, all while one sweep is under way. */
  lemma {:induction false} SlowSweep(p: Pool, n: nat) returns (events: seq<Event>)
    requires p.idle == multiset{} && p.transfers == map[] && p.sweep.Some? && p.sweep.value <= p.now
    ensures Possible(p, events)
    ensures var q := Run(p, events);
            && q.idle == multiset{} && q.transfers == map[] && q.sweep == p.sweep
            && |q.kept| == |p.kept| + n && q.now == p.now + n
    ensures SweepBegin !in events
    decreases n
  {
    events := [];
    if n > 0 {
      var c := FreshClient(p.made);
      var errand := Errand(p, c);
      var q := Run(p, errand);
      var rest := SlowSweep(q, n - 1);
      RunAppend(p, errand, rest);
      events := errand + rest;
    }
  }

  /** The bag has no size that holds in every interleaving. One sweep that is still taking out
      connections while transfers of one second each come and go keeps the connection of each of
      them, because none is older than its cutoff: n such transfers leave n idle connections, for
      every n, after n seconds. */
  lemma SlowSweepGrowsThePool(n: nat, now: int) returns (events: seq<Event>)
    ensures Possible(Empty(now), [SweepBegin] + events)
    ensures SweepBegin !in events
    ensures var q := Run(Empty(now), [SweepBegin] + events);
            |q.idle| == n && q.kept == multiset{} && q.transfers == map[] && q.now == now + n
  {
    var p := Empty(now);
    var p0 := Step(p, SweepBegin);
    var errands := SlowSweep(p0, n);
    var p1 := Run(p0, errands);
    RunSnoc(p0, errands, SweepTurn);
    var p2 := Step(p1, SweepTurn);
    var down := SweepDown(p2);
    RunAppend(p0, errands + [SweepTurn], down);
    events := errands + [SweepTurn] + down;
    assert ([SweepBegin] + events)[1..] == events;
  }

  // ----- The pool object -----

  /** The connections of the bag that are too old or no longer connected. */
  function Stale(p: Pool, live: set<Client>, cutoff: int): set<Client> {
    set c | c in p.idle && !Fresh(p, c, cutoff, c in live)
  }

  /** What is left of the bag `all` after a search that passed over stale connections only. */
  ghost predicate Fewer(rest: multiset<Client>, taken: Option<Client>, all: multiset<Client>, stale: set<Client>) {
    && rest <= all
    && (taken.Some? ==> taken.value in all && taken.value !in stale)
    && (forall c :: c !in stale ==> rest[c] == all[c] - if taken == Some(c) then 1 else 0)
  }

  lemma FewerStep(rest: multiset<Client>, conn: Client, all: multiset<Client>, stale: set<Client>)
    requires Fewer(rest, None, all, stale) && conn in rest
    ensures Fewer(rest - multiset{conn}, if conn in stale then None else Some(conn), all, stale)
  {}

  /** A half-done sweep: what is still in the bag and what is kept are the fresh ones of all. */
  ghost predicate Parted(rest: multiset<Client>, keep: multiset<Client>, all: multiset<Client>, stale: set<Client>) {
    rest <= all && forall c :: if c in stale then keep[c] == 0 else rest[c] + keep[c] == all[c]
  }

  lemma PartedStep(rest: multiset<Client>, keep: multiset<Client>, conn: Client, all: multiset<Client>,
                   stale: set<Client>)
    requires Parted(rest, keep, all, stale) && conn in rest
    ensures Parted(rest - multiset{conn}, if conn in stale then keep else keep + multiset{conn}, all, stale)
  {}

  /** After a whole sweep exactly the stale connections are gone. */
  ghost predicate Swept(before: multiset<Client>, after: multiset<Client>, stale: set<Client>) {
    forall c :: after[c] == if c in stale then 0 else before[c]
  }

  /** The age of a stale connection, in numbers: last given back more than 15 minutes ago. One that
      was never given back counts as fresh. */
  lemma StaleIff(p: Pool, live: set<Client>, c: Client)
    requires c in p.idle
    ensures c in Stale(p, live, p.now - MAX_AGE) <==>
            !(c in live && (c !in p.lastUsed || p.now - p.lastUsed[c] <= 900))
  {}

  lemma AllStaleIff(p: Pool, live: set<Client>)
    ensures forall c :: c in p.idle ==>
              (c in Stale(p, live, p.now - MAX_AGE) <==>
               !(c in live && (c !in p.lastUsed || p.now - p.lastUsed[c] <= 900)))
  {
    forall c | c in p.idle
      ensures c in Stale(p, live, p.now - MAX_AGE) <==>
              !(c in live && (c !in p.lastUsed || p.now - p.lastUsed[c] <= 900))
    {
      StaleIff(p, live, c);
    }
  }

  /** A search by age: what it took is fresh, and it passed over no fresh connection. */
  lemma TakenByAge(p: Pool, live: set<Client>, rest: multiset<Client>, taken: Option<Client>)
    requires Fewer(rest, taken, p.idle, Stale(p, live, p.now - MAX_AGE))
    requires taken.None? ==> rest == multiset{}
    ensures rest <= p.idle
    ensures taken.Some? <==> exists c :: c in p.idle && c in live && (c !in p.lastUsed || p.now - p.lastUsed[c] <= 900)
    ensures taken.Some? ==>
              var got := taken.value;
              got in p.idle && got in live && (got !in p.lastUsed || p.now - p.lastUsed[got] <= 900)
    ensures forall c: Client :: c in live && (c !in p.lastUsed || p.now - p.lastUsed[c] <= 900) ==>
              rest[c] == p.idle[c] - if taken == Some(c) then 1 else 0
  {
    AllStaleIff(p, live);
    if taken.Some? {
      StaleIff(p, live, taken.value);
    } else {
      forall c | c in p.idle ensures c in Stale(p, live, p.now - MAX_AGE) {
        assert rest[c] == 0;
      }
    }
  }

  lemma Moved(idle: multiset<Client>, kept: multiset<Client>, c: Client)
    requires c in kept
    ensures (idle + multiset{c}) + (kept - multiset{c}) == idle + kept
  {}

  /** A sweep that has taken some connections out of the bag by these events. */
  ghost predicate SweptSoFar(start: Pool, events: seq<Event>, now: Pool, cutoff: int, live: set<Client>) {
    && Possible(start, events) && now == Run(start, events)
    && now.sweep == Some(cutoff) && now.lastUsed == start.lastUsed && now.now == start.now
    && Parted(now.idle, now.kept, start.idle, Stale(start, live, cutoff))
  }

  lemma SweptOneMore(start: Pool, events: seq<Event>, now: Pool, conn: Client, cutoff: int, live: set<Client>)
    requires SweptSoFar(start, events, now, cutoff, live) && conn in now.idle
    ensures var e := SweepTake(conn, conn in live);
            SweptSoFar(start, events + [e], Step(now, e), cutoff, live)
  {
    var e := SweepTake(conn, conn in live);
    RunSnoc(start, events, e);
    PartedStep(now.idle, now.kept, conn, start.idle, Stale(start, live, cutoff));
  }

  lemma TakenOut(start: Pool, begun: Pool, taken: seq<Event>, emptied: Pool, cutoff: int, live: set<Client>)
    requires Enabled(start, SweepBegin) && begun == Step(start, SweepBegin) && cutoff == start.now - MAX_AGE
    requires SweptSoFar(begun, taken, emptied, cutoff, live) && emptied.idle == multiset{}
    ensures var events := [SweepBegin] + taken + [SweepTurn];
            Possible(start, events) && Run(start, events) == emptied.(sweep := None)
    ensures Swept(start.idle, emptied.kept, Stale(start, live, cutoff))
  {
    RunSnoc(start, [], SweepBegin);
    assert [] + [SweepBegin] == [SweepBegin];
    RunAppend(start, [SweepBegin], taken);
    RunSnoc(start, [SweepBegin] + taken, SweepTurn);
    assert Stale(begun, live, cutoff) == Stale(start, live, cutoff);
  }

  lemma TransferBegins(m: map<nat, Phase>, t: nat, phase: Phase)
    requires t !in m
    ensures |m[t := phase]| == |m| + 1
  {
    assert m[t := phase].Keys == m.Keys + {t};
  }

  lemma TransferEnds(m: map<nat, Phase>, t: nat)
    requires t in m
    ensures |m - {t}| == |m| - 1
  {
    assert (m - {t}).Keys == m.Keys - {t};
  }

  lemma TransferMoves(m: map<nat, Phase>, t: nat, phase: Phase)
    requires t in m
    ensures |m[t := phase]| == |m|
  {
    assert m[t := phase].Keys == m.Keys;
  }

  /** The fields of the file service that the pool uses, with each method run uninterrupted: every
      call is a run of the steps above. `live` are the connections that are still connected; the
      connection a transfer would get by connecting is a parameter, too. */
  class ConnectionPool {
    var connectionPool: multiset<Client>
    var lastUsed: map<Client, int>
    var permits: nat
    /** `DateTime.Now`; it stands still while a method runs. */
    var clock: int
    ghost var kept: multiset<Client>
    ghost var transfers: map<nat, Phase>
    ghost var made: set<Client>
    ghost var sweep: Option<int>

    ghost function Model(): Pool
      reads this
    {
      Pool(connectionPool, kept, transfers, made, lastUsed, clock, sweep)
    }

    ghost predicate Valid()
      reads this
    {
      permits + |transfers| == PERMITS
    }

    constructor (now: int)
      ensures Valid() && Model() == Empty(now) && permits == 5
    {
      connectionPool, lastUsed, permits, clock := multiset{}, map[], PERMITS, now;
      kept, transfers, made, sweep := multiset{}, map[], {}, None;
    }

    /** Whether a connection of the bag is fresh: used since the cutoff, and still connected. */
    method IsFresh(conn: Client, cutoff: int, live: set<Client>) returns (isFresh: bool)
      ensures isFresh == Fresh(Model(), conn, cutoff, conn in live)
    {
      isFresh := (if conn in lastUsed then lastUsed[conn] else clock) >= cutoff && conn in live;
    }

    /** `_poolLock.WaitAsync`, when it does not have to wait. */
    method EnterTransfer(ghost t: nat)
      requires Valid() && permits > 0 && t !in transfers
      modifies this`permits, this`transfers
      ensures Valid() && Model() == Step(old(Model()), Wait(t))
    {
      permits := permits - 1;
      TransferBegins(transfers, t, Asking(clock - MAX_AGE));
      transfers := transfers[t := Asking(clock - MAX_AGE)];
    }

    method LeaveTransfer(ghost t: nat)
      requires Valid() && In(Model(), t, Returned)
      modifies this`permits, this`transfers
      ensures Valid() && Model() == Step(old(Model()), Release(t))
    {
      permits := permits + 1;
      TransferEnds(transfers, t);
      transfers := transfers - {t};
    }

    /** One `TryTake` of a transfer on a bag that is not empty. */
    method TakeNext(ghost t: nat, cutoff: int, live: set<Client>) returns (conn: Client, isFresh: bool, ghost e: Event)
      requires Valid() && In(Model(), t, Asking(cutoff)) && connectionPool != multiset{}
      modifies this`connectionPool, this`transfers
      ensures Valid() && conn in old(connectionPool) && e == Take(t, conn, conn in live)
      ensures isFresh == Fresh(old(Model()), conn, cutoff, conn in live)
      ensures Model() == Step(old(Model()), e)
    {
      conn :| conn in connectionPool;
      e := Take(t, conn, conn in live);
      isFresh := IsFresh(conn, cutoff, live);
      connectionPool := connectionPool - multiset{conn};
      ghost var phase := if isFresh then Using(conn) else Asking(cutoff);
      TransferMoves(transfers, t, phase);
      transfers := transfers[t := phase];
    }

    /** First part of `GetConnectionAsync`: stale connections met on the way are disposed of. */
    method TakeIdle(ghost t: nat, live: set<Client>) returns (client: Option<Client>, ghost events: seq<Event>)
      requires Valid() && In(Model(), t, Asking(clock - MAX_AGE))
      modifies this`connectionPool, this`transfers
      ensures Valid()
      ensures Possible(old(Model()), events) && Model() == Run(old(Model()), events)
      ensures Fewer(connectionPool, client, old(connectionPool), Stale(old(Model()), live, old(clock) - MAX_AGE))
      ensures client.Some? ==> In(Model(), t, Using(client.value))
      ensures client.None? ==> Asks(Model(), t) && connectionPool == multiset{}
    {
      client, events := None, [];
      var cutoff := clock - MAX_AGE;
      ghost var start := Model();
      ghost var stale := Stale(start, live, cutoff);
      while client.None? && connectionPool != multiset{}
        invariant Valid()
        invariant In(Model(), t, if client.None? then Asking(cutoff) else Using(client.value))
        invariant Possible(start, events) && Model() == Run(start, events)
        invariant Fewer(connectionPool, client, start.idle, stale)
        decreases if client.None? then |connectionPool| + 1 else 0
      {
        ghost var before := Model();
        var conn, isFresh, e := TakeNext(t, cutoff, live);
        FewerStep(before.idle, conn, start.idle, stale);
        RunSnoc(start, events, e);
        events := events + [e];
        if isFresh {
          client := Some(conn);
        }
      }
    }

    method TakeByAge(ghost t: nat, live: set<Client>) returns (client: Option<Client>, ghost events: seq<Event>)
      requires Valid() && In(Model(), t, Asking(clock - MAX_AGE))
      modifies this`connectionPool, this`transfers
      ensures Valid()
      ensures Possible(old(Model()), events) && Model() == Run(old(Model()), events)
      ensures if client.Some? then In(Model(), t, Using(client.value))
              else Asks(Model(), t) && connectionPool == multiset{}
      ensures client.Some? <==>
              exists c :: c in old(connectionPool) && c in live && (c !in lastUsed || clock - lastUsed[c] <= 900)
      ensures client.Some? ==>
                && var got := client.value;
                && got in old(connectionPool) && got in live && (got !in lastUsed || clock - lastUsed[got] <= 900)
                && connectionPool <= old(connectionPool)
                && forall c: Client :: c in live && (c !in lastUsed || clock - lastUsed[c] <= 900) ==>
                     connectionPool[c] == old(connectionPool)[c] - if c == got then 1 else 0
    {
      ghost var start := Model();
      client, events := TakeIdle(t, live);
      TakenByAge(start, live, connectionPool, client);
    }

    /** Second part of `GetConnectionAsync`; `connects` is `None` when connecting throws. */
    method CreateConnection(ghost t: nat, connects: Option<Client>) returns (ghost events: seq<Event>)
      requires Valid() && Asks(Model(), t) && connectionPool == multiset{}
      requires connects.Some? ==> connects.value !in made
      modifies this`transfers, this`made
      ensures Valid() && connectionPool == multiset{}
      ensures Possible(old(Model()), events) && Model() == Run(old(Model()), events)
      ensures In(Model(), t, if connects.Some? then Using(connects.value) else Returned)
    {
      ghost var start := Model();
      RunSnoc(start, [], FindEmpty(t));
      ghost var e := if connects.Some? then Connected(t, connects.value) else ConnectFailed(t);
      RunSnoc(start, [FindEmpty(t)], e);
      events := [FindEmpty(t)] + [e];
      TransferMoves(transfers, t, if connects.Some? then Using(connects.value) else Returned);
      transfers := transfers[t := Creating];
      transfers := transfers[t := if connects.Some? then Using(connects.value) else Returned];
      if connects.Some? {
        made := made + {connects.value};
      }
    }

    /** A connection that is still connected and was given back at most 15 minutes ago is never passed
        over, and a new one is made only when none such is left. */
    method GetConnection(ghost t: nat, live: set<Client>, connects: Option<Client>)
      returns (client: Option<Client>, ghost events: seq<Event>)
      requires Valid() && In(Model(), t, Asking(clock - MAX_AGE))
      requires connects.Some? ==> connects.value !in made
      modifies this`connectionPool, this`transfers, this`made
      ensures Valid()
      ensures Possible(old(Model()), events) && Model() == Run(old(Model()), events)
      ensures In(Model(), t, if client.Some? then Using(client.value) else Returned)
      ensures if exists c :: c in old(connectionPool) && c in live && (c !in lastUsed || clock - lastUsed[c] <= 900)
              then
                && client.Some? && var got := client.value;
                && got in old(connectionPool) && got in live && (got !in lastUsed || clock - lastUsed[got] <= 900)
                && connectionPool <= old(connectionPool)
                && forall c: Client :: c in live && (c !in lastUsed || clock - lastUsed[c] <= 900) ==>
                     connectionPool[c] == old(connectionPool)[c] - if c == got then 1 else 0
              else connectionPool == multiset{} && client == connects
    {
      client, events := TakeByAge(t, live);
      if client.None? {
        ghost var more := CreateConnection(t, connects);
        RunAppend(old(Model()), events, more);
        events := events + more;
        client := connects;
      }
    }

    /** What a transfer that got a connection does with it at the end. */
    method ReturnConnection(ghost t: nat, client: Client, connected: bool)
      requires Valid() && In(Model(), t, Using(client))
      modifies this`connectionPool, this`transfers, this`lastUsed
      ensures Valid()
      ensures Model() == Step(Step(old(Model()), CheckRoom(t, connected)), GiveBack(t))
      ensures connectionPool == if connected && |old(connectionPool)| < 5
                                then old(connectionPool) + multiset{client} else old(connectionPool)
      ensures connectionPool != old(connectionPool) ==> lastUsed == old(lastUsed)[client := clock]
    {
      ghost var before := transfers;
      var room := connected && |connectionPool| < MAX_POOL_SIZE;
      transfers := transfers[t := Returning(client, room)];
      if room {
        connectionPool := connectionPool + multiset{client};
        lastUsed := lastUsed[client := clock];
      }
      transfers := transfers[t := Returned];
      assert transfers.Keys == before.Keys;
    }

    /** One `TryTake` of the sweep on a bag that is not empty. */
    method SweepNext(cutoff: int, live: set<Client>, keep: multiset<Client>)
      returns (connectionsToKeep: multiset<Client>, ghost conn: Client)
      requires Valid() && connectionPool != multiset{} && kept == keep && sweep == Some(cutoff)
      modifies this`connectionPool, this`kept
      ensures Valid() && conn in old(connectionPool) && kept == connectionsToKeep
      ensures |connectionPool| < |old(connectionPool)|
      ensures Model() == Step(old(Model()), SweepTake(conn, conn in live))
    {
      var connInfo :| connInfo in connectionPool;
      var isFresh := IsFresh(connInfo, cutoff, live);
      connectionPool := connectionPool - multiset{connInfo};
      connectionsToKeep := keep;
      if isFresh {
        connectionsToKeep := connectionsToKeep + multiset{connInfo};
        kept := kept + multiset{connInfo};
      }
      conn := connInfo;
    }

    /** First loop of the sweep. */
    method SweepBag(cutoff: int, live: set<Client>)
      returns (connectionsToKeep: multiset<Client>, ghost events: seq<Event>)
      requires Valid() && kept == multiset{} && sweep == Some(cutoff)
      modifies this`connectionPool, this`kept
      ensures Valid() && connectionPool == multiset{} && kept == connectionsToKeep
      ensures SweptSoFar(old(Model()), events, Model(), cutoff, live)
    {
      events, connectionsToKeep := [], multiset{};
      ghost var start := Model();
      while connectionPool != multiset{}
        invariant Valid() && kept == connectionsToKeep
        invariant SweptSoFar(start, events, Model(), cutoff, live)
        decreases |connectionPool|
      {
        ghost var before := Model();
        ghost var conn;
        connectionsToKeep, conn := SweepNext(cutoff, live, connectionsToKeep);
        SweptOneMore(start, events, before, conn, cutoff, live);
        events := events + [SweepTake(conn, conn in live)];
      }
    }

    method ReturnNext(keep: multiset<Client>) returns (rest: multiset<Client>, ghost conn: Client)
      requires Valid() && keep != multiset{} && kept == keep && sweep == None
      modifies this`connectionPool, this`kept
      ensures Valid() && conn in keep && rest == keep - multiset{conn} && |rest| < |keep|
      ensures Model() == Step(old(Model()), SweepReturn(conn))
    {
      var connInfo :| connInfo in keep;
      conn := connInfo;
      rest := keep - multiset{connInfo};
      kept := kept - multiset{connInfo};
      connectionPool := connectionPool + multiset{connInfo};
    }

    /** Second loop of the sweep. */
    method PutBack(connectionsToKeep: multiset<Client>) returns (ghost events: seq<Event>)
      requires Valid() && kept == connectionsToKeep && sweep == None
      modifies this`connectionPool, this`kept
      ensures Valid() && kept == multiset{}
      ensures Possible(old(Model()), events) && Model() == Run(old(Model()), events)
      ensures connectionPool == old(connectionPool) + connectionsToKeep
    {
      events := [];
      ghost var start := Model();
      var rest := connectionsToKeep;
      while rest != multiset{}
        invariant Valid() && kept == rest
        invariant Possible(start, events) && Model() == Run(start, events)
        invariant connectionPool + rest == start.idle + connectionsToKeep
        decreases |rest|
      {
        ghost var before := Model();
        ghost var conn;
        rest, conn := ReturnNext(rest);
        Moved(before.idle, before.kept, conn);
        RunSnoc(start, events, SweepReturn(conn));
        events := events + [SweepReturn(conn)];
      }
    }

    /** The sweep up to the moment when it has everything in its hands. */
    method TakeOut(live: set<Client>) returns (connectionsToKeep: multiset<Client>, ghost events: seq<Event>)
      requires Valid() && kept == multiset{} && sweep == None
      modifies this`connectionPool, this`kept, this`sweep
      ensures Valid() && kept == connectionsToKeep && sweep == None
      ensures Possible(old(Model()), events) && Model() == Run(old(Model()), events)
      ensures Swept(old(connectionPool), connectionsToKeep, Stale(old(Model()), live, old(clock) - MAX_AGE))
      ensures connectionPool == multiset{}
    {
      ghost var start := Model();
      var cutoffTime := clock - MAX_AGE;
      sweep := Some(cutoffTime);
      ghost var begun := Model();
      connectionsToKeep, events := SweepBag(cutoffTime, live);
      ghost var emptied := Model();
      sweep := None;
      TakenOut(start, begun, events, emptied, cutoffTime, live);
      events := [SweepBegin] + events + [SweepTurn];
    }

    /** The timer's sweep: exactly the connections are gone from the bag that are no longer connected
        or were given back more than 15 minutes ago. */
    method CleanupIdleConnections(live: set<Client>) returns (ghost events: seq<Event>)
      requires Valid() && kept == multiset{} && sweep == None
      modifies this`connectionPool, this`kept, this`sweep
      ensures Valid() && kept == multiset{} && sweep == None
      ensures Possible(old(Model()), events) && Model() == Run(old(Model()), events)
      ensures forall c: Client :: connectionPool[c] ==
                if c in live && (c !in lastUsed || clock - lastUsed[c] <= 900) then old(connectionPool)[c] else 0
    {
      ghost var start := Model();
      AllStaleIff(start, live);
      var connectionsToKeep;
      connectionsToKeep, events := TakeOut(live);
      ghost var more := PutBack(connectionsToKeep);
      assert multiset{} + connectionsToKeep == connectionsToKeep;
      RunAppend(start, events, more);
      events := events + more;
    }
  }
}
