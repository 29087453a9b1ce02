/** The hub's bookkeeping of live connections, as atomic steps of interleaved handlers.

    `ConnectionMap` and `BranchConnectionCount` are concurrent dictionaries: each operation on one
    of them is atomic, but a handler that touches both can be interrupted in between. A connection
    id that is in between is kept in `connecting` (counted, not yet in the map) or in `removing`
    (out of the map, not yet uncounted). A connect whose group calls throw stays in `connecting`. */
module BranchHub {
  import opened Basics

  datatype Info = Info(branchId: string, userId: string, connectedAt: int)

  datatype Hub = Hub(conns: map<string, Info>, counts: map<string, int>,
                     connecting: map<string, string>, removing: map<string, string>, lowered: set<string>)

  const EMPTY := Hub(map[], map[], map[], map[], {})

  /** What `BranchConnectionCount` says of a branch; a blank branch id is never counted. */
  function CountOf(h: Hub, b: string): int {
    if b in h.counts then h.counts[b] else 0
  }

  datatype Event =
    | Count(id: string, branchId: string)
    | Insert(id: string, userId: string, now: int)
    | Remove(id: string)
    | Lower(id: string)

  /** The ids of all connections that ever began. */
  function Used(h: Hub): set<string> {
    h.conns.Keys + h.connecting.Keys + h.removing.Keys + h.lowered
  }

  /** Connection ids are unique; a handler's second step follows its first. */
  predicate Enabled(h: Hub, e: Event) {
    match e
    case Count(id, _) => id !in Used(h)
    case Insert(id, _, _) => id in h.connecting
    case Remove(_) => true
    case Lower(id) => id in h.removing
  }

  function Step(h: Hub, e: Event): Hub
    requires Enabled(h, e)
  {
    match e
    case Count(id, b) =>
      h.(connecting := h.connecting[id := b],
         counts := if IsNullOrWhiteSpace(b) then h.counts
                   else h.counts[b := if b in h.counts then h.counts[b] + 1 else 1])
    case Insert(id, user, now) =>
      h.(connecting := h.connecting - {id}, conns := h.conns[id := Info(h.connecting[id], user, now)])
    case Remove(id) =>
      if id !in h.conns then h
      else h.(conns := h.conns - {id}, removing := h.removing[id := h.conns[id].branchId])
    case Lower(id) =>
      var b := h.removing[id];
      h.(removing := h.removing - {id}, lowered := h.lowered + {id},
         counts := if IsNullOrWhiteSpace(b) then h.counts
                   else h.counts[b := if b in h.counts then Max(0, h.counts[b] - 1) else 0])
  }

  /** A new entry is the connection's own branch, user and time, so a cleanup whose threshold is not
      later keeps it. */
  lemma EntryIsNew(h: Hub, id: string, userId: string, now: int)
    requires id in h.connecting
    ensures var t := Step(h, Insert(id, userId, now));
            t.conns == h.conns[id := Info(h.connecting[id], userId, now)] && t.connecting == h.connecting - {id}
  {}

  function Max(a: int, b: int): int { if a > b then a else b }

  // ----- Agreement of the counts with the map -----

  function Ids(m: map<string, string>, b: string): set<string> {
    set id | id in m && m[id] == b
  }

  function Branches(conns: map<string, Info>): map<string, string> {
    map id | id in conns :: conns[id].branchId
  }

  /** The connections of branch b in the map. */
  function Listed(h: Hub, b: string): set<string> {
    Ids(Branches(h.conns), b)
  }

  /** Every connection id is in one phase only. */
  ghost predicate OnePhase(h: Hub) {
    h.conns.Keys !! h.connecting.Keys !! h.removing.Keys !! h.lowered
  }

  ghost predicate Agree(h: Hub) {
    && OnePhase(h)
    && (forall b :: !IsNullOrWhiteSpace(b) ==>
         CountOf(h, b) == |Listed(h, b)| + |Ids(h.connecting, b)| + |Ids(h.removing, b)|)
    && (forall b :: IsNullOrWhiteSpace(b) ==> b !in h.counts)
  }

  lemma IdsAdd(m: map<string, string>, id: string, b: string, c: string)
    requires id !in m
    ensures |Ids(m[id := b], c)| == |Ids(m, c)| + if b == c then 1 else 0
  {
    assert Ids(m[id := b], c) == Ids(m, c) + if b == c then {id} else {};
  }

  lemma IdsDrop(m: map<string, string>, id: string, c: string)
    requires id in m
    ensures |Ids(m - {id}, c)| == |Ids(m, c)| - if m[id] == c then 1 else 0
  {
    assert Ids(m - {id}, c) == Ids(m, c) - {id};
    assert m[id] == c ==> id in Ids(m, c);
  }

  lemma BranchesAdd(conns: map<string, Info>, id: string, i: Info)
    ensures Branches(conns[id := i]) == Branches(conns)[id := i.branchId]
    ensures Branches(conns - {id}) == Branches(conns) - {id}
  {}

  lemma StepKeepsAgree(h: Hub, e: Event)
    requires Agree(h) && Enabled(h, e)
    ensures Agree(Step(h, e))
  {
    var t := Step(h, e);
    forall b | !IsNullOrWhiteSpace(b)
      ensures CountOf(t, b) == |Listed(t, b)| + |Ids(t.connecting, b)| + |Ids(t.removing, b)|
    {
      StepKeepsCount(h, e, b);
    }
  }

  lemma StepKeepsCount(h: Hub, e: Event, b: string)
    requires Agree(h) && Enabled(h, e) && !IsNullOrWhiteSpace(b)
    ensures var t := Step(h, e);
            CountOf(t, b) == |Listed(t, b)| + |Ids(t.connecting, b)| + |Ids(t.removing, b)|
  {
    match e
    case Count(id, c) => IdsAdd(h.connecting, id, c, b);
    case Insert(id, user, now) =>
      var c := h.connecting[id];
      BranchesAdd(h.conns, id, Info(c, user, now));
      IdsAdd(Branches(h.conns), id, c, b);
      IdsDrop(h.connecting, id, b);
    case Remove(id) =>
      if id in h.conns {
        BranchesAdd(h.conns, id, h.conns[id]);
        IdsDrop(Branches(h.conns), id, b);
        IdsAdd(h.removing, id, h.conns[id].branchId, b);
      }
    case Lower(id) =>
      IdsDrop(h.removing, id, b);
  }

  /** When a connection is uncounted its branch has a positive count, so the clamp at 0 and the
      value for a missing key never matter, and the id has not been uncounted before. */
  lemma ClampIsIdle(h: Hub, id: string)
    requires Agree(h) && id in h.removing && !IsNullOrWhiteSpace(h.removing[id])
    ensures var b := h.removing[id];
            && b in h.counts && h.counts[b] >= 1
            && Step(h, Lower(id)).counts[b] == h.counts[b] - 1
            && id !in h.lowered
  {
    var b := h.removing[id];
    assert id in Ids(h.removing, b);
    assert |Ids(h.removing, b)| >= 1;
    assert CountOf(h, b) >= 1;
  }

  /** A whole disconnect leaves no trace in the handlers' phases. */
  lemma RemoveThenLower(h: Hub, id: string)
    requires Agree(h) && id in h.conns
    ensures var t := Step(Step(h, Remove(id)), Lower(id));
            Agree(t) && t.conns == h.conns - {id} && t.connecting == h.connecting && t.removing == h.removing
  {
    var h1 := Step(h, Remove(id));
    StepKeepsAgree(h, Remove(id));
    StepKeepsAgree(h1, Lower(id));
    assert id !in h.removing;
    assert h1.removing - {id} == h.removing;
  }

  // ----- Runs -----

  predicate Possible(h: Hub, events: seq<Event>)
    decreases |events|
  {
    events == [] || (Enabled(h, events[0]) && Possible(Step(h, events[0]), events[1..]))
  }

  function Run(h: Hub, events: seq<Event>): Hub
    requires Possible(h, events)
    decreases |events|
  {
    if events == [] then h else Run(Step(h, events[0]), events[1..])
  }

  /** Under every interleaving of connects, disconnects and cleanups the count of a branch is its
      map entries plus connects on their way in plus removals on their way out. */
  lemma {:induction false} RunKeepsAgree(h: Hub, events: seq<Event>)
    requires Agree(h) && Possible(h, events)
    ensures Agree(Run(h, events))
    decreases |events|
  {
    if events != [] {
      StepKeepsAgree(h, events[0]);
      RunKeepsAgree(Step(h, events[0]), events[1..]);
    }
  }

  lemma CountsAgree(events: seq<Event>)
    requires Possible(EMPTY, events)
    ensures Agree(Run(EMPTY, events))
  {
    forall b ensures Listed(EMPTY, b) == {} && Ids(EMPTY.connecting, b) == {} && Ids(EMPTY.removing, b) == {} {
    }
    RunKeepsAgree(EMPTY, events);
  }

  function Lowerings(events: seq<Event>, id: string): nat {
    if events == [] then 0 else (if events[0] == Lower(id) then 1 else 0) + Lowerings(events[1..], id)
  }

  /** Over a whole run every connection is uncounted at most once, and never once it is `lowered`. */
  lemma {:induction false} LoweredAtMostOnce(h: Hub, events: seq<Event>, id: string)
    requires Agree(h) && Possible(h, events)
    ensures Lowerings(events, id) <= if id in h.lowered then 0 else 1
    decreases |events|
  {
    if events != [] {
      StepKeepsAgree(h, events[0]);
      LoweredAtMostOnce(Step(h, events[0]), events[1..], id);
      if events[0] != Lower(id) && id in h.lowered {
        assert id in Step(h, events[0]).lowered;
      }
    }
  }

  /** The published count is the number of map entries exactly when nothing of the branch is in
      between. */
  lemma CountIsListedIff(h: Hub, b: string)
    requires Agree(h) && !IsNullOrWhiteSpace(b)
    ensures CountOf(h, b) == |Listed(h, b)| <==>
            (forall id :: id in h.connecting ==> h.connecting[id] != b) &&
            (forall id :: id in h.removing ==> h.removing[id] != b)
  {
    NoIdsIff(h.connecting, b);
    NoIdsIff(h.removing, b);
    assert CountOf(h, b) == |Listed(h, b)| <==> |Ids(h.connecting, b)| == 0 && |Ids(h.removing, b)| == 0;
  }

  /** A connect that was counted and then failed leaves the count too high: its removal finds no
      entry, so nothing ever lowers it. */
  lemma FailedConnectStaysCounted()
    ensures var events := [Count("id", "b"), Remove("id")];
            && Possible(EMPTY, events)
            && var h := Run(EMPTY, events); CountOf(h, "b") == 1 && Listed(h, "b") == {}
  {
    var events := [Count("id", "b"), Remove("id")];
    var h := Step(EMPTY, events[0]);
    assert !IsSpace("b"[0]);
    assert events[1..] == [Remove("id")] && [Remove("id")][1..] == [];
    assert Possible(h, [Remove("id")]) && Step(h, Remove("id")) == h;
    assert Run(EMPTY, events) == h;
  }

  lemma NoIdsIff(m: map<string, string>, b: string)
    ensures |Ids(m, b)| == 0 <==> forall id :: id in m ==> m[id] != b
  {
    if |Ids(m, b)| == 0 {
      forall id | id in m ensures m[id] != b {
        assert id !in Ids(m, b);
      }
    } else {
      var id :| id in Ids(m, b);
    }
  }

  // ----- The hub object -----

  class Connections {
    var connectionMap: map<string, Info>
    var branchConnectionCount: map<string, int>
    ghost var connecting: map<string, string>
    ghost var removing: map<string, string>
    ghost var lowered: set<string>

    ghost function Model(): Hub
      reads this
    {
      Hub(connectionMap, branchConnectionCount, connecting, removing, lowered)
    }

    constructor ()
      ensures Model() == EMPTY
    {
      connectionMap, branchConnectionCount := map[], map[];
      connecting, removing, lowered := map[], map[], {};
    }

    /** First half of `OnConnectedAsync`. */
    method CountConnect(id: string, branchId: string)
      requires id !in Used(Model())
      modifies this
      ensures Model() == Step(old(Model()), Count(id, branchId))
      ensures connecting == old(connecting)[id := branchId] && connectionMap == old(connectionMap)
    {
      if !IsNullOrWhiteSpace(branchId) {
        var count := if branchId in branchConnectionCount then branchConnectionCount[branchId] + 1 else 1;
        branchConnectionCount := branchConnectionCount[branchId := count];
      }
      connecting := connecting[id := branchId];
    }

    /** Second half of `OnConnectedAsync`. */
    method InsertConnect(id: string, branchId: string, userId: string, now: int)
      requires id in connecting && connecting[id] == branchId
      modifies this
      ensures Model() == Step(old(Model()), Insert(id, userId, now))
      ensures connectionMap == old(connectionMap)[id := Info(branchId, userId, now)]
    {
      connectionMap := connectionMap[id := Info(branchId, userId, now)];
      connecting := connecting - {id};
    }

    /** `ConnectionMap.TryRemove`. */
    method TryRemove(id: string) returns (info: Option<Info>)
      modifies this
      ensures info == if id in old(connectionMap) then Some(old(connectionMap[id])) else None
      ensures Model() == Step(old(Model()), Remove(id))
    {
      if id in connectionMap {
        info := Some(connectionMap[id]);
        connectionMap := connectionMap - {id};
        removing := removing[id := info.value.branchId];
      } else {
        info := None;
      }
    }

    /** What follows a removal in `OnDisconnectedAsync` and in the cleanup. */
    method LowerCount(ghost id: string, branchId: string)
      requires id in removing && removing[id] == branchId
      modifies this
      ensures Model() == Step(old(Model()), Lower(id))
    {
      if !IsNullOrWhiteSpace(branchId) {
        var count := if branchId in branchConnectionCount then Max(0, branchConnectionCount[branchId] - 1) else 0;
        branchConnectionCount := branchConnectionCount[branchId := count];
      }
      removing := removing - {id};
      lowered := lowered + {id};
    }

    /** A connection that was entered no earlier than the threshold outlives a cleanup that follows. */
    method YoungSurvives(id: string, branchId: string, userId: string, now: int, staleThreshold: int)
      requires Agree(Model()) && id in connecting && connecting[id] == branchId && staleThreshold <= now
      modifies this
      ensures Agree(Model()) && id in connectionMap && connectionMap[id] == Info(branchId, userId, now)
    {
      StepKeepsAgree(Model(), Insert(id, userId, now));
      InsertConnect(id, branchId, userId, now);
      CleanupStaleConnections(staleThreshold);
    }

    /** `OnDisconnectedAsync` with nothing in between. */
    method Disconnect(id: string)
      requires Agree(Model())
      modifies this
      ensures Agree(Model())
      ensures connectionMap == old(connectionMap) - {id}
      ensures connecting == old(connecting) && removing == old(removing)
    {
      if id in connectionMap {
        RemoveThenLower(Model(), id);
      } else {
        assert connectionMap == connectionMap - {id};
      }
      var info := TryRemove(id);
      if info.Some? {
        LowerCount(id, info.value.branchId);
      }
    }

    /** The cleanup timer with nothing in between: it removes exactly the connections that are
        older than the threshold, and the counts still agree. */
    method CleanupStaleConnections(staleThreshold: int)
      requires Agree(Model())
      modifies this
      ensures Agree(Model())
      ensures connectionMap ==
              map id | id in old(connectionMap) && old(connectionMap)[id].connectedAt >= staleThreshold ::
                old(connectionMap)[id]
      ensures connecting == old(connecting) && removing == old(removing)
    {
      var staleConnections := set id | id in connectionMap && connectionMap[id].connectedAt < staleThreshold;
      var rest := staleConnections;
      while rest != {}
        invariant rest <= staleConnections
        invariant Agree(Model())
        invariant connectionMap == old(connectionMap) - (staleConnections - rest)
        invariant connecting == old(connecting) && removing == old(removing)
      {
        var connId :| connId in rest;
        Disconnect(connId);
        rest := rest - {connId};
        assert staleConnections - rest == (staleConnections - (rest + {connId})) + {connId};
      }
      assert staleConnections - {} == staleConnections;
    }
  }
}
