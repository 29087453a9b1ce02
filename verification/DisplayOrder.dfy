/** The render queue keeps the order of the calls, loses no wake-up and settles `flush`. */
module DisplayOrder {
  import opened Canvases
  import opened Basics
  import opened DisplayModel

  // ----- The queue holds back work only behind a picture that is not ready -----

  predicate Blocked(d: State) {
    d.queue == [] || !Ready(d.queue[0], d.ready)
  }

  predicate PromiseNeedsQueue(d: State) {
    d.flushPending ==> d.queue != []
  }

  /** `d'` follows `d` and the head of its queue, if any, is a picture that is not ready; a flush
      promise that was pending, or was just asked for, is pending exactly while the queue is not empty. */
  ghost predicate Settled(d: State, asked: bool, d': State) {
    && Blocked(d') && PromiseNeedsQueue(d')
    && d'.flushPending == ((d.flushPending || asked) && d'.queue != [])
  }

  lemma DrawAllAppend(s: Screen, xs: seq<Action>, ys: seq<Action>)
    ensures DrawAll(s, xs + ys) == DrawAll(DrawAll(s, xs), ys)
    decreases |xs|
  {
    if xs == [] {
      assert xs + ys == ys;
    } else {
      assert (xs + ys)[0] == xs[0] && (xs + ys)[1..] == xs[1..] + ys;
      DrawAllAppend(Draw(s, xs[0]), xs[1..], ys);
    }
  }

  /** From state `d`, with `more` called on top of its queue, `d'` has executed exactly `done`, in
      order, and still queues the rest. */
  ghost predicate Executes(d: State, more: seq<Action>, done: seq<Action>, d': State) {
    d.queue + more == done + d'.queue && d'.screen == DrawAll(d.screen, done)
  }

  ghost predicate InOrder(d: State, more: seq<Action>, d': State) {
    exists done :: Executes(d, more, done, d')
  }

  lemma InOrderIfSame(d: State, d': State)
    requires d'.queue == d.queue && d'.screen == d.screen
    ensures InOrder(d, [], d')
  {
    assert Executes(d, [], [], d');
  }

  lemma {:induction false} InOrderTrans(d: State, xs: seq<Action>, d1: State, ys: seq<Action>, d2: State)
    requires InOrder(d, xs, d1) && InOrder(d1, ys, d2)
    ensures InOrder(d, xs + ys, d2)
  {
    var done1 :| Executes(d, xs, done1, d1);
    var done2 :| Executes(d1, ys, done2, d2);
    assert d.queue + (xs + ys) == (d.queue + xs) + ys == (done1 + done2) + d2.queue by {
      assert (done1 + d1.queue) + ys == done1 + (d1.queue + ys);
    }
    DrawAllAppend(d.screen, done1, done2);
    assert Executes(d, xs + ys, done1 + done2, d2);
  }

  lemma {:induction false} ScanOrder(d: State)
    ensures InOrder(d, [], Scanned(d))
    decreases |d.queue|
  {
    if d.queue == [] || !Ready(d.queue[0], d.ready) {
      InOrderIfSame(d, Scanned(d));
    } else {
      var d1 := d.(screen := Draw(d.screen, d.queue[0]), queue := d.queue[1..]);
      ScanOrder(d1);
      assert DrawAll(d.screen, [d.queue[0]]) == DrawAll(d1.screen, []) by {
        assert [d.queue[0]][1..] == [];
      }
      assert Executes(d, [], [d.queue[0]], d1);
      InOrderTrans(d, [], d1, [], Scanned(d));
    }
  }

  /** A scan executes more of what is in order already. */
  lemma ScanStaysInOrder(d: State, xs: seq<Action>, d1: State)
    requires InOrder(d, xs, d1)
    ensures InOrder(d, xs, Scanned(d1))
  {
    ScanOrder(d1);
    InOrderTrans(d, xs, d1, [], Scanned(d1));
    assert xs + [] == xs;
  }

  lemma {:induction false} ScanSettles(d: State)
    ensures var d' := Scanned(d);
            && Blocked(d') && d'.ready == d.ready
            && d'.flushPending == (d.flushPending && d'.queue != [])
    decreases |d.queue|
  {
    if d.queue != [] && Ready(d.queue[0], d.ready) {
      ScanSettles(d.(screen := Draw(d.screen, d.queue[0]), queue := d.queue[1..]));
    }
  }

  lemma SubmitOrder(d: State, a: Action)
    ensures InOrder(d, [a], Submitted(d, a))
  {
    var d1 := d.(queue := d.queue + [a]);
    if d.queue != [] || Waits(a) {
      assert Executes(d, [a], [], d1);
      if d.queue == [] {
        ScanStaysInOrder(d, [a], d1);
      }
    } else {
      assert [a][1..] == [];
      assert DrawAll(d.screen, [a]) == DrawAll(Draw(d.screen, a), []);
      assert Executes(d, [a], [a], Submitted(d, a));
    }
  }

  lemma SubmitSettles(d: State, a: Action)
    requires Blocked(d) && PromiseNeedsQueue(d)
    ensures Settled(d, false, Submitted(d, a))
  {
    ScanSettles(d.(queue := d.queue + [a]));
  }

  // ----- Viewport calls only add flips behind what is queued -----

  ghost predicate OnlyAddsFlips(d: State, d': State) {
    && (d.queue == [] ==> d'.queue == [])
    && |d.queue| <= |d'.queue| && d'.queue[..|d.queue|] == d.queue
    && (forall k :: |d.queue| <= k < |d'.queue| ==> d'.queue[k] == Flip)
    && d'.ready == d.ready && d'.flushPending == d.flushPending
  }

  lemma ReshowAddsFlip(d: State)
    ensures OnlyAddsFlips(d, Reshown(d))
  {}

  lemma MoveAddsFlips(d: State, dx: real, dy: real)
    ensures OnlyAddsFlips(d, PosChanged(d, dx, dy))
  {
    ReshowAddsFlip(d.(screen := d.screen.(vp := Slid(d.screen, dx.Floor, dy.Floor))));
  }

  lemma AddsFlipsTrans(d: State, d1: State, d2: State)
    requires OnlyAddsFlips(d, d1) && OnlyAddsFlips(d1, d2)
    ensures OnlyAddsFlips(d, d2)
  {
    assert d2.queue[..|d.queue|] == d2.queue[..|d1.queue|][..|d.queue|];
    forall k | |d.queue| <= k < |d2.queue| ensures d2.queue[k] == Flip {
      if k < |d1.queue| {
        assert d2.queue[k] == d2.queue[..|d1.queue|][k];
      }
    }
  }

  lemma SizeAddsFlips(d: State, width: Option<real>, height: Option<real>)
    requires NonNegative(width) && NonNegative(height)
    ensures OnlyAddsFlips(d, SizeChanged(d, width, height))
  {
    var s := d.screen;
    var (w, h) := WantedSize(s, width, height);
    if s.vp.w != w || s.vp.h != h {
      var sized := d.(screen := s.(vp := s.vp.(w := w, h := h), vis := Blank(w, h)));
      MoveAddsFlips(sized, 0.0, 0.0);
      ReshowAddsFlip(PosChanged(sized, 0.0, 0.0));
      AddsFlipsTrans(d, PosChanged(sized, 0.0, 0.0), SizeChanged(d, width, height));
    }
  }

  lemma ReadjustAddsFlips(d: State)
    ensures OnlyAddsFlips(d, Readjusted(d))
  {
    var vp := d.screen.vp;
    var w, h := Some(vp.w as real), Some(vp.h as real);
    SizeAddsFlips(d, w, h);
    MoveAddsFlips(SizeChanged(d, w, h), 0.0, 0.0);
    AddsFlipsTrans(d, SizeChanged(d, w, h), Readjusted(d));
  }

  // ----- Every step -----

  lemma FlipsSettle(d: State, d': State)
    requires Blocked(d) && PromiseNeedsQueue(d) && OnlyAddsFlips(d, d')
    ensures Settled(d, false, d')
  {
    if d.queue != [] {
      assert d'.queue[0] == d'.queue[..|d.queue|][0] == d.queue[0];
    }
  }

  lemma ViewportSettles(d: State, e: Event)
    requires e.Valid() && Blocked(d) && PromiseNeedsQueue(d)
    requires e.MoveViewport? || e.SizeViewport? || e.SetClip? || e.Resize?
    ensures Settled(d, false, Step(d, e))
  {
    match e
    case MoveViewport(dx, dy) => MoveAddsFlips(d, dx, dy); FlipsSettle(d, PosChanged(d, dx, dy));
    case SizeViewport(w, h) => SizeAddsFlips(d, w, h); FlipsSettle(d, SizeChanged(d, w, h));
    case SetClip(clip) =>
      var c := d.(screen := d.screen.(clip := clip));
      ReadjustAddsFlips(c);
      FlipsSettle(c, Readjusted(c));
    case Resize(w, h) =>
      var r := d.(screen := BackResized(d.screen, w, h));
      ReadjustAddsFlips(r);
      FlipsSettle(r, Readjusted(r));
  }

  /** No wake-up is lost and no flush promise is forgotten, whatever is called or becomes ready. */
  lemma StepSettles(d: State, e: Event)
    requires e.Valid() && Blocked(d) && PromiseNeedsQueue(d)
    ensures Settled(d, e.Flush?, Step(d, e))
  {
    match e
    case Call(a) => SubmitSettles(d, a);
    case BlitCall(x, y, w, h, buffer, start) => SubmitSettles(d, BlitAction(d, x, y, w, h, buffer, start));
    case Load(id) => LoadSettles(d, id);
    case Flush =>
    case _ => ViewportSettles(d, e);
  }

  predicate Wakes(d: State, id: nat) {
    d.queue != [] && AwaitsAt(d.queue[0], d.ready) == Some(id)
  }

  lemma LoadOrder(d: State, id: nat)
    ensures InOrder(d, [], Loaded(d, id))
  {
    var d1 := d.(ready := d.ready + {id});
    InOrderIfSame(d, d1);
    if Wakes(d, id) {
      ScanStaysInOrder(d, [], d1);
      assert Loaded(d, id) == Scanned(d1);
    } else {
      assert Loaded(d, id) == d1;
    }
  }

  lemma LoadSettles(d: State, id: nat)
    requires Blocked(d) && PromiseNeedsQueue(d)
    ensures Settled(d, false, Loaded(d, id))
  {
    var d1 := d.(ready := d.ready + {id});
    if Wakes(d, id) {
      ScanSettles(d1);
    }
  }

  lemma {:induction false} RunSettles(d: State, events: seq<Event>)
    requires AllValid(events) && Blocked(d) && PromiseNeedsQueue(d)
    ensures Blocked(Run(d, events)) && PromiseNeedsQueue(Run(d, events))
    decreases |events|
  {
    if events != [] {
      StepSettles(d, events[0]);
      RunSettles(Step(d, events[0]), events[1..]);
    }
  }

  // ----- Call order -----

  /** The drawing a caller asked for. */
  function Asked(e: Event): seq<Action>
    requires e.Valid()
  {
    match e
    case Call(Img(img, x, y, w, h)) => if w == 0 || h == 0 then [] else [Img(img, x, y, w, h)]
    case Call(a) => [a]
    case BlitCall(x, y, w, h, buffer, start) => [Blit(x, y, w, h, buffer[start..start + w * h * 4])]
    case _ => []
  }

  function AskedAll(events: seq<Event>): seq<Action>
    requires AllValid(events)
    decreases |events|
  {
    if events == [] then [] else Asked(events[0]) + AskedAll(events[1..])
  }

  /** Drawing calls and readiness events, with blits that a queued copy would not distort. */
  predicate DrawingEvent(e: Event)
    requires e.Valid()
  {
    match e
    case BlitCall(_, _, w, h, buffer, start) => buffer[..w * h * 4] == buffer[start..start + w * h * 4]
    case _ => e.Call? || e.Load? || e.Flush?
  }

  /** A queued blit draws what was asked exactly when the bytes at offset 0 are the asked ones. */
  lemma BlitAsAskedIff(d: State, x: int, y: int, w: nat, h: nat, buffer: seq<Byte>, start: nat)
    requires start + w * h * 4 <= |buffer|
    ensures [BlitAction(d, x, y, w, h, buffer, start)] == Asked(BlitCall(x, y, w, h, buffer, start)) <==>
            d.queue == [] || buffer[..w * h * 4] == buffer[start..start + w * h * 4]
  {
    assert buffer[0..0 + w * h * 4] == buffer[..w * h * 4];
  }

  /** A blit of one pixel at offset 4 that has to wait draws the pixel at offset 0. */
  lemma QueuedBlitLosesOffset(d: State)
    requires d.queue != []
    ensures var buffer: seq<Byte> := [1, 1, 1, 255, 2, 2, 2, 255];
            && Asked(BlitCall(0, 0, 1, 1, buffer, 4)) == [Blit(0, 0, 1, 1, [2, 2, 2, 255])]
            && BlitAction(d, 0, 0, 1, 1, buffer, 4) == Blit(0, 0, 1, 1, [1, 1, 1, 255])
  {
    var buffer: seq<Byte> := [1, 1, 1, 255, 2, 2, 2, 255];
    assert buffer[0..4] == [1, 1, 1, 255] && buffer[4..8] == [2, 2, 2, 255];
  }

  lemma BlitOrder(d: State, e: Event)
    requires e.Valid() && e.BlitCall? && DrawingEvent(e)
    ensures InOrder(d, Asked(e), Step(d, e))
  {
    BlitAsAskedIff(d, e.x, e.y, e.w, e.h, e.buffer, e.start);
    SubmitOrder(d, Asked(e)[0]);
  }

  lemma StepOrder(d: State, e: Event)
    requires e.Valid() && DrawingEvent(e)
    ensures InOrder(d, Asked(e), Step(d, e))
  {
    match e
    case Call(a) =>
      if a.Img? && (a.w == 0 || a.h == 0) { InOrderIfSame(d, d); } else { SubmitOrder(d, a); }
    case BlitCall(_, _, _, _, _, _) => BlitOrder(d, e);
    case Load(id) => LoadOrder(d, id);
    case Flush => InOrderIfSame(d, Step(d, e));
  }

  /** For every interleaving of drawing calls with readiness events, the screen is the sequential
      execution of a prefix of the calls and the queue is the rest of them. */
  lemma {:induction false} RunOrder(d: State, events: seq<Event>)
    requires AllValid(events) && forall k :: 0 <= k < |events| ==> DrawingEvent(events[k])
    ensures InOrder(d, AskedAll(events), Run(d, events))
    decreases |events|
  {
    if events == [] {
      InOrderIfSame(d, d);
    } else {
      var d1 := Step(d, events[0]);
      StepOrder(d, events[0]);
      RunOrder(d1, events[1..]);
      InOrderTrans(d, Asked(events[0]), d1, AskedAll(events[1..]), Run(d, events));
    }
  }

  /** Once every picture asked for is loaded with its announced size, everything has been drawn, in
      the order of the calls, and no flush promise is pending. */
  lemma AllDrawnOnceLoaded(d: State, events: seq<Event>)
    requires AllValid(events) && forall k :: 0 <= k < |events| ==> DrawingEvent(events[k])
    requires d.queue == [] && !d.flushPending
    requires forall a :: a in AskedAll(events) ==> Ready(a, Run(d, events).ready)
    ensures var d' := Run(d, events);
            d'.queue == [] && !d'.flushPending && d'.screen == DrawAll(d.screen, AskedAll(events))
  {
    var d' := Run(d, events);
    var all := AskedAll(events);
    RunOrder(d, events);
    QueueWasAsked(d, all, d');
    RunSettles(d, events);
  }

  lemma QueueWasAsked(d: State, all: seq<Action>, d': State)
    requires d.queue == [] && InOrder(d, all, d')
    ensures forall k :: 0 <= k < |d'.queue| ==> d'.queue[k] in all
    ensures d'.queue == [] ==> d'.screen == DrawAll(d.screen, all)
  {
    var done :| Executes(d, all, done, d');
    SuffixIn(d.queue, all, done, d'.queue);
  }

  lemma SuffixIn(none: seq<Action>, all: seq<Action>, done: seq<Action>, rest: seq<Action>)
    requires none == [] && none + all == done + rest
    ensures forall k :: 0 <= k < |rest| ==> rest[k] in all
    ensures rest == [] ==> all == done
  {
    assert none + all == all;
    assert forall k :: 0 <= k < |rest| ==> all[|done| + k] == rest[k];
  }
}
