/** Resumable download of one file of at most 2 GB.

    What happens outside is a plan: which operations throw, how much each read delivers, where a
    write is torn, the token is signalled or the process dies, and what a closed stream loses. The
    methods compute what the functions say for every plan. The remote file does not change. */
module Download {
  import opened Basics

  const MAX_RETRIES := 3
  const MASSIVE_FILE_THRESHOLD := 1024 * 1024 * 1024 * 2

  /** Writing at a position past the end leaves zeros in between. */
  function WriteAt(file: seq<Byte>, pos: nat, data: seq<Byte>): seq<Byte> {
    var before := if pos <= |file| then file[..pos] else file + seq(pos - |file|, _ => 0);
    before + data + if pos + |data| <= |file| then file[pos + |data|..] else []
  }

  /** The file after an attempt wrote remote[from..to]; opening alone changes nothing. */
  function Written(file: seq<Byte>, remote: seq<Byte>, from: nat, to: nat): seq<Byte>
    requires from <= to <= |remote|
  {
    if to == from then file else WriteAt(file, from, remote[from..to])
  }

  /** Where a run starts: at the end of what is there, unless that is too long. */
  function StartOffset(had: seq<Byte>, remote: seq<Byte>): (s: nat)
    ensures s <= |had| && s <= |remote|
  {
    if |had| > |remote| then 0 else |had|
  }

  /** What was there, with the remote bytes from the start of the run up to m over it. */
  function Mixed(had: seq<Byte>, remote: seq<Byte>, m: nat): seq<Byte>
    requires StartOffset(had, remote) <= m <= |remote|
  {
    var start := StartOffset(had, remote);
    had[..start] + remote[start..m] + if m <= |had| then had[m..] else []
  }

  lemma MixedStart(had: seq<Byte>, remote: seq<Byte>)
    ensures Mixed(had, remote, StartOffset(had, remote)) == had
  {}

  lemma MixedLength(had: seq<Byte>, remote: seq<Byte>, m: nat)
    requires StartOffset(had, remote) <= m <= |remote|
    ensures |Mixed(had, remote, m)| == if m <= |had| then |had| else m
  {}

  /** Writing the remote bytes from any offset that was reached extends the mixture. */
  lemma MixedWrite(had: seq<Byte>, remote: seq<Byte>, m: nat, from: nat, to: nat)
    requires StartOffset(had, remote) <= from <= m <= |remote| && from <= to <= |remote|
    ensures WriteAt(Mixed(had, remote, m), from, remote[from..to]) == Mixed(had, remote, if to > m then to else m)
  {
    var start := StartOffset(had, remote);
    var n := if to > m then to else m;
    var x, y := WriteAt(Mixed(had, remote, m), from, remote[from..to]), Mixed(had, remote, n);
    MixedLength(had, remote, m);
    MixedLength(had, remote, n);
    assert |x| == |y|;
    forall k | 0 <= k < |x| ensures x[k] == y[k] {
      MixedAt(had, remote, m, k);
      MixedAt(had, remote, n, k);
    }
  }

  lemma MixedAt(had: seq<Byte>, remote: seq<Byte>, m: nat, k: nat)
    requires StartOffset(had, remote) <= m <= |remote|
    ensures k < |Mixed(had, remote, m)| ==>
              Mixed(had, remote, m)[k] ==
              if StartOffset(had, remote) <= k < m then remote[k] else if k < |had| then had[k] else 0
  {}

  /** A run that copies to the end yields the remote file exactly when what was there before was a
      prefix of it: a longer or different file keeps its own bytes. */
  lemma CompleteIff(had: seq<Byte>, remote: seq<Byte>)
    ensures Mixed(had, remote, |remote|) == remote <==> had <= remote
  {
    var x := Mixed(had, remote, |remote|);
    MixedLength(had, remote, |remote|);
    if had <= remote {
      assert x == had + remote[|had|..];
    } else if x == remote {
      assert |had| <= |remote|;
      forall k | 0 <= k < |had| ensures had[k] == remote[k] {
        MixedAt(had, remote, |remote|, k);
      }
    }
  }

  lemma MixedIsPrefix(had: seq<Byte>, remote: seq<Byte>, m: nat)
    requires had <= remote && |had| <= m <= |remote|
    ensures Mixed(had, remote, m) == remote[..m]
  {
    assert remote[..m] == remote[..|had|] + remote[|had|..m];
  }

  lemma WrittenIsMixed(before: seq<Byte>, remote: seq<Byte>, m: nat, from: nat, to: nat)
    requires StartOffset(before, remote) <= from <= m <= |remote| && from <= to <= |remote|
    ensures Written(Mixed(before, remote, m), remote, from, to) == Mixed(before, remote, if to > m then to else m)
  {
    MixedWrite(before, remote, m, from, to);
  }

  // ----- What happens outside -----

  datatype Write = Whole | Torn(part: nat)

  /** One round of the copying loop; `reported` is false if publishing the progress throws. */
  datatype Read = TokenSignalled | ReadThrows | NoBytes | Chunk(n: nat, write: Write, reported: bool)

  /** The process dies after the bytes up to `kept` reached the disk, before or after publishing. */
  datatype Crash = Crash(kept: nat, published: bool)

  /** One attempt: whether the local file and the remote stream open, the rounds of the loop, whether
      the log of success works, a crash, up to where the bytes reach the disk when closing loses
      some, whether closing works, and then the delay and the reconnect before the next attempt. */
  datatype Plan = Plan(opens: bool, streams: bool, rounds: seq<Read>, logs: bool, crash: Option<Crash>,
                       lost: Option<nat>, closes: bool, waits: bool, reconnects: bool)

  /** A run: whether it gets a connection, and its attempts. */
  datatype RunPlan = RunPlan(connects: bool, plans: seq<Plan>)

  predicate Complete(run: RunPlan) {
    |run.plans| == MAX_RETRIES
  }

  // ----- What a download makes of it -----

  datatype Note = FileNotFound | AlreadyDownloaded | Completed | Cancelled | Failed

  /** How an attempt or a run ends; a crash ends the process. */
  datatype End = Finished | Aborted | Threw | Crashed

  /** A note sent to the server and the file, unwritten buffers included, at that moment. */
  datatype Sent = Sent(note: Note, file: seq<Byte>)

  /** How far the loop came, and how far a last, torn write got. */
  datatype Progress = Progress(end: End, offset: nat, written: nat)

  datatype Outcome = Outcome(end: End, offset: nat, local: Option<seq<Byte>>, sent: seq<Sent>)

  function Least(a: nat, b: nat): nat {
    if a < b then a else b
  }

  function Within(low: nat, k: nat, high: nat): (r: nat)
    requires low <= high
    ensures low <= r <= high
  {
    if k < low then low else Least(k, high)
  }

  function FileOf(local: Option<seq<Byte>>): seq<Byte> {
    if local.Some? then local.value else []
  }

  /** The copying loop; a plan that ends too early stands for a read that throws. */
  function Transferred(size: nat, offset: nat, rounds: seq<Read>): (p: Progress)
    requires offset <= size
    ensures offset <= p.offset <= p.written <= size
    ensures p.end == Finished ==> p.written == p.offset
    decreases |rounds|
  {
    if offset == size then Progress(Finished, offset, offset)
    else if rounds == [] then Progress(Threw, offset, offset)
    else
      match rounds[0]
      case TokenSignalled => Progress(Aborted, offset, offset)
      case ReadThrows => Progress(Threw, offset, offset)
      case NoBytes => Progress(Finished, offset, offset)
      case Chunk(n, write, reported) =>
        var k := Least(n, size - offset);
        if k == 0 then Progress(Finished, offset, offset)
        else if write.Torn? then Progress(Threw, offset, offset + Least(write.part, k))
        else if !reported then Progress(Threw, offset + k, offset + k)
        else Transferred(size, offset + k, rounds[1..])
  }

  function Attempted(local: Option<seq<Byte>>, remote: seq<Byte>, initial: nat, p: Plan): (o: Outcome)
    requires initial <= |remote|
    ensures initial <= o.offset <= |remote|
  {
    if !p.opens then Outcome(Threw, initial, local, [])
    else
      var file := FileOf(local);
      if !p.streams then Outcome(Threw, initial, Some(file), [])
      else
        var t := Transferred(|remote|, initial, p.rounds);
        var end := if t.end == Finished && !p.logs then Threw else t.end;
        var notes := if end == Finished then [Sent(Completed, Written(file, remote, initial, t.written))] else [];
        if p.crash.Some? then
          var kept := Within(initial, p.crash.value.kept, t.written);
          Outcome(Crashed, initial, Some(Written(file, remote, initial, kept)),
                  if p.crash.value.published then notes else [])
        else
          var kept := if p.lost.Some? then Within(initial, p.lost.value, t.written) else t.written;
          Outcome(if p.closes then end else Threw, t.offset, Some(Written(file, remote, initial, kept)), notes)
  }

  /** `DownloadFileWithResumeAsync` with these attempts left. */
  function Resumed(local: Option<seq<Byte>>, remote: seq<Byte>, offset: nat, plans: seq<Plan>): (o: Outcome)
    requires offset <= |remote| && plans != []
    ensures offset <= o.offset <= |remote|
    decreases |plans|
  {
    var o := Attempted(local, remote, offset, plans[0]);
    if o.end != Threw || |plans| == 1 then o
    else if !plans[0].waits then o.(end := Aborted)
    else if !plans[0].reconnects then o
    else
      var r := Resumed(o.local, remote, o.offset, plans[1..]);
      r.(sent := o.sent + r.sent)
  }

  /** `DownloadFileAsync`. */
  function Downloaded(local: Option<seq<Byte>>, source: Option<seq<Byte>>, run: RunPlan): Outcome
    requires Complete(run)
  {
    var had := FileOf(local);
    if !run.connects then Outcome(Threw, 0, local, [Sent(Failed, had)])
    else if source.None? then Outcome(Finished, 0, local, [Sent(FileNotFound, had)])
    else
      var remote := source.value;
      if |had| == |remote| && |remote| > 0 then Outcome(Finished, |had|, local, [Sent(AlreadyDownloaded, had)])
      else
        var o := Resumed(local, remote, StartOffset(had, remote), run.plans);
        var file := FileOf(o.local);
        if o.end == Aborted then o.(sent := o.sent + [Sent(Cancelled, file)])
        else if o.end == Threw then o.(sent := o.sent + [Sent(Failed, file)])
        else o
  }

  // ----- Runs in which no closed stream loses bytes -----

  predicate Lossless(p: Plan) {
    p.lost == None
  }

  /** Reads deliver bytes until the remote file is at its end. */
  predicate Steady(p: Plan) {
    forall k :: 0 <= k < |p.rounds| ==> !p.rounds[k].NoBytes? && (p.rounds[k].Chunk? ==> p.rounds[k].n > 0)
  }

  lemma {:induction false} SteadyTransferFinishes(size: nat, offset: nat, p: Plan, rounds: seq<Read>)
    requires offset <= size && Steady(p.(rounds := rounds)) && Transferred(size, offset, rounds).end == Finished
    ensures Transferred(size, offset, rounds).offset == size
    decreases |rounds|
  {
    if offset < size {
      assert rounds[0] == p.(rounds := rounds).rounds[0];
      var k := Least(rounds[0].n, size - offset);
      SteadyTransferFinishes(size, offset + k, p, rounds[1..]);
    }
  }

  /** What one run has made of the file that was there before: the remote bytes up to m over it, and
      the loop has come to `offset`. */
  ghost predicate Reached(before: seq<Byte>, remote: seq<Byte>, file: seq<Byte>, offset: nat, m: nat) {
    StartOffset(before, remote) <= offset <= m <= |remote| && file == Mixed(before, remote, m)
  }

  /** Remote bytes from the start of the run over what was there, to the end if reads are steady. */
  ghost predicate IsMixture(file: seq<Byte>, before: seq<Byte>, remote: seq<Byte>, steady: bool) {
    exists m: nat :: StartOffset(before, remote) <= m <= |remote| && file == Mixed(before, remote, m) &&
                     (steady ==> m == |remote|)
  }

  /** Success is only reported of such a mixture. */
  ghost predicate OnlyCompletions(sent: seq<Sent>, before: seq<Byte>, remote: seq<Byte>, steady: bool) {
    forall k :: 0 <= k < |sent| ==> sent[k].note == Completed && IsMixture(sent[k].file, before, remote, steady)
  }

  lemma AttemptExtends(local: Option<seq<Byte>>, before: seq<Byte>, remote: seq<Byte>, initial: nat, m: nat, p: Plan,
                       steady: bool)
    returns (m': nat)
    requires Reached(before, remote, FileOf(local), initial, m) && Lossless(p) && (steady ==> Steady(p))
    ensures Extends(Attempted(local, remote, initial, p), before, remote, m', steady)
  {
    var o, t := Attempted(local, remote, initial, p), Transferred(|remote|, initial, p.rounds);
    AttemptOutcome(local, remote, initial, p);
    if steady && t.end == Finished {
      SteadyTransferFinishes(|remote|, initial, p, p.rounds);
    }
    m' := ResultExtends(o, t, FileOf(local), before, remote, initial, m, p, steady);
  }

  lemma ResultExtends(o: Outcome, t: Progress, file: seq<Byte>, before: seq<Byte>, remote: seq<Byte>, initial: nat,
                      m: nat, p: Plan, steady: bool)
    returns (m': nat)
    requires IsResult(o, t, file, remote, initial, p) && Reached(before, remote, file, initial, m)
    requires steady && t.end == Finished ==> t.offset == t.written == |remote|
    ensures Extends(o, before, remote, m', steady)
  {
    var to := if p.crash.Some? then Within(initial, p.crash.value.kept, t.written) else t.written;
    m' := if p.opens && p.streams && to > m then to else m;
    AttemptWrites(before, remote, initial, m, t.written);
    AttemptWrites(before, remote, initial, m, to);
    NoteIsCompletion(o.sent, before, remote, if t.written > m then t.written else m, steady);
  }

  lemma NoteIsCompletion(sent: seq<Sent>, before: seq<Byte>, remote: seq<Byte>, m: nat, steady: bool)
    requires StartOffset(before, remote) <= m <= |remote|
    requires sent == [] || (sent == [Sent(Completed, Mixed(before, remote, m))] && (steady ==> m == |remote|))
    ensures OnlyCompletions(sent, before, remote, steady)
  {}

  /** The file, the offset and the notes of an attempt that loses nothing. */
  lemma AttemptOutcome(local: Option<seq<Byte>>, remote: seq<Byte>, initial: nat, p: Plan)
    requires initial <= |remote| && Lossless(p)
    ensures IsResult(Attempted(local, remote, initial, p), Transferred(|remote|, initial, p.rounds), FileOf(local),
                     remote, initial, p)
  {}

  ghost predicate IsResult(o: Outcome, t: Progress, file: seq<Byte>, remote: seq<Byte>, initial: nat, p: Plan) {
    && initial <= t.offset <= t.written <= |remote|
    && var to := if p.crash.Some? then Within(initial, p.crash.value.kept, t.written) else t.written;
    && FileOf(o.local) == (if p.opens && p.streams then Written(file, remote, initial, to) else file)
    && initial <= o.offset <= (if p.opens && p.streams then to else initial)
    && (o.end == Finished ==> t.end == Finished && o.offset == t.offset)
    && (o.sent == [] ||
        (t.end == Finished && o.sent == [Sent(Completed, Written(file, remote, initial, t.written))]))
  }

  lemma AttemptWrites(before: seq<Byte>, remote: seq<Byte>, initial: nat, m: nat, to: nat)
    requires StartOffset(before, remote) <= initial <= m <= |remote| && initial <= to <= |remote|
    ensures Written(Mixed(before, remote, m), remote, initial, to) == Mixed(before, remote, if to > m then to else m)
  {
    WrittenIsMixed(before, remote, m, initial, to);
  }

  ghost predicate AllLossless(plans: seq<Plan>) {
    forall k :: 0 <= k < |plans| ==> Lossless(plans[k])
  }

  ghost predicate AllSteady(plans: seq<Plan>) {
    forall k :: 0 <= k < |plans| ==> Steady(plans[k])
  }

  /** What a resumed download has come to. */
  ghost predicate Extends(o: Outcome, before: seq<Byte>, remote: seq<Byte>, m: nat, steady: bool) {
    && Reached(before, remote, FileOf(o.local), o.offset, m)
    && OnlyCompletions(o.sent, before, remote, steady)
    && (steady && o.end == Finished ==> o.offset == |remote|)
  }

  lemma ExtendsAfter(o: Outcome, r: Outcome, before: seq<Byte>, remote: seq<Byte>, m: nat, steady: bool)
    requires Extends(r, before, remote, m, steady) && OnlyCompletions(o.sent, before, remote, steady)
    ensures Extends(r.(sent := o.sent + r.sent), before, remote, m, steady)
  {}

  lemma {:induction false} ResumeExtends(local: Option<seq<Byte>>, before: seq<Byte>, remote: seq<Byte>, offset: nat,
                                         m: nat, plans: seq<Plan>, steady: bool)
    returns (m': nat)
    requires Reached(before, remote, FileOf(local), offset, m) && AllLossless(plans) && (steady ==> AllSteady(plans))
    requires plans != []
    ensures Extends(Resumed(local, remote, offset, plans), before, remote, m', steady)
    decreases |plans|
  {
    var p := plans[0];
    m' := AttemptExtends(local, before, remote, offset, m, p, steady);
    var o := Attempted(local, remote, offset, p);
    if o.end == Threw && |plans| > 1 && p.waits && p.reconnects {
      m' := ResumeExtends(o.local, before, remote, o.offset, m', plans[1..], steady);
      ExtendsAfter(o, Resumed(o.local, remote, o.offset, plans[1..]), before, remote, m', steady);
    } else {
      ExtendsAnyway(o, before, remote, m', steady);
    }
  }

  lemma ExtendsAnyway(o: Outcome, before: seq<Byte>, remote: seq<Byte>, m: nat, steady: bool)
    requires Extends(o, before, remote, m, steady)
    ensures Extends(o.(end := Aborted), before, remote, m, steady)
  {}

  predicate IsSuccess(n: Note) {
    n == Completed || n == AlreadyDownloaded
  }

  /** The resumed download of a whole run, in terms of what was there before it. */
  lemma StartExtends(local: Option<seq<Byte>>, remote: seq<Byte>, plans: seq<Plan>) returns (m: nat)
    requires |plans| == MAX_RETRIES && AllLossless(plans)
    ensures var had := FileOf(local);
            Extends(Resumed(local, remote, StartOffset(had, remote), plans), had, remote, m, AllSteady(plans))
  {
    var had := FileOf(local);
    MixedStart(had, remote);
    var start := StartOffset(had, remote);
    m := ResumeExtends(local, had, remote, start, start, plans, AllSteady(plans));
  }

  /** However a run ends, and even if reads stop early, a prefix of the remote file stays one. */
  lemma RunKeepsPrefix(local: Option<seq<Byte>>, remote: seq<Byte>, run: RunPlan)
    requires Complete(run) && AllLossless(run.plans) && FileOf(local) <= remote
    ensures FileOf(Downloaded(local, Some(remote), run).local) <= remote
  {
    var m := StartExtends(local, remote, run.plans);
    ResumedOrNot(local, remote, run);
    MixedIsPrefix(FileOf(local), remote, m);
  }

  /** If reads do not stop early either, success is reported of exactly the remote bytes, and a
      finished run leaves them, if and only if the run began with a prefix of them. */
  lemma RunIsTruthfulIff(local: Option<seq<Byte>>, remote: seq<Byte>, run: RunPlan)
    requires Complete(run) && AllLossless(run.plans) && AllSteady(run.plans)
    ensures var o := Downloaded(local, Some(remote), run);
            && Truthful(o.sent, FileOf(local), remote)
            && (o.end == Finished ==> (FileOf(o.local) == remote <==> FileOf(local) <= remote))
  {
    var had := FileOf(local);
    var m := StartExtends(local, remote, run.plans);
    var o := Resumed(local, remote, StartOffset(had, remote), run.plans);
    TruthOfMixed(o, had, remote, m);
    SameLength(had, remote);
    FailureAppended(o.sent, Sent(Cancelled, FileOf(o.local)), had, remote);
    FailureAppended(o.sent, Sent(Failed, FileOf(o.local)), had, remote);
  }

  ghost predicate Truthful(sent: seq<Sent>, had: seq<Byte>, remote: seq<Byte>) {
    forall k :: 0 <= k < |sent| && IsSuccess(sent[k].note) ==> (sent[k].file == remote <==> had <= remote)
  }

  /** However the reads end, the file and every file that success is reported of are the remote one
      if and only if the run began with a prefix of it and the length is right. */
  lemma RunIsWholeIff(local: Option<seq<Byte>>, remote: seq<Byte>, run: RunPlan)
    requires Complete(run) && AllLossless(run.plans)
    ensures var o, had := Downloaded(local, Some(remote), run), FileOf(local);
            WholeIff(FileOf(o.local), had, remote) && SuccessesWholeIff(o.sent, had, remote)
  {
    var had := FileOf(local);
    var m := StartExtends(local, remote, run.plans);
    var o := Resumed(local, remote, StartOffset(had, remote), run.plans);
    MixedIsWholeIff(had, remote, m);
    CompletionsWholeIff(o.sent, had, remote, AllSteady(run.plans));
    FailureAppendedToWhole(o.sent, Sent(Cancelled, FileOf(o.local)), had, remote);
    FailureAppendedToWhole(o.sent, Sent(Failed, FileOf(o.local)), had, remote);
  }

  ghost predicate SuccessesWholeIff(sent: seq<Sent>, had: seq<Byte>, remote: seq<Byte>) {
    forall k :: 0 <= k < |sent| && IsSuccess(sent[k].note) ==> WholeIff(sent[k].file, had, remote)
  }

  lemma FailureAppendedToWhole(sent: seq<Sent>, note: Sent, had: seq<Byte>, remote: seq<Byte>)
    requires SuccessesWholeIff(sent, had, remote) && !IsSuccess(note.note)
    ensures SuccessesWholeIff(sent + [note], had, remote)
  {}

  lemma CompletionsWholeIff(sent: seq<Sent>, had: seq<Byte>, remote: seq<Byte>, steady: bool)
    requires OnlyCompletions(sent, had, remote, steady)
    ensures SuccessesWholeIff(sent, had, remote)
  {
    forall k | 0 <= k < |sent| ensures WholeIff(sent[k].file, had, remote) {
      MixtureIsWholeIff(sent[k].file, had, remote, steady);
    }
  }

  lemma MixtureIsWholeIff(file: seq<Byte>, had: seq<Byte>, remote: seq<Byte>, steady: bool)
    requires IsMixture(file, had, remote, steady)
    ensures WholeIff(file, had, remote)
  {
    var m: nat :| StartOffset(had, remote) <= m <= |remote| && file == Mixed(had, remote, m);
    MixedIsWholeIff(had, remote, m);
  }

  ghost predicate WholeIff(file: seq<Byte>, had: seq<Byte>, remote: seq<Byte>) {
    file == remote <==> had <= remote && |file| == |remote|
  }

  lemma MixedIsWholeIff(had: seq<Byte>, remote: seq<Byte>, m: nat)
    requires StartOffset(had, remote) <= m <= |remote|
    ensures WholeIff(Mixed(had, remote, m), had, remote)
  {
    MixedLength(had, remote, m);
    CompleteIff(had, remote);
  }

  /** With no torn write the length is the offset reached: a finished run, whose stream may have
      ended early, is right if and only if it began with a prefix and came to the end. */
  lemma FinishedIsWholeIff(local: Option<seq<Byte>>, remote: seq<Byte>, run: RunPlan)
    requires Complete(run) && AllLossless(run.plans) && AllUntorn(run.plans)
    ensures var o := Downloaded(local, Some(remote), run);
            o.end == Finished ==> (FileOf(o.local) == remote <==> FileOf(local) <= remote && o.offset == |remote|)
  {
    RunIsWholeIff(local, remote, run);
    if |FileOf(local)| <= |remote| {
      ResumeReachesLength(local, remote, |FileOf(local)|, run.plans);
    }
  }

  predicate Untorn(rounds: seq<Read>) {
    forall k :: 0 <= k < |rounds| && rounds[k].Chunk? ==> rounds[k].write == Whole
  }

  ghost predicate AllUntorn(plans: seq<Plan>) {
    forall k :: 0 <= k < |plans| ==> Untorn(plans[k].rounds)
  }

  lemma {:induction false} UntornTransfer(size: nat, offset: nat, rounds: seq<Read>)
    requires offset <= size && Untorn(rounds)
    ensures Transferred(size, offset, rounds).written == Transferred(size, offset, rounds).offset
    decreases |rounds|
  {
    if offset < size && rounds != [] && rounds[0].Chunk? {
      UntornTransfer(size, offset + Least(rounds[0].n, size - offset), rounds[1..]);
    }
  }

  lemma AttemptReachesLength(local: Option<seq<Byte>>, remote: seq<Byte>, p: Plan)
    requires |FileOf(local)| <= |remote| && Lossless(p) && Untorn(p.rounds)
    ensures var o := Attempted(local, remote, |FileOf(local)|, p);
            o.end != Crashed ==> |FileOf(o.local)| == o.offset
  {
    UntornTransfer(|remote|, |FileOf(local)|, p.rounds);
  }

  lemma {:induction false} ResumeReachesLength(local: Option<seq<Byte>>, remote: seq<Byte>, offset: nat,
                                               plans: seq<Plan>)
    requires |FileOf(local)| == offset <= |remote| && AllLossless(plans) && AllUntorn(plans)
    requires plans != []
    ensures var o := Resumed(local, remote, offset, plans);
            o.end == Finished ==> |FileOf(o.local)| == o.offset
    decreases |plans|
  {
    var p := plans[0];
    AttemptReachesLength(local, remote, p);
    var o := Attempted(local, remote, offset, p);
    if o.end == Threw && |plans| > 1 && p.waits && p.reconnects {
      ResumeReachesLength(o.local, remote, o.offset, plans[1..]);
    }
  }

  lemma FailureAppended(sent: seq<Sent>, note: Sent, had: seq<Byte>, remote: seq<Byte>)
    requires Truthful(sent, had, remote) && !IsSuccess(note.note)
    ensures Truthful(sent + [note], had, remote)
  {}

  lemma SameLength(had: seq<Byte>, remote: seq<Byte>)
    ensures |had| == |remote| ==> (had == remote <==> had <= remote)
  {}

  lemma TruthOfMixed(o: Outcome, had: seq<Byte>, remote: seq<Byte>, m: nat)
    requires Extends(o, had, remote, m, true)
    ensures Truthful(o.sent, had, remote)
    ensures o.end == Finished ==> (FileOf(o.local) == remote <==> had <= remote)
  {
    CompleteIff(had, remote);
  }

  /** What a finished run leaves: the rest of the remote file behind what was there, or the whole
      of it over the beginning of what was longer. */
  lemma FinishedFile(local: Option<seq<Byte>>, remote: seq<Byte>, run: RunPlan)
    requires Complete(run) && AllLossless(run.plans) && AllSteady(run.plans)
    ensures var o, had := Downloaded(local, Some(remote), run), FileOf(local);
            o.end == Finished ==>
              FileOf(o.local) == if |had| > |remote| then remote + had[|remote|..] else had + remote[|had|..]
  {
    FinishedMixture(local, remote, run);
    WholeMixture(FileOf(local), remote);
  }

  lemma FinishedMixture(local: Option<seq<Byte>>, remote: seq<Byte>, run: RunPlan)
    requires Complete(run) && AllLossless(run.plans) && AllSteady(run.plans)
    ensures var o := Downloaded(local, Some(remote), run);
            o.end == Finished ==> FileOf(o.local) == Mixed(FileOf(local), remote, |remote|)
  {
    var had := FileOf(local);
    var m := StartExtends(local, remote, run.plans);
    ResumedOrNot(local, remote, run);
    FinishedExtends(Resumed(local, remote, StartOffset(had, remote), run.plans), had, remote, m);
    MixedStart(had, remote);
  }

  /** A run with a remote file either leaves the local one alone or is a resumed download. */
  lemma ResumedOrNot(local: Option<seq<Byte>>, remote: seq<Byte>, run: RunPlan)
    requires Complete(run)
    ensures var d, had := Downloaded(local, Some(remote), run), FileOf(local);
            var o := Resumed(local, remote, StartOffset(had, remote), run.plans);
            || (d.local == local && (d.end == Finished ==> |had| == |remote|))
            || (d.local == o.local && d.end == o.end)
  {}

  lemma FinishedExtends(o: Outcome, had: seq<Byte>, remote: seq<Byte>, m: nat)
    requires Extends(o, had, remote, m, true)
    ensures o.end == Finished ==> FileOf(o.local) == Mixed(had, remote, |remote|)
  {}

  lemma WholeMixture(had: seq<Byte>, remote: seq<Byte>)
    ensures Mixed(had, remote, |remote|) ==
            if |had| > |remote| then remote + had[|remote|..] else had + remote[|had|..]
  {}

  // ----- What the notes say -----

  function Notes(sent: seq<Sent>): seq<Note> {
    seq(|sent|, k requires 0 <= k < |sent| => sent[k].note)
  }

  ghost predicate OnlyCompleted(sent: seq<Sent>) {
    forall k :: 0 <= k < |sent| ==> sent[k].note == Completed
  }

  lemma AttemptedNotes(local: Option<seq<Byte>>, remote: seq<Byte>, initial: nat, p: Plan)
    requires initial <= |remote|
    ensures var o := Attempted(local, remote, initial, p);
            OnlyCompleted(o.sent) && (o.end == Finished ==> o.sent != [])
  {}

  lemma MoreCompleted(a: seq<Sent>, b: seq<Sent>)
    ensures OnlyCompleted(a) && OnlyCompleted(b) ==> OnlyCompleted(a + b)
  {}

  lemma {:induction false} ResumedNotes(local: Option<seq<Byte>>, remote: seq<Byte>, offset: nat, plans: seq<Plan>)
    requires offset <= |remote| && plans != []
    ensures var o := Resumed(local, remote, offset, plans);
            OnlyCompleted(o.sent) && (o.end == Finished ==> o.sent != [])
    decreases |plans|
  {
    var p := plans[0];
    var o := Attempted(local, remote, offset, p);
    AttemptedNotes(local, remote, offset, p);
    if o.end == Threw && |plans| > 1 && p.waits && p.reconnects {
      MoreCompleted(o.sent, Resumed(o.local, remote, o.offset, plans[1..]).sent);
      ResumedNotes(o.local, remote, o.offset, plans[1..]);
    }
  }

  /** The last note tells how a run ended, and nothing else does: FileNotFound if and only if there
      is a connection and no remote file, AlreadyDownloaded if and only if the sizes agree, Cancelled
      if and only if the run was aborted, and Failed if and only if it threw. Before the last note,
      and after a crash, there are only reports of completed attempts. */
  lemma NotesTellEnd(local: Option<seq<Byte>>, source: Option<seq<Byte>>, run: RunPlan)
    requires Complete(run)
    ensures var o := Downloaded(local, source, run);
            var notes := Notes(o.sent);
            && (FileNotFound in notes <==> run.connects && source == None)
            && (AlreadyDownloaded in notes <==>
                run.connects && source.Some? && |FileOf(local)| == |source.value| && |source.value| > 0)
            && (Cancelled in notes <==> o.end == Aborted) && (Failed in notes <==> o.end == Threw)
            && (o.end == Finished ==>
                 notes != [] && notes[|notes| - 1] in {FileNotFound, AlreadyDownloaded, Completed})
            && (o.end in {Aborted, Threw} ==> notes != [] && notes[|notes| - 1] in {Cancelled, Failed})
            && (forall k :: 0 <= k < |notes| - 1 ==> notes[k] == Completed)
  {
    if run.connects && source.Some? && !(|FileOf(local)| == |source.value| && |source.value| > 0) {
      var remote := source.value;
      var o := Resumed(local, remote, StartOffset(FileOf(local), remote), run.plans);
      ResumedNotes(local, remote, StartOffset(FileOf(local), remote), run.plans);
      LastNote(o.sent, Sent(Cancelled, FileOf(o.local)));
      LastNote(o.sent, Sent(Failed, FileOf(o.local)));
      CompletedNotes(o.sent);
    } else {
      var o := Downloaded(local, source, run);
      assert Notes(o.sent) == [o.sent[0].note];
    }
  }

  lemma LastNote(sent: seq<Sent>, last: Sent)
    requires OnlyCompleted(sent)
    ensures var notes := Notes(sent + [last]);
            && |notes| == |sent| + 1 && notes[|sent|] == last.note
            && (forall k :: 0 <= k < |sent| ==> notes[k] == Completed)
            && (forall n :: n in notes ==> n == Completed || n == last.note) && last.note in notes
  {}

  lemma CompletedNotes(sent: seq<Sent>)
    requires OnlyCompleted(sent)
    ensures forall n :: n in Notes(sent) ==> n == Completed
  {}

  /** Without a remote file, or a connection, a run changes nothing and reports no success. */
  lemma NothingToDownload(local: Option<seq<Byte>>, source: Option<seq<Byte>>, run: RunPlan)
    requires Complete(run) && (source == None || !run.connects)
    ensures var o := Downloaded(local, source, run);
            && o.local == local
            && o.sent == [Sent(if run.connects then FileNotFound else Failed, FileOf(local))]
            && forall k :: 0 <= k < |o.sent| ==> !IsSuccess(o.sent[k].note)
  {}

  // ----- Any number of runs -----

  datatype History = History(local: Option<seq<Byte>>, sent: seq<Sent>)

  function RunAll(local: Option<seq<Byte>>, source: Option<seq<Byte>>, runs: seq<RunPlan>): History
    requires forall k :: 0 <= k < |runs| ==> Complete(runs[k])
  {
    if runs == [] then History(local, [])
    else
      var h := RunAll(local, source, runs[..|runs| - 1]);
      var o := Downloaded(h.local, source, runs[|runs| - 1]);
      History(o.local, h.sent + o.sent)
  }

  /** Starting with no file, over any number of runs, crashes, short reads, torn writes and retries
      the local file is always a prefix of the remote one. */
  lemma {:induction false} RunsKeepPrefix(remote: seq<Byte>, runs: seq<RunPlan>)
    requires forall k :: 0 <= k < |runs| ==> Complete(runs[k]) && AllLossless(runs[k].plans)
    ensures FileOf(RunAll(None, Some(remote), runs).local) <= remote
  {
    if runs != [] {
      RunsKeepPrefix(remote, runs[..|runs| - 1]);
      RunKeepsPrefix(RunAll(None, Some(remote), runs[..|runs| - 1]).local, remote, runs[|runs| - 1]);
    }
  }

  /** And success is never reported of anything but the whole of it. */
  lemma {:induction false} RunsAreTruthful(remote: seq<Byte>, runs: seq<RunPlan>)
    requires forall k :: 0 <= k < |runs| ==> Complete(runs[k]) && AllLossless(runs[k].plans) && AllSteady(runs[k].plans)
    ensures var h := RunAll(None, Some(remote), runs);
            forall k :: 0 <= k < |h.sent| && IsSuccess(h.sent[k].note) ==> h.sent[k].file == remote
  {
    if runs != [] {
      var earlier := RunAll(None, Some(remote), runs[..|runs| - 1]);
      RunsAreTruthful(remote, runs[..|runs| - 1]);
      RunsKeepPrefix(remote, runs[..|runs| - 1]);
      RunIsTruthfulIff(earlier.local, remote, runs[|runs| - 1]);
    }
  }

  // ----- Runs in which something is lost -----

  const CALM := Plan(true, true, [], true, None, None, true, true, true)

  function Reading(n: nat): seq<Read> {
    [Chunk(n, Whole, true)]
  }

  /** Closing loses the bytes from `kept` on after a read threw; the next attempt starts where the
      loop had come, and completes. */
  function LossyRun(kept: nat, to: nat, size: nat): RunPlan {
    RunPlan(true, [CALM.(rounds := Reading(to) + [ReadThrows], lost := Some(kept)),
                   CALM.(rounds := Reading(size)), CALM])
  }

  lemma FirstLossyAttempt(remote: seq<Byte>, kept: nat, to: nat)
    requires kept < to < |remote|
    ensures Attempted(None, remote, 0, LossyRun(kept, to, |remote|).plans[0]) ==
            Outcome(Threw, to, Some(remote[..kept]), [])
  {
    var rounds := Reading(to) + [ReadThrows];
    assert rounds[1..] == [ReadThrows];
    assert Transferred(|remote|, to, [ReadThrows]) == Progress(Threw, to, to);
    assert Transferred(|remote|, 0, rounds) == Progress(Threw, to, to);
    assert Written([], remote, 0, kept) == remote[..kept];
  }

  lemma SecondLossyAttempt(remote: seq<Byte>, kept: nat, to: nat)
    requires kept < to < |remote|
    ensures var file := WriteAt(remote[..kept], to, remote[to..]);
            Attempted(Some(remote[..kept]), remote, to, LossyRun(kept, to, |remote|).plans[1]) ==
            Outcome(Finished, |remote|, Some(file), [Sent(Completed, file)])
  {
    assert Reading(|remote|)[1..] == [];
    assert Transferred(|remote|, to, Reading(|remote|)) == Progress(Finished, |remote|, |remote|);
    assert remote[to..|remote|] == remote[to..];
  }

  lemma SecondAttemptEnds(local: Option<seq<Byte>>, remote: seq<Byte>, offset: nat, plans: seq<Plan>)
    requires offset <= |remote| && |plans| > 1 && plans[0].waits && plans[0].reconnects
    requires var o := Attempted(local, remote, offset, plans[0]);
             o.end == Threw && Attempted(o.local, remote, o.offset, plans[1]).end != Threw
    ensures var o := Attempted(local, remote, offset, plans[0]);
            var second := Attempted(o.local, remote, o.offset, plans[1]);
            Resumed(local, remote, offset, plans) == second.(sent := o.sent + second.sent)
  {
    assert plans[1..][0] == plans[1];
  }

  /** Then success is reported, and the file is the remote one if and only if the lost bytes were
      all zeros, which is what the gap is filled with. */
  lemma LostTailIff(remote: seq<Byte>, kept: nat, to: nat)
    requires kept < to < |remote|
    ensures var o := Downloaded(None, Some(remote), LossyRun(kept, to, |remote|));
            && o.end == Finished && o.sent == [Sent(Completed, FileOf(o.local))]
            && (FileOf(o.local) == remote <==> forall k :: kept <= k < to ==> remote[k] == 0)
  {
    FirstLossyAttempt(remote, kept, to);
    SecondLossyAttempt(remote, kept, to);
    SecondAttemptEnds(None, remote, 0, LossyRun(kept, to, |remote|).plans);
    var file := WriteAt(remote[..kept], to, remote[to..]);
    assert [] + [Sent(Completed, file)] == [Sent(Completed, file)];
    assert |file| == |remote|;
    forall k | 0 <= k < |remote| ensures file[k] == if kept <= k < to then 0 else remote[k] {
    }
    if forall k :: kept <= k < to ==> remote[k] == 0 {
      assert file == remote;
    } else {
      var k :| kept <= k < to && remote[k] != 0;
      assert file[k] == 0;
    }
  }

  /** Closing loses the end of a finished download: success is reported of the whole file, and the
      disk holds less. */
  lemma TruncatedRun(remote: seq<Byte>, kept: nat)
    requires kept < |remote|
    ensures var run := RunPlan(true, [CALM.(rounds := Reading(|remote|), lost := Some(kept)), CALM, CALM]);
            Downloaded(None, Some(remote), run) ==
            Outcome(Finished, |remote|, Some(remote[..kept]), [Sent(Completed, remote)])
  {
    assert Reading(|remote|)[1..] == [];
    assert Transferred(|remote|, 0, Reading(|remote|)) == Progress(Finished, |remote|, |remote|);
    assert Written([], remote, 0, kept) == remote[..kept];
    assert Written([], remote, 0, |remote|) == remote;
  }

  /** A read that delivers nothing too early ends the loop, and success is reported of a part. */
  lemma EarlyEndRun(remote: seq<Byte>, part: nat)
    requires 0 < part < |remote|
    ensures var run := RunPlan(true, [CALM.(rounds := Reading(part) + [NoBytes]), CALM, CALM]);
            Downloaded(None, Some(remote), run) ==
            Outcome(Finished, part, Some(remote[..part]), [Sent(Completed, remote[..part])])
  {
    var rounds := Reading(part) + [NoBytes];
    assert rounds[1..] == [NoBytes];
    assert Transferred(|remote|, part, [NoBytes]) == Progress(Finished, part, part);
    assert Transferred(|remote|, 0, rounds) == Progress(Finished, part, part);
    assert Written([], remote, 0, part) == remote[..part];
  }

  /** Two attempts whose file cannot be opened do not keep the third from completing; three end the
      run as failed. */
  lemma ThreeAttempts(remote: seq<Byte>)
    requires remote != []
    ensures var refused := CALM.(opens := false);
            && Downloaded(None, Some(remote), RunPlan(true, [refused, refused, CALM.(rounds := Reading(|remote|))])) ==
               Outcome(Finished, |remote|, Some(remote), [Sent(Completed, remote)])
            && Downloaded(None, Some(remote), RunPlan(true, [refused, refused, refused])) ==
               Outcome(Threw, 0, None, [Sent(Failed, [])])
  {
    var refused, good := CALM.(opens := false), CALM.(rounds := Reading(|remote|));
    assert Reading(|remote|)[1..] == [];
    assert Transferred(|remote|, 0, Reading(|remote|)) == Progress(Finished, |remote|, |remote|);
    assert Written([], remote, 0, |remote|) == remote;
    TwoRefused(remote, [refused, refused, good]);
    TwoRefused(remote, [refused, refused, refused]);
  }

  lemma TwoRefused(remote: seq<Byte>, plans: seq<Plan>)
    requires |plans| == 3 && plans[0] == plans[1] == CALM.(opens := false)
    ensures Resumed(None, remote, 0, plans) == Resumed(None, remote, 0, plans[2..])
  {
    OneRefused(remote, plans);
    OneRefused(remote, plans[1..]);
    assert plans[1..][1..] == plans[2..];
  }

  lemma OneRefused(remote: seq<Byte>, plans: seq<Plan>)
    requires |plans| > 1 && plans[0] == CALM.(opens := false)
    ensures Resumed(None, remote, 0, plans) == Resumed(None, remote, 0, plans[1..])
  {
    var r := Resumed(None, remote, 0, plans[1..]);
    assert Attempted(None, remote, 0, plans[0]) == Outcome(Threw, 0, None, []);
    assert [] + r.sent == r.sent;
  }

  /** A signalled token ends the run without another attempt. */
  lemma SignalledRun(remote: seq<Byte>, later: Plan)
    requires remote != []
    ensures Downloaded(None, Some(remote), RunPlan(true, [CALM.(rounds := [TokenSignalled]), later, later])) ==
            Outcome(Aborted, 0, Some([]), [Sent(Cancelled, [])])
  {
    assert Transferred(|remote|, 0, [TokenSignalled]) == Progress(Aborted, 0, 0);
    assert [] + [Sent(Cancelled, [])] == [Sent(Cancelled, [])];
  }

  /** So does one that is signalled during the delay; and a reconnect that fails ends it as failed. */
  lemma NoFurtherAttempt(remote: seq<Byte>, later: Plan)
    requires remote != []
    ensures var refused := CALM.(opens := false);
            && Downloaded(None, Some(remote), RunPlan(true, [refused.(waits := false), later, later])) ==
               Outcome(Aborted, 0, None, [Sent(Cancelled, [])])
            && Downloaded(None, Some(remote), RunPlan(true, [refused.(reconnects := false), later, later])) ==
               Outcome(Threw, 0, None, [Sent(Failed, [])])
  {
    assert [] + [Sent(Cancelled, [])] == [Sent(Cancelled, [])] && [] + [Sent(Failed, [])] == [Sent(Failed, [])];
  }

  /** An older local file that is shorter but different keeps its own bytes under a reported success. */
  lemma OldBytesSurvive()
    ensures var run := RunPlan(true, [CALM.(rounds := Reading(1)), CALM, CALM]);
            Downloaded(Some([9]), Some([1, 2]), run) == Outcome(Finished, 2, Some([9, 2]), [Sent(Completed, [9, 2])])
  {
    var remote: seq<Byte> := [1, 2];
    assert Reading(1)[1..] == [];
    assert Transferred(2, 1, Reading(1)) == Progress(Finished, 2, 2);
    assert Written([9], remote, 1, 2) == [9, 2];
  }

  // ----- The downloader -----

  function After(notes: seq<Sent>, o: Outcome): Outcome {
    o.(sent := notes + o.sent)
  }

  lemma WithNotes(o: Outcome, none: seq<Sent>)
    requires none == []
    ensures After(none, o) == o
  {
    assert none + o.sent == o.sent;
  }

  /** One attempt taken off the front of what is left of a run. */
  lemma ResumeRound(local: Option<seq<Byte>>, remote: seq<Byte>, offset: nat, plans: seq<Plan>,
                    notes: seq<Sent>)
    requires offset <= |remote| && plans != []
    ensures var o, p := Attempted(local, remote, offset, plans[0]), plans[0];
            After(notes, Resumed(local, remote, offset, plans)) ==
            if o.end != Threw || |plans| == 1 then After(notes, o)
            else if !p.waits then After(notes, o.(end := Aborted))
            else if !p.reconnects then After(notes, o)
            else After(notes + o.sent, Resumed(o.local, remote, o.offset, plans[1..]))
  {
    var o := Attempted(local, remote, offset, plans[0]);
    if o.end == Threw && |plans| > 1 && plans[0].waits && plans[0].reconnects {
      Associate(notes, o.sent, Resumed(o.local, remote, o.offset, plans[1..]).sent);
    }
  }

  class Downloader {
    var local: Option<seq<Byte>>
    ghost var sent: seq<Sent>

    constructor (local: Option<seq<Byte>>)
      ensures this.local == local && sent == []
    {
      this.local, sent := local, [];
    }

    method Publish(note: Note, ghost file: seq<Byte>)
      modifies this`sent
      ensures sent == old(sent) + [Sent(note, file)]
    {
      sent := sent + [Sent(note, file)];
    }

    /** The read and write loop of an attempt. */
    method Transfer(size: nat, initial: nat, rounds: seq<Read>) returns (end: End, offset: nat, written: nat)
      requires initial <= size
      ensures Progress(end, offset, written) == Transferred(size, initial, rounds)
    {
      offset, end := initial, Finished;
      var round := 0;
      while offset < size
        invariant offset <= size && round <= |rounds|
        invariant Transferred(size, initial, rounds) == Transferred(size, offset, rounds[round..])
        decreases |rounds| - round
      {
        if round == |rounds| {
          return Threw, offset, offset;
        }
        var read := rounds[round];
        if read.TokenSignalled? {
          return Aborted, offset, offset;
        }
        if read.ReadThrows? {
          return Threw, offset, offset;
        }
        var bytesRead := if read.NoBytes? then 0 else Least(read.n, size - offset);
        if bytesRead <= 0 {
          break;
        }
        if read.write.Torn? {
          return Threw, offset, offset + Least(read.write.part, bytesRead);
        }
        offset := offset + bytesRead;
        if !read.reported {
          return Threw, offset, offset;
        }
        assert rounds[round..][1..] == rounds[round + 1..];
        round := round + 1;
      }
      written := offset;
    }

    /** One attempt, from `initial` on. `Completed` is published before the stream is closed. */
    method Attempt(remote: seq<Byte>, initial: nat, p: Plan) returns (end: End, offset: nat)
      requires initial <= |remote|
      modifies this
      ensures var o := Attempted(old(local), remote, initial, p);
              end == o.end && offset == o.offset && local == o.local && sent == old(sent) + o.sent
    {
      offset := initial;
      if !p.opens {
        return Threw, initial;
      }
      if local.None? {
        local := Some([]);
      }
      if !p.streams {
        return Threw, initial;
      }
      var file := local.value;
      var written;
      end, offset, written := Transfer(|remote|, initial, p.rounds);
      if end == Finished && !p.logs {
        end := Threw;
      }
      var published := p.crash.None? || p.crash.value.published;
      if end == Finished && published {
        Publish(Completed, Written(file, remote, initial, written));
      }
      if p.crash.Some? {
        local := Some(Written(file, remote, initial, Within(initial, p.crash.value.kept, written)));
        return Crashed, initial;
      }
      var kept := if p.lost.Some? then Within(initial, p.lost.value, written) else written;
      local := Some(Written(file, remote, initial, kept));
      if !p.closes {
        end := Threw;
      }
    }

    /** `DownloadFileWithResumeAsync`: up to three attempts, each from the offset reached so far. */
    method DownloadFileWithResume(remote: seq<Byte>, initialOffset: nat, plans: seq<Plan>) returns (end: End)
      requires initialOffset <= |remote| && |plans| == MAX_RETRIES
      modifies this
      ensures var o := Resumed(old(local), remote, initialOffset, plans);
              end == o.end && local == o.local && sent == old(sent) + o.sent
    {
      var attempt: nat := 0;
      var offset: nat := initialOffset;
      ghost var start := local;
      ghost var notes: seq<Sent> := [];
      WithNotes(Resumed(local, remote, offset, plans), []);
      assert plans[attempt..] == plans;
      while attempt < MAX_RETRIES
        invariant attempt < MAX_RETRIES && offset <= |remote| && sent == old(sent) + notes
        invariant Resumed(start, remote, initialOffset, plans) ==
                  After(notes, Resumed(local, remote, offset, plans[attempt..]))
        decreases MAX_RETRIES - attempt
      {
        var p := plans[attempt];
        ghost var before, reached, left := local, offset, plans[attempt..];
        attempt := attempt + 1;
        end, offset := Attempt(remote, offset, p);
        ghost var o := Attempted(before, remote, reached, p);
        assert left[0] == p && left[1..] == plans[attempt..];
        ResumeRound(before, remote, reached, left, notes);
        Associate(old(sent), notes, o.sent);
        notes := notes + o.sent;
        if end != Threw || attempt >= MAX_RETRIES || !p.waits || !p.reconnects {
          if end == Threw && attempt < MAX_RETRIES && !p.waits {
            end := Aborted;
          }
          return;
        }
      }
      assert false;
    }

    /** `DownloadFileAsync`. */
    method DownloadFile(source: Option<seq<Byte>>, run: RunPlan) returns (end: End)
      requires source.Some? ==> |source.value| <= MASSIVE_FILE_THRESHOLD
      requires Complete(run)
      modifies this
      ensures var o := Downloaded(old(local), source, run);
              end == o.end && local == o.local && sent == old(sent) + o.sent
    {
      if !run.connects {
        Publish(Failed, FileOf(local));
        return Threw;
      }
      if source.None? {
        Publish(FileNotFound, FileOf(local));
        return Finished;
      }
      var remote := source.value;
      var offset := if local.Some? then |local.value| else 0;
      if offset > |remote| {
        offset := 0;
      }
      if offset == |remote| && |remote| > 0 {
        Publish(AlreadyDownloaded, FileOf(local));
        return Finished;
      }
      end := DownloadFileWithResume(remote, offset, run.plans);
      if end == Aborted {
        Publish(Cancelled, FileOf(local));
      } else if end == Threw {
        Publish(Failed, FileOf(local));
      }
    }
  }
}
