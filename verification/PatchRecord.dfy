/** The server's record of a branch's patch run, as the status messages arrive. */
module PatchRecord {
  import opened Basics

  datatype PatchStatus = INIT | IN_PROGRESS | SUCCESS | FAILED | ROLLBACK | RESTART | SCHEDULE

  datatype PatchStep = START | DOWNLOAD | VALIDATE | EXTRACT | STOP_APP | BACKUP | UPDATE | START_APP
    | VERIFY | CLEANUP | ROLLBACK_STEP | COMPLETE | ERROR | RESTART_STEP | WATTING

  datatype IsDownload = NOT_DOWNLOAD | DOWNLOAD_IN_PROGRESS | IS_DOWNLOAD

  datatype Msg = Msg(status: PatchStatus, step: PatchStep, progress: int, message: string, timestamp: int)

  datatype Record = Record(status: PatchStatus, processLevel: Option<PatchStep>, progress: int, message: string,
                           endtime: int, isFinalized: bool, isDownload: IsDownload)

  /** What one message makes of the record. */
  function Handled(r: Record, m: Msg): Record {
    if m.status == IN_PROGRESS then
      if m.step != DOWNLOAD || r.isDownload == DOWNLOAD_IN_PROGRESS then r
      else r.(status := IN_PROGRESS, processLevel := Some(DOWNLOAD), progress := m.progress, message := m.message,
              isDownload := DOWNLOAD_IN_PROGRESS)
    else if m.status != SUCCESS && m.status != FAILED && m.status != ROLLBACK then r
    else if m.step == DOWNLOAD && m.status == SUCCESS then r.(status := SUCCESS, isDownload := IS_DOWNLOAD)
    else
      r.(status := m.status, processLevel := Some(m.step), progress := m.progress, message := m.message,
         endtime := m.timestamp, isFinalized := true,
         isDownload := if m.step == DOWNLOAD then NOT_DOWNLOAD else r.isDownload)
  }

  /** One row of the assignment table, updated in place. */
  class PatchAssignBranch {
    var status: PatchStatus
    var processLevel: Option<PatchStep>
    var progress: int
    var message: string
    var endtime: int
    var isFinalized: bool
    var isDownload: IsDownload

    ghost function Row(): Record
      reads this
    {
      Record(status, processLevel, progress, message, endtime, isFinalized, isDownload)
    }

    method HandlePatch(m: Msg)
      modifies this
      ensures Row() == Handled(old(Row()), m)
    {
      if m.status == IN_PROGRESS {
        if m.step != DOWNLOAD {
          return;
        }
        if isDownload == DOWNLOAD_IN_PROGRESS {
          return;
        }
        status := IN_PROGRESS;
        processLevel := Some(DOWNLOAD);
        progress := m.progress;
        message := m.message;
        isDownload := DOWNLOAD_IN_PROGRESS;
        return;
      }
      if m.status != SUCCESS && m.status != FAILED && m.status != ROLLBACK {
        return;
      }
      status := m.status;
      if m.step == DOWNLOAD {
        if m.status == SUCCESS {
          isDownload := IS_DOWNLOAD;
        } else {
          isDownload := NOT_DOWNLOAD;
          processLevel, progress, message, endtime := Some(m.step), m.progress, m.message, m.timestamp;
          isFinalized := true;
        }
      } else {
        processLevel, progress, message, endtime := Some(m.step), m.progress, m.message, m.timestamp;
        isFinalized := true;
      }
    }
  }

  /** A message the branch sends last: it reports an end, and not just the end of the download. */
  predicate Closing(m: Msg) {
    Closes(m.status, m.step)
  }

  predicate Closes(status: PatchStatus, step: PatchStep) {
    status == FAILED || status == ROLLBACK || (status == SUCCESS && step != DOWNLOAD)
  }

  /** What each message does to each field. Every end but that of the download overwrites the text and
      the end time; only messages about the download change what the record says about it. */
  lemma HandledFields(r: Record, m: Msg)
    ensures var t, ends := Handled(r, m), m.status in {SUCCESS, FAILED, ROLLBACK};
            var closes := ends && !(m.status == SUCCESS && m.step == DOWNLOAD);
            var starts := m.status == IN_PROGRESS && m.step == DOWNLOAD && r.isDownload != DOWNLOAD_IN_PROGRESS;
            && t.status == (if ends || starts then m.status else r.status)
            && (t.processLevel, t.progress, t.message) ==
               (if closes || starts then (Some(m.step), m.progress, m.message)
                else (r.processLevel, r.progress, r.message))
            && t.endtime == (if closes then m.timestamp else r.endtime)
            && t.isFinalized == (closes || r.isFinalized)
            && t.isDownload == (if m.step != DOWNLOAD then r.isDownload
                                else if m.status == SUCCESS then IS_DOWNLOAD
                                else if m.status == FAILED || m.status == ROLLBACK then NOT_DOWNLOAD
                                else if m.status == IN_PROGRESS then DOWNLOAD_IN_PROGRESS
                                else r.isDownload)
  {}

  lemma HandledTwice(r: Record, m: Msg)
    ensures Handled(Handled(r, m), m) == Handled(r, m)
    ensures r.isFinalized ==> Handled(r, m).isFinalized
  {}

  function HandledAll(r: Record, ms: seq<Msg>): Record {
    if ms == [] then r else Handled(HandledAll(r, ms[..|ms| - 1]), ms[|ms| - 1])
  }

  /** The messages in order, each delivered copies[k] times in a row. */
  function Redelivered(ms: seq<Msg>, copies: seq<nat>): seq<Msg>
    requires |ms| == |copies|
  {
    if ms == [] then []
    else Redelivered(ms[..|ms| - 1], copies[..|ms| - 1]) + seq(copies[|ms| - 1], _ => ms[|ms| - 1])
  }

  lemma {:induction false} HandledAppend(r: Record, xs: seq<Msg>, ys: seq<Msg>)
    ensures HandledAll(r, xs + ys) == HandledAll(HandledAll(r, xs), ys)
    decreases |ys|
  {
    if ys == [] {
      assert xs + ys == xs;
    } else {
      HandledAppend(r, xs, ys[..|ys| - 1]);
      assert (xs + ys)[..|xs + ys| - 1] == xs + ys[..|ys| - 1];
    }
  }

  lemma {:induction false} HandledCopies(r: Record, m: Msg, n: nat)
    requires n > 0
    ensures HandledAll(r, seq(n, _ => m)) == Handled(r, m)
  {
    var all := seq(n, _ => m);
    assert all[..n - 1] == seq(n - 1, _ => m);
    if n == 1 {
      assert HandledAll(r, all[..0]) == r;
    } else {
      HandledCopies(r, m, n - 1);
      HandledTwice(r, m);
    }
  }

  /** Adjacent redelivery changes nothing in the record. */
  lemma {:induction false} RedeliveryIsHarmless(r: Record, ms: seq<Msg>, copies: seq<nat>)
    requires |ms| == |copies| && forall k :: 0 <= k < |copies| ==> copies[k] > 0
    ensures HandledAll(r, Redelivered(ms, copies)) == HandledAll(r, ms)
    decreases |ms|
  {
    if ms != [] {
      var n := |ms| - 1;
      RedeliveryIsHarmless(r, ms[..n], copies[..n]);
      HandledAppend(r, Redelivered(ms[..n], copies[..n]), seq(copies[n], _ => ms[n]));
      HandledCopies(HandledAll(r, ms[..n]), ms[n], copies[n]);
    }
  }

  lemma {:induction false} FinalizedStays(r: Record, ms: seq<Msg>)
    requires r.isFinalized
    ensures HandledAll(r, ms).isFinalized
    decreases |ms|
  {
    if ms != [] {
      FinalizedStays(r, ms[..|ms| - 1]);
      HandledTwice(HandledAll(r, ms[..|ms| - 1]), ms[|ms| - 1]);
    }
  }

  /** Whatever the record was, a run whose last message closes it leaves exactly that message's
      status, step, progress, text and time in a finalized record, however often messages are
      redelivered. */
  lemma RecordFollowsRun(r: Record, ms: seq<Msg>, copies: seq<nat>)
    requires ms != [] && Closing(ms[|ms| - 1])
    requires |ms| == |copies| && forall k :: 0 <= k < |copies| ==> copies[k] > 0
    ensures var last, t := ms[|ms| - 1], HandledAll(r, Redelivered(ms, copies));
            && t.status == last.status && t.processLevel == Some(last.step) && t.progress == last.progress
            && t.message == last.message && t.endtime == last.timestamp && t.isFinalized
  {
    RedeliveryIsHarmless(r, ms, copies);
  }

  /** After a run whose last word about the download is its k-th message the record says whether the
      patch was downloaded, however often messages are redelivered. */
  lemma {:induction false} DownloadFollowsRun(r: Record, ms: seq<Msg>, copies: seq<nat>, k: nat)
    requires |ms| == |copies| && forall j :: 0 <= j < |copies| ==> copies[j] > 0
    requires k < |ms| && ms[k].step == DOWNLOAD && ms[k].status in {SUCCESS, FAILED, ROLLBACK}
    requires forall j :: k < j < |ms| ==> ms[j].step != DOWNLOAD
    ensures HandledAll(r, Redelivered(ms, copies)).isDownload ==
            if ms[k].status == SUCCESS then IS_DOWNLOAD else NOT_DOWNLOAD
  {
    RedeliveryIsHarmless(r, ms, copies);
    DownloadStays(r, ms, k);
  }

  lemma {:induction false} DownloadStays(r: Record, ms: seq<Msg>, k: nat)
    requires k < |ms| && ms[k].step == DOWNLOAD && ms[k].status in {SUCCESS, FAILED, ROLLBACK}
    requires forall j :: k < j < |ms| ==> ms[j].step != DOWNLOAD
    ensures HandledAll(r, ms).isDownload == if ms[k].status == SUCCESS then IS_DOWNLOAD else NOT_DOWNLOAD
    decreases |ms|
  {
    var n := |ms| - 1;
    HandledFields(HandledAll(r, ms[..n]), ms[n]);
    if k < n {
      DownloadStays(r, ms[..n], k);
    }
  }

  // ----- Late copies -----

  /** What a reader of the record sees of the run. */
  function Shown(r: Record): (PatchStatus, Option<PatchStep>, int) {
    (r.status, r.processLevel, r.progress)
  }

  /** A status that the handler ignores, or progress of a step that it does not record. */
  predicate Ignored(m: Msg) {
    if m.status == IN_PROGRESS then m.step != DOWNLOAD else m.status !in {SUCCESS, FAILED, ROLLBACK}
  }

  predicate StartsDownload(m: Msg) {
    m.status == IN_PROGRESS && m.step == DOWNLOAD
  }

  predicate EndsDownload(m: Msg) {
    m.status in {SUCCESS, FAILED, ROLLBACK} && m.step == DOWNLOAD
  }

  predicate Repeats(r: Record, m: Msg) {
    r.status == m.status && r.processLevel == Some(m.step) && r.progress == m.progress
  }

  predicate Harmless(r: Record, m: Msg) {
    || Ignored(m)
    || (StartsDownload(m) && (r.isDownload == DOWNLOAD_IN_PROGRESS || Repeats(r, m)))
    || (m.status == SUCCESS && m.step == DOWNLOAD && r.status == SUCCESS)
    || (Closing(m) && Repeats(r, m))
  }

  /** What a message that arrives late, in whatever state of the record, leaves as it was. */
  lemma LateCopyHarmlessIff(r: Record, m: Msg)
    ensures Shown(Handled(r, m)) == Shown(r) <==> Harmless(r, m)
  {}

  /** The record shows the same after every one of the messages. */
  predicate GoesOnShowing(r: Record, late: seq<Msg>) {
    late == [] || (GoesOnShowing(r, late[..|late| - 1]) && Shown(HandledAll(r, late)) == Shown(r))
  }

  predicate EachHarmless(r: Record, late: seq<Msg>) {
    late == [] ||
    (EachHarmless(r, late[..|late| - 1]) && Harmless(HandledAll(r, late[..|late| - 1]), late[|late| - 1]))
  }

  /** The record goes on showing the same through any late messages if and only if each of them is
      harmless when it arrives. */
  lemma {:induction false} LateCopiesHarmlessIff(r: Record, late: seq<Msg>)
    ensures GoesOnShowing(r, late) <==> EachHarmless(r, late)
  {
    if late != [] {
      var before := late[..|late| - 1];
      LateCopiesHarmlessIff(r, before);
      LateCopyHarmlessIff(HandledAll(r, before), late[|late| - 1]);
      if GoesOnShowing(r, before) {
        StillShown(r, before);
      }
    }
  }

  lemma StillShown(r: Record, late: seq<Msg>)
    requires GoesOnShowing(r, late)
    ensures Shown(HandledAll(r, late)) == Shown(r)
  {}

  /** A message of a run that is harmless after the run's end, whatever else comes late. */
  predicate HarmlessAfter(last: Msg, m: Msg) {
    || Ignored(m)
    || (m.status == SUCCESS && m.step == DOWNLOAD && last.status == SUCCESS)
    || (Closing(m) && m.status == last.status && m.step == last.step && m.progress == last.progress)
  }

  lemma {:induction false} LateCopiesAfterRun(r: Record, ms: seq<Msg>, late: seq<Msg>)
    requires ms != [] && Closing(ms[|ms| - 1])
    requires forall k :: 0 <= k < |late| ==> HarmlessAfter(ms[|ms| - 1], late[k])
    ensures var last := ms[|ms| - 1];
            Shown(HandledAll(r, ms + late)) == (last.status, Some(last.step), last.progress)
    decreases |late|
  {
    HandledAppend(r, ms, late);
    if late != [] {
      var n := |late| - 1;
      LateCopiesAfterRun(r, ms, late[..n]);
      HandledAppend(r, ms, late[..n]);
      LateCopyHarmlessIff(HandledAll(r, ms + late[..n]), late[n]);
    }
  }

  /** A run that got to the end of its download, one way or the other. */
  ghost predicate DownloadOver(ms: seq<Msg>) {
    exists k :: 0 <= k < |ms| && EndsDownload(ms[k]) && forall j :: k < j < |ms| ==> !StartsDownload(ms[j])
  }

  lemma {:induction false} NotDownloading(r: Record, ms: seq<Msg>)
    requires DownloadOver(ms)
    ensures HandledAll(r, ms).isDownload != DOWNLOAD_IN_PROGRESS
    decreases |ms|
  {
    var n := |ms| - 1;
    if !EndsDownload(ms[n]) {
      var k :| 0 <= k < |ms| && EndsDownload(ms[k]) && forall j :: k < j < |ms| ==> !StartsDownload(ms[j]);
      assert ms[..n][k] == ms[k];
      NotDownloading(r, ms[..n]);
    }
  }

  /** After such a run a copy of the first message, which is sent at least once and not exactly
      once, takes the closed record back to the start of the download. */
  lemma LateStartReopens(r: Record, ms: seq<Msg>, m: Msg)
    requires ms != [] && Closing(ms[|ms| - 1]) && DownloadOver(ms) && StartsDownload(m)
    ensures var t := HandledAll(r, ms + [m]);
            Shown(t) == (IN_PROGRESS, Some(DOWNLOAD), m.progress) && t.isFinalized
  {
    NotDownloading(r, ms);
    assert (ms + [m])[..|ms|] == ms;
  }

  /** A copy of the success of the download turns a closed, rolled-back record into a success. */
  lemma LateCopyOverwrites(r: Record)
    ensures var done, late := Msg(ROLLBACK, COMPLETE, 100, "", 0), Msg(SUCCESS, DOWNLOAD, 15, "", 0);
            Handled(Handled(r, done), late).status == SUCCESS && Handled(Handled(r, done), late).isFinalized
  {}
}
