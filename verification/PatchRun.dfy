/** A whole run of `ApplyPatchAsync`. */
module PatchRun {
  import opened Basics
  import opened FileTrees
  import opened PatchRecord
  import opened PatchService

  /** A status message, which of the run's reports it carries, the application folder at the moment
      it was sent, and whether something outside had kept the last rollback before that from
      restoring the backup. */
  datatype Sent = Sent(msg: Msg, turn: nat, folder: Tree, hindered: bool)

  /** What a report says, apart from its text. */
  datatype Mark = Mark(status: PatchStatus, step: PatchStep, progress: int)

  function MarkOf(m: Msg): Mark {
    Mark(m.status, m.step, m.progress)
  }

  /** Of a rollback: the failures outside when it began and when its copy had ended, and whether the
      token was signalled by then. */
  datatype Rolled = NotYet | Rolled(from: nat, upTo: nat, signalled: bool)

  function Tries(status: PatchStatus): nat {
    if status == SUCCESS || status == FAILED || status == ROLLBACK then 3 else 1
  }

  // ----- The reports of a run, in order -----

  const DONE := 16

  /** The reports of a run that applies its patch. */
  function OnTheWay(k: nat): Mark
    requires k < DONE
  {
    match k
    case 0 => Mark(IN_PROGRESS, DOWNLOAD, 5)
    case 1 => Mark(SUCCESS, DOWNLOAD, 15)
    case 2 => Mark(IN_PROGRESS, EXTRACT, 20)
    case 3 => Mark(IN_PROGRESS, EXTRACT, 30)
    case 4 => Mark(IN_PROGRESS, STOP_APP, 35)
    case 5 => Mark(IN_PROGRESS, STOP_APP, 40)
    case 6 => Mark(IN_PROGRESS, BACKUP, 45)
    case 7 => Mark(IN_PROGRESS, BACKUP, 55)
    case 8 => Mark(IN_PROGRESS, UPDATE, 60)
    case 9 => Mark(IN_PROGRESS, UPDATE, 75)
    case 10 => Mark(IN_PROGRESS, START_APP, 78)
    case 11 => Mark(IN_PROGRESS, VERIFY, 85)
    case 12 => Mark(IN_PROGRESS, VERIFY, 90)
    case 13 => Mark(IN_PROGRESS, CLEANUP, 92)
    case 14 => Mark(IN_PROGRESS, CLEANUP, 95)
    case _ => Mark(SUCCESS, COMPLETE, 100)
  }

  function RollBackFrom(progress: int): seq<Mark> {
    [Mark(IN_PROGRESS, ROLLBACK_STEP, progress), Mark(ROLLBACK, COMPLETE, 100)]
  }

  /** The reports of a run that fails after k of them. */
  function Exit(k: nat): seq<Mark> {
    match k
    case 1 => [Mark(FAILED, DOWNLOAD, 5)]
    case 2 => [Mark(FAILED, VALIDATE, 15)]
    case 3 => [Mark(FAILED, EXTRACT, 20)]
    case 5 => [Mark(FAILED, STOP_APP, 35)]
    case 7 => [Mark(FAILED, BACKUP, 45)]
    case 9 => RollBackFrom(65)
    case 11 => RollBackFrom(80)
    case 12 => RollBackFrom(88)
    case _ => []
  }

  predicate Along(told: seq<Mark>) {
    |told| <= DONE && forall j :: 0 <= j < |told| ==> told[j] == OnTheWay(j)
  }

  /** k reports on the way, and n of those that follow when the run fails there. */
  predicate Leaves(told: seq<Mark>, k: nat, n: nat) {
    k <= |told| && Along(told[..k]) && n <= |Exit(k)| && told[k..] == Exit(k)[..n]
  }

  ghost predicate OnScript(told: seq<Mark>) {
    exists k: nat, n: nat :: Leaves(told, k, n)
  }

  /** A failure that was reported to its end, with a rollback or before there was a backup. */
  ghost predicate LeftEarly(told: seq<Mark>, rolledBack: bool) {
    exists k: nat :: Leaves(told, k, |Exit(k)|) && |Exit(k)| == if rolledBack then 2 else 1
  }

  /** An exception after reports of such a run. */
  ghost predicate CaughtAfter(told: seq<Mark>) {
    told != [] && told[|told| - 1] == Mark(FAILED, ERROR, 0) && OnScript(told[..|told| - 1])
  }

  lemma AlongIsOnScript(told: seq<Mark>)
    requires Along(told)
    ensures OnScript(told)
  {
    var k := |told|;
    assert told[..k] == told;
    assert Leaves(told, k, 0);
  }

  lemma AlongNext(told: seq<Mark>, mark: Mark)
    requires Along(told) && |told| < DONE && mark == OnTheWay(|told|)
    ensures Along(told + [mark])
  {}

  lemma ExitNext(told: seq<Mark>, k: nat, n: nat, mark: Mark)
    requires Leaves(told, k, n) && n < |Exit(k)| && mark == Exit(k)[n]
    ensures Leaves(told + [mark], k, n + 1)
  {
    assert (told + [mark])[..k] == told[..k] && (told + [mark])[k..] == told[k..] + [mark];
    assert Exit(k)[..n + 1] == Exit(k)[..n] + [mark];
  }

  lemma LeftEarlyIsOnScript(told: seq<Mark>, rolledBack: bool)
    requires LeftEarly(told, rolledBack)
    ensures OnScript(told)
  {}

  lemma RollBackEnds(k: nat)
    requires |Exit(k)| == 2
    ensures Exit(k)[1] == Mark(ROLLBACK, COMPLETE, 100)
  {}

  lemma AnExit(told: seq<Mark>, k: nat)
    requires Along(told) && k == |told|
    ensures Leaves(told, k, 0)
  {
    assert told[..k] == told;
  }

  /** Every message carries one of the reports, and they are sent in order. */
  ghost predicate Followed(sent: seq<Sent>, told: seq<Mark>) {
    && (forall k :: 0 <= k < |sent| ==> sent[k].turn < |told| && MarkOf(sent[k].msg) == told[sent[k].turn])
    && (forall j, k :: 0 <= j < k < |sent| ==> sent[j].turn <= sent[k].turn)
  }

  lemma FollowedOn(sent: seq<Sent>, told: seq<Mark>, mark: Mark, more: seq<Sent>)
    requires Followed(sent, told)
    requires forall k :: 0 <= k < |more| ==> more[k].turn == |told| && MarkOf(more[k].msg) == mark
    ensures Followed(sent + more, told + [mark])
  {}

  class PatchRun {
    const app: Folder
    const backup: Folder
    const token: Token
    const host: Host
    /** The extracted update package. */
    const pkg: Tree
    const mainApp: Path
    const keep: int
    var backupTaken: bool
    /** Everything handed to the broker so far, and how often it refused. */
    ghost var sent: seq<Sent>
    ghost var refused: nat
    /** Everything reported, whether or not the broker took it. */
    ghost var told: seq<Mark>
    /** The last message that was to close the run was given up without being sent. */
    ghost var lost: bool
    /** The last rollback. */
    ghost var rolled: Rolled
    /** The cleanup of old backups has begun. */
    ghost var cleaned: bool
    /** The outermost catch block was entered. */
    ghost var caught: bool

    /** `backup` is the new, not yet existing folder `Backup_<timestamp>`. */
    constructor (app: Folder, backup: Folder, token: Token, host: Host, pkg: Tree, mainApp: Path, keep: int)
      requires app != backup && WellFormed(app.Contents()) && backup.Contents() == ABSENT
      ensures this.app == app && this.backup == backup && this.token == token && this.host == host
      ensures this.pkg == pkg && this.mainApp == mainApp && this.keep == keep
      ensures Fresh()
    {
      this.app, this.backup, this.token, this.host := app, backup, token, host;
      this.pkg, this.mainApp, this.keep := pkg, mainApp, keep;
      backupTaken := false;
      sent, refused, told, lost := [], 0, [], false;
      rolled, cleaned, caught := NotYet, false, false;
    }

    ghost predicate Fresh()
      reads this, app, backup
    {
      && app != backup && WellFormed(app.Contents()) && backup.Contents() == ABSENT
      && !backupTaken && rolled == NotYet && sent == [] && told == [] && !cleaned && !caught
    }

    // ----- What happens outside -----

    /** Up to the end of the last rollback's copy, the token was signalled or something failed. */
    ghost predicate Hindered()
      reads this`rolled
    {
      rolled.Rolled? && (rolled.signalled || rolled.upTo > rolled.from)
    }

    /** Failures are only ever added, and a signalled token stays signalled. */
    twostate predicate Onward()
      reads app`tried, backup`tried, host, token
    {
      && (old(token.Cancelled()) ==> token.Cancelled()) && host.Failures() >= old(host.Failures())
      && app.Failures() >= old(app.Failures()) && backup.Failures() >= old(backup.Failures())
    }

    /** Something outside has gone wrong: the token was signalled, or there are new failures. */
    twostate predicate Excused()
      reads app`tried, backup`tried, host, token
    {
      || token.Cancelled() || host.Failures() > old(host.Failures())
      || app.Failures() > old(app.Failures()) || backup.Failures() > old(backup.Failures())
    }

    // ----- What holds between the phases -----

    /** A completed rollback is only reported while the folder is the original one, unless that
        rollback was hindered, and a completed patch only while the folder is the original overlaid
        by the package and holds the main file. */
    ghost predicate Honest(original: Tree)
      reads this`sent
    {
      && (forall k :: 0 <= k < |sent| && sent[k].msg.status == ROLLBACK ==>
           sent[k].folder == original || sent[k].hindered)
      && (forall k :: 0 <= k < |sent| && sent[k].msg.status == SUCCESS && sent[k].msg.step != DOWNLOAD ==>
           sent[k].folder == Overlaid(original, pkg) && mainApp in sent[k].folder.files)
    }

    /** The last report reached the broker, unless it was to close the run and was given up. */
    ghost predicate Closed()
      reads this`sent, this`told, this`lost
    {
      lost || (sent != [] && sent[|sent| - 1].turn == |told| - 1)
    }

    /** Where the reports are when a phase has ended: at the n-th on the way, or off it. */
    ghost predicate Reached(r: Outcome, n: nat, rolledBack: bool)
      reads this`told
    {
      match r
      case Returned(true) => Along(told) && |told| == n
      case Returned(false) => LeftEarly(told, rolledBack)
      case Threw => OnScript(told)
    }

    ghost predicate Inv(original: Tree)
      reads this, app, backup
    {
      && app != backup && app.Valid() && [] in app.dirs && backup.Valid() && WellFormed(pkg)
      && Honest(original) && Followed(sent, told)
      && (backupTaken && (keep >= 1 || !cleaned) ==> backup.Contents() == original)
      && (!backupTaken ==> app.Contents() == original) && [] in original.dirs
      // Nothing touches the application after a rollback.
      && (rolled.Rolled? && !Hindered() && (keep >= 1 || !cleaned) ==> app.Contents() == original)
    }

    // ----- Steps that do not touch the folders -----

    /** Logs, delays on the token, and the phases before the backup: true, false or an exception. */
    method Phase() returns (r: Outcome)
      modifies token, host
      ensures Onward() && (r != Returned(true) ==> Excused())
    {
      token.Poll();
      var ok := host.Works();
      r := Returned(true);
      if !ok || token.Cancelled() {
        if * {
          r := Threw;
        } else {
          var b := *;
          r := Returned(b);
        }
      }
    }

    method Send(m: Msg, ghost turn: nat) returns (ok: bool)
      modifies this`sent, this`refused
      ensures ok ==> sent == old(sent) + [Sent(m, turn, app.Contents(), Hindered())] && refused == old(refused)
      ensures !ok ==> sent == old(sent) && refused == old(refused) + 1
    {
      ok := *;
      if ok {
        sent := sent + [Sent(m, turn, app.Contents(), Hindered())];
      } else {
        refused := refused + 1;
      }
    }

    /** `PublishStatusAsync`: critical messages are tried three times, others once. The log that
        follows a successful send can throw, and then the message goes out again. False: a log or
        the delay before the next try threw. */
    method Publish(status: PatchStatus, step: PatchStep, text: string, progress: int) returns (ok: bool)
      modifies this`sent, this`refused, this`told, this`lost, token, host
      ensures Onward() && (!ok ==> Excused())
      ensures told == old(told) + [Mark(status, step, progress)]
      ensures old(sent) <= sent &&
              |sent| <= |old(sent)| + if status in {SUCCESS, FAILED, ROLLBACK} then 3 else 1
      ensures forall k :: |old(sent)| <= k < |sent| ==>
                && MarkOf(sent[k].msg) == Mark(status, step, progress) && sent[k].msg.message == text
                && sent[k].turn == |old(told)|
                && sent[k].folder == app.Contents() && sent[k].hindered == Hindered()
      // A message is given up only after the last refused try.
      ensures ok && sent == old(sent) ==>
                refused == old(refused) + if status in {SUCCESS, FAILED, ROLLBACK} then 3 else 1
      ensures lost == if Closes(status, step) then sent == old(sent) else old(lost)
    {
      var time := *;
      told := told + [Mark(status, step, progress)];
      ok := SendUpTo(Tries(status), Msg(status, step, progress, text, time), |told| - 1);
      lost := if Closes(status, step) then sent == old(sent) else lost;
    }

    /** The loop of `PublishStatusAsync`. */
    method SendUpTo(maxRetries: nat, m: Msg, ghost turn: nat) returns (ok: bool)
      modifies this`sent, this`refused, token, host
      ensures Onward() && (!ok ==> Excused())
      ensures Copies(old(sent), m, turn) && |sent| <= |old(sent)| + maxRetries
      ensures ok && sent == old(sent) ==> refused == old(refused) + maxRetries
    {
      var retryCount := 0;
      ghost var before := sent;
      ok := true;
      var going := true;
      while going && retryCount < maxRetries
        invariant retryCount <= maxRetries && Onward() && (!ok ==> Excused() && !going)
        invariant Copies(before, m, turn) && |sent| <= |before| + retryCount
        invariant sent == before && ok ==> going && refused == old(refused) + retryCount
        decreases maxRetries - retryCount, going
      {
        going, ok := TrySend(m, turn, retryCount + 1 == maxRetries);
        retryCount := retryCount + 1;
      }
    }

    /** What was sent since `before` are copies of m, over the folder and the rollback as they are. */
    ghost predicate Copies(before: seq<Sent>, m: Msg, turn: nat)
      reads this`sent, this`rolled, app`files, app`dirs
    {
      && before <= sent
      && forall k :: |before| <= k < |sent| ==> sent[k] == Sent(m, turn, app.Contents(), Hindered())
    }

    /** One try. Not going on is either success or a log or delay that threw. */
    method TrySend(m: Msg, ghost turn: nat, lastTry: bool) returns (going: bool, ok: bool)
      modifies this`sent, this`refused, token, host
      ensures Onward() && (!ok ==> Excused() && !going)
      ensures if sent == old(sent) then refused == old(refused) + 1 && (ok ==> going)
              else sent == old(sent) + [Sent(m, turn, app.Contents(), Hindered())] && refused == old(refused)
    {
      going, ok := true, true;
      var accepted := Send(m, turn);
      if accepted {
        var logged := host.Works();
        if logged {
          return false, true;
        }
      }
      var logged := host.Works();
      if logged && !lastTry {
        token.Poll();
        logged := !token.Cancelled();
      } else if logged {
        logged := host.Works();
      }
      if !logged {
        going, ok := false, false;
      }
    }

    /** Publishing what is true of the folder. */
    method Report(ghost original: Tree, status: PatchStatus, step: PatchStep, text: string, progress: int)
      returns (ok: bool)
      requires Inv(original)
      requires status == ROLLBACK ==> app.Contents() == original || Hindered()
      requires status == SUCCESS && step != DOWNLOAD ==>
                 app.Contents() == Overlaid(original, pkg) && mainApp in app.files
      modifies this`sent, this`refused, this`told, this`lost, token, host
      ensures Inv(original) && Onward() && (!ok ==> Excused())
      ensures told == old(told) + [Mark(status, step, progress)] && (Closes(status, step) ==> Closed())
    {
      ghost var before := sent;
      ok := Publish(status, step, text, progress);
      assert forall k :: 0 <= k < |before| ==> sent[k] == before[k];
      assert sent == before + sent[|before|..];
      FollowedOn(before, old(told), Mark(status, step, progress), sent[|before|..]);
    }

    /** A phase that returned false: publish the failure, wait, return false. */
    method Fail(ghost original: Tree, step: PatchStep, text: string, progress: int) returns (r: Outcome)
      requires Inv(original) && Along(told) && Exit(|told|) == [Mark(FAILED, step, progress)]
      modifies this`sent, this`refused, this`told, this`lost, token, host
      ensures Inv(original) && Onward()
      ensures r != Returned(true) && Reached(r, 0, false) && (if r == Threw then Excused() else Closed())
    {
      AnExit(told, |told|);
      ExitNext(told, |told|, 0, Mark(FAILED, step, progress));
      var ok := Report(original, FAILED, step, text, progress);
      LeftEarlyIsOnScript(told, false);
      if !ok {
        return Threw;
      }
      r := Wait();
    }

    /** `Task.Delay` on the token, then false. */
    method Wait() returns (r: Outcome)
      modifies token
      ensures Onward() && (if r == Threw then token.Cancelled() else r == Returned(false))
    {
      token.Poll();
      r := if token.Cancelled() then Threw else Returned(false);
    }

    /** The next report on the way. */
    method Announce(ghost original: Tree, step: PatchStep, text: string, progress: int) returns (ok: bool)
      requires Inv(original)
      requires Along(told) && |told| < DONE && OnTheWay(|told|) == Mark(IN_PROGRESS, step, progress)
      modifies this`sent, this`refused, this`told, this`lost, token, host
      ensures Inv(original) && Onward() && (!ok ==> Excused())
      ensures Along(told) && |told| == |old(told)| + 1 && OnScript(told)
    {
      AlongNext(told, Mark(IN_PROGRESS, step, progress));
      ok := Report(original, IN_PROGRESS, step, text, progress);
      AlongIsOnScript(told);
    }

    // ----- Steps that do -----

    /** `CreateBackupAsync`. */
    method CreateBackup(ghost original: Tree) returns (r: Outcome)
      requires Inv(original) && !backupTaken && backup.Contents() == ABSENT
      modifies this`backupTaken, backup, token, host
      ensures Inv(original) && app.Contents() == original && Onward()
      ensures backupTaken == (r == Returned(true)) && (backupTaken ==> backup.Contents() == original)
      ensures r != Returned(true) ==> Excused()
    {
      var ok := CopyApplication();
      if ok {
        backupTaken := true;
        r := Returned(true);
      } else {
        r := CaughtFalse(host);
      }
    }

    method CopyApplication() returns (ok: bool)
      requires app != backup && WellFormed(app.Contents()) && backup.Contents() == ABSENT
      modifies backup, token, host
      ensures backup.Valid() && app.Contents() == old(app.Contents()) && Onward() && (!ok ==> Excused())
      ensures ok ==> backup.Contents() == app.Contents()
    {
      // Creating the folder the backups are in.
      ok := host.Works();
      if ok {
        ok := CopyDirectory(app.Contents(), [], backup, token);
        assert At(app.Contents(), []) == app.Contents();
        assert Overlay(ABSENT, app.Contents()) == app.Contents();
      }
      if ok {
        // Counting the files, and the log.
        ok := host.Works();
      }
    }

    /** Restores the backup, unless it is gone or the rollback is hindered. */
    method Restore(ghost original: Tree) returns (threw: bool)
      requires Inv(original) && backupTaken
      modifies this`rolled, app, token, host
      ensures Inv(original) && Onward()
      ensures rolled.Rolled? && rolled.from == old(app.Failures() + host.Failures())
      ensures rolled.from <= rolled.upTo <= app.Failures() + host.Failures()
      ensures rolled.signalled ==> token.Cancelled()
      ensures !Hindered() && [] in backup.dirs ==> app.Contents() == backup.Contents()
      ensures threw ==> host.Failures() > old(host.Failures())
    {
      ghost var from := app.Failures() + host.Failures();
      ghost var stage, upTo, signalled;
      threw, stage, upTo, signalled := Rollback(app, backup, token, host);
      rolled := Rolled(from, upTo, signalled);
    }

    /** The three places where the update is found wanting. */
    method RollBack(ghost original: Tree, text: string, progress: int) returns (r: Outcome)
      requires Inv(original) && backupTaken && !cleaned
      requires Along(told) && Exit(|told|) == RollBackFrom(progress)
      modifies this`sent, this`refused, this`told, this`lost, this`rolled, app, token, host
      ensures Inv(original) && Onward() && r != Returned(true) && Reached(r, 0, true)
      ensures if r == Threw then Excused() else Closed() && rolled.Rolled?
    {
      ghost var k := |told|;
      AnExit(told, k);
      ExitNext(told, k, 0, Mark(IN_PROGRESS, ROLLBACK_STEP, progress));
      var ok := Report(original, IN_PROGRESS, ROLLBACK_STEP, text, progress);
      if !ok {
        return Threw;
      }
      var threw := Restore(original);
      if threw {
        return Threw;
      }
      r := ReportRollback(original, k);
    }

    method ReportRollback(ghost original: Tree, ghost k: nat) returns (r: Outcome)
      requires Inv(original) && rolled.Rolled? && !cleaned
      requires Leaves(told, k, 1) && |Exit(k)| == 2
      modifies this`sent, this`refused, this`told, this`lost, token, host
      ensures Inv(original) && Onward() && r != Returned(true) && Reached(r, 0, true)
      ensures if r == Threw then Excused() else Closed()
    {
      RollBackEnds(k);
      ExitNext(told, k, 1, Mark(ROLLBACK, COMPLETE, 100));
      var ok := Report(original, ROLLBACK, COMPLETE, "Rollback completed. System will restart.", 100);
      if !ok {
        return Threw;
      }
      var threw := WaitAndSchedule();
      r := if threw then Threw else Returned(false);
    }

    /** `CleanupAsync`: all backups but the newest `keep` are deleted; this one is the newest. */
    method Cleanup(ghost original: Tree) returns (threw: bool)
      requires Inv(original) && backupTaken
      modifies this`cleaned, backup, host
      ensures Inv(original) && app.Contents() == old(app.Contents()) && Onward()
      ensures threw ==> Excused()
    {
      cleaned := true;
      if keep < 1 {
        if * {
          backup.files, backup.dirs := map[], {};
        } else if * {
          var rest: set<Path> :| rest <= backup.files.Keys;
          backup.files := backup.files - rest;
        }
      }
      threw := Swallowed(host);
    }

    // ----- The run -----

    /** What a run leaves behind. */
    ghost predicate Ended(original: Tree, r: Outcome)
      reads this, app, backup
    {
      && (r == Returned(true) ==> app.Contents() == Overlaid(original, pkg) && mainApp in app.files)
      && (r == Returned(false) ==> !backupTaken || rolled.Rolled?)
      && (rolled.Rolled? && !Hindered() && keep >= 1 ==> app.Contents() == original)
      // The folder is not written before a complete backup exists, and that backup is kept.
      && (!backupTaken ==> app.Contents() == original)
      && (backupTaken && keep >= 1 ==> backup.Contents() == original)
      && Honest(original) && Followed(sent, told) && (r != Threw ==> Closed())
      // What was reported, in order.
      && (if caught
          then r != Returned(true) && (CaughtAfter(told) || (r == Threw && OnScript(told)))
          else r != Threw && Reached(r, DONE, backupTaken))
    }

    /** The update can work: no clash of names, and the main file is there afterwards. */
    ghost predicate Applicable(original: Tree) {
      Clashfree(original, pkg) && mainApp in Overlaid(original, pkg).files
    }

    /** The phases in order; an exception leaves at once. */
    method Steps(ghost original: Tree, updateFiles: seq<Path>) returns (r: Outcome)
      requires Fresh() && app.Contents() == original && WellFormed(pkg) && Listing(pkg, updateFiles)
      modifies this, app, backup, token, host
      ensures Inv(original) && Onward() && !caught && Reached(r, DONE, backupTaken) && (r != Threw ==> Closed())
      ensures r == Returned(true) ==> app.Contents() == Overlaid(original, pkg) && Applicable(original)
      ensures r == Returned(false) && backupTaken ==> rolled.Rolled?
      ensures r == Threw ==> Excused()
      ensures r == Returned(false) && Applicable(original) ==> Excused()
    {
      r := Prepare(original);
      if r != Returned(true) {
        return;
      }
      r := Update(original, updateFiles);
    }

    /** The update and what follows it, with the backup in place. */
    method Update(ghost original: Tree, updateFiles: seq<Path>) returns (r: Outcome)
      requires Inv(original) && backupTaken && !cleaned && rolled == NotYet && Listing(pkg, updateFiles)
      requires app.Contents() == original && WellFormed(original) && Along(told) && |told| == 8
      modifies this`sent, this`refused, this`told, this`lost, this`rolled, this`cleaned, app, backup, token, host
      ensures Inv(original) && Onward() && Reached(r, DONE, true) && (r != Threw ==> Closed())
      ensures r == Returned(true) ==> app.Contents() == Overlaid(original, pkg) && Applicable(original)
      ensures r == Returned(false) ==> rolled.Rolled?
      ensures r == Threw ==> Excused()
      ensures r == Returned(false) && Applicable(original) ==> Excused()
    {
      var ok := Announce(original, UPDATE, "Applying update", 60);
      if !ok {
        return Threw;
      }
      r := Overwrite(original, updateFiles);
      if r == Returned(false) {
        r := RollBack(original, "Update failed - starting rollback", 65);
      } else if r == Returned(true) {
        r := CheckAndFinish(original);
      }
    }

    /** `ApplyUpdateAsync` with its counts left aside. */
    method Overwrite(ghost original: Tree, updateFiles: seq<Path>) returns (r: Outcome)
      requires Inv(original) && backupTaken && !cleaned && rolled == NotYet && Listing(pkg, updateFiles)
      requires app.Contents() == original && WellFormed(original)
      modifies app, token, host
      ensures Inv(original) && Onward()
      ensures r == Returned(true) ==> app.Contents() == Overlaid(original, pkg) && Clashfree(original, pkg)
      ensures r == Threw || (r == Returned(false) && Clashfree(original, pkg)) ==> Excused()
    {
      var filesReplaced, filesAdded;
      ghost var copied;
      r, filesReplaced, filesAdded, copied := ApplyUpdate(pkg, updateFiles, app, backup, token, host);
    }

    /** Everything before the update: download, checksum, extraction, stopping, backup. */
    method Prepare(ghost original: Tree) returns (r: Outcome)
      requires Fresh() && app.Contents() == original && WellFormed(pkg)
      modifies this, backup, token, host
      ensures Inv(original) && app.Contents() == original && !cleaned && rolled == NotYet && Onward()
      ensures backupTaken <== r == Returned(true)
      ensures Reached(r, 8, false) && !caught
      ensures r == Returned(false) ==> Closed() && !backupTaken
      ensures r != Returned(true) ==> Excused()
    {
      r := BeforeBackup(original);
      if r == Returned(true) {
        r := TakeBackup(original);
      }
    }

    method TakeBackup(ghost original: Tree) returns (r: Outcome)
      requires Inv(original) && !backupTaken && backup.Contents() == ABSENT
      requires Along(told) && |told| == 6
      modifies this`sent, this`refused, this`told, this`lost, this`backupTaken, backup, token, host
      ensures Inv(original) && app.Contents() == original && Onward()
      ensures Reached(r, 8, false) && (r != Returned(true) ==> Excused()) && (r == Returned(true) ==> backupTaken)
      ensures r == Returned(false) ==> Closed() && !backupTaken
    {
      var ok := Announce(original, BACKUP, "Creating backup", 45);
      if !ok {
        return Threw;
      }
      r := CreateBackup(original);
      if r == Threw {
        return;
      }
      if r == Returned(false) {
        r := Fail(original, BACKUP, "Backup creation failed", 45);
        return;
      }
      ok := Announce(original, BACKUP, "Backup created", 55);
      if !ok {
        return Threw;
      }
    }

    method BeforeBackup(ghost original: Tree) returns (r: Outcome)
      requires Inv(original) && Along(told) && |told| == 0
      modifies this`sent, this`refused, this`told, this`lost, token, host
      ensures Inv(original) && Onward() && Reached(r, 6, false)
      ensures (r != Returned(true) ==> Excused()) && (r == Returned(false) ==> Closed())
    {
      r := FetchPatch(original);
      if r == Returned(true) {
        r := Unpack(original);
      }
      if r == Returned(true) {
        r := StopApplications(original);
      }
    }

    method FetchPatch(ghost original: Tree) returns (r: Outcome)
      requires Inv(original) && Along(told) && |told| == 0
      modifies this`sent, this`refused, this`told, this`lost, token, host
      ensures Inv(original) && Onward() && Reached(r, 2, false)
      ensures (r != Returned(true) ==> Excused()) && (r == Returned(false) ==> Closed())
    {
      AlongIsOnScript(told);
      // The log of the start.
      var started := host.Works();
      if !started {
        return Threw;
      }
      r := Announced(original, DOWNLOAD, "Downloading patch file", "Failed to download patch", 5);
      if r != Returned(true) {
        return;
      }
      AlongNext(told, Mark(SUCCESS, DOWNLOAD, 15));
      var ok := Report(original, SUCCESS, DOWNLOAD, "Patch Downloading Successfully", 15);
      AlongIsOnScript(told);
      if !ok {
        return Threw;
      }
    }

    method Unpack(ghost original: Tree) returns (r: Outcome)
      requires Inv(original) && Along(told) && |told| == 2
      modifies this`sent, this`refused, this`told, this`lost, token, host
      ensures Inv(original) && Onward() && Reached(r, 4, false)
      ensures (r != Returned(true) ==> Excused()) && (r == Returned(false) ==> Closed())
    {
      r := Tried(original, VALIDATE, "Checksum validation failed", 15);
      if r != Returned(true) {
        return;
      }
      r := Announced(original, EXTRACT, "Extracting patch files", "Failed to extract patch", 20);
      if r != Returned(true) {
        return;
      }
      var ok := Announce(original, EXTRACT, "Patch extracted successfully", 30);
      if !ok {
        return Threw;
      }
    }

    method StopApplications(ghost original: Tree) returns (r: Outcome)
      requires Inv(original) && Along(told) && |told| == 4
      modifies this`sent, this`refused, this`told, this`lost, token, host
      ensures Inv(original) && Onward() && Reached(r, 6, false)
      ensures (r != Returned(true) ==> Excused()) && (r == Returned(false) ==> Closed())
    {
      r := Announced(original, STOP_APP, "Stopping applications", "Failed to stop main application", 35);
      if r != Returned(true) {
        return;
      }
      r := Tried(original, STOP_APP, "Failed to stop secondary application", 35);
      if r != Returned(true) {
        return;
      }
      var ok := Announce(original, STOP_APP, "Applications stopped successfully", 40);
      if !ok {
        return Threw;
      }
    }

    /** A phase that is announced, and whose failure is published. */
    method Announced(ghost original: Tree, step: PatchStep, text: string, failure: string, progress: int)
      returns (r: Outcome)
      requires Inv(original) && Along(told) && |told| + 1 < DONE
      requires OnTheWay(|told|) == Mark(IN_PROGRESS, step, progress)
      requires Exit(|told| + 1) == [Mark(FAILED, step, progress)]
      modifies this`sent, this`refused, this`told, this`lost, token, host
      ensures Inv(original) && Onward() && Reached(r, |old(told)| + 1, false)
      ensures (r != Returned(true) ==> Excused()) && (r == Returned(false) ==> Closed())
    {
      var ok := Announce(original, step, text, progress);
      if !ok {
        return Threw;
      }
      r := Tried(original, step, failure, progress);
    }

    method Tried(ghost original: Tree, step: PatchStep, failure: string, progress: int) returns (r: Outcome)
      requires Inv(original) && Along(told) && Exit(|told|) == [Mark(FAILED, step, progress)]
      modifies this`sent, this`refused, this`told, this`lost, token, host
      ensures Inv(original) && Onward() && Reached(r, |old(told)|, false)
      ensures (r != Returned(true) ==> Excused()) && (r == Returned(false) ==> Closed())
    {
      AlongIsOnScript(told);
      r := Phase();
      if r == Returned(false) {
        r := Fail(original, step, failure, progress);
      }
    }

    /** `StartApplicationAsync` and `VerifyApplicationAsync`: whether the main file exists. */
    method FileCheck() returns (r: Outcome)
      modifies host
      ensures r == Returned(true) ==> mainApp in app.files
      ensures Onward() && (r != Returned(true) ==> mainApp !in app.files || Excused()) && (r == Threw ==> Excused())
    {
      var logged := host.Works();
      if !logged {
        r := CaughtFalse(host);
      } else {
        r := Returned(mainApp in app.files);
      }
    }

    method CheckAndFinish(ghost original: Tree) returns (r: Outcome)
      requires Inv(original) && backupTaken && !cleaned
      requires app.Contents() == Overlaid(original, pkg) && Clashfree(original, pkg)
      requires Along(told) && |told| == 9
      modifies this`sent, this`refused, this`told, this`lost, this`rolled, this`cleaned, app, backup, token, host
      ensures Inv(original) && Onward() && Reached(r, DONE, true) && (r != Threw ==> Closed())
      ensures r == Returned(true) ==> app.Contents() == Overlaid(original, pkg) && Applicable(original)
      ensures r == Returned(false) ==> rolled.Rolled?
      ensures r == Threw ==> Excused()
      ensures r == Returned(false) && Applicable(original) ==> Excused()
    {
      var ok := Announce(original, UPDATE, "Update applied successfully", 75);
      if !ok {
        return Threw;
      }
      r := Checked(original, START_APP, "Verifying updated files", 78, "File verification failed - rolling back", 80);
      if r == Returned(true) {
        r := VerifyAndFinish(original);
      }
    }

    /** The second check, like the first, looks for the main file. */
    method VerifyAndFinish(ghost original: Tree) returns (r: Outcome)
      requires Inv(original) && backupTaken && !cleaned
      requires app.Contents() == Overlaid(original, pkg) && Clashfree(original, pkg) && Along(told) && |told| == 11
      modifies this`sent, this`refused, this`told, this`lost, this`rolled, this`cleaned, app, backup, token, host
      ensures Inv(original) && Onward() && Reached(r, DONE, true) && (r != Threw ==> Closed())
      ensures r == Returned(true) ==> app.Contents() == Overlaid(original, pkg) && Applicable(original)
      ensures r == Returned(false) ==> rolled.Rolled?
      ensures r == Threw ==> Excused()
      ensures r == Returned(false) && Applicable(original) ==> Excused()
    {
      r := Checked(original, VERIFY, "Verifying application integrity", 85, "Verification failed - rolling back", 88);
      if r == Returned(true) {
        r := Finish(original);
      }
    }

    /** A check of the updated files that is announced, and rolled back if it fails. */
    method Checked(ghost original: Tree, step: PatchStep, text: string, progress: int, failure: string, at: int)
      returns (r: Outcome)
      requires Inv(original) && backupTaken && !cleaned
      requires app.Contents() == Overlaid(original, pkg) && Along(told) && |told| + 1 < DONE
      requires OnTheWay(|told|) == Mark(IN_PROGRESS, step, progress) && Exit(|told| + 1) == RollBackFrom(at)
      modifies this`sent, this`refused, this`told, this`lost, this`rolled, app, token, host
      ensures Inv(original) && Onward() && Reached(r, |old(told)| + 1, true)
      ensures r == Returned(true) ==> app.Contents() == Overlaid(original, pkg) && mainApp in app.files
      ensures r == Returned(false) ==> Closed() && rolled.Rolled?
      ensures r == Threw ==> Excused()
      ensures r == Returned(false) && mainApp in Overlaid(original, pkg).files ==> Excused()
    {
      var ok := Announce(original, step, text, progress);
      if !ok {
        return Threw;
      }
      r := FileCheck();
      if r == Returned(false) {
        r := RollBack(original, failure, at);
      }
    }

    method Finish(ghost original: Tree) returns (r: Outcome)
      requires Inv(original) && backupTaken && app.Contents() == Overlaid(original, pkg) && mainApp in app.files
      requires Along(told) && |told| == 12
      modifies this`sent, this`refused, this`told, this`lost, this`cleaned, backup, token, host
      ensures Inv(original) && Onward() && r != Returned(false) && Reached(r, DONE, true)
      ensures if r == Threw then Excused() else Closed()
    {
      var ok := Announce(original, VERIFY, "Application verified successfully", 90);
      if ok {
        ok := CleanUp(original);
      }
      if ok {
        r := Complete(original);
      } else {
        r := Threw;
      }
    }

    method CleanUp(ghost original: Tree) returns (ok: bool)
      requires Inv(original) && backupTaken && Along(told) && |told| == 13
      modifies this`sent, this`refused, this`told, this`lost, this`cleaned, backup, token, host
      ensures Inv(original) && app.Contents() == old(app.Contents()) && Onward() && (!ok ==> Excused())
      ensures OnScript(told) && (ok ==> Along(told) && |told| == 15)
    {
      ok := Announce(original, CLEANUP, "Cleaning up temporary files", 92);
      if ok {
        var threw := Cleanup(original);
        ok := !threw;
      }
      if ok {
        ok := Announce(original, CLEANUP, "Cleanup completed", 95);
      }
    }

    method Complete(ghost original: Tree) returns (r: Outcome)
      requires Inv(original) && app.Contents() == Overlaid(original, pkg) && mainApp in app.files
      requires Along(told) && |told| == 15
      modifies this`sent, this`refused, this`told, this`lost, token, host
      ensures Inv(original) && Onward() && r != Returned(false) && Reached(r, DONE, true)
      ensures if r == Threw then Excused() else Closed()
    {
      var ok := ReportDone(original);
      if ok {
        var threw := LogAndSchedule();
        ok := !threw;
      }
      r := if ok then Returned(true) else Threw;
    }

    method ReportDone(ghost original: Tree) returns (ok: bool)
      requires Inv(original) && app.Contents() == Overlaid(original, pkg) && mainApp in app.files
      requires Along(told) && |told| == 15
      modifies this`sent, this`refused, this`told, this`lost, token, host
      ensures Inv(original) && Onward() && (!ok ==> Excused())
      ensures Along(told) && |told| == DONE && OnScript(told) && Closed()
    {
      AlongNext(told, Mark(SUCCESS, COMPLETE, 100));
      AlongIsOnScript(told + [Mark(SUCCESS, COMPLETE, 100)]);
      ok := Report(original, SUCCESS, COMPLETE, "Patch applied successfully. System will restart.", 100);
    }

    method LogAndSchedule() returns (threw: bool)
      modifies token, host
      ensures Onward() && (threw ==> token.Cancelled() || host.Failures() > old(host.Failures()))
    {
      var logged := host.Works();
      if !logged {
        return true;
      }
      threw := WaitAndSchedule();
    }

    /** The delay, and scheduling the restart. */
    method WaitAndSchedule() returns (threw: bool)
      modifies token, host
      ensures Onward() && (threw ==> token.Cancelled() || host.Failures() > old(host.Failures()))
    {
      var p := Wait();
      if p == Threw {
        return true;
      }
      threw := Swallowed(host);
    }

    /** `ApplyPatchAsync`. Whatever fails and at whatever point, when it returns the folder is the
        original overlaid by the package, or the original, unless the last rollback was hindered:
        up to the end of its copy the token was signalled, or a file operation or log of it failed.
        `Threw` is an exception inside the outermost catch block; then the folder is the original,
        too, if a rollback was begun and not hindered. */
    method ApplyPatch(ghost original: Tree, updateFiles: seq<Path>) returns (r: Outcome)
      requires Fresh() && app.Contents() == original && WellFormed(pkg) && Listing(pkg, updateFiles)
      modifies this, app, backup, token, host
      ensures Ended(original, r)
      // Only what happens outside, or a package that cannot be applied, keeps it from returning true.
      ensures r != Returned(true) ==> Excused() || !Applicable(original)
      ensures r == Threw ==> token.Cancelled() || host.Failures() > old(host.Failures())
    {
      r := Steps(original, updateFiles);
      if r == Threw {
        caught := true;
        r := Caught(original);
      }
    }

    /** The outermost catch block. */
    method Caught(ghost original: Tree) returns (r: Outcome)
      requires Inv(original) && OnScript(told)
      modifies this`sent, this`refused, this`told, this`lost, this`rolled, app, token, host
      ensures Inv(original) && Onward() && r != Returned(true) && (OnScript(told) || CaughtAfter(told))
      ensures r == Threw ==> token.Cancelled() || host.Failures() > old(host.Failures())
      ensures r == Returned(false) ==> CaughtAfter(told) && Closed() && (!backupTaken || rolled.Rolled?)
    {
      r := ReportError(original);
      if r != Threw && backupTaken {
        var logged := RestoreQuietly(original);
        if !logged {
          r := Threw;
        }
      }
    }

    method ReportError(ghost original: Tree) returns (r: Outcome)
      requires Inv(original) && OnScript(told)
      modifies this`sent, this`refused, this`told, this`lost, token, host
      ensures Inv(original) && Onward() && r != Returned(true)
      ensures r == Threw ==> token.Cancelled() || host.Failures() > old(host.Failures())
      ensures if r == Threw then OnScript(told) || CaughtAfter(told) else CaughtAfter(told) && Closed()
    {
      var logged := host.Works();
      if !logged {
        return Threw;
      }
      assert (told + [Mark(FAILED, ERROR, 0)])[..|told|] == told;
      var ok := Report(original, FAILED, ERROR, "Unexpected error", 0);
      if !ok {
        return Threw;
      }
      r := Wait();
    }

    /** The rollback of the outermost catch block. Its exceptions are caught; the log of that can throw. */
    method RestoreQuietly(ghost original: Tree) returns (logged: bool)
      requires Inv(original) && backupTaken
      modifies this`rolled, app, token, host
      ensures Inv(original) && Onward() && rolled.Rolled?
      ensures !logged ==> host.Failures() > old(host.Failures())
    {
      var threw := Restore(original);
      if !threw {
        threw := WaitAndSchedule();
      }
      logged := true;
      if threw {
        logged := host.Works();
      }
    }
  }

  function Messages(sent: seq<Sent>): seq<Msg> {
    seq(|sent|, k requires 0 <= k < |sent| => sent[k].msg)
  }

  // ----- What the last message and the record say -----

  /** A FAILED report names the phase that failed and how far it was. */
  predicate FailedPhase(mark: Mark) {
    mark in {Mark(FAILED, DOWNLOAD, 5), Mark(FAILED, VALIDATE, 15), Mark(FAILED, EXTRACT, 20),
             Mark(FAILED, STOP_APP, 35), Mark(FAILED, BACKUP, 45)}
  }

  lemma LastOnTheWay(told: seq<Mark>)
    requires Along(told) && |told| == DONE
    ensures told[|told| - 1] == Mark(SUCCESS, COMPLETE, 100)
  {
    assert told[|told| - 1] == OnTheWay(DONE - 1);
  }

  lemma LastOfExit(told: seq<Mark>, rolledBack: bool)
    requires LeftEarly(told, rolledBack)
    ensures told != []
    ensures var last := told[|told| - 1];
            if rolledBack then last == Mark(ROLLBACK, COMPLETE, 100) else FailedPhase(last)
  {
    var k: nat :| Leaves(told, k, |Exit(k)|) && |Exit(k)| == if rolledBack then 2 else 1;
    assert told[|told| - 1] == told[k..][|Exit(k)| - 1];
  }

  /** The message that a run which has returned sent last, unless it was given up. */
  lemma LastMessage(run: PatchRun, original: Tree, r: Outcome)
    requires run.Ended(original, r) && r != Threw && !run.lost
    ensures run.sent != []
    ensures var last := MarkOf(run.sent[|run.sent| - 1].msg);
            if r == Returned(true) then last == Mark(SUCCESS, COMPLETE, 100)
            else if run.caught then last == Mark(FAILED, ERROR, 0)
            else if run.backupTaken then last == Mark(ROLLBACK, COMPLETE, 100)
            else FailedPhase(last)
  {
    if r == Returned(true) {
      LastOnTheWay(run.told);
    } else if !run.caught {
      LastOfExit(run.told, run.backupTaken);
    }
  }

  lemma {:induction false} RisesOnTheWay(j: nat, k: nat)
    requires j <= k < DONE
    ensures OnTheWay(j).progress <= OnTheWay(k).progress
    decreases k - j
  {
    if j < k {
      RisesOnTheWay(j, k - 1);
    }
  }

  lemma ToldRises(told: seq<Mark>, k: nat, n: nat, i: nat, j: nat)
    requires Leaves(told, k, n) && i <= j < |told|
    ensures told[i].progress <= told[j].progress
  {
    assert i < k ==> told[i] == told[..k][i] == OnTheWay(i);
    assert j < k ==> told[j] == told[..k][j] == OnTheWay(j);
    assert i >= k ==> told[i] == told[k..][i - k] == Exit(k)[i - k];
    assert j >= k ==> told[j] == told[k..][j - k] == Exit(k)[j - k];
    if j < k {
      RisesOnTheWay(i, j);
    } else if i < k {
      RisesOnTheWay(i, k - 1);
    }
  }

  /** Until an exception is caught the progress that is sent never falls. */
  lemma ProgressNeverFalls(run: PatchRun, original: Tree, r: Outcome, i: nat, j: nat)
    requires run.Ended(original, r) && !run.caught && i <= j < |run.sent|
    ensures run.sent[i].msg.progress <= run.sent[j].msg.progress
  {
    var told := run.told;
    if r == Returned(true) {
      AlongIsOnScript(told);
    }
    assert OnScript(told);
    var k: nat, n: nat :| Leaves(told, k, n);
    ToldRises(told, k, n, run.sent[i].turn, run.sent[j].turn);
  }

  /** What the server's record says once a run has returned and its messages have arrived, each
      perhaps several times in a row. It is final; SUCCESS at 100 if and only if the run returned
      true, and then the folder is the original overlaid by the package; otherwise the folder is the
      original, unless the last rollback was hindered, and the record says ROLLBACK at 100 if the
      run rolled back on its own, ERROR at 0 if an exception was caught, and else which phase failed. */
  lemma RecordOfRun(run: PatchRun, original: Tree, r: Outcome, record: Record, copies: seq<nat>)
    requires run.Ended(original, r) && r != Threw && !run.lost && run.keep >= 1
    requires |copies| == |run.sent| && forall k :: 0 <= k < |copies| ==> copies[k] > 0
    ensures var t := HandledAll(record, Redelivered(Messages(run.sent), copies));
            && t.isFinalized && t.processLevel.Some?
            && var shown := Mark(t.status, t.processLevel.value, t.progress);
            && (shown == Mark(SUCCESS, COMPLETE, 100) <==> r == Returned(true))
            && (shown == Mark(ROLLBACK, COMPLETE, 100) <==> r == Returned(false) && !run.caught && run.backupTaken)
            && (shown == Mark(FAILED, ERROR, 0) <==> run.caught)
            && (FailedPhase(shown) <==> r == Returned(false) && !run.caught && !run.backupTaken)
            && shown == MarkOf(run.sent[|run.sent| - 1].msg)
            && (r == Returned(true) ==> run.app.Contents() == Overlaid(original, run.pkg))
            && (t.status == ROLLBACK ==> var last := run.sent[|run.sent| - 1]; last.folder == original || last.hindered)
            && (r == Returned(false) && !run.Hindered() ==> run.app.Contents() == original)
  {
    LastMessage(run, original, r);
    RecordShowsLast(run.sent, record, copies);
  }

  lemma RecordShowsLast(sent: seq<Sent>, record: Record, copies: seq<nat>)
    requires sent != [] && Closing(sent[|sent| - 1].msg)
    requires |copies| == |sent| && forall k :: 0 <= k < |copies| ==> copies[k] > 0
    ensures var t := HandledAll(record, Redelivered(Messages(sent), copies));
            && t.isFinalized && t.processLevel.Some?
            && Mark(t.status, t.processLevel.value, t.progress) == MarkOf(sent[|sent| - 1].msg)
  {
    RecordFollowsRun(record, Messages(sent), copies);
  }
}
