/** Archiving old kernel logs, file operation by file operation, any of which may fail.

    A log file is named after its day, so files are keyed by day number; ages are day
    differences.  A `.gz` is represented by the text it unpacks to.  How each operation
    on a day's files turns out is a parameter, so a statement for all of them covers every
    failure; `history` records the disk after every change, so it covers every stop.
 */
module LogArchive {
  import opened Options

  datatype Disk = Disk(logs: map<int, string>, archive: map<int, string>, tmp: map<int, string>)

  /** Removing the plaintext: it works, it is refused, or something else has removed it already. */
  datatype Unlinking = Done | Denied | Gone

  /** How the operations on one day's files turn out; `copied` is how much a copy writes. */
  datatype Luck = Luck(makesDir: bool, stats: bool, opens: bool, copied: nat, copies: bool, readsBack: bool,
                       renames: bool, dropsTmp: bool, unlink: Unlinking, rollsBack: bool, expires: bool)

  datatype Slot = Slot(log: Option<string>, gz: Option<string>, tmp: Option<string>)

  datatype Verdict = Archived | RolledBack | RollbackFailed

  function At(m: map<int, string>, d: int): Option<string> {
    if d in m then Some(m[d]) else None
  }

  function SlotOf(k: Disk, d: int): Slot {
    Slot(At(k.logs, d), At(k.archive, d), At(k.tmp, d))
  }

  predicate SameElsewhere(a: Disk, b: Disk, d: int) {
    a.logs - {d} == b.logs - {d} && a.archive - {d} == b.archive - {d} && a.tmp - {d} == b.tmp - {d}
  }

  // ---------- what becomes of one day's files ----------

  function CopyOf(text: string, l: Luck): string {
    text[..if l.copied < |text| then l.copied else |text|]
  }

  function DropTmp(s: Slot, l: Luck): Slot {
    if l.dropsTmp then s.(tmp := None) else s
  }

  /** The compressed file is in place only if its text has the size of the original. */
  predicate Zips(text: string, l: Luck) {
    l.stats && l.opens && l.copies && l.readsBack && |CopyOf(text, l)| == |text| && l.renames
  }

  function Zip(s: Slot, l: Luck): Slot
    requires s.log.Some?
  {
    var data := CopyOf(s.log.value, l);
    if Zips(s.log.value, l) then Slot(s.log, Some(data), None)
    else if !l.stats then s
    else if !l.opens then DropTmp(s, l)
    else DropTmp(s.(tmp := Some(data)), l)
  }

  function Rollback(s: Slot, l: Luck): (Slot, Verdict) {
    if s.gz.Some? && !l.rollsBack then (s, RollbackFailed) else (s.(gz := None), RolledBack)
  }

  function Process(s: Slot, l: Luck): (Slot, Verdict)
    requires s.log.Some?
  {
    if !l.makesDir then Rollback(s, l)
    else
      var z := Zip(s, l);
      if !Zips(s.log.value, l) || l.unlink == Denied then Rollback(z, l)
      else if l.unlink == Gone then Rollback(z.(log := None), l)
      else (z.(log := None), Archived)
  }

  /** The plaintext is found removed by something else although its archive was just written. */
  predicate TakenAway(text: string, l: Luck) {
    l.makesDir && Zips(text, l) && l.unlink == Gone
  }

  // ---------- what must not be lost ----------

  /** One run: the day it runs on, the ages, whether it changes anything, and how each day's
      operations turn out. */
  datatype Job = Job(today: int, compressAge: int, retainDays: int, apply: bool, luck: int -> Luck)

  /** The text of a day: its plaintext where there is one, its archive otherwise. */
  function Truth(k: Disk, d: int): Option<string> {
    if d in k.logs then Some(k.logs[d]) else At(k.archive, d)
  }

  predicate Kept(s: Slot, text: Option<string>) {
    text.Some? ==> s.log == text || s.gz == text
  }

  ghost predicate Newest(k: Disk, d: int) {
    d in k.logs && forall e :: e in k.logs ==> e <= d
  }

  /** The log a writer may still hold open. */
  ghost predicate Active(k: Disk, d: int, job: Job) {
    Newest(k, d) && d >= job.today - 1
  }

  ghost predicate Eligible(k: Disk, d: int, job: Job) {
    d in k.logs && !Active(k, d, job) && job.today - d > job.compressAge
  }

  /** The run archives the day's log, finds it removed, and deletes the archive again. */
  ghost predicate Loses(k: Disk, d: int, job: Job) {
    job.apply && Eligible(k, d, job) && TakenAway(k.logs[d], job.luck(d)) && job.luck(d).rollsBack
  }

  ghost predicate DayKept(before: Disk, now: Disk, d: int, job: Job) {
    job.today - d <= job.retainDays && !Loses(before, d, job) ==> Kept(SlotOf(now, d), Truth(before, d))
  }

  /** Every day within the retention window still has its text, save those the run loses. */
  ghost predicate NothingLost(before: Disk, now: Disk, job: Job) {
    forall d :: DayKept(before, now, d, job)
  }

  ghost predicate NeverLost(before: Disk, history: seq<Disk>, job: Job) {
    forall i :: 0 <= i < |history| ==> NothingLost(before, history[i], job)
  }

  // ---------- the plan ----------

  datatype DayResult = Skipped | Planned | Processed(verdict: Verdict)

  ghost function ResultOf(k: Disk, d: int, job: Job): DayResult
    requires d in k.logs
  {
    if !Eligible(k, d, job) then Skipped
    else if !job.apply then Planned
    else Processed(Process(SlotOf(k, d), job.luck(d)).1)
  }

  /** A day's files after the compression pass. */
  ghost function Compressed(k: Disk, d: int, job: Job): Slot {
    if job.apply && Eligible(k, d, job) then Process(SlotOf(k, d), job.luck(d)).0 else SlotOf(k, d)
  }

  datatype ArchiveResult = Retained | Stale | Deleted | Undeleted

  function ExpiryOf(d: int, job: Job): ArchiveResult {
    if job.today - d <= job.retainDays then Retained
    else if !job.apply then Stale
    else if job.luck(d).expires then Deleted else Undeleted
  }

  function Expired(s: Slot, d: int, job: Job): Slot {
    if s.gz.Some? && ExpiryOf(d, job) == Deleted then s.(gz := None) else s
  }

  ghost function FinalSlot(k: Disk, d: int, job: Job): Slot {
    Expired(Compressed(k, d, job), d, job)
  }

  /** Every eligible day was archived, and every archive past the window could be deleted. */
  ghost predicate AllWentWell(k: Disk, job: Job) {
    job.apply ==> forall d :: DayWentWell(k, d, job)
  }

  ghost predicate DayWentWell(k: Disk, d: int, job: Job) {
    && (Eligible(k, d, job) ==> Process(SlotOf(k, d), job.luck(d)).1 == Archived)
    && (Compressed(k, d, job).gz.Some? ==> ExpiryOf(d, job) != Undeleted)
  }

  // ---------- one day ----------

  lemma {:induction false} FullCopy(text: string, l: Luck)
    ensures |CopyOf(text, l)| == |text| ==> CopyOf(text, l) == text
  {
  }

  /** How many copies processing leaves: exactly one, plaintext or archive, except that a failed
      rollback leaves both, and that a plaintext taken away leaves none if the rollback works and
      the archive if it fails. */
  lemma {:induction false} ExactlyOneCopyIff(s: Slot, l: Luck)
    requires s.log.Some?
    ensures
      var (after, v) := Process(s, l);
      && ((after.log.Some? <==> after.gz.None?) <==>
            if TakenAway(s.log.value, l) then v == RollbackFailed else v != RollbackFailed)
      && (v == Archived || (TakenAway(s.log.value, l) && v == RollbackFailed) ==> after.gz == s.log)
      && (v != Archived && !TakenAway(s.log.value, l) ==> after.log == s.log)
  {
    FullCopy(s.log.value, l);
  }

  /** A day is archived exactly when every operation works; then its text is in the archive and the
      plaintext is gone.  A failed day keeps its plaintext, and the failure of the rollback is
      reported exactly when an archive is there that cannot be removed; an unfinished copy goes where
      it can be removed. */
  lemma {:induction false} ArchivedIff(s: Slot, l: Luck)
    requires s.log.Some?
    ensures
      var (after, v) := Process(s, l);
      var zipped :=
        l.makesDir && l.stats && l.opens && l.copied >= |s.log.value| && l.copies && l.readsBack && l.renames;
      && (v == Archived <==> zipped && l.unlink == Done)
      && (v == Archived ==> after == Slot(None, s.log, None))
      && (v == RollbackFailed <==> v != Archived && (zipped || s.gz.Some?) && !l.rollsBack)
      && (v != Archived ==> after.log == (if zipped && l.unlink == Gone then None else s.log)
                            && after.gz == if l.rollsBack then None else if zipped then s.log else s.gz)
      && (l.makesDir && l.stats && l.dropsTmp ==> after.tmp == None)
  {
    FullCopy(s.log.value, l);
  }

  /** What is left of an unfinished copy: nothing where it can be removed, else what was written, or
      an older leftover if nothing was. */
  lemma {:induction false} LeftoverIs(s: Slot, l: Luck)
    requires s.log.Some? && Process(s, l).1 != Archived
    ensures
      Process(s, l).0.tmp ==
      if !l.makesDir || !l.stats then s.tmp
      else if l.dropsTmp || Zips(s.log.value, l) then None
      else if !l.opens then s.tmp
      else Some(s.log.value[..if l.copied <= |s.log.value| then l.copied else |s.log.value|])
  {
  }

  /** All operations on the day's files work. */
  predicate Lucky(l: Luck, text: string) {
    && l.makesDir && l.stats && l.opens && l.copied >= |text| && l.copies && l.readsBack && l.renames && l.dropsTmp
    && l.unlink == Done && l.rollsBack && l.expires
  }

  /** What a run in which everything works does with a day: a log older than the limit, unless it is
      the newest one and of today or yesterday, goes to the archive; an archive past the window goes
      away; the rest stays.  A dry run changes nothing. */
  lemma {:induction false} SmoothRun(k: Disk, d: int, job: Job)
    requires job.apply && (d in k.logs ==> Lucky(job.luck(d), k.logs[d])) && job.luck(d).expires
    ensures
      var heldOpen := (forall e :: e in k.logs ==> e <= d) && d >= job.today - 1;
      var zips := d in k.logs && job.today - d > job.compressAge && !heldOpen;
      var past := job.today - d > job.retainDays;
      && FinalSlot(k, d, job).log == (if zips then None else At(k.logs, d))
      && FinalSlot(k, d, job).gz == (if past then None else if zips then Some(k.logs[d]) else At(k.archive, d))
  {
    if d in k.logs { ArchivedIff(SlotOf(k, d), job.luck(d)); }
  }

  lemma {:induction false} DryRunChangesNothing(k: Disk, d: int, job: Job)
    requires !job.apply
    ensures FinalSlot(k, d, job) == SlotOf(k, d)
  {
  }

  /** The text is lost exactly when something else removes the plaintext before the unlink, so that
      its failure makes the rollback delete the archive just written. */
  lemma {:induction false} LostIff(s: Slot, l: Luck)
    requires s.log.Some?
    ensures !Kept(Process(s, l).0, s.log) <==> TakenAway(s.log.value, l) && l.rollsBack
  {
    FullCopy(s.log.value, l);
  }

  /** For a whole run: a day within the retention window ends without its text exactly when the
      run loses it. */
  lemma {:induction false} FinalKeptIff(k: Disk, d: int, job: Job)
    requires job.today - d <= job.retainDays && Truth(k, d).Some?
    ensures Kept(FinalSlot(k, d, job), Truth(k, d)) <==> !Loses(k, d, job)
  {
    if job.apply && Eligible(k, d, job) {
      LostIff(SlotOf(k, d), job.luck(d));
    }
  }

  // ---------- the whole directory ----------

  lemma {:induction false} SlotElsewhere(a: Disk, b: Disk, d: int, e: int)
    requires SameElsewhere(a, b, d) && e != d
    ensures SlotOf(a, e) == SlotOf(b, e)
  {
    assert e in a.logs <==> e in a.logs - {d};
    assert e in b.logs <==> e in b.logs - {d};
    assert e in a.archive <==> e in a.archive - {d};
    assert e in b.archive <==> e in b.archive - {d};
    assert e in a.tmp <==> e in a.tmp - {d};
    assert e in b.tmp <==> e in b.tmp - {d};
    assert e in a.logs ==> a.logs[e] == (a.logs - {d})[e] == b.logs[e];
    assert e in a.archive ==> a.archive[e] == (a.archive - {d})[e] == b.archive[e];
    assert e in a.tmp ==> a.tmp[e] == (a.tmp - {d})[e] == b.tmp[e];
  }

  /** A change to one day's files loses nothing if it loses nothing of that day. */
  lemma {:induction false} NothingLostStep(before: Disk, now: Disk, next: Disk, d: int, job: Job)
    requires NothingLost(before, now, job) && SameElsewhere(next, now, d) && DayKept(before, next, d, job)
    ensures NothingLost(before, next, job)
  {
    forall e
      ensures DayKept(before, next, e, job)
    {
      assert DayKept(before, now, e, job);
      if e != d { SlotElsewhere(next, now, d, e); }
    }
  }

  /** What one day's operations add to the history. */
  ghost predicate Extends(history: seq<Disk>, was: seq<Disk>, now: Disk, d: int) {
    && |was| <= |history| && history[..|was|] == was
    && forall i :: |was| <= i < |history| ==> SameElsewhere(history[i], now, d)
  }

  ghost predicate DayKeptSince(before: Disk, history: seq<Disk>, n: nat, d: int, job: Job) {
    forall i :: n <= i < |history| ==> DayKept(before, history[i], d, job)
  }

  lemma {:induction false} NeverLostExtends(before: Disk, now: Disk, history: seq<Disk>, was: seq<Disk>, d: int,
                                            job: Job)
    requires NeverLost(before, was, job) && NothingLost(before, now, job)
    requires Extends(history, was, now, d) && DayKeptSince(before, history, |was|, d, job)
    ensures NeverLost(before, history, job)
  {
    forall i | 0 <= i < |history|
      ensures NothingLost(before, history[i], job)
    {
      if i < |was| {
        assert history[i] == history[..|was|][i];
      } else {
        NothingLostStep(before, now, history[i], d, job);
      }
    }
  }

  /** The first day in sorted order. */
  method LeastOf(days: set<int>) returns (d: int)
    requires days != {}
    ensures d in days && forall e :: e in days ==> d <= e
    decreases days
  {
    assert (forall e :: e !in days) ==> days == {};
    d :| d in days;
    var rest := days - {d};
    if rest != {} {
      var m := LeastOf(rest);
      assert forall e :: e in days ==> e == d || e in rest;
      if m < d { d := m; }
    } else {
      assert forall e :: e in days ==> e == d || e in rest;
    }
  }

  method NewestOf(days: set<int>) returns (newest: Option<int>)
    ensures newest.None? <==> days == {}
    ensures newest.Some? ==> newest.value in days && forall e :: e in days ==> e <= newest.value
  {
    newest := None;
    var rest := days;
    while rest != {}
      invariant rest <= days && (newest.None? <==> rest == days)
      invariant newest.Some? ==> newest.value in days && forall e :: e in days && e !in rest ==> e <= newest.value
      decreases rest
    {
      assert (forall e :: e !in rest) ==> rest == {};
      var d :| d in rest;
      rest := rest - {d};
      if newest.None? || d > newest.value { newest := Some(d); }
    }
  }

  /** The days in `pending` are untouched, the others are as the compression pass leaves them. */
  ghost predicate PassDone(before: Disk, now: Disk, pending: set<int>, job: Job) {
    forall d :: SlotOf(now, d) == if d in pending then SlotOf(before, d) else Compressed(before, d, job)
  }

  lemma {:induction false} PassStep(before: Disk, now: Disk, next: Disk, pending: set<int>, d: int, job: Job)
    requires PassDone(before, now, pending, job) && SameElsewhere(next, now, d)
    requires SlotOf(next, d) == Compressed(before, d, job)
    ensures PassDone(before, next, pending - {d}, job)
  {
    forall e
      ensures SlotOf(next, e) == if e in pending - {d} then SlotOf(before, e) else Compressed(before, e, job)
    {
      if e != d { SlotElsewhere(next, now, d, e); }
    }
  }

  /** The archives in `pending` are untouched, the others as the retention window leaves them. */
  ghost predicate ExpiryDone(mid: Disk, now: Disk, pending: set<int>, job: Job) {
    forall d :: SlotOf(now, d) == if d in pending then SlotOf(mid, d) else Expired(SlotOf(mid, d), d, job)
  }

  lemma {:induction false} ExpiryStep(mid: Disk, now: Disk, next: Disk, pending: set<int>, d: int, job: Job)
    requires ExpiryDone(mid, now, pending, job) && SameElsewhere(next, now, d)
    requires SlotOf(next, d) == Expired(SlotOf(mid, d), d, job)
    ensures ExpiryDone(mid, next, pending - {d}, job)
  {
    forall e
      ensures SlotOf(next, e) == if e in pending - {d} then SlotOf(mid, e) else Expired(SlotOf(mid, e), e, job)
    {
      if e != d { SlotElsewhere(next, now, d, e); }
    }
  }

  /** The list holds the days dealt with so far that have one of these results. */
  ghost predicate Reports(list: seq<int>, before: Disk, pending: set<int>, results: set<DayResult>, job: Job) {
    forall d :: d in list <==> d in before.logs && d !in pending && ResultOf(before, d, job) in results
  }

  /** The day's result adds it to the list, if the list is for such results. */
  lemma {:induction false} ReportStep(list: seq<int>, before: Disk, pending: set<int>, d: int, results: set<DayResult>,
                                      job: Job)
    requires Reports(list, before, pending, results, job) && d in pending && d in before.logs
    ensures var next := if ResultOf(before, d, job) in results then list + [d] else list;
            Reports(next, before, pending - {d}, results, job)
  {
  }

  const COMPRESSED: set<DayResult> := {Planned, Processed(Archived)}
  const FAILED: set<DayResult> := {Processed(RolledBack), Processed(RollbackFailed)}
  const STUCK: set<DayResult> := {Processed(RollbackFailed)}

  datatype DayLists = DayLists(compressed: seq<int>, skipped: seq<int>, failed: seq<int>, stuck: seq<int>)

  function AddDay(lists: DayLists, d: int, r: DayResult): DayLists {
    match r
    case Skipped => lists.(skipped := lists.skipped + [d])
    case Planned => lists.(compressed := lists.compressed + [d])
    case Processed(Archived) => lists.(compressed := lists.compressed + [d])
    case Processed(RolledBack) => lists.(failed := lists.failed + [d])
    case Processed(RollbackFailed) => lists.(failed := lists.failed + [d], stuck := lists.stuck + [d])
  }

  /** The four lists report the days dealt with so far. */
  ghost predicate Reported(lists: DayLists, before: Disk, pending: set<int>, job: Job) {
    && Reports(lists.compressed, before, pending, COMPRESSED, job)
    && Reports(lists.skipped, before, pending, {Skipped}, job)
    && Reports(lists.failed, before, pending, FAILED, job)
    && Reports(lists.stuck, before, pending, STUCK, job)
  }

  lemma {:induction false} ReportedStep(lists: DayLists, before: Disk, pending: set<int>, d: int, job: Job)
    requires Reported(lists, before, pending, job) && d in pending && d in before.logs
    ensures Reported(AddDay(lists, d, ResultOf(before, d, job)), before, pending - {d}, job)
  {
    ReportStep(lists.compressed, before, pending, d, COMPRESSED, job);
    ReportStep(lists.skipped, before, pending, d, {Skipped}, job);
    ReportStep(lists.failed, before, pending, d, FAILED, job);
    ReportStep(lists.stuck, before, pending, d, STUCK, job);
  }

  /** The list holds the archives dealt with so far that have this result. */
  ghost predicate Sorts(list: seq<int>, mid: Disk, pending: set<int>, result: ArchiveResult, job: Job) {
    forall d :: d in list <==> d in mid.archive && d !in pending && ExpiryOf(d, job) == result
  }

  lemma {:induction false} SortStep(list: seq<int>, mid: Disk, pending: set<int>, d: int, result: ArchiveResult,
                                    job: Job)
    requires Sorts(list, mid, pending, result, job) && d in pending && d in mid.archive
    ensures Sorts(if ExpiryOf(d, job) == result then list + [d] else list, mid, pending - {d}, result, job)
  {
  }

  datatype ArchiveLists = ArchiveLists(retained: seq<int>, stale: seq<int>, deleted: seq<int>, undeleted: seq<int>)

  function AddArchive(lists: ArchiveLists, d: int, r: ArchiveResult): ArchiveLists {
    match r
    case Retained => lists.(retained := lists.retained + [d])
    case Stale => lists.(stale := lists.stale + [d])
    case Deleted => lists.(deleted := lists.deleted + [d])
    case Undeleted => lists.(undeleted := lists.undeleted + [d])
  }

  /** The four lists sort the archives dealt with so far. */
  ghost predicate Sorted(lists: ArchiveLists, mid: Disk, pending: set<int>, job: Job) {
    && Sorts(lists.retained, mid, pending, Retained, job)
    && Sorts(lists.stale, mid, pending, Stale, job)
    && Sorts(lists.deleted, mid, pending, Deleted, job)
    && Sorts(lists.undeleted, mid, pending, Undeleted, job)
  }

  lemma {:induction false} SortedStep(lists: ArchiveLists, mid: Disk, pending: set<int>, d: int, job: Job)
    requires Sorted(lists, mid, pending, job) && d in pending && d in mid.archive
    ensures Sorted(AddArchive(lists, d, ExpiryOf(d, job)), mid, pending - {d}, job)
  {
    SortStep(lists.retained, mid, pending, d, Retained, job);
    SortStep(lists.stale, mid, pending, d, Stale, job);
    SortStep(lists.deleted, mid, pending, d, Deleted, job);
    SortStep(lists.undeleted, mid, pending, d, Undeleted, job);
  }

  /** The failed days are the eligible ones that were not archived, the undeleted archives those past
      the window that could not be removed. */
  lemma {:induction false} ListsMean(before: Disk, mid: Disk, failed: seq<int>, undeleted: seq<int>, job: Job)
    requires Reports(failed, before, {}, FAILED, job) && Sorts(undeleted, mid, {}, Undeleted, job)
    requires forall d :: d in mid.archive <==> Compressed(before, d, job).gz.Some?
    ensures forall d :: d in failed <==>
              job.apply && Eligible(before, d, job) && Process(SlotOf(before, d), job.luck(d)).1 != Archived
    ensures forall d :: d in undeleted <==>
              job.apply && Compressed(before, d, job).gz.Some? && job.today - d > job.retainDays
              && !job.luck(d).expires
  {
    forall d
      ensures d in failed <==>
                job.apply && Eligible(before, d, job) && Process(SlotOf(before, d), job.luck(d)).1 != Archived
    {
      if d in before.logs { assert ResultOf(before, d, job) in FAILED <==> d in failed; }
    }
  }

  /** The exit status counts the failed days and the archives that could not be deleted. */
  lemma {:induction false} NoFailuresIff(before: Disk, mid: Disk, failed: seq<int>, undeleted: seq<int>, job: Job)
    requires PassDone(before, mid, {}, job)
    requires Reports(failed, before, {}, FAILED, job) && Sorts(undeleted, mid, {}, Undeleted, job)
    ensures failed == [] && undeleted == [] <==> AllWentWell(before, job)
  {
    if job.apply {
      forall d
        ensures DayWentWell(before, d, job) <==> d !in failed && d !in undeleted
      {
        assert SlotOf(mid, d) == Compressed(before, d, job);
        assert d in mid.archive <==> SlotOf(mid, d).gz.Some?;
      }
    }
    if failed != [] {
      var d := failed[0];
      assert d in failed && ResultOf(before, d, job) in FAILED;
      assert !DayWentWell(before, d, job);
    } else if undeleted != [] {
      var d := undeleted[0];
      assert d in undeleted && ExpiryOf(d, job) == Undeleted;
      assert !DayWentWell(before, d, job);
    }
  }

  // ---------- the log directory ----------

  class LogDir {
    var logs: map<int, string>
    var archive: map<int, string>
    var tmp: map<int, string>
    ghost var history: seq<Disk>

    ghost function Snap(): Disk
      reads this
    {
      Disk(logs, archive, tmp)
    }

    constructor (k: Disk)
      ensures Snap() == k && history == []
    {
      logs, archive, tmp, history := k.logs, k.archive, k.tmp, [];
    }

    /** Removes what is left of an unfinished copy. */
    method DropPartial(d: int, l: Luck)
      modifies `tmp, `history
      ensures SlotOf(Snap(), d) == DropTmp(old(SlotOf(Snap(), d)), l) && SameElsewhere(Snap(), old(Snap()), d)
      ensures history == old(history) || history == old(history) + [Snap()]
    {
      if d in tmp {
        if l.dropsTmp {
          tmp := tmp - {d};
          history := history + [Snap()];
        }
      }
    }

    method GzipFile(d: int, l: Luck) returns (ok: bool)
      requires d in logs
      modifies `archive, `tmp, `history
      ensures ok == Zips(logs[d], l)
      ensures SlotOf(Snap(), d) == Zip(old(SlotOf(Snap(), d)), l)
      ensures SameElsewhere(Snap(), old(Snap()), d)
      ensures Extends(history, old(history), old(Snap()), d)
      ensures forall i :: |old(history)| <= i < |history| ==> history[i].logs == logs
    {
      if !l.stats { return false; }
      ok := false;
      if l.opens {
        ok := CopyAndRename(d, |logs[d]|, l);
      }
      DropPartial(d, l);
    }

    /** Writes the compressed copy beside the archive and moves it there if its size is right. */
    method CopyAndRename(d: int, size: nat, l: Luck) returns (ok: bool)
      requires d in logs && size == |logs[d]|
      modifies `archive, `tmp, `history
      ensures ok == (l.copies && l.readsBack && |CopyOf(logs[d], l)| == size && l.renames)
      ensures var s, data := old(SlotOf(Snap(), d)), Some(CopyOf(logs[d], l));
              SlotOf(Snap(), d) == if ok then Slot(s.log, data, None) else s.(tmp := data)
      ensures SameElsewhere(Snap(), old(Snap()), d)
      ensures Extends(history, old(history), old(Snap()), d)
      ensures forall i :: |old(history)| <= i < |history| ==> history[i].logs == logs
    {
      tmp := tmp[d := CopyOf(logs[d], l)];
      history := history + [Snap()];
      if !l.copies || !l.readsBack || |tmp[d]| != size || !l.renames {
        return false;
      }
      archive, tmp := archive[d := tmp[d]], tmp - {d};
      history := history + [Snap()];
      ok := true;
    }

    /** One eligible day: compress, remove the plaintext, undo the archive on failure. */
    method ProcessDay(d: int, l: Luck) returns (v: Verdict)
      requires d in logs
      modifies this
      ensures (SlotOf(Snap(), d), v) == Process(old(SlotOf(Snap(), d)), l)
      ensures SameElsewhere(Snap(), old(Snap()), d)
      ensures Extends(history, old(history), old(Snap()), d)
      ensures !(TakenAway(old(logs)[d], l) && l.rollsBack) ==>
                forall i :: |old(history)| <= i < |history| ==> Kept(SlotOf(history[i], d), Some(old(logs)[d]))
    {
      var ok := false;
      if l.makesDir {
        ok := GzipFile(d, l);
      }
      FullCopy(logs[d], l);
      if ok && l.unlink != Denied {
        logs := logs - {d};
        history := history + [Snap()];
      }
      if ok && l.unlink == Done {
        return Archived;
      }
      v := RolledBack;
      if d in archive {
        if l.rollsBack {
          archive := archive - {d};
          history := history + [Snap()];
        } else {
          v := RollbackFailed;
        }
      }
    }

    /** One day of the compression pass; `before` is the directory when the pass began. */
    method CompressDay(d: int, newest: int, job: Job, ghost before: Disk) returns (r: DayResult)
      requires d in before.logs && SlotOf(Snap(), d) == SlotOf(before, d) && Newest(before, newest)
      modifies this
      ensures r == ResultOf(before, d, job) && SlotOf(Snap(), d) == Compressed(before, d, job)
      ensures SameElsewhere(Snap(), old(Snap()), d) && DayKept(before, Snap(), d, job)
      ensures Extends(history, old(history), old(Snap()), d)
      ensures DayKeptSince(before, history, |old(history)|, d, job)
    {
      assert d in logs && logs[d] == before.logs[d];
      assert Active(before, d, job) <==> newest == d && d >= job.today - 1;
      if (newest == d && d >= job.today - 1) || job.today - d <= job.compressAge {
        r := Skipped;
      } else if !job.apply {
        r := Planned;
      } else {
        LostIff(SlotOf(before, d), job.luck(d));
        var v := ProcessDay(d, job.luck(d));
        r := Processed(v);
      }
    }

    method CompressPass(job: Job) returns (lists: DayLists)
      modifies this
      requires history == []
      ensures PassDone(old(Snap()), Snap(), {}, job)
      ensures NothingLost(old(Snap()), Snap(), job) && NeverLost(old(Snap()), history, job)
      ensures Reported(lists, old(Snap()), {}, job)
    {
      lists := DayLists([], [], [], []);
      ghost var before := Snap();
      var newest := NewestOf(logs.Keys);
      var pending := logs.Keys;
      while pending != {}
        invariant pending <= before.logs.Keys
        invariant PassDone(before, Snap(), pending, job)
        invariant NothingLost(before, Snap(), job) && NeverLost(before, history, job)
        invariant Reported(lists, before, pending, job)
        decreases pending
      {
        var d := LeastOf(pending);
        ghost var now, was := Snap(), history;
        assert SlotOf(now, d) == SlotOf(before, d);
        var r := CompressDay(d, newest.value, job, before);
        PassStep(before, now, Snap(), pending, d, job);
        NothingLostStep(before, now, Snap(), d, job);
        NeverLostExtends(before, now, history, was, d, job);
        ReportedStep(lists, before, pending, d, job);
        lists := AddDay(lists, d, r);
        pending := pending - {d};
      }
    }

    /** One archive of the retention pass. */
    method ExpireArchive(d: int, job: Job) returns (r: ArchiveResult)
      requires d in archive
      modifies `archive, `history
      ensures r == ExpiryOf(d, job) && SlotOf(Snap(), d) == Expired(old(SlotOf(Snap(), d)), d, job)
      ensures SameElsewhere(Snap(), old(Snap()), d)
      ensures history == if r == Deleted then old(history) + [Snap()] else old(history)
    {
      if job.today - d <= job.retainDays {
        return Retained;
      }
      if !job.apply {
        return Stale;
      }
      if job.luck(d).expires {
        archive := archive - {d};
        history := history + [Snap()];
        return Deleted;
      }
      return Undeleted;
    }

    method ExpirePass(ghost before: Disk, job: Job) returns (lists: ArchiveLists)
      modifies this
      requires NothingLost(before, Snap(), job) && NeverLost(before, history, job)
      ensures ExpiryDone(old(Snap()), Snap(), {}, job)
      ensures NothingLost(before, Snap(), job) && NeverLost(before, history, job)
      ensures Sorted(lists, old(Snap()), {}, job)
    {
      lists := ArchiveLists([], [], [], []);
      ghost var mid := Snap();
      var pending := archive.Keys;
      while pending != {}
        invariant pending <= mid.archive.Keys
        invariant ExpiryDone(mid, Snap(), pending, job)
        invariant NothingLost(before, Snap(), job) && NeverLost(before, history, job)
        invariant Sorted(lists, mid, pending, job)
        decreases pending
      {
        var d := LeastOf(pending);
        ghost var now := Snap();
        assert SlotOf(now, d) == SlotOf(mid, d);
        assert DayKept(before, now, d, job);
        var r := ExpireArchive(d, job);
        NothingLostStep(before, now, Snap(), d, job);
        ExpiryStep(mid, now, Snap(), pending, d, job);
        SortedStep(lists, mid, pending, d, job);
        lists := AddArchive(lists, d, r);
        pending := pending - {d};
      }
    }

    /** The whole run: what every day's files end as, that no stop on the way loses a day within the
        retention window but those the run loses, and that the exit status is 0 exactly when nothing
        failed. */
    method ProcessDir(job: Job) returns (failed: seq<int>, undeleted: seq<int>, code: int)
      modifies this
      requires history == []
      ensures forall d :: SlotOf(Snap(), d) == FinalSlot(old(Snap()), d, job)
      ensures NothingLost(old(Snap()), Snap(), job) && NeverLost(old(Snap()), history, job)
      ensures code == if failed == [] && undeleted == [] then 0 else 1
      ensures code == 0 <==> AllWentWell(old(Snap()), job)
      ensures forall d :: d in failed <==>
                job.apply && Eligible(old(Snap()), d, job) && Process(SlotOf(old(Snap()), d), job.luck(d)).1 != Archived
      ensures forall d :: d in undeleted <==>
                job.apply && Compressed(old(Snap()), d, job).gz.Some? && job.today - d > job.retainDays
                && !job.luck(d).expires
    {
      ghost var before := Snap();
      var days := CompressPass(job);
      ghost var mid := Snap();
      var archives := ExpirePass(before, job);
      forall d
        ensures SlotOf(Snap(), d) == FinalSlot(before, d, job)
      {
        assert SlotOf(mid, d) == Compressed(before, d, job);
      }
      failed, undeleted := days.failed, archives.undeleted;
      forall d
        ensures d in mid.archive <==> Compressed(before, d, job).gz.Some?
      {
        assert SlotOf(mid, d) == Compressed(before, d, job);
      }
      ListsMean(before, mid, failed, undeleted, job);
      NoFailuresIff(before, mid, failed, undeleted, job);
      code := if failed != [] || undeleted != [] then 1 else 0;
    }
  }
}
