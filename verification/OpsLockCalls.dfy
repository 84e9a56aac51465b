/** Calls of the lease lock that no other contender disturbs: exactly what they leave behind.
 */
module OpsLockCalls {
  import opened OpsLock
  import opened Options

  /** n file operations of p in a row; when none is left they change nothing. */
  function InARow(s: State, p: string, n: nat): State
    decreases n
  {
    if n == 0 then s else InARow(Step(s, Go(p)), p, n - 1)
  }

  lemma {:induction false} NothingLeft(s: State, p: string, n: nat)
    requires PcOf(s, p).Idle? || PcOf(s, p).CommandRunning?
    ensures InARow(s, p, n) == s
  {
    if n > 0 {
      NothingLeft(s, p, n - 1);
    }
  }

  /** The last position of p counts. */
  lemma {:induction false} AtAgain(s: State, p: string, first: Pc, second: Pc)
    ensures At(At(s, p, first), p, second) == At(s, p, second)
    ensures PcOf(At(s, p, first), p) == first
  {
    assert s.pcs[p := first][p := second] == s.pcs[p := second];
  }

  // ---------- release ----------

  /** The lock is written and names p. */
  predicate Names(file: Option<File>, p: string) {
    file.Some? && file.value.content.Written? && file.value.content.rec.holder == Some(p)
  }

  function Released(s: State, p: string): State {
    if Names(s.file, p) then At(s.(file := None, owns := s.owns - {p}), p, Idle) else At(s, p, Idle)
  }

  lemma {:induction false} ReleaseRow(s: State, p: string, automatic: bool)
    ensures InARow(At(s, p, ReleaseChecking(automatic)), p, 3) == Released(s, p)
  {
    var checking, reading := ReleaseChecking(automatic), ReleaseReading(automatic);
    AtAgain(s, p, checking, if s.file.None? then Idle else reading);
    if s.file.None? {
      NothingLeft(At(s, p, Idle), p, 2);
    } else {
      assert Step(At(s, p, checking), Go(p)) == At(s, p, reading);
      ReadingRow(s, p, automatic);
    }
  }

  lemma {:induction false} ReadingRow(s: State, p: string, automatic: bool)
    requires s.file.Some?
    ensures InARow(At(s, p, ReleaseReading(automatic)), p, 2) == Released(s, p)
  {
    var reading := ReleaseReading(automatic);
    var next := if Names(s.file, p) then ReleaseUnlinking(automatic) else Idle;
    AtAgain(s, p, reading, next);
    assert Step(At(s, p, reading), Go(p)) == At(s, p, next);
    AtAgain(s, p, next, Idle);
    assert InARow(At(s, p, reading), p, 2) == InARow(At(s, p, next), p, 1) == Step(At(s, p, next), Go(p));
  }

  /** A release, whatever the state: if the lock names the caller, the file is gone and the caller's
      acquire is released; for anybody else file and owners stay as they are. */
  lemma {:induction false} ReleaseFreesIff(s: State, p: string)
    requires PcOf(s, p).Idle?
    ensures
      var t := InARow(Step(s, Release(p)), p, 3);
      && t == At(Begin(s, p).(file := t.file, owns := t.owns), p, Idle)
      && (if Names(s.file, p) then t.file == None && t.owns == s.owns - {p} else t.file == s.file && t.owns == s.owns)
  {
    ReleaseRow(Begin(s, p), p, false);
  }

  /** The end of a command does the same, and the child is gone. */
  lemma {:induction false} CommandEndFreesIff(s: State, p: string)
    requires PcOf(s, p).CommandRunning?
    ensures
      var t := InARow(Step(s, CommandEnds(p)), p, 3);
      && t == At(s.(alive := s.alive - {PcOf(s, p).child}, file := t.file, owns := t.owns), p, Idle)
      && (if Names(s.file, p) then t.file == None && t.owns == s.owns - {p} else t.file == s.file && t.owns == s.owns)
  {
    ReleaseRow(s.(alive := s.alive - {PcOf(s, p).child}), p, true);
  }

  // ---------- acquire ----------

  /** No lock, an empty one, one whose process is not alive, or one whose lease is over. */
  predicate Takeable(file: Option<File>, now: int, alive: set<Pid>) {
    file.None? || file.value.content.Unwritten?
    || var rec := file.value.content.rec;
       rec.pid.None? || rec.pid.value !in alive
       || now > rec.heartbeat + (if rec.lease == 0 then 1800 else rec.lease)
  }

  /** p has made a new lock that names it and its process from now on. */
  function Taken(s: State, p: string, pid: Pid, lease: int): State {
    s.(file := Some(File(s.nextInode, p, Written(Record(Some(p), Some(pid), s.now, lease)))),
       nextInode := s.nextInode + 1, owns := s.owns + {p})
  }

  function Then(job: Job): Pc {
    if job.command then CommandReading else Idle
  }

  lemma {:induction false} CreateRow(s: State, p: string, job: Job, attempt: nat)
    requires s.file.None? && job.started == s.now
    ensures InARow(At(s, p, Creating(job, attempt)), p, 2)
            == At(Taken(s, p, OwnPid(s, p), job.lease), p, Then(job))
  {
    var made := s.(file := Some(File(s.nextInode, p, Unwritten)), nextInode := s.nextInode + 1, owns := s.owns + {p});
    var writing := Writing(job, s.nextInode, s.now);
    AtAgain(s, p, Creating(job, attempt), writing);
    assert Step(At(s, p, Creating(job, attempt)), Go(p)) == At(made, p, writing);
    AtAgain(made, p, writing, Then(job));
    assert InARow(At(made, p, writing), p, 1) == Step(At(made, p, writing), Go(p));
  }

  /** An existing lock is looked at, and refused or deleted. */
  lemma {:induction false} LookRow(s: State, p: string, job: Job)
    requires s.file.Some?
    ensures
      var t := InARow(At(s, p, Creating(job, 1)), p, if Takeable(s.file, s.now, s.alive) then 5 else 4);
      t == if Takeable(s.file, s.now, s.alive) then At(s.(file := None), p, Creating(job, 3)) else At(s, p, Idle)
  {
    var seen := Look(s.file);
    VerdictMeaning(seen, s.now, s.alive);
    var next := if Takeable(s.file, s.now, s.alive) then Unlinking(job) else Idle;
    AtAgain(s, p, Creating(job, 1), Checking(job));
    AtAgain(s, p, Checking(job), Reading(job));
    AtAgain(s, p, Reading(job), Judging(job, seen));
    AtAgain(s, p, Judging(job, seen), next);
    AtAgain(s, p, next, Creating(job, 3));
    FourInARow(At(s, p, Creating(job, 1)), At(s, p, Checking(job)), At(s, p, Reading(job)),
               At(s, p, Judging(job, seen)), At(s, p, next), p);
    RowAppend(At(s, p, Creating(job, 1)), p, 4, 1);
    assert InARow(At(s, p, next), p, 1) == Step(At(s, p, next), Go(p));
  }

  lemma {:induction false} FourInARow(s: State, s1: State, s2: State, s3: State, s4: State, p: string)
    requires Step(s, Go(p)) == s1
    requires Step(s1, Go(p)) == s2
    requires Step(s2, Go(p)) == s3
    requires Step(s3, Go(p)) == s4
    ensures InARow(s, p, 4) == s4
  {
    assert InARow(s3, p, 1) == s4;
    assert InARow(s2, p, 2) == s4;
    assert InARow(s1, p, 3) == s4;
  }

  lemma {:induction false} RowAppend(s: State, p: string, m: nat, n: nat)
    ensures InARow(s, p, m + n) == InARow(InARow(s, p, m), p, n)
    decreases m
  {
    if m > 0 {
      RowAppend(Step(s, Go(p)), p, m - 1, n);
    }
  }

  lemma {:induction false} AcquireRow(s: State, p: string, job: Job)
    requires job.started == s.now
    ensures InARow(At(s, p, Creating(job, 1)), p, 7)
            == if s.file.None? then InARow(At(Taken(s, p, OwnPid(s, p), job.lease), p, Then(job)), p, 5)
               else if Takeable(s.file, s.now, s.alive) then At(Taken(s, p, OwnPid(s, p), job.lease), p, Then(job))
               else At(s, p, Idle)
  {
    var start := At(s, p, Creating(job, 1));
    if s.file.None? {
      CreateRow(s, p, job, 1);
      RowAppend(start, p, 2, 5);
    } else {
      LookRow(s, p, job);
      if Takeable(s.file, s.now, s.alive) {
        RowAppend(start, p, 5, 2);
        CreateRow(s.(file := None), p, job, 3);
      } else {
        RowAppend(start, p, 4, 3);
        NothingLeft(At(s, p, Idle), p, 3);
      }
    }
  }

  /** An acquire in the plain form succeeds exactly when there is nothing to respect: then a new
      lock names the caller and its process from now on, for the lease asked for.  Otherwise the
      lock and its owners stay as they are. */
  lemma {:induction false} AcquireTakesIff(s: State, p: string, lease: int)
    requires PcOf(s, p).Idle?
    ensures
      var b, t := Begin(s, p), InARow(Step(s, Acquire(p, lease, false)), p, 7);
      t == At(if Takeable(s.file, s.now, b.alive) then Taken(b, p, OwnPid(b, p), lease) else b, p, Idle)
  {
    var b, job := Begin(s, p), Job(s.now, lease, false);
    AcquireRow(b, p, job);
    NothingLeft(At(Taken(b, p, OwnPid(b, p), lease), p, Idle), p, 5);
  }

  /** Time that passes between the call and the create does not make the lock younger: the first
      attempt records the time of the call.  A retry records the time of its own create. */
  lemma {:induction false} RecordedTime(s: State, p: string, lease: int, wait: nat, retry: Job, attempt: nat)
    requires PcOf(s, p).Idle? && s.file.None? && attempt >= 2
    ensures
      var t := InARow(Step(Step(s, Acquire(p, lease, false)), Tick(wait)), p, 2);
      t.file == Some(File(s.nextInode, p, Written(Record(Some(p), Some(OwnPid(Begin(s, p), p)), s.now, lease))))
    ensures
      var t := InARow(At(s, p, Creating(retry, attempt)), p, 2);
      t.file == Some(File(s.nextInode, p, Written(Record(Some(p), Some(OwnPid(s, p)), s.now, retry.lease))))
  {
    var b, job := Begin(s, p), Job(s.now, lease, false);
    assert Step(Step(s, Acquire(p, lease, false)), Tick(wait)) == At(b.(now := s.now + wait), p, Creating(job, 1));
    CreateTime(b.(now := s.now + wait), p, job, 1);
    CreateTime(s, p, retry, attempt);
  }

  lemma {:induction false} CreateTime(s: State, p: string, job: Job, attempt: nat)
    requires s.file.None?
    ensures
      var t := InARow(At(s, p, Creating(job, attempt)), p, 2);
      var started := if attempt == 1 then job.started else s.now;
      t.file == Some(File(s.nextInode, p, Written(Record(Some(p), Some(OwnPid(s, p)), started, job.lease))))
  {
    var made := s.(file := Some(File(s.nextInode, p, Unwritten)), nextInode := s.nextInode + 1, owns := s.owns + {p});
    var writing := Writing(job, s.nextInode, if attempt == 1 then job.started else s.now);
    AtAgain(s, p, Creating(job, attempt), writing);
    assert Step(At(s, p, Creating(job, attempt)), Go(p)) == At(made, p, writing);
    assert InARow(At(made, p, writing), p, 1) == Step(At(made, p, writing), Go(p));
  }

  // ---------- the command form ----------

  /** The command runs in a fresh process, and the lock names that one. */
  function Running(s: State, p: string, lease: int): State {
    var child := Pid(p, StartedBy(s, p));
    At(Taken(Spawn(s, p), p, child, lease), p, CommandRunning(child))
  }

  lemma {:induction false} ChildSteps(s: State, p: string, rec: Record, child: Pid)
    requires s.file.Some? && RecordOf(Look(s.file)).(pid := Some(child)) == rec && child == Pid(p, StartedBy(s, p))
    ensures
      var s1 := At(Spawn(s, p), p, CommandTruncating(rec, child));
      var s2 := At(Spawn(s, p).(file := Some(s.file.value.(content := Unwritten))), p,
                   CommandFilling(rec, child, s.file.value.inode));
      && Step(At(s, p, CommandReading), Go(p)) == s1 && Step(s1, Go(p)) == s2
      && Step(s2, Go(p)) == At(Spawn(s, p).(file := Some(s.file.value.(content := Written(rec)))), p,
                               CommandRunning(child))
  {
    var t := Spawn(s, p);
    var cut := t.(file := Some(s.file.value.(content := Unwritten)));
    AtAgain(s, p, CommandReading, CommandTruncating(rec, child));
    AtAgain(t, p, CommandReading, CommandTruncating(rec, child));
    AtAgain(t, p, CommandTruncating(rec, child), CommandFilling(rec, child, s.file.value.inode));
    AtAgain(cut, p, CommandTruncating(rec, child), CommandFilling(rec, child, s.file.value.inode));
    AtAgain(cut, p, CommandFilling(rec, child, s.file.value.inode), CommandRunning(child));
  }

  lemma {:induction false} ThreeInARow(s: State, s1: State, s2: State, s3: State, p: string)
    requires Step(s, Go(p)) == s1
    requires Step(s1, Go(p)) == s2
    requires Step(s2, Go(p)) == s3
    ensures InARow(s, p, 3) == s3
  {
    assert InARow(s2, p, 1) == s3;
    assert InARow(s1, p, 2) == s3;
  }

  lemma {:induction false} CommandRow(s: State, p: string, lease: int)
    ensures InARow(At(Taken(s, p, OwnPid(s, p), lease), p, CommandReading), p, 3) == Running(s, p, lease)
  {
    var child := Pid(p, StartedBy(s, p));
    var rec := Record(Some(p), Some(child), s.now, lease);
    var t := Taken(s, p, OwnPid(s, p), lease);
    ChildSteps(t, p, rec, child);
    var s1 := At(Spawn(t, p), p, CommandTruncating(rec, child));
    var s2 := At(Spawn(t, p).(file := Some(t.file.value.(content := Unwritten))), p,
                 CommandFilling(rec, child, t.file.value.inode));
    ThreeInARow(At(t, p, CommandReading), s1, s2, Running(s, p, lease), p);
  }

  lemma {:induction false} CommandRowThenNothing(s: State, p: string, lease: int)
    ensures InARow(At(Taken(s, p, OwnPid(s, p), lease), p, CommandReading), p, 8) == Running(s, p, lease)
  {
    CommandRow(s, p, lease);
    RowAppend(At(Taken(s, p, OwnPid(s, p), lease), p, CommandReading), p, 3, 5);
    NothingLeft(Running(s, p, lease), p, 5);
  }

  /** An acquire in the command form succeeds under the same condition, and ends with the command
      running and its process in the lock. */
  lemma {:induction false} CommandTakesIff(s: State, p: string, lease: int)
    requires PcOf(s, p).Idle?
    ensures
      var b, t := Begin(s, p), InARow(Step(s, Acquire(p, lease, true)), p, 10);
      t == if Takeable(s.file, s.now, b.alive) then Running(b, p, lease) else At(b, p, Idle)
  {
    var b, job := Begin(s, p), Job(s.now, lease, true);
    var start := At(b, p, Creating(job, 1));
    AcquireRow(b, p, job);
    RowAppend(start, p, 7, 3);
    if s.file.None? {
      RowAppend(At(Taken(b, p, OwnPid(b, p), lease), p, CommandReading), p, 5, 3);
      CommandRowThenNothing(b, p, lease);
    } else if Takeable(s.file, s.now, b.alive) {
      CommandRow(b, p, lease);
    } else {
      NothingLeft(At(b, p, Idle), p, 3);
    }
  }
}
