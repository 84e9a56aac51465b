/** The lease lock on an operation, as any number of contenders interleaved file
    operation by file operation.

    A contender is identified by its holder string, so holder strings are distinct by
    construction; it runs one command at a time.  Every `Go` event is one file operation
    of one contender: the exclusive create, the payload write, the existence check, the
    read, the unlink, the truncation and the refill of the command form.  A command runs in
    the contender's process, which may exit once the command has returned; a later command
    then starts a fresh process.
 */
module OpsLock {
  import opened Options

  const DEFAULT_LEASE := 1800

  /** The number-th process started by a contender; numbers are never used again. */
  datatype Pid = Pid(of: string, number: nat)

  /** What a parsed lock file says; a missing or unparsable field is None. */
  datatype Record = Record(holder: Option<string>, pid: Option<Pid>, heartbeat: int, lease: int)

  const NO_FIELDS := Record(None, None, 0, 0)

  /** Content of the lock file: empty until the payload is written. */
  datatype Content = Unwritten | Written(rec: Record)

  /** The file behind the lock path; inode and creator tell successive files apart. */
  datatype File = File(inode: nat, creator: string, content: Content)

  /** What a reader gets from the lock file. */
  datatype Seen = Vanished | Blank | Fields(rec: Record)

  datatype Job = Job(started: int, lease: int, command: bool)

  /** Where a contender stands; a release is automatic when it ends the command form. */
  datatype Pc =
    | Idle
    | Dead
    | Creating(job: Job, attempt: nat)
    | Writing(job: Job, inode: nat, started: int)
    | Checking(job: Job)
    | Reading(job: Job)
    | Judging(job: Job, seen: Seen)
    | Unlinking(job: Job)
    | CommandReading
    | CommandTruncating(rec: Record, child: Pid)
    | CommandFilling(rec: Record, child: Pid, inode: nat)
    | CommandRunning(child: Pid)
    | ReleaseChecking(automatic: bool)
    | ReleaseReading(automatic: bool)
    | ReleaseUnlinking(automatic: bool)

  /** `running` numbers the process in which a contender works, `started` counts its processes. */
  datatype State = State(
    file: Option<File>,
    nextInode: nat,
    now: int,
    alive: set<Pid>,
    running: map<string, nat>,
    started: map<string, nat>,
    owns: set<string>,
    pcs: map<string, Pc>)

  datatype Event =
    | Acquire(who: string, lease: int, command: bool)
    | Release(who: string)
    | Go(who: string)
    | CommandEnds(who: string)
    | Exits(who: string)
    | Dies(who: string)
    | Tick(elapsed: nat)

  function PcOf(s: State, p: string): Pc {
    if p in s.pcs then s.pcs[p] else Idle
  }

  function StartedBy(s: State, p: string): nat {
    if p in s.started then s.started[p] else 0
  }

  /** The process of a contender's command. */
  function OwnPid(s: State, p: string): Pid {
    Pid(p, if p in s.running then s.running[p] else 0)
  }

  // ---------- the verdict on an existing lock ----------

  datatype Verdict = Held | PidDead | LeaseExpired

  function Effective(lease: int): int {
    if lease == 0 then DEFAULT_LEASE else lease
  }

  function Judge(prev: Record, now: int, alive: set<Pid>): Verdict {
    if prev.pid.None? || prev.pid.value !in alive then PidDead
    else if now - prev.heartbeat > Effective(prev.lease) then LeaseExpired
    else Held
  }

  /** A missing or empty file reads as no fields at all. */
  function RecordOf(seen: Seen): Record {
    if seen.Fields? then seen.rec else NO_FIELDS
  }

  /** What can be wrong with a lock that a contender looks at. */
  datatype Fault = ReadVanished | ReadBlank | HolderDead | LeaseLapsed

  function FaultOf(seen: Seen, now: int, alive: set<Pid>): Option<Fault> {
    if seen.Vanished? then Some(ReadVanished)
    else if seen.Blank? then Some(ReadBlank)
    else if seen.rec.pid.None? || seen.rec.pid.value !in alive then Some(HolderDead)
    else if now > seen.rec.heartbeat + Effective(seen.rec.lease) then Some(LeaseLapsed)
    else None
  }

  /** A lock is judged held exactly when its record was there, names a live process and is within
      its lease. */
  lemma {:induction false} VerdictMeaning(seen: Seen, now: int, alive: set<Pid>)
    ensures Judge(RecordOf(seen), now, alive) == Held <==>
            && seen.Fields? && seen.rec.pid.Some? && seen.rec.pid.value in alive
            && now <= seen.rec.heartbeat + Effective(seen.rec.lease)
    ensures Judge(RecordOf(seen), now, alive) == Held <==> FaultOf(seen, now, alive).None?
  {
  }

  // ---------- steps ----------

  function At(s: State, p: string, pc: Pc): State {
    s.(pcs := s.pcs[p := pc])
  }

  /** Starts one more process of a contender. */
  function Spawn(s: State, p: string): State {
    s.(started := s.started[p := StartedBy(s, p) + 1], alive := s.alive + {Pid(p, StartedBy(s, p))})
  }

  /** A command starts in the contender's process, or in a fresh one. */
  function Begin(s: State, p: string): State {
    if p in s.running then s else Spawn(s, p).(running := s.running[p := StartedBy(s, p)])
  }

  function Look(file: Option<File>): Seen {
    if file.None? then Vanished
    else if file.value.content.Unwritten? then Blank
    else Fields(file.value.content.rec)
  }

  /** The exclusive create: fails when the path exists. */
  function TryCreate(s: State, p: string, job: Job, attempt: nat): State {
    if s.file.Some? then At(s, p, if attempt == 1 then Checking(job) else Idle)
    else
      var started := if attempt == 1 then job.started else s.now;
      At(s.(file := Some(File(s.nextInode, p, Unwritten)), nextInode := s.nextInode + 1, owns := s.owns + {p}),
         p, Writing(job, s.nextInode, started))
  }

  /** Writes through an open descriptor reach the path only while it still names that inode. */
  function Fill(s: State, inode: nat, rec: Record): State {
    if s.file.Some? && s.file.value.inode == inode then s.(file := Some(s.file.value.(content := Written(rec)))) else s
  }

  /** Opening for writing truncates the file at the path, or creates one. */
  function Truncate(s: State, p: string, rec: Record, child: Pid): State {
    if s.file.Some?
    then At(s.(file := Some(s.file.value.(content := Unwritten))), p, CommandFilling(rec, child, s.file.value.inode))
    else At(s.(file := Some(File(s.nextInode, p, Unwritten)), nextInode := s.nextInode + 1),
            p, CommandFilling(rec, child, s.nextInode))
  }

  function Proceed(s: State, p: string): State {
    match PcOf(s, p)
    case Creating(job, attempt) => TryCreate(s, p, job, attempt)
    case Writing(job, inode, started) =>
      At(Fill(s, inode, Record(Some(p), Some(OwnPid(s, p)), started, job.lease)), p,
         if job.command then CommandReading else Idle)
    case Checking(job) => At(s, p, if s.file.None? then Creating(job, 2) else Reading(job))
    case Reading(job) => At(s, p, Judging(job, Look(s.file)))
    case Judging(job, seen) =>
      At(s, p, if Judge(RecordOf(seen), s.now, s.alive) == Held then Idle else Unlinking(job))
    case Unlinking(job) => At(s.(file := None), p, Creating(job, 3))
    case CommandReading =>
      var child := Pid(p, StartedBy(s, p));
      At(Spawn(s, p), p, CommandTruncating(RecordOf(Look(s.file)).(pid := Some(child)), child))
    case CommandTruncating(rec, child) => Truncate(s, p, rec, child)
    case CommandFilling(rec, child, inode) => At(Fill(s, inode, rec), p, CommandRunning(child))
    case ReleaseChecking(automatic) => At(s, p, if s.file.None? then Idle else ReleaseReading(automatic))
    case ReleaseReading(automatic) =>
      At(s, p, if RecordOf(Look(s.file)).holder == Some(p) then ReleaseUnlinking(automatic) else Idle)
    case ReleaseUnlinking(_) =>
      if s.file.None? then At(s, p, Idle) else At(s.(file := None, owns := s.owns - {p}), p, Idle)
    case _ => s
  }

  /** One event; an event that cannot happen changes nothing. */
  function Step(s: State, e: Event): State {
    match e
    case Acquire(p, lease, command) =>
      if PcOf(s, p).Idle? then At(Begin(s, p), p, Creating(Job(s.now, lease, command), 1)) else s
    case Release(p) => if PcOf(s, p).Idle? then At(Begin(s, p), p, ReleaseChecking(false)) else s
    case Go(p) => Proceed(s, p)
    case CommandEnds(p) =>
      if PcOf(s, p).CommandRunning?
      then At(s.(alive := s.alive - {PcOf(s, p).child}), p, ReleaseChecking(true)) else s
    case Exits(p) =>
      if PcOf(s, p).Idle? && p in s.running
      then s.(alive := s.alive - {OwnPid(s, p)}, running := s.running - {p}) else s
    case Dies(p) => At(s.(alive := s.alive - {OwnPid(s, p)}, running := s.running - {p}), p, Dead)
    case Tick(d) => s.(now := s.now + d)
  }

  const FREE := State(None, 0, 0, {}, map[], map[], {}, map[])

  function RunFrom(s: State, events: seq<Event>): State {
    if events == [] then s else Step(RunFrom(s, events[..|events| - 1]), events[|events| - 1])
  }

  /** The fault, if any, that a contender meets on judging a lock. */
  function FaultAt(s: State, e: Event): Option<Fault> {
    if e.Go? && PcOf(s, e.who).Judging? then FaultOf(PcOf(s, e.who).seen, s.now, s.alive) else None
  }

  ghost predicate NoFaults(events: seq<Event>) {
    events != [] ==>
      NoFaults(events[..|events| - 1]) && FaultAt(RunFrom(FREE, events[..|events| - 1]), events[|events| - 1]).None?
  }

  // ---------- conditions on the surroundings ----------

  /** What exclusion asks of processes, of time and of the scheduling of the contenders. */
  datatype Condition =
    | HoldersStay      // no command dies, and no process exits while its contender's lock is unreleased
    | LeasesHold       // no lock gets older than its lease
    | WritesAtOnce     // content appears with the create, and with the truncation of the command form
    | ReadsAtOnce      // the existence check, the read and the verdict are one operation
    | ReleasesAtOnce   // the end of a command and its automatic release are one operation

  const ALL: set<Condition> := {HoldersStay, LeasesHold, WritesAtOnce, ReadsAtOnce, ReleasesAtOnce}

  /** The lock has been there for longer than its lease. */
  predicate Lapsed(s: State) {
    && s.file.Some? && s.file.value.content.Written?
    && s.now > s.file.value.content.rec.heartbeat + Effective(s.file.value.content.rec.lease)
  }

  /** Contender p is inside what the conditions make one operation. */
  predicate Pressed(s: State, p: string, conditions: set<Condition>) {
    match PcOf(s, p)
    case Writing(_, _, _) => WritesAtOnce in conditions
    case CommandFilling(_, _, _) => WritesAtOnce in conditions
    case Reading(_) => ReadsAtOnce in conditions
    case Judging(_, _) => ReadsAtOnce in conditions
    case ReleaseChecking(automatic) => automatic && ReleasesAtOnce in conditions
    case ReleaseReading(automatic) => automatic && ReleasesAtOnce in conditions
    case ReleaseUnlinking(automatic) => automatic && ReleasesAtOnce in conditions
    case _ => false
  }

  ghost predicate Meets(s: State, e: Event, conditions: set<Condition>) {
    && (HoldersStay in conditions ==> !e.Dies? && !(e.Exits? && e.who in s.owns))
    && (LeasesHold in conditions ==> !Lapsed(Step(s, e)))
    && forall p {:trigger Pressed(s, p, conditions)} :: Pressed(s, p, conditions) ==> e == Go(p)
  }

  ghost predicate MeetsAll(events: seq<Event>, conditions: set<Condition>) {
    events != [] ==>
      && MeetsAll(events[..|events| - 1], conditions)
      && Meets(RunFrom(FREE, events[..|events| - 1]), events[|events| - 1], conditions)
  }

  // ---------- exclusion ----------

  /** What the position of contender p implies about the lock. */
  ghost predicate Placed(s: State, p: string) {
    match PcOf(s, p)
    case Writing(_, inode, _) => p in s.owns && s.file.Some? && s.file.value.inode == inode
    case CommandReading => p in s.owns
    case CommandTruncating(rec, _) => p in s.owns && rec.holder == Some(p)
    case CommandFilling(rec, _, inode) =>
      p in s.owns && rec.holder == Some(p) && s.file.Some? && s.file.value.inode == inode
    case CommandRunning(_) => p in s.owns
    case ReleaseUnlinking(_) => p in s.owns
    case Creating(_, attempt) => attempt <= 2
    case Unlinking(_) => false
    case _ => true
  }

  /** The lock file exists exactly while one acquire is unreleased, belongs to its owner and,
      once written, names the owner. */
  ghost predicate Exclusive(s: State) {
    && s.owns == (if s.file.Some? then {s.file.value.creator} else {})
    && (s.file.Some? && s.file.value.content.Written? ==> s.file.value.content.rec.holder == Some(s.file.value.creator))
    && (s.file.Some? && s.file.value.content.Unwritten? ==>
          var pc := PcOf(s, s.file.value.creator); pc.Writing? || pc.CommandFilling? || pc.Dead?)
    && forall p {:trigger Placed(s, p)} :: Placed(s, p)
  }

  /** Moving one contender leaves the placement of the others to the lock file alone. */
  lemma {:induction false} OthersPlaced(s: State, t: State, p: string)
    requires Exclusive(s) && t.file == s.file && t.owns == s.owns
    requires forall q :: q != p ==> PcOf(t, q) == PcOf(s, q)
    requires Placed(t, p)
    ensures forall q {:trigger Placed(t, q)} :: Placed(t, q)
  {
    forall q
      ensures Placed(t, q)
    {
      assert Placed(s, q);
    }
  }

  lemma {:induction false} MoveKeepsExclusive(s: State, t: State, p: string)
    requires Exclusive(s) && t.file == s.file && t.owns == s.owns
    requires forall q :: q != p ==> PcOf(t, q) == PcOf(s, q)
    requires Placed(t, p)
    requires var x, y := PcOf(s, p), PcOf(t, p);
             x.Writing? || x.CommandFilling? || x.Dead? ==> y.Writing? || y.CommandFilling? || y.Dead?
    ensures Exclusive(t)
  {
    OthersPlaced(s, t, p);
  }

  lemma {:induction false} CreateKeepsExclusive(s: State, p: string)
    requires Exclusive(s) && PcOf(s, p).Creating?
    ensures Exclusive(Proceed(s, p))
  {
    var t := Proceed(s, p);
    assert Placed(s, p);
    if s.file.Some? {
      MoveKeepsExclusive(s, t, p);
    } else {
      forall q
        ensures Placed(t, q)
      {
        assert Placed(s, q);
      }
    }
  }

  lemma {:induction false} FillKeepsExclusive(s: State, p: string)
    requires Exclusive(s) && (PcOf(s, p).Writing? || PcOf(s, p).CommandFilling?)
    ensures Exclusive(Proceed(s, p))
  {
    var t := Proceed(s, p);
    assert Placed(s, p);
    forall q
      ensures Placed(t, q)
    {
      assert Placed(s, q);
    }
  }

  lemma {:induction false} CommandKeepsExclusive(s: State, p: string)
    requires Exclusive(s) && (PcOf(s, p).CommandReading? || PcOf(s, p).CommandTruncating?)
    ensures Exclusive(Proceed(s, p))
  {
    var t := Proceed(s, p);
    assert Placed(s, p);
    if PcOf(s, p).CommandReading? {
      MoveKeepsExclusive(s, t, p);
    } else {
      forall q
        ensures Placed(t, q)
      {
        assert Placed(s, q);
      }
    }
  }

  lemma {:induction false} UnlinkKeepsExclusive(s: State, p: string)
    requires Exclusive(s) && PcOf(s, p).ReleaseUnlinking?
    ensures Exclusive(Proceed(s, p))
  {
    var t := Proceed(s, p);
    assert Placed(s, p);
    forall q
      ensures Placed(t, q)
    {
      assert Placed(s, q);
    }
  }

  lemma {:induction false} ProceedKeepsExclusive(s: State, p: string)
    requires Exclusive(s) && FaultAt(s, Go(p)).None?
    ensures Exclusive(Proceed(s, p))
  {
    assert Placed(s, p);
    match PcOf(s, p)
    case Creating(_, _) => CreateKeepsExclusive(s, p);
    case Writing(_, _, _) => FillKeepsExclusive(s, p);
    case CommandFilling(_, _, _) => FillKeepsExclusive(s, p);
    case CommandReading => CommandKeepsExclusive(s, p);
    case CommandTruncating(_, _) => CommandKeepsExclusive(s, p);
    case ReleaseUnlinking(_) => UnlinkKeepsExclusive(s, p);
    case Judging(_, seen) =>
      VerdictMeaning(seen, s.now, s.alive);
      MoveKeepsExclusive(s, Proceed(s, p), p);
    case Checking(_) => MoveKeepsExclusive(s, Proceed(s, p), p);
    case Reading(_) => MoveKeepsExclusive(s, Proceed(s, p), p);
    case ReleaseChecking(_) => MoveKeepsExclusive(s, Proceed(s, p), p);
    case ReleaseReading(_) => MoveKeepsExclusive(s, Proceed(s, p), p);
    case _ =>
  }

  lemma {:induction false} StepKeepsExclusive(s: State, e: Event)
    requires Exclusive(s) && FaultAt(s, e).None?
    ensures Exclusive(Step(s, e))
  {
    match e
    case Go(p) => ProceedKeepsExclusive(s, p);
    case Tick(d) =>
      assert Placed(s, "");
      MoveKeepsExclusive(s, Step(s, e), "");
    case _ => OtherKeepsExclusive(s, e);
  }

  lemma {:induction false} OtherKeepsExclusive(s: State, e: Event)
    requires Exclusive(s) && !e.Go? && !e.Tick?
    ensures Exclusive(Step(s, e))
  {
    LockUntouched(s, e);
    assert Placed(s, e.who);
    MoveKeepsExclusive(s, Step(s, e), e.who);
  }

  /** Only file operations touch the lock. */
  lemma {:induction false} LockUntouched(s: State, e: Event)
    requires !e.Go? && !e.Tick?
    ensures Step(s, e).file == s.file && Step(s, e).owns == s.owns
    ensures forall q :: q != e.who ==> PcOf(Step(s, e), q) == PcOf(s, q)
  {
  }

  // ---------- runs that meet all conditions ----------

  /** What the position of contender p implies about processes and about what it has read. */
  ghost predicate Prepared(s: State, p: string) {
    && (p in s.running ==> OwnPid(s, p) in s.alive && s.running[p] < StartedBy(s, p))
    && match PcOf(s, p)
       case Creating(_, _) => p in s.running
       case Writing(_, _, _) => p in s.running
       case Checking(_) => p in s.running
       case Reading(_) => p in s.running && s.file.Some?
       case Judging(_, seen) => s.file.Some? && seen == Look(s.file)
       case CommandReading => p in s.running
       case CommandTruncating(rec, child) => rec.pid == Some(child) && ChildOf(s, p, child)
       case CommandFilling(rec, child, _) => rec.pid == Some(child) && ChildOf(s, p, child)
       case CommandRunning(child) => ChildOf(s, p, child)
       case Dead => false
       case _ => true
  }

  predicate ChildOf(s: State, p: string, child: Pid) {
    child.of == p && child in s.alive && (p in s.running ==> child.number != s.running[p])
  }

  predicate Ending(pc: Pc) {
    (pc.ReleaseChecking? || pc.ReleaseReading? || pc.ReleaseUnlinking?) && pc.automatic
  }

  /** The process that a written lock names is its owner's and lives, except during the owner's
      automatic release. */
  predicate Vouched(s: State) {
    s.file.Some? && s.file.value.content.Written? ==>
      var creator, pid := s.file.value.creator, s.file.value.content.rec.pid;
      && pid.Some? && pid.value.of == creator
      && (pid.value in s.alive || Ending(PcOf(s, creator)))
  }

  /** At most one contender is inside what the conditions make one operation. */
  ghost predicate OnePressed(s: State) {
    forall p, q {:trigger Pressed(s, p, ALL), Pressed(s, q, ALL)} ::
      Pressed(s, p, ALL) && Pressed(s, q, ALL) ==> p == q
  }

  ghost predicate AllPrepared(s: State) {
    forall p {:trigger Prepared(s, p)} :: Prepared(s, p)
  }

  ghost predicate Calm(s: State) {
    Exclusive(s) && AllPrepared(s) && Vouched(s) && OnePressed(s) && !Lapsed(s)
  }

  /** Nobody judges a lock as anything but held. */
  lemma {:induction false} CalmHasNoFault(s: State, e: Event)
    requires Calm(s) && Meets(s, e, ALL)
    ensures FaultAt(s, e).None?
  {
    if e.Go? && PcOf(s, e.who).Judging? {
      assert Prepared(s, e.who) && Pressed(s, e.who, ALL);
      var creator := s.file.value.creator;
      assert creator != e.who ==> !Pressed(s, creator, ALL);
      assert Prepared(s, creator);
    }
  }

  /** What a step leaves to a contender that does not move. */
  ghost predicate Undisturbed(s: State, t: State, q: string) {
    && PcOf(t, q) == PcOf(s, q) && StartedBy(t, q) == StartedBy(s, q)
    && (q in t.running <==> q in s.running) && OwnPid(t, q) == OwnPid(s, q)
    && forall n {:trigger Pid(q, n)} :: Pid(q, n) in s.alive ==> Pid(q, n) in t.alive
  }

  lemma {:induction false} GoDisturbsNoOther(s: State, p: string, q: string)
    requires q != p
    ensures Undisturbed(s, Proceed(s, p), q)
  {
    if PcOf(s, p).CommandReading? {
      SpawnDisturbsNoOther(s, p, q);
    } else {
      GoKeepsProcesses(s, p);
      GoMovesOne(s, p, q);
    }
  }

  lemma {:induction false} SpawnDisturbsNoOther(s: State, p: string, q: string)
    requires q != p && PcOf(s, p).CommandReading?
    ensures Undisturbed(s, Proceed(s, p), q)
  {
  }

  /** Only the start of a command's process touches the processes. */
  lemma {:induction false} GoKeepsProcesses(s: State, p: string)
    requires !PcOf(s, p).CommandReading?
    ensures var t := Proceed(s, p); t.alive == s.alive && t.running == s.running && t.started == s.started
  {
  }

  lemma {:induction false} GoMovesOne(s: State, p: string, q: string)
    requires q != p && !PcOf(s, p).CommandReading?
    ensures PcOf(Proceed(s, p), q) == PcOf(s, q)
  {
  }

  lemma {:induction false} NoOtherDisturbed(s: State, e: Event, q: string)
    requires Prepared(s, if e.Tick? then q else e.who) && (e.Tick? || q != e.who)
    ensures Undisturbed(s, Step(s, e), q)
  {
    if e.Go? { GoDisturbsNoOther(s, e.who, q); }
  }

  /** Only the contender that moves can come to be pressed. */
  lemma {:induction false} StaysOnePressed(s: State, e: Event)
    requires OnePressed(s) && AllPrepared(s) && Meets(s, e, ALL)
    ensures OnePressed(Step(s, e))
  {
    var t := Step(s, e);
    forall p, q | Pressed(t, p, ALL) && Pressed(t, q, ALL)
      ensures p == q
    {
      PressedMoves(s, e, p);
      PressedMoves(s, e, q);
    }
  }

  lemma {:induction false} PressedMoves(s: State, e: Event, p: string)
    requires OnePressed(s) && AllPrepared(s) && Meets(s, e, ALL)
    ensures Pressed(Step(s, e), p, ALL) ==> !e.Tick? && e.who == p
  {
    if e.Tick? || e.who != p {
      assert Prepared(s, if e.Tick? then p else e.who);
      NoOtherDisturbed(s, e, p);
      assert Pressed(s, p, ALL) ==> e == Go(p);
    }
  }

  /** A step of one contender leaves the others prepared. */
  lemma {:induction false} OthersPrepared(s: State, e: Event, q: string)
    requires Calm(s) && Meets(s, e, ALL) && (e.Tick? || q != e.who)
    ensures Prepared(Step(s, e), q)
  {
    assert Prepared(s, q) && Prepared(s, if e.Tick? then q else e.who);
    assert Pressed(s, q, ALL) ==> e == Go(q);
    NoOtherDisturbed(s, e, q);
    StillPrepared(s, Step(s, e), q);
  }

  lemma {:induction false} StillPrepared(s: State, t: State, q: string)
    requires Prepared(s, q) && !Pressed(s, q, ALL) && Undisturbed(s, t, q)
    ensures Prepared(t, q)
  {
  }

  lemma {:induction false} MoverPrepared(s: State, e: Event)
    requires Calm(s) && Meets(s, e, ALL) && !e.Tick? && !e.Go?
    ensures Prepared(Step(s, e), e.who)
  {
    assert Prepared(s, e.who);
  }

  lemma {:induction false} GoPrepared(s: State, p: string)
    requires Calm(s) && Meets(s, Go(p), ALL)
    ensures Prepared(Proceed(s, p), p)
  {
    CalmHasNoFault(s, Go(p));
    assert Prepared(s, p) && Placed(s, p);
    if PcOf(s, p).Judging? { VerdictMeaning(PcOf(s, p).seen, s.now, s.alive); }
  }

  lemma {:induction false} StaysPrepared(s: State, e: Event)
    requires Calm(s) && Meets(s, e, ALL)
    ensures AllPrepared(Step(s, e))
  {
    forall q
      ensures Prepared(Step(s, e), q)
    {
      if e.Tick? || q != e.who {
        OthersPrepared(s, e, q);
      } else if e.Go? {
        GoPrepared(s, q);
      } else {
        MoverPrepared(s, e);
      }
    }
  }

  lemma {:induction false} StaysVouched(s: State, e: Event)
    requires Calm(s) && Meets(s, e, ALL) && !e.Go?
    ensures Vouched(Step(s, e))
  {
    if s.file.Some? {
      var creator := s.file.value.creator;
      assert Prepared(s, creator) && Placed(s, creator);
      if !e.Tick? {
        assert Prepared(s, e.who) && Placed(s, e.who);
      }
      assert Pressed(s, creator, ALL) ==> e == Go(creator);
    }
  }

  lemma {:induction false} GoVouched(s: State, p: string)
    requires Calm(s) && Meets(s, Go(p), ALL)
    ensures Vouched(Proceed(s, p))
  {
    CalmHasNoFault(s, Go(p));
    assert Prepared(s, p) && Placed(s, p);
    if PcOf(s, p).Judging? { VerdictMeaning(PcOf(s, p).seen, s.now, s.alive); }
    if s.file.Some? && s.file.value.creator != p {
      var creator := s.file.value.creator;
      assert Prepared(s, creator) && Placed(s, creator);
      assert Pressed(s, creator, ALL) ==> Go(p) == Go(creator);
    }
  }

  lemma {:induction false} StepKeepsCalm(s: State, e: Event)
    requires Calm(s) && Meets(s, e, ALL)
    ensures FaultAt(s, e).None? && Calm(Step(s, e))
  {
    CalmHasNoFault(s, e);
    StepKeepsExclusive(s, e);
    StaysPrepared(s, e);
    StaysOnePressed(s, e);
    if e.Go? {
      GoVouched(s, e.who);
    } else {
      StaysVouched(s, e);
    }
  }

  /** Mutual exclusion: if no holder dies or exits, no lease lapses, and content, look and release
      each happen at once, then in every interleaving of any number of contenders nobody finds a
      lock to take over and at most one acquire is unreleased. */
  lemma {:induction false} Exclusion(events: seq<Event>)
    requires MeetsAll(events, ALL)
    ensures NoFaults(events) && Calm(RunFrom(FREE, events))
    ensures |RunFrom(FREE, events).owns| <= 1
  {
    if events != [] {
      var before, e := events[..|events| - 1], events[|events| - 1];
      Exclusion(before);
      StepKeepsCalm(RunFrom(FREE, before), e);
    }
  }

  /** In such a run only the owner ever removes the lock file, and that releases it. */
  lemma {:induction false} OnlyOwnerRemoves(events: seq<Event>, e: Event)
    requires MeetsAll(events + [e], ALL)
    requires RunFrom(FREE, events).file.Some? && RunFrom(FREE, events + [e]).file.None?
    ensures
      var s := RunFrom(FREE, events);
      e.Go? && s.owns == {e.who} && s.file.value.creator == e.who && RunFrom(FREE, events + [e]).owns == {}
  {
    assert (events + [e])[..|events|] == events;
    Exclusion(events);
    var s := RunFrom(FREE, events);
    StepKeepsCalm(s, e);
    if e.Go? {
      assert Placed(s, e.who);
    }
  }

  // ---------- leases hold in runs that are short enough ----------

  /** Time that passes in a run. */
  function Elapsed(events: seq<Event>): nat {
    if events == [] then 0
    else
      var last := events[|events| - 1];
      Elapsed(events[..|events| - 1]) + if last.Tick? then last.elapsed else 0
  }

  ghost predicate LeasesLast(events: seq<Event>, bound: nat) {
    forall i :: 0 <= i < |events| && events[i].Acquire? ==> bound <= Effective(events[i].lease)
  }

  predicate LongLived(heartbeat: int, lease: int, bound: nat) {
    heartbeat >= 0 && bound <= Effective(lease)
  }

  /** Whatever contender p may still write carries a lease that lasts to the bound. */
  predicate Lasting(s: State, p: string, bound: nat) {
    match PcOf(s, p)
    case Creating(job, _) => LongLived(job.started, job.lease, bound)
    case Writing(job, _, started) => LongLived(job.started, job.lease, bound) && started >= 0
    case Checking(job) => LongLived(job.started, job.lease, bound)
    case Reading(job) => LongLived(job.started, job.lease, bound)
    case Judging(job, _) => LongLived(job.started, job.lease, bound)
    case Unlinking(job) => LongLived(job.started, job.lease, bound)
    case CommandTruncating(rec, _) => LongLived(rec.heartbeat, rec.lease, bound)
    case CommandFilling(rec, _, _) => LongLived(rec.heartbeat, rec.lease, bound)
    case _ => true
  }

  predicate FileLongLived(s: State, bound: nat) {
    s.file.Some? && s.file.value.content.Written? ==>
      LongLived(s.file.value.content.rec.heartbeat, s.file.value.content.rec.lease, bound)
  }

  ghost predicate Recent(s: State, bound: nat) {
    && 0 <= s.now <= bound
    && FileLongLived(s, bound)
    && forall p {:trigger Lasting(s, p, bound)} :: Lasting(s, p, bound)
  }

  /** What the mover may still write stays lasting, and so does the file. */
  lemma {:induction false} MoverLasts(s: State, p: string, bound: nat)
    requires Calm(s) && Recent(s, bound)
    ensures Lasting(Proceed(s, p), p, bound)
  {
    assert Placed(s, p) && Lasting(s, p, bound);
  }

  lemma {:induction false} FileLasts(s: State, p: string, bound: nat)
    requires Recent(s, bound)
    ensures FileLongLived(Proceed(s, p), bound)
  {
    assert Lasting(s, p, bound);
  }

  lemma {:induction false} GoKeepsRecent(s: State, p: string, bound: nat)
    requires Calm(s) && Recent(s, bound)
    ensures Recent(Proceed(s, p), bound)
  {
    MoverLasts(s, p, bound);
    FileLasts(s, p, bound);
    forall q
      ensures Lasting(Proceed(s, p), q, bound)
    {
      assert Lasting(s, q, bound);
      if q != p { GoDisturbsNoOther(s, p, q); }
    }
  }

  lemma {:induction false} OtherStepKeepsRecent(s: State, e: Event, bound: nat)
    requires Recent(s, bound) && !e.Go?
    requires e.Acquire? ==> bound <= Effective(e.lease)
    requires e.Tick? ==> s.now + e.elapsed <= bound
    ensures Recent(Step(s, e), bound)
  {
    forall q
      ensures Lasting(Step(s, e), q, bound)
    {
      assert Lasting(s, q, bound);
    }
  }

  lemma {:induction false} RecentIsNotLapsed(s: State, bound: nat)
    requires Recent(s, bound)
    ensures !Lapsed(s)
  {
  }

  lemma {:induction false} StepKeepsRecent(s: State, e: Event, bound: nat)
    requires Calm(s) && Recent(s, bound) && Meets(s, e, ALL - {LeasesHold})
    requires e.Acquire? ==> bound <= Effective(e.lease)
    requires e.Tick? ==> s.now + e.elapsed <= bound
    ensures Recent(Step(s, e), bound) && Meets(s, e, ALL)
  {
    if e.Go? {
      GoKeepsRecent(s, e.who, bound);
    } else {
      OtherStepKeepsRecent(s, e, bound);
    }
    RecentIsNotLapsed(Step(s, e), bound);
    forall p
      ensures Pressed(s, p, ALL) ==> e == Go(p)
    {
      assert Pressed(s, p, ALL - {LeasesHold}) == Pressed(s, p, ALL);
    }
  }

  lemma {:induction false} ShortRunIsCalm(events: seq<Event>, bound: nat)
    requires MeetsAll(events, ALL - {LeasesHold}) && LeasesLast(events, bound) && Elapsed(events) <= bound
    ensures MeetsAll(events, ALL) && Calm(RunFrom(FREE, events)) && Recent(RunFrom(FREE, events), bound)
    ensures RunFrom(FREE, events).now == Elapsed(events)
  {
    if events != [] {
      var before, e := events[..|events| - 1], events[|events| - 1];
      assert LeasesLast(before, bound) by {
        forall i | 0 <= i < |before| && before[i].Acquire?
          ensures bound <= Effective(before[i].lease)
        {
          assert before[i] == events[i];
        }
      }
      ShortRunIsCalm(before, bound);
      var s := RunFrom(FREE, before);
      StepKeepsRecent(s, e, bound);
      StepKeepsCalm(s, e);
      TimePasses(s, e);
    }
  }

  lemma {:induction false} TimePasses(s: State, e: Event)
    ensures Step(s, e).now == s.now + if e.Tick? then e.elapsed else 0
  {
  }

  /** If less time passes than any requested lease allows, leases need no further condition. */
  lemma {:induction false} ExclusionInShortRuns(events: seq<Event>)
    requires MeetsAll(events, ALL - {LeasesHold}) && LeasesLast(events, Elapsed(events))
    ensures NoFaults(events) && |RunFrom(FREE, events).owns| <= 1
  {
    ShortRunIsCalm(events, Elapsed(events));
    Exclusion(events);
  }

  // ---------- every condition is needed ----------

  /** The events lead from the free lock to s and meet all conditions but one. */
  ghost predicate Leads(events: seq<Event>, s: State, missing: Condition) {
    RunFrom(FREE, events) == s && MeetsAll(events, ALL - {missing})
  }

  /** Extends a run from the free lock by one event. */
  lemma {:induction false} Push(events: seq<Event>, s: State, e: Event, missing: Condition)
    returns (events': seq<Event>, s': State)
    requires Leads(events, s, missing) && Meets(s, e, ALL - {missing})
    ensures events' == events + [e] && s' == Step(s, e)
    ensures Leads(events', s', missing)
  {
    events', s' := events + [e], Step(s, e);
    assert events'[..|events|] == events;
  }

  /** Nobody but p is in the middle of what has to happen at once. */
  ghost predicate Alone(s: State, p: string, missing: Condition) {
    forall q {:trigger Pressed(s, q, ALL - {missing})} :: q != p ==> !Pressed(s, q, ALL - {missing})
  }

  predicate OnTime(s: State, missing: Condition) {
    missing.LeasesHold? || !Lapsed(s)
  }

  /** Only the latest position of a contender counts. */
  lemma {:induction false} PlacedAgain(pcs: map<string, Pc>, p: string, first: Pc, second: Pc)
    ensures pcs[p := first][p := second] == pcs[p := second]
  {
  }

  /** The next file operation of p. */
  lemma {:induction false} PushGo(events: seq<Event>, s: State, p: string, missing: Condition)
    returns (events': seq<Event>, s': State)
    requires Leads(events, s, missing) && Alone(s, p, missing) && OnTime(Proceed(s, p), missing)
    ensures s' == Proceed(s, p) && Leads(events', s', missing) && Alone(s', p, missing)
  {
    events', s' := Push(events, s, Go(p), missing);
    forall q | q != p
      ensures !Pressed(s', q, ALL - {missing})
    {
      GoDisturbsNoOther(s, p, q);
      assert !Pressed(s, q, ALL - {missing});
    }
  }

  /** p starts a command while nobody is pressed. */
  lemma {:induction false} PushAcquire(events: seq<Event>, s: State, p: string, lease: nat, command: bool,
                                       missing: Condition)
    returns (events': seq<Event>, s': State)
    requires Leads(events, s, missing) && Alone(s, p, missing) && PcOf(s, p).Idle? && OnTime(s, missing)
    ensures s' == Step(s, Acquire(p, lease, command)) && Leads(events', s', missing) && Alone(s', p, missing)
  {
    assert !Pressed(s, p, ALL - {missing});
    events', s' := Push(events, s, Acquire(p, lease, command), missing);
    forall q | q != p
      ensures !Pressed(s', q, ALL - {missing})
    {
      assert !Pressed(s, q, ALL - {missing});
    }
  }

  /** The state after p has acquired the free lock and written its payload. */
  function Taken(s: State, p: string, lease: nat, command: bool): State {
    var n := StartedBy(s, p);
    s.(file := Some(File(s.nextInode, p, Written(Record(Some(p), Some(Pid(p, n)), s.now, lease)))),
       nextInode := s.nextInode + 1, alive := s.alive + {Pid(p, n)}, running := s.running[p := n],
       started := s.started[p := n + 1], owns := s.owns + {p},
       pcs := s.pcs[p := if command then CommandReading else Idle])
  }

  lemma {:induction false} TakeSteps(s: State, p: string, lease: nat, command: bool)
    requires s.file.None? && PcOf(s, p).Idle? && p !in s.running
    ensures
      var created := Proceed(Step(s, Acquire(p, lease, command)), p);
      !Lapsed(created) && Proceed(created, p) == Taken(s, p, lease, command) && !Lapsed(Proceed(created, p))
  {
    var begun := Step(s, Acquire(p, lease, command));
    var job := Job(s.now, lease, command);
    assert begun.pcs == s.pcs[p := Creating(job, 1)];
    var created := Proceed(begun, p);
    assert created.file == Some(File(s.nextInode, p, Unwritten));
    assert PcOf(created, p) == Writing(job, s.nextInode, s.now);
    PlacedAgain(s.pcs, p, Creating(job, 1), Writing(job, s.nextInode, s.now));
    PlacedAgain(s.pcs, p, Writing(job, s.nextInode, s.now), if command then CommandReading else Idle);
    assert Proceed(created, p).pcs == Taken(s, p, lease, command).pcs;
  }

  lemma {:induction false} Take(events: seq<Event>, s: State, p: string, lease: nat, command: bool, missing: Condition)
    returns (events': seq<Event>, s': State)
    requires Leads(events, s, missing) && Alone(s, p, missing)
    requires s.file.None? && PcOf(s, p).Idle? && p !in s.running
    ensures Leads(events', s', missing) && Alone(s', p, missing) && s' == Taken(s, p, lease, command)
  {
    TakeSteps(s, p, lease, command);
    events', s' := PushAcquire(events, s, p, lease, command, missing);
    events', s' := PushGo(events', s', p, missing);
    events', s' := PushGo(events', s', p, missing);
  }

  /** The state after p, in the command form, has named its child process in the lock. */
  function Launched(s: State, p: string): State
    requires s.file.Some?
  {
    var child := Pid(p, StartedBy(s, p));
    var rec := RecordOf(Look(s.file)).(pid := Some(child));
    s.(file := Some(s.file.value.(content := Written(rec))), alive := s.alive + {child},
       started := s.started[p := StartedBy(s, p) + 1], pcs := s.pcs[p := CommandRunning(child)])
  }

  lemma {:induction false} LaunchSteps(s: State, p: string)
    requires s.file.Some? && PcOf(s, p).CommandReading? && !Lapsed(s) && s.file.value.content.Written?
    ensures
      var spawned := Proceed(s, p);
      var truncated := Proceed(spawned, p);
      !Lapsed(spawned) && !Lapsed(truncated) && Proceed(truncated, p) == Launched(s, p) && !Lapsed(Launched(s, p))
  {
    var spawned := Proceed(s, p);
    var truncated := Proceed(spawned, p);
    assert PcOf(truncated, p).CommandFilling? && truncated.file.Some?;
    assert Proceed(truncated, p).pcs == Launched(s, p).pcs;
  }

  lemma {:induction false} Launch(events: seq<Event>, s: State, p: string, missing: Condition)
    returns (events': seq<Event>, s': State)
    requires Leads(events, s, missing) && Alone(s, p, missing)
    requires s.file.Some? && PcOf(s, p).CommandReading? && !Lapsed(s) && s.file.value.content.Written?
    ensures Leads(events', s', missing) && Alone(s', p, missing) && s' == Launched(s, p)
  {
    LaunchSteps(s, p);
    events', s' := PushGo(events, s, p, missing);
    events', s' := PushGo(events', s', p, missing);
    events', s' := PushGo(events', s', p, missing);
  }

  /** p takes the free lock for a command and starts it. */
  lemma {:induction false} RunCommand(events: seq<Event>, s: State, p: string, lease: nat, missing: Condition)
    returns (events': seq<Event>, s': State)
    requires Leads(events, s, missing) && Alone(s, p, missing)
    requires s.file.None? && PcOf(s, p).Idle? && p !in s.running
    ensures Leads(events', s', missing) && Alone(s', p, missing) && s' == Launched(Taken(s, p, lease, true), p)
  {
    events', s' := Take(events, s, p, lease, true, missing);
    events', s' := Launch(events', s', p, missing);
  }

  /** The state after p has found the lock file there and is about to read it. */
  function Found(s: State, p: string): State {
    At(Begin(s, p), p, Reading(Job(s.now, 0, true)))
  }

  lemma {:induction false} FindSteps(s: State, p: string)
    requires s.file.Some? && PcOf(s, p).Idle?
    ensures
      var tried := Proceed(Step(s, Acquire(p, 0, true)), p);
      tried.file == s.file && tried.now == s.now && Proceed(tried, p) == Found(s, p)
  {
    var job := Job(s.now, 0, true);
    PlacedAgain(s.pcs, p, Creating(job, 1), Checking(job));
    PlacedAgain(s.pcs, p, Checking(job), Reading(job));
    assert Proceed(At(Begin(s, p), p, Creating(job, 1)), p) == At(Begin(s, p), p, Checking(job));
    assert Proceed(At(Begin(s, p), p, Checking(job)), p) == At(Begin(s, p), p, Reading(job));
  }

  lemma {:induction false} FindTaken(events: seq<Event>, s: State, p: string, missing: Condition)
    returns (events': seq<Event>, s': State)
    requires Leads(events, s, missing) && Alone(s, p, missing) && OnTime(s, missing)
    requires s.file.Some? && PcOf(s, p).Idle?
    ensures Leads(events', s', missing) && Alone(s', p, missing) && s' == Found(s, p)
  {
    FindSteps(s, p);
    events', s' := PushAcquire(events, s, p, 0, true, missing);
    events', s' := PushGo(events', s', p, missing);
    events', s' := PushGo(events', s', p, missing);
  }

  /** The state after p has judged the lock stale, deleted whatever was there and made its own. */
  function Overtaken(s: State, p: string): State
    requires PcOf(s, p).Judging?
  {
    s.(file := Some(File(s.nextInode, p, Unwritten)), nextInode := s.nextInode + 1, owns := s.owns + {p},
       pcs := s.pcs[p := Writing(PcOf(s, p).job, s.nextInode, s.now)])
  }

  lemma {:induction false} TakeOverSteps(s: State, p: string)
    requires PcOf(s, p).Judging? && FaultOf(PcOf(s, p).seen, s.now, s.alive).Some?
    ensures
      var judged := Proceed(s, p);
      var unlinked := Proceed(judged, p);
      && judged.file == s.file && judged.now == s.now && unlinked.file.None?
      && Proceed(unlinked, p) == Overtaken(s, p)
  {
    var job := PcOf(s, p).job;
    VerdictMeaning(PcOf(s, p).seen, s.now, s.alive);
    PlacedAgain(s.pcs, p, Unlinking(job), Creating(job, 3));
    PlacedAgain(s.pcs, p, Creating(job, 3), Writing(job, s.nextInode, s.now));
    assert Proceed(s, p) == At(s, p, Unlinking(job));
    assert Proceed(At(s, p, Unlinking(job)), p) == At(s.(file := None), p, Creating(job, 3));
    assert Proceed(At(s.(file := None), p, Creating(job, 3)), p) == Overtaken(s, p);
  }

  lemma {:induction false} TakeOver(events: seq<Event>, s: State, p: string, missing: Condition)
    returns (events': seq<Event>, s': State)
    requires Leads(events, s, missing) && Alone(s, p, missing) && OnTime(s, missing)
    requires PcOf(s, p).Judging? && FaultOf(PcOf(s, p).seen, s.now, s.alive).Some?
    ensures Leads(events', s', missing) && Alone(s', p, missing) && s' == Overtaken(s, p)
  {
    TakeOverSteps(s, p);
    events', s' := PushGo(events, s, p, missing);
    events', s' := PushGo(events', s', p, missing);
    events', s' := PushGo(events', s', p, missing);
  }

  /** p reads a lock it finds stale, and takes it over. */
  lemma {:induction false} ReadAndTakeOver(events: seq<Event>, s: State, p: string, missing: Condition)
    returns (events': seq<Event>, s': State)
    requires Leads(events, s, missing) && Alone(s, p, missing) && OnTime(s, missing)
    requires PcOf(s, p).Reading? && FaultOf(Look(s.file), s.now, s.alive).Some?
    ensures Leads(events', s', missing) && Alone(s', p, missing)
    ensures s' == Overtaken(At(s, p, Judging(PcOf(s, p).job, Look(s.file))), p)
  {
    events', s' := PushGo(events, s, p, missing);
    events', s' := TakeOver(events', s', p, missing);
  }

  /** p is at rest, so it is q's turn. */
  lemma {:induction false} Turn(s: State, p: string, q: string, missing: Condition)
    requires Alone(s, p, missing) && !Pressed(s, p, ALL - {missing})
    ensures Alone(s, q, missing)
  {
  }

  /** The command of p has ended, and its release has just found p's record in the lock. */
  function Ended(s: State, p: string): State
    requires PcOf(s, p).CommandRunning?
  {
    At(s.(alive := s.alive - {PcOf(s, p).child}), p, ReleaseUnlinking(true))
  }

  lemma {:induction false} EndCommand(events: seq<Event>, s: State, p: string, missing: Condition)
    returns (events': seq<Event>, s': State)
    requires Leads(events, s, missing) && Alone(s, p, missing) && OnTime(s, missing)
    requires PcOf(s, p).CommandRunning? && s.file.Some? && RecordOf(Look(s.file)).holder == Some(p)
    ensures Leads(events', s', missing) && Alone(s', p, missing) && s' == Ended(s, p)
  {
    var over := s.(alive := s.alive - {PcOf(s, p).child});
    events', s' := PushEnd(events, s, p, missing);
    assert s' == At(over, p, ReleaseChecking(true));
    events', s' := PushGo(events', s', p, missing);
    PlacedAgain(s.pcs, p, ReleaseChecking(true), ReleaseReading(true));
    assert s' == At(over, p, ReleaseReading(true));
    events', s' := PushGo(events', s', p, missing);
    PlacedAgain(s.pcs, p, ReleaseReading(true), ReleaseUnlinking(true));
  }

  /** The command of p ends and its lock is released at once. */
  lemma {:induction false} FinishCommand(events: seq<Event>, s: State, p: string, missing: Condition)
    returns (events': seq<Event>, s': State)
    requires Leads(events, s, missing) && Alone(s, p, missing) && OnTime(s, missing)
    requires PcOf(s, p).CommandRunning? && s.file.Some? && RecordOf(Look(s.file)).holder == Some(p)
    ensures Leads(events', s', missing) && Alone(s', p, missing)
    ensures s' == s.(file := None, alive := s.alive - {PcOf(s, p).child}, owns := s.owns - {p}, pcs := s.pcs[p := Idle])
  {
    events', s' := EndCommand(events, s, p, missing);
    events', s' := PushGo(events', s', p, missing);
    PlacedAgain(s.pcs, p, ReleaseUnlinking(true), Idle);
  }

  lemma {:induction false} PushEnd(events: seq<Event>, s: State, p: string, missing: Condition)
    returns (events': seq<Event>, s': State)
    requires Leads(events, s, missing) && Alone(s, p, missing) && OnTime(s, missing) && PcOf(s, p).CommandRunning?
    ensures s' == Step(s, CommandEnds(p)) && Leads(events', s', missing) && Alone(s', p, missing)
  {
    assert !Pressed(s, p, ALL - {missing});
    events', s' := Push(events, s, CommandEnds(p), missing);
    forall q | q != p
      ensures !Pressed(s', q, ALL - {missing})
    {
      assert !Pressed(s, q, ALL - {missing});
    }
  }

  /** A contender that reads between the create and the payload write takes the lock over. */
  lemma {:induction false} BlankReadBreaksExclusion() returns (events: seq<Event>, s: State)
    ensures Leads(events, s, WritesAtOnce) && s.owns == {"a", "b"}
  {
    events, s := PushAcquire([], FREE, "a", 0, true, WritesAtOnce);
    events, s := PushGo(events, s, "a", WritesAtOnce);
    Turn(s, "a", "b", WritesAtOnce);
    events, s := FindTaken(events, s, "b", WritesAtOnce);
    events, s := ReadAndTakeOver(events, s, "b", WritesAtOnce);
  }

  /** A lapsed lease hands the lock to a second contender while the first one's command runs. */
  lemma {:induction false} LapsedLeaseBreaksExclusion() returns (events: seq<Event>, s: State)
    ensures Leads(events, s, LeasesHold) && s.owns == {"a", "b"}
  {
    events, s := RunCommand([], FREE, "a", 10, LeasesHold);
    assert !Pressed(s, "a", ALL - {LeasesHold});
    events, s := Push(events, s, Tick(11), LeasesHold);
    assert Alone(s, "b", LeasesHold);
    events, s := FindTaken(events, s, "b", LeasesHold);
    events, s := ReadAndTakeOver(events, s, "b", LeasesHold);
  }

  /** Contender b has found the lock of a's running command there and is about to read it. */
  lemma {:induction false} AboutToRead(a: string, b: string) returns (events: seq<Event>, s: State)
    requires a != b
    ensures Leads(events, s, ReadsAtOnce) && Alone(s, b, ReadsAtOnce) && OnTime(s, ReadsAtOnce)
    ensures PcOf(s, b).Reading? && PcOf(s, a).CommandRunning?
    ensures s.file.Some? && RecordOf(Look(s.file)).holder == Some(a)
    ensures s.owns == {a} && s.pcs.Keys == {a, b} && s.running.Keys == {a, b} && s.now == 0
  {
    events, s := RunCommand([], FREE, a, 0, ReadsAtOnce);
    Turn(s, a, b, ReadsAtOnce);
    events, s := FindTaken(events, s, b, ReadsAtOnce);
  }

  /** A lock released between a contender's existence check and its read reads as vanished. */
  lemma {:induction false} VanishedRead(a: string, b: string) returns (events: seq<Event>, s: State)
    requires a != b
    ensures Leads(events, s, ReadsAtOnce) && Alone(s, b, ReadsAtOnce) && !Pressed(s, b, ALL - {ReadsAtOnce})
    ensures PcOf(s, b).Judging? && PcOf(s, b).seen.Vanished?
    ensures s.file.None? && s.owns == {} && s.pcs.Keys == {a, b} && s.running.Keys == {a, b} && s.now == 0
  {
    events, s := AboutToRead(a, b);
    Turn(s, b, a, ReadsAtOnce);
    events, s := FinishCommand(events, s, a, ReadsAtOnce);
    Turn(s, a, b, ReadsAtOnce);
    events, s := PushGo(events, s, b, ReadsAtOnce);
  }

  /** The existence check and the read are two operations: a lock released in between reads
      as stale, and the reader then deletes the next owner's lock. */
  lemma {:induction false} VanishedReadBreaksExclusion() returns (events: seq<Event>, s: State)
    ensures Leads(events, s, ReadsAtOnce) && s.owns == {"b", "c"}
  {
    events, s := VanishedRead("a", "b");
    Turn(s, "b", "c", ReadsAtOnce);
    events, s := RunCommand(events, s, "c", 0, ReadsAtOnce);
    Turn(s, "c", "b", ReadsAtOnce);
    events, s := TakeOver(events, s, "b", ReadsAtOnce);
  }

  /** The first command ever has ended, and its release is about to unlink. */
  ghost predicate AboutToUnlink(s: State, p: string) {
    && s.file.Some? && s.file.value.content.Written? && s.owns == {p} && s.now == 0
    && s.file.value.content.rec == Record(Some(p), Some(Pid(p, 1)), 0, 0) && Pid(p, 1) !in s.alive
    && s.pcs == map[p := ReleaseUnlinking(true)] && s.running.Keys == {p}
  }

  lemma {:induction false} FirstCommandEnds(p: string)
    ensures
      var s := Launched(Taken(FREE, p, 0, true), p);
      PcOf(s, p).CommandRunning? && AboutToUnlink(Ended(s, p), p)
  {
    var s := Taken(FREE, p, 0, true);
    var t := Launched(s, p);
    assert s.pcs == map[p := CommandReading] && StartedBy(s, p) == 1;
    assert t.pcs == map[p := CommandRunning(Pid(p, 1))];
    assert Ended(t, p).pcs == map[p := ReleaseUnlinking(true)];
  }

  /** A contender that looks at the lock of an ended command takes it over and writes its own. */
  lemma {:induction false} OvertakeSteps(s: State, p: string, q: string)
    requires AboutToUnlink(s, p) && p != q
    ensures
      var found := Found(s, q);
      && PcOf(s, q).Idle? && FaultOf(Look(found.file), found.now, found.alive).Some? && found.file == s.file
      && var t := Proceed(Overtaken(At(found, q, Judging(PcOf(found, q).job, Look(found.file))), q), q);
         && t.file.Some? && t.file.value.content.Written? && !Lapsed(t) && t.owns == {p, q}
         && t.running.Keys == {p, q} && t.now == 0 && t.pcs == map[p := ReleaseUnlinking(true), q := CommandReading]
  {
    var found := Found(s, q);
    var job := Job(0, 0, true);
    assert found.pcs == map[p := ReleaseUnlinking(true), q := Reading(job)];
    assert Pid(p, 1) !in found.alive;
    var judging := At(found, q, Judging(job, Look(found.file)));
    PlacedAgain(s.pcs, q, Reading(job), Judging(job, Look(found.file)));
    OvertakeWrites(judging, p, q, job);
  }

  lemma {:induction false} OvertakeWrites(s: State, p: string, q: string, job: Job)
    requires p != q && PcOf(s, q).Judging? && PcOf(s, q).job == job == Job(0, 0, true) && s.now == 0 && s.owns == {p}
    requires s.pcs.Keys == {p, q} && s.pcs[p] == ReleaseUnlinking(true) && s.running.Keys == {p, q}
    ensures
      var t := Proceed(Overtaken(s, q), q);
      && t.file.Some? && t.file.value.content.Written? && !Lapsed(t) && t.owns == {p, q}
      && t.running.Keys == {p, q} && t.now == 0 && t.pcs == map[p := ReleaseUnlinking(true), q := CommandReading]
  {
    var over := Overtaken(s, q);
    assert over.pcs == map[p := ReleaseUnlinking(true), q := Writing(job, s.nextInode, 0)];
    assert Proceed(over, q).pcs == over.pcs[q := CommandReading];
  }

  lemma {:induction false} Overtake(events: seq<Event>, s: State, p: string, q: string)
    returns (events': seq<Event>, s': State)
    requires Leads(events, s, ReleasesAtOnce) && Alone(s, p, ReleasesAtOnce) && AboutToUnlink(s, p) && p != q
    ensures Leads(events', s', ReleasesAtOnce) && Alone(s', q, ReleasesAtOnce)
    ensures s'.file.Some? && s'.owns == {p, q} && s'.running.Keys == {p, q} && s'.now == 0
    ensures s'.pcs == map[p := ReleaseUnlinking(true), q := CommandReading]
  {
    OvertakeSteps(s, p, q);
    Turn(s, p, q, ReleasesAtOnce);
    events', s' := FindTaken(events, s, q, ReleasesAtOnce);
    events', s' := ReadAndTakeOver(events', s', q, ReleasesAtOnce);
    events', s' := PushGo(events', s', q, ReleasesAtOnce);
  }

  /** The release of p then deletes the lock of q. */
  lemma {:induction false} LateUnlink(events: seq<Event>, s: State, p: string, q: string)
    returns (events': seq<Event>, s': State)
    requires Leads(events, s, ReleasesAtOnce) && Alone(s, q, ReleasesAtOnce) && p != q
    requires s.file.Some? && s.owns == {p, q} && s.now == 0
    requires s.pcs == map[p := ReleaseUnlinking(true), q := CommandReading]
    ensures Leads(events', s', ReleasesAtOnce) && Alone(s', p, ReleasesAtOnce)
    ensures s'.file.None? && s'.owns == {q} && s'.running == s.running
    ensures s'.pcs == map[p := Idle, q := CommandReading]
  {
    Turn(s, q, p, ReleasesAtOnce);
    assert Proceed(s, p) == At(s.(file := None, owns := s.owns - {p}), p, Idle);
    events', s' := PushGo(events, s, p, ReleasesAtOnce);
    FirstAgain(p, q, ReleaseUnlinking(true), CommandReading, Idle);
  }

  lemma {:induction false} FirstAgain(p: string, q: string, x: Pc, y: Pc, z: Pc)
    requires p != q
    ensures map[p := x, q := y][p := z] == map[p := z, q := y]
  {
  }

  /** The recorded process is over from the end of the command until the release.  A contender
      that judges in that window takes the lock over, and the late release then deletes the
      contender's lock, while its command is about to start. */
  lemma {:induction false} CommandEndBreaksExclusion() returns (events: seq<Event>, s: State)
    ensures Leads(events, s, ReleasesAtOnce) && s.owns == {"b", "c"}
  {
    FirstCommandEnds("a");
    events, s := RunCommand([], FREE, "a", 0, ReleasesAtOnce);
    events, s := EndCommand(events, s, "a", ReleasesAtOnce);
    events, s := Overtake(events, s, "a", "b");
    events, s := LateUnlink(events, s, "a", "b");
    Turn(s, "a", "c", ReleasesAtOnce);
    events, s := Take(events, s, "c", 0, true, ReleasesAtOnce);
  }

  /** In the plain form the lock names the acquire command itself.  Once that process has exited
      any other contender takes the lock over, whatever the lease: the plain form excludes nobody
      after it returns. */
  lemma {:induction false} PlainFormExcludesNobody(p: string, q: string, lease: nat)
    returns (events: seq<Event>, s: State)
    requires p != q
    ensures Leads(events, s, HoldersStay) && s.owns == {p, q} && s.now == 0
  {
    events, s := Take([], FREE, p, lease, false, HoldersStay);
    events, s := Push(events, s, Exits(p), HoldersStay);
    assert Alone(s, q, HoldersStay);
    events, s := FindTaken(events, s, q, HoldersStay);
    events, s := ReadAndTakeOver(events, s, q, HoldersStay);
  }

  lemma {:induction false} MeetsFewer(events: seq<Event>, few: set<Condition>, many: set<Condition>)
    requires MeetsAll(events, many) && few <= many
    ensures MeetsAll(events, few)
  {
    if events != [] {
      var before, e := events[..|events| - 1], events[|events| - 1];
      MeetsFewer(before, few, many);
      var s := RunFrom(FREE, before);
      forall p
        ensures Pressed(s, p, few) ==> e == Go(p)
      {
        assert Pressed(s, p, few) ==> Pressed(s, p, many);
      }
    }
  }

  /** Without any one of the conditions there is a run with two unreleased acquires. */
  lemma {:induction false} EveryConditionIsNeeded(missing: Condition) returns (events: seq<Event>)
    ensures MeetsAll(events, ALL - {missing}) && |RunFrom(FREE, events).owns| == 2
  {
    var s;
    match missing
    case HoldersStay => events, s := PlainFormExcludesNobody("a", "b", 0);
    case LeasesHold => events, s := LapsedLeaseBreaksExclusion();
    case WritesAtOnce => events, s := BlankReadBreaksExclusion();
    case ReadsAtOnce => events, s := VanishedReadBreaksExclusion();
    case ReleasesAtOnce => events, s := CommandEndBreaksExclusion();
  }

  /** Exactly when the lock excludes: a set of conditions rules out a second unreleased acquire in
      every run that meets them if and only if it has all five. */
  lemma {:induction false} ExclusionIff(conditions: set<Condition>)
    ensures (forall events :: MeetsAll(events, conditions) ==> |RunFrom(FREE, events).owns| <= 1)
            <==> ALL <= conditions
  {
    if ALL <= conditions {
      forall events | MeetsAll(events, conditions)
        ensures |RunFrom(FREE, events).owns| <= 1
      {
        MeetsFewer(events, ALL, conditions);
        Exclusion(events);
      }
    } else {
      var missing :| missing in ALL && missing !in conditions;
      var events := EveryConditionIsNeeded(missing);
      assert conditions <= ALL - {missing} by {
        forall c | c in conditions
          ensures c in ALL - {missing}
        {
          assert c.HoldersStay? || c.LeasesHold? || c.WritesAtOnce? || c.ReadsAtOnce? || c.ReleasesAtOnce?;
        }
      }
      MeetsFewer(events, conditions, ALL - {missing});
    }
  }
}
