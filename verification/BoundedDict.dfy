/** A dictionary bounded by entry age and by entry count.

    Python dictionaries keep insertion order, so the content is a sequence of slots; an
    overwritten key keeps its position. Times are whole ticks of the clock, read by the caller.
 */
module BoundedDict {
  import opened Options

  /** Ticks: nanoseconds, far below the resolution of the source's clock. */
  type Time = int

  const SECOND: Time := 1_000_000_000
  const DEFAULT_TTL: Time := 86400 * SECOND
  const DEFAULT_MAX := 1024

  type Fields = map<string, string>

  datatype Slot = Slot(key: string, fields: Fields, ts: Time)

  datatype Op =
    | Write(key: string, fields: Fields, now: Time)
    | Delete(key: string)

  predicate Distinct(data: seq<Slot>) {
    forall i, j :: 0 <= i < j < |data| ==> data[i].key != data[j].key
  }

  predicate Has(data: seq<Slot>, key: string) {
    exists s :: s in data && s.key == key
  }

  /** The entry stored for a written value: its own "ts" field, if any, is replaced by the clock. */
  function Stamp(key: string, fields: Fields, now: Time): Slot {
    Slot(key, fields - {"ts"}, now)
  }

  /** Position of a key, or the length when it is absent. */
  function Find(data: seq<Slot>, key: string): nat {
    if data == [] || data[0].key == key then 0 else 1 + Find(data[1..], key)
  }

  predicate Expired(s: Slot, now: Time, ttl: Time) {
    now - s.ts > ttl
  }

  function Sweep(data: seq<Slot>, now: Time, ttl: Time): seq<Slot> {
    if data == [] then []
    else if Expired(data[0], now, ttl) then Sweep(data[1..], now, ttl)
    else [data[0]] + Sweep(data[1..], now, ttl)
  }

  /** Index of the first slot with the smallest time stamp. */
  function Oldest(data: seq<Slot>): (r: nat)
    requires data != []
    ensures r < |data|
  {
    if |data| == 1 then 0
    else
      var rest := Oldest(data[1..]);
      if data[0].ts <= data[1..][rest].ts then 0 else 1 + rest
  }

  function Removed(data: seq<Slot>, i: nat): seq<Slot>
    requires i < |data|
  {
    data[..i] + data[i + 1..]
  }

  function DeleteKey(data: seq<Slot>, key: string): seq<Slot> {
    var i := Find(data, key);
    if i < |data| then Removed(data, i) else data
  }

  function Evict(data: seq<Slot>, max: nat): seq<Slot>
    requires max > 0
    decreases |data|
  {
    if |data| < max then data
    else Evict(Removed(data, Oldest(data)), max)
  }

  function Put(data: seq<Slot>, s: Slot): seq<Slot> {
    var i := Find(data, s.key);
    if i < |data| then data[i := s] else data + [s]
  }

  function Apply(data: seq<Slot>, op: Op, ttl: Time, max: nat): seq<Slot>
    requires max > 0
  {
    match op
    case Write(key, fields, now) => Put(Evict(Sweep(data, now, ttl), max), Stamp(key, fields, now))
    case Delete(key) => DeleteKey(data, key)
  }

  // ---------- runs ----------

  function After(run: seq<Op>, ttl: Time, max: nat): seq<Slot>
    requires max > 0
  {
    if run == [] then []
    else Apply(After(run[..|run| - 1], ttl, max), run[|run| - 1], ttl, max)
  }

  /** What a dictionary without any bound would hold for a key. */
  function Latest(run: seq<Op>, key: string): Option<Slot> {
    if run == [] then None
    else
      var op := run[|run| - 1];
      if op.key != key then Latest(run[..|run| - 1], key)
      else if op.Write? then Some(Stamp(op.key, op.fields, op.now)) else None
  }

  /** The last operation on a key, unless it is a deletion. */
  function LastWrite(run: seq<Op>, key: string): (r: Option<Op>)
    ensures r.Some? ==> r.value.Write?
  {
    if run == [] then None
    else
      var op := run[|run| - 1];
      if op.key != key then LastWrite(run[..|run| - 1], key) else if op.Write? then Some(op) else None
  }

  /** The slot has the key, the clock of the write, and every field written but "ts". */
  predicate Stores(s: Slot, op: Op)
    requires op.Write?
  {
    && s.key == op.key && s.ts == op.now && "ts" !in s.fields
    && (forall name :: name in op.fields && name != "ts" ==> name in s.fields && s.fields[name] == op.fields[name])
    && (forall name :: name in s.fields ==> name in op.fields)
  }

  /** The write is what the content has under its key. */
  predicate Stored(data: seq<Slot>, op: Op)
    requires op.Write?
  {
    exists s :: s in data && Stores(s, op)
  }

  lemma {:induction false} StampStores(op: Op)
    requires op.Write?
    ensures Stores(Stamp(op.key, op.fields, op.now), op)
  {
  }

  /** The clock never runs backwards. */
  predicate Clocked(run: seq<Op>) {
    forall i, j :: 0 <= i <= j < |run| && run[i].Write? && run[j].Write? ==> run[i].now <= run[j].now
  }

  /** Every slot in `kept` comes from `data`, and what was dropped is no newer than what stayed. */
  predicate Trimmed(data: seq<Slot>, kept: seq<Slot>) {
    && Distinct(kept)
    && (forall s :: s in kept ==> s in data)
    && (forall s, t :: s in data && s !in kept && t in kept ==> s.ts <= t.ts)
  }

  predicate NoNewerThan(s: Slot, data: seq<Slot>) {
    forall t :: t in data ==> s.ts <= t.ts
  }

  /** The bounded content agrees with the unbounded one on key. */
  predicate Agrees(data: seq<Slot>, run: seq<Op>, key: string) {
    match Latest(run, key)
    case None => !Has(data, key)
    case Some(s) => if Has(data, key) then s in data else NoNewerThan(s, data)
  }

  // ---------- facts about the operations ----------

  lemma {:induction false} FindFacts(data: seq<Slot>, key: string)
    ensures Find(data, key) <= |data|
    ensures Find(data, key) < |data| ==> data[Find(data, key)].key == key
    ensures forall i :: 0 <= i < Find(data, key) ==> data[i].key != key
    ensures Find(data, key) < |data| <==> Has(data, key)
  {
    if data == [] || data[0].key == key {
    } else {
      FindFacts(data[1..], key);
      assert data == [data[0]] + data[1..];
      forall i | 0 <= i < Find(data, key) ensures data[i].key != key {
        if i > 0 { assert data[i] == data[1..][i - 1]; }
      }
    }
  }

  lemma {:induction false} SweepFacts(data: seq<Slot>, now: Time, ttl: Time)
    ensures forall s :: s in Sweep(data, now, ttl) <==> s in data && !Expired(s, now, ttl)
    ensures |Sweep(data, now, ttl)| <= |data|
    ensures Distinct(data) ==> Distinct(Sweep(data, now, ttl))
  {
    if data != [] {
      SweepFacts(data[1..], now, ttl);
      assert data == [data[0]] + data[1..];
      var tail := Sweep(data[1..], now, ttl);
      if Distinct(data) && !Expired(data[0], now, ttl) {
        forall j | 0 <= j < |tail| ensures tail[j].key != data[0].key {
          assert tail[j] in data[1..];
        }
      }
    }
  }

  lemma {:induction false} SweepTrims(data: seq<Slot>, now: Time, ttl: Time)
    requires Distinct(data)
    ensures Trimmed(data, Sweep(data, now, ttl))
  {
    SweepFacts(data, now, ttl);
  }

  /** The slot chosen for eviction is the oldest, and the first among equals. */
  lemma {:induction false} OldestFacts(data: seq<Slot>)
    requires data != []
    ensures Oldest(data) < |data|
    ensures forall i :: 0 <= i < |data| ==> data[Oldest(data)].ts <= data[i].ts
    ensures forall i :: 0 <= i < Oldest(data) ==> data[Oldest(data)].ts < data[i].ts
  {
    if |data| > 1 {
      OldestFacts(data[1..]);
      var r := Oldest(data);
      forall i | 0 <= i < |data| ensures data[r].ts <= data[i].ts && (i < r ==> data[r].ts < data[i].ts) {
        if i > 0 { assert data[i] == data[1..][i - 1]; }
      }
    }
  }

  lemma {:induction false} RemovedFacts(data: seq<Slot>, i: nat)
    requires i < |data| && Distinct(data)
    ensures Distinct(Removed(data, i))
    ensures forall s :: s in Removed(data, i) <==> s in data && s != data[i]
    ensures !Has(Removed(data, i), data[i].key)
  {
    var out := Removed(data, i);
    forall s | s in data && s != data[i] ensures s in out {
      var j :| 0 <= j < |data| && data[j] == s;
      if j < i { assert out[j] == s; } else { assert out[j - 1] == s; }
    }
  }

  /** Making room drops at most one slot of a dictionary within its bound: the oldest, when full. */
  lemma {:induction false} EvictOne(data: seq<Slot>, max: nat)
    requires 0 < max && |data| <= max
    ensures |data| < max ==> Evict(data, max) == data
    ensures |data| == max ==> Oldest(data) < |data| && Evict(data, max) == Removed(data, Oldest(data))
  {
    if |data| == max {
      var rest := Removed(data, Oldest(data));
      assert Evict(rest, max) == rest;
    }
  }

  lemma {:induction false} EvictTrims(data: seq<Slot>, max: nat)
    requires Distinct(data) && 0 < max && |data| <= max
    ensures Trimmed(data, Evict(data, max)) && |Evict(data, max)| < max
  {
    EvictOne(data, max);
    if |data| == max {
      OldestFacts(data);
      RemovedFacts(data, Oldest(data));
    }
  }

  lemma {:induction false} PutFacts(data: seq<Slot>, s: Slot)
    requires Distinct(data)
    ensures Distinct(Put(data, s))
    ensures forall t :: t in Put(data, s) <==> t == s || (t in data && t.key != s.key)
    ensures |Put(data, s)| == |data| + (if Has(data, s.key) then 0 else 1)
  {
    FindFacts(data, s.key);
    var i := Find(data, s.key);
    if i < |data| {
      forall t | t in data && t.key != s.key ensures t in Put(data, s) {
        var j :| 0 <= j < |data| && data[j] == t;
        assert Put(data, s)[j] == t;
      }
      assert Put(data, s)[i] == s;
    }
  }

  // ---------- what every run keeps ----------

  /** What a write leaves in place of the old content. */
  lemma {:induction false} WriteTrims(data: seq<Slot>, now: Time, ttl: Time, max: nat)
    requires Distinct(data) && 0 < max && |data| <= max
    ensures Trimmed(data, Evict(Sweep(data, now, ttl), max))
    ensures |Evict(Sweep(data, now, ttl), max)| < max
  {
    SweepFacts(data, now, ttl);
    SweepTrims(data, now, ttl);
    var swept := Sweep(data, now, ttl);
    EvictTrims(swept, max);
  }

  lemma {:induction false} ApplyBound(data: seq<Slot>, op: Op, ttl: Time, max: nat)
    requires Distinct(data) && 0 < max && |data| <= max
    ensures Distinct(Apply(data, op, ttl, max)) && |Apply(data, op, ttl, max)| <= max
  {
    FindFacts(data, op.key);
    match op
    case Write(key, fields, now) =>
      WriteTrims(data, now, ttl, max);
      PutFacts(Evict(Sweep(data, now, ttl), max), Stamp(key, fields, now));
    case Delete(key) =>
      if Has(data, key) { RemovedFacts(data, Find(data, key)); }
  }

  lemma {:induction false} DistinctSize(data: seq<Slot>)
    requires Distinct(data)
    ensures |set s | s in data| == |data|
  {
    if data != [] {
      var rest := data[1..];
      DistinctSize(rest);
      assert forall s :: s in data <==> s == data[0] || s in rest;
      assert data[0] !in rest;
      assert (set s | s in data) == (set s | s in rest) + {data[0]};
    }
  }

  /** The entries whose age is within the lifetime. */
  function Fresh(data: seq<Slot>, now: Time, ttl: Time): set<Slot> {
    set s | s in data && now <= s.ts + ttl
  }

  /** A write stores its value under the key, once; whatever else is there was there before and is
      within its lifetime; and everything that is stays if there is room for it. */
  lemma {:induction false} WriteLeaves(data: seq<Slot>, op: Op, ttl: Time, max: nat)
    requires Distinct(data) && 0 < max && |data| <= max && op.Write?
    ensures
      var next := Apply(data, op, ttl, max);
      && Stored(next, op)
      && (forall s :: s in next && s.key == op.key ==> Stores(s, op))
      && (forall s :: s in next && s.key != op.key ==> s in Fresh(data, op.now, ttl))
      && (|Fresh(data, op.now, ttl)| < max ==>
            forall s :: s in Fresh(data, op.now, ttl) && s.key != op.key ==> s in next)
  {
    var swept := Sweep(data, op.now, ttl);
    SweepFacts(data, op.now, ttl);
    WriteTrims(data, op.now, ttl, max);
    EvictTrims(swept, max);
    PutFacts(Evict(swept, max), Stamp(op.key, op.fields, op.now));
    StampStores(op);
    DistinctSize(swept);
    assert (set s | s in swept) == Fresh(data, op.now, ttl);
  }

  /** Any run, whatever the clock does: no key twice, and never more than max entries. */
  lemma {:induction false} NeverOverfull(run: seq<Op>, ttl: Time, max: nat)
    requires max > 0
    ensures Distinct(After(run, ttl, max)) && |After(run, ttl, max)| <= max
  {
    if run != [] {
      NeverOverfull(run[..|run| - 1], ttl, max);
      ApplyBound(After(run[..|run| - 1], ttl, max), run[|run| - 1], ttl, max);
    }
  }

  lemma {:induction false} LatestIsEarlier(run: seq<Op>, key: string, now: Time)
    requires forall i :: 0 <= i < |run| && run[i].Write? ==> run[i].now <= now
    ensures Latest(run, key).Some? ==> Latest(run, key).value.ts <= now && Latest(run, key).value.key == key
  {
    if run != [] && run[|run| - 1].key != key {
      LatestIsEarlier(run[..|run| - 1], key, now);
    }
  }

  /** A key keeps its agreement when old entries are dropped to make room. */
  lemma {:induction false} TrimAgrees(data: seq<Slot>, kept: seq<Slot>, run: seq<Op>, key: string)
    requires Distinct(data) && Trimmed(data, kept) && Agrees(data, run, key)
    requires Latest(run, key).Some? ==> Latest(run, key).value.key == key
    ensures Agrees(kept, run, key)
  {
    if Latest(run, key).Some? {
      var s := Latest(run, key).value;
      if Has(kept, key) {
        var t :| t in kept && t.key == key;
        assert Has(data, key) && s == t;
      } else if Has(data, key) {
        assert s !in kept;
      }
    }
  }

  /** The dictionary no longer holds the latest write of the key, and that was stamped after now. */
  predicate LostNewer(kept: seq<Slot>, run: seq<Op>, key: string, now: Time) {
    Latest(run, key).Some? && !Has(kept, key) && Latest(run, key).value.ts > now
  }

  /** A write keeps a key's agreement exactly when the key is the written one or not lost and newer. */
  lemma {:induction false} WriteAgrees(kept: seq<Slot>, run: seq<Op>, op: Op, key: string)
    requires Distinct(kept) && op.Write? && Agrees(kept, run, key)
    requires Latest(run, key).Some? ==> Latest(run, key).value.key == key
    ensures Agrees(Put(kept, Stamp(op.key, op.fields, op.now)), run + [op], key)
            <==> key == op.key || !LostNewer(kept, run, key, op.now)
  {
    var s := Stamp(op.key, op.fields, op.now);
    PutFacts(kept, s);
    assert (run + [op])[..|run|] == run;
    var out := Put(kept, s);
    assert s in out;
    if key != op.key {
      assert Has(out, key) <==> Has(kept, key) by {
        forall t | t in kept && t.key == key ensures t in out {}
      }
    }
  }

  lemma {:induction false} DeleteAgrees(data: seq<Slot>, run: seq<Op>, op: Op, key: string)
    requires Distinct(data) && op.Delete? && Agrees(data, run, key)
    requires Latest(run, key).Some? ==> Latest(run, key).value.key == key
    ensures Agrees(DeleteKey(data, op.key), run + [op], key)
  {
    FindFacts(data, op.key);
    assert (run + [op])[..|run|] == run;
    if Has(data, op.key) {
      var i := Find(data, op.key);
      RemovedFacts(data, i);
      if key != op.key {
        assert Has(Removed(data, i), key) <==> Has(data, key);
      }
    }
  }

  ghost predicate AllAgree(data: seq<Slot>, run: seq<Op>) {
    forall key :: Agrees(data, run, key)
  }

  /** All keys agree after every operation of the run. */
  ghost predicate AgreesThroughout(run: seq<Op>, ttl: Time, max: nat)
    requires max > 0
  {
    AllAgree(After(run, ttl, max), run) && (run == [] || AgreesThroughout(run[..|run| - 1], ttl, max))
  }

  /** The write comes with a clock behind that of another key's latest write which the
      dictionary has dropped, now or before. */
  ghost predicate WritesBehind(before: seq<Op>, op: Op, ttl: Time, max: nat)
    requires max > 0 && op.Write?
  {
    var kept := Evict(Sweep(After(before, ttl, max), op.now, ttl), max);
    exists key :: key != op.key && LostNewer(kept, before, key, op.now)
  }

  /** No write of the run does. */
  ghost predicate NeverBehind(run: seq<Op>, ttl: Time, max: nat)
    requires max > 0
  {
    run == [] || (NeverBehind(run[..|run| - 1], ttl, max)
                  && (run[|run| - 1].Write? ==> !WritesBehind(run[..|run| - 1], run[|run| - 1], ttl, max)))
  }

  lemma {:induction false} WriteAgreesIff(before: seq<Op>, op: Op, ttl: Time, max: nat)
    requires max > 0 && op.Write? && AllAgree(After(before, ttl, max), before)
    ensures AllAgree(Apply(After(before, ttl, max), op, ttl, max), before + [op])
            <==> !WritesBehind(before, op, ttl, max)
  {
    var data := After(before, ttl, max);
    var kept := Evict(Sweep(data, op.now, ttl), max);
    NeverOverfull(before, ttl, max);
    WriteTrims(data, op.now, ttl, max);
    forall key
      ensures Agrees(Apply(data, op, ttl, max), before + [op], key)
              <==> key == op.key || !LostNewer(kept, before, key, op.now)
    {
      LatestHasKey(before, key);
      TrimAgrees(data, kept, before, key);
      WriteAgrees(kept, before, op, key);
    }
  }

  lemma {:induction false} DeleteAgreesAll(before: seq<Op>, op: Op, ttl: Time, max: nat)
    requires max > 0 && op.Delete? && AllAgree(After(before, ttl, max), before)
    ensures AllAgree(Apply(After(before, ttl, max), op, ttl, max), before + [op])
  {
    NeverOverfull(before, ttl, max);
    forall key
      ensures Agrees(DeleteKey(After(before, ttl, max), op.key), before + [op], key)
    {
      LatestHasKey(before, key);
      DeleteAgrees(After(before, ttl, max), before, op, key);
    }
  }

  /** Whatever the clock does: the bounded and the unbounded dictionary agree all along a run if
      and only if no write comes with a clock behind a dropped entry of another key. */
  lemma {:induction false} AgreesIffNeverBehind(run: seq<Op>, ttl: Time, max: nat)
    requires max > 0
    ensures AgreesThroughout(run, ttl, max) <==> NeverBehind(run, ttl, max)
  {
    if run == [] {
      assert After(run, ttl, max) == [];
    } else {
      var before, op := run[..|run| - 1], run[|run| - 1];
      assert run == before + [op];
      AgreesIffNeverBehind(before, ttl, max);
      if AgreesThroughout(before, ttl, max) {
        if op.Write? {
          WriteAgreesIff(before, op, ttl, max);
        } else {
          DeleteAgreesAll(before, op, ttl, max);
        }
      }
    }
  }

  lemma {:induction false} ForwardNeverBehind(run: seq<Op>, ttl: Time, max: nat)
    requires max > 0 && Clocked(run)
    ensures NeverBehind(run, ttl, max)
  {
    if run != [] {
      var before, op := run[..|run| - 1], run[|run| - 1];
      ForwardNeverBehind(before, ttl, max);
      if op.Write? {
        forall key
          ensures Latest(before, key).Some? ==> Latest(before, key).value.ts <= op.now
        {
          LatestIsEarlier(before, key, op.now);
        }
      }
    }
  }

  /** With a clock that never runs backwards: a present key holds its latest write, a deleted or
      never written key is absent, and an entry that was dropped to keep the bounds is no newer
      than any survivor. */
  lemma {:induction false} RunAgrees(run: seq<Op>, ttl: Time, max: nat, key: string)
    requires max > 0 && Clocked(run)
    ensures
      var data := After(run, ttl, max);
      && Agrees(data, run, key)
      && match LastWrite(run, key)
         case None => !Has(data, key)
         case Some(op) => if Has(data, key) then Stored(data, op) else forall t :: t in data ==> op.now <= t.ts
  {
    ForwardNeverBehind(run, ttl, max);
    AgreesIffNeverBehind(run, ttl, max);
    LatestIsWrite(run, key);
    if LastWrite(run, key).Some? { StampStores(LastWrite(run, key).value); }
  }

  lemma {:induction false} LatestIsWrite(run: seq<Op>, key: string)
    ensures LastWrite(run, key).None? <==> Latest(run, key).None?
    ensures
      var op := LastWrite(run, key);
      op.Some? ==> op.value.Write? && op.value.key == key
                   && Latest(run, key) == Some(Stamp(op.value.key, op.value.fields, op.value.now))
  {
    if run != [] && run[|run| - 1].key != key {
      LatestIsWrite(run[..|run| - 1], key);
    }
  }

  lemma {:induction false} LatestHasKey(run: seq<Op>, key: string)
    ensures Latest(run, key).Some? ==> Latest(run, key).value.key == key
  {
    if run != [] && run[|run| - 1].key != key {
      LatestHasKey(run[..|run| - 1], key);
    }
  }

  /** The last write comes with an earlier clock than the first two. */
  function BackwardRun(): seq<Op> {
    [Write("a", map[], 5), Write("b", map[], 6)] + [Write("c", map[], 0)]
  }

  lemma {:induction false} BackwardContent()
    ensures After(BackwardRun(), 100, 2) == [Slot("b", map[], 6), Slot("c", map[], 0)]
  {
    var wa, wb, wc := Write("a", map[], 5), Write("b", map[], 6), Write("c", map[], 0);
    var a, b := Slot("a", map[], 5), Slot("b", map[], 6);
    assert BackwardRun()[..2] == [wa, wb] && [wa, wb][..1] == [wa] && [wa][..0] == [];
    assert After([wa], 100, 2) == [a];
    assert Sweep([b], 0, 100) == [b];
    assert Sweep([a], 6, 100) == [a];
    assert After([wa, wb], 100, 2) == [a, b];
    assert Sweep([a, b], 0, 100) == [a, b];
    OldestFacts([a, b]);
    EvictOne([a, b], 2);
    assert Removed([a, b], 0) == [b];
  }

  /** A clock that steps back breaks this: here "a" is dropped although "c", stamped earlier, stays. */
  lemma {:induction false} BackwardClockDropsNewer()
    ensures !Clocked(BackwardRun()) && !Agrees(After(BackwardRun(), 100, 2), BackwardRun(), "a")
  {
    BackwardContent();
    var run := BackwardRun();
    assert run[0].now > run[2].now;
    assert Latest(run[..1], "a") == Some(Slot("a", map[], 5));
    assert run[..2][..1] == run[..1];
    assert Latest(run[..2], "a") == Latest(run[..1], "a");
    assert Slot("c", map[], 0) in After(run, 100, 2);
  }

  // ---------- overwriting at capacity ----------

  /** A write makes another live key disappear. */
  ghost predicate EvictsAnother(data: seq<Slot>, op: Op, ttl: Time, max: nat)
    requires max > 0 && op.Write?
  {
    exists s :: s in Sweep(data, op.now, ttl) && s.key != op.key && !Has(Apply(data, op, ttl, max), s.key)
  }

  /** Room is made whenever the swept dictionary is full, even for a key it already holds: another
      live entry goes exactly when the dictionary is full and the oldest entry is not the written one. */
  lemma {:induction false} EvictsAnotherIff(data: seq<Slot>, op: Op, ttl: Time, max: nat)
    requires Distinct(data) && 0 < max && |data| <= max && op.Write?
    ensures
      var swept := Sweep(data, op.now, ttl);
      EvictsAnother(data, op, ttl, max) <==> |swept| == max && swept[Oldest(swept)].key != op.key
    ensures Stamp(op.key, op.fields, op.now) in Apply(data, op, ttl, max)
  {
    var swept := Sweep(data, op.now, ttl);
    SweepFacts(data, op.now, ttl);
    EvictOne(swept, max);
    EvictTrims(swept, max);
    var kept := Evict(swept, max);
    PutFacts(kept, Stamp(op.key, op.fields, op.now));
    var out := Apply(data, op, ttl, max);
    if |swept| == max {
      OldestFacts(swept);
      RemovedFacts(swept, Oldest(swept));
      var gone := swept[Oldest(swept)];
      assert kept == Removed(swept, Oldest(swept));
      if gone.key != op.key {
        assert gone in swept && !Has(out, gone.key);
      }
    }
    forall s | s in swept && s.key != op.key && s in kept ensures Has(out, s.key) {
      assert s in out;
    }
  }

  /** Hence overwriting in a full dictionary shrinks it. */
  lemma {:induction false} OverwriteAtCapacityShrinks(data: seq<Slot>, op: Op, ttl: Time, max: nat)
    requires Distinct(data) && 0 < max && |data| <= max && op.Write?
    requires Has(Sweep(data, op.now, ttl), op.key)
    ensures
      var swept := Sweep(data, op.now, ttl);
      |Apply(data, op, ttl, max)| == |swept| - (if EvictsAnother(data, op, ttl, max) then 1 else 0)
  {
    var swept := Sweep(data, op.now, ttl);
    EvictsAnotherIff(data, op, ttl, max);
    SweepFacts(data, op.now, ttl);
    EvictOne(swept, max);
    EvictTrims(swept, max);
    PutFacts(Evict(swept, max), Stamp(op.key, op.fields, op.now));
    if |swept| == max {
      OldestFacts(swept);
      RemovedFacts(swept, Oldest(swept));
    }
  }

  // ---------- a dictionary written only under absent keys is a queue ----------

  function Writes(run: seq<Op>): seq<Slot>
    requires forall i :: 0 <= i < |run| ==> run[i].Write?
  {
    seq(|run|, i requires 0 <= i < |run| => Stamp(run[i].key, run[i].fields, run[i].now))
  }

  function LastOf(s: seq<Slot>, n: nat): seq<Slot> {
    if |s| <= n then s else s[|s| - n..]
  }

  predicate Sorted(s: seq<Slot>) {
    forall i, j :: 0 <= i <= j < |s| ==> s[i].ts <= s[j].ts
  }

  /** Every operation writes a key that is absent at that moment. */
  predicate OnlyAbsentKeys(run: seq<Op>, ttl: Time, max: nat)
    requires max > 0
  {
    forall i :: 0 <= i < |run| ==> run[i].Write? && !Has(After(run[..i], ttl, max), run[i].key)
  }

  /** The expired entries are the first q. */
  predicate ExpiredFirst(s: seq<Slot>, q: nat, now: Time, ttl: Time) {
    q <= |s| && forall i :: 0 <= i < |s| ==> (Expired(s[i], now, ttl) <==> i < q)
  }

  lemma {:induction false} SweepAt(s: seq<Slot>, q: nat, now: Time, ttl: Time)
    requires ExpiredFirst(s, q, now, ttl)
    ensures Sweep(s, now, ttl) == s[q..]
  {
    if s != [] {
      SweepAt(s[1..], if q == 0 then 0 else q - 1, now, ttl);
    }
  }

  lemma {:induction false} FirstLive(s: seq<Slot>, now: Time, ttl: Time) returns (q: nat)
    requires Sorted(s)
    ensures ExpiredFirst(s, q, now, ttl)
  {
    if s == [] || !Expired(s[0], now, ttl) {
      q := 0;
    } else {
      q := FirstLive(s[1..], now, ttl);
      q := q + 1;
      forall i | 0 <= i < |s| ensures Expired(s[i], now, ttl) <==> i < q {
        if i > 0 { assert s[i] == s[1..][i - 1]; }
      }
    }
  }

  lemma {:induction false} LaterExpiresMore(s: seq<Slot>, q0: nat, q1: nat, earlier: Time, now: Time, ttl: Time)
    requires ExpiredFirst(s, q0, earlier, ttl) && ExpiredFirst(s, q1, now, ttl) && earlier <= now
    ensures q0 <= q1
  {
    if q1 < |s| { assert !Expired(s[q1], now, ttl); }
  }

  lemma {:induction false} SweepSuffix(s: seq<Slot>, p: nat, q: nat, now: Time, ttl: Time)
    requires ExpiredFirst(s, q, now, ttl) && p <= |s|
    ensures Sweep(s[p..], now, ttl) == s[if p <= q then q else p..]
  {
    SweepAt(s[p..], if p <= q then q - p else 0, now, ttl);
  }

  /** The last n of a suffix. */
  lemma {:induction false} LastOfSuffix(s: seq<Slot>, p: nat, n: nat) returns (r: nat)
    requires p <= |s|
    ensures r == (if |s| - p <= n then p else |s| - n) && r <= |s|
    ensures LastOf(s[p..], n) == s[r..]
  {
    r := if |s| - p <= n then p else |s| - n;
  }

  lemma {:induction false} SweepLast(w: seq<Slot>, q0: nat, q1: nat, earlier: Time, now: Time, ttl: Time, max: nat)
    returns (r: nat)
    requires ExpiredFirst(w, q0, earlier, ttl) && ExpiredFirst(w, q1, now, ttl) && q0 <= q1
    ensures q1 <= r <= |w| && |w| - r <= max && (r > q1 ==> |w| - r == max)
    ensures Sweep(LastOf(Sweep(w, earlier, ttl), max), now, ttl) == w[r..]
  {
    SweepAt(w, q0, earlier, ttl);
    var p := LastOfSuffix(w, q0, max);
    SweepSuffix(w, p, q1, now, ttl);
    r := if p <= q1 then q1 else p;
  }

  /** Sweeping and bounding again, later, gives what sweeping and bounding everything would. */
  lemma {:induction false} QueueStep(w: seq<Slot>, earlier: Time, now: Time, ttl: Time, max: nat)
    requires Sorted(w) && 0 < max && earlier <= now
    ensures
      Evict(Sweep(LastOf(Sweep(w, earlier, ttl), max), now, ttl), max) == LastOf(Sweep(w, now, ttl), max - 1)
  {
    var q0 := FirstLive(w, earlier, ttl);
    var q1 := FirstLive(w, now, ttl);
    LaterExpiresMore(w, q0, q1, earlier, now, ttl);
    var r := SweepLast(w, q0, q1, earlier, now, ttl, max);
    EvictSuffix(w, r, max);
    SweepAt(w, q1, now, ttl);
    SameLast(w, q1, r, max);
  }

  lemma {:induction false} SameLast(w: seq<Slot>, q: nat, r: nat, max: nat)
    requires q <= r <= |w| && 0 < max && (r > q ==> |w| - r == max)
    ensures LastOf(w[r..], max - 1) == LastOf(w[q..], max - 1)
  {
    var a := LastOfSuffix(w, r, max - 1);
    var b := LastOfSuffix(w, q, max - 1);
  }

  lemma {:induction false} EvictSuffix(w: seq<Slot>, r: nat, max: nat)
    requires Sorted(w) && 0 < max && r <= |w| && |w| - r <= max
    ensures Evict(w[r..], max) == LastOf(w[r..], max - 1)
  {
    var data := w[r..];
    EvictOne(data, max);
    if |data| == max {
      OldestFacts(data);
      assert Oldest(data) == 0;
    }
  }

  lemma {:induction false} QueueGrows(w: seq<Slot>, s: Slot, now: Time, ttl: Time, max: nat)
    requires Sorted(w) && 0 < max && s.ts == now && ttl > 0
    ensures LastOf(Sweep(w + [s], now, ttl), max) == LastOf(Sweep(w, now, ttl), max - 1) + [s]
  {
    var q := FirstLive(w, now, ttl);
    SweepAt(w, q, now, ttl);
    SweepAt(w + [s], q, now, ttl);
    var a := LastOfSuffix(w, q, max - 1);
    var b := LastOfSuffix(w + [s], q, max);
    assert a == b;
  }

  /** One write under an absent key to a dictionary that holds what the queue holds. */
  lemma {:induction false} QueueWrite(data: seq<Slot>, w: seq<Slot>, earlier: Time, op: Op, ttl: Time, max: nat)
    requires Sorted(w) && 0 < max && ttl > 0 && op.Write? && earlier <= op.now
    requires Distinct(data) && |data| <= max && !Has(data, op.key)
    requires data == LastOf(Sweep(w, earlier, ttl), max)
    ensures
      var s := Stamp(op.key, op.fields, op.now);
      Apply(data, op, ttl, max) == LastOf(Sweep(w + [s], op.now, ttl), max)
  {
    QueueStep(w, earlier, op.now, ttl, max);
    WriteTrims(data, op.now, ttl, max);
    var kept := Evict(Sweep(data, op.now, ttl), max);
    FindFacts(kept, op.key);
    assert !Has(kept, op.key);
    QueueGrows(w, Stamp(op.key, op.fields, op.now), op.now, ttl, max);
  }

  lemma {:induction false} OnlyAbsentPrefix(run: seq<Op>, ttl: Time, max: nat)
    requires max > 0 && run != [] && OnlyAbsentKeys(run, ttl, max)
    ensures OnlyAbsentKeys(run[..|run| - 1], ttl, max)
  {
    var before := run[..|run| - 1];
    forall i | 0 <= i < |before| ensures before[i].Write? && !Has(After(before[..i], ttl, max), before[i].key) {
      assert before[..i] == run[..i];
    }
  }

  lemma {:induction false} WritesSorted(run: seq<Op>)
    requires Clocked(run) && forall i :: 0 <= i < |run| ==> run[i].Write?
    ensures Sorted(Writes(run))
  {
  }

  /** Written only under absent keys, with a forward clock: the content is exactly the last max
      of the unexpired writes, oldest first. */
  lemma {:induction false} RefinesQueue(run: seq<Op>, ttl: Time, max: nat)
    requires max > 0 && ttl > 0 && Clocked(run) && OnlyAbsentKeys(run, ttl, max)
    ensures run != [] ==> After(run, ttl, max) == LastOf(Sweep(Writes(run), run[|run| - 1].now, ttl), max)
  {
    if run != [] {
      var before, op := run[..|run| - 1], run[|run| - 1];
      OnlyAbsentPrefix(run, ttl, max);
      RefinesQueue(before, ttl, max);
      NeverOverfull(before, ttl, max);
      WritesSnoc(run);
      WritesSorted(before);
      var data, w := After(before, ttl, max), Writes(before);
      if before == [] {
        assert w == [];
        QueueWrite(data, w, op.now, op, ttl, max);
      } else {
        assert before[|before| - 1] == run[|run| - 2];
        QueueWrite(data, w, before[|before| - 1].now, op, ttl, max);
      }
    }
  }

  lemma {:induction false} WritesSnoc(run: seq<Op>)
    requires run != [] && forall i :: 0 <= i < |run| ==> run[i].Write?
    ensures
      var op := run[|run| - 1];
      Writes(run) == Writes(run[..|run| - 1]) + [Stamp(op.key, op.fields, op.now)]
  {
  }

  // ---------- the dictionary object ----------

  function Without(data: seq<Slot>, keys: seq<string>): seq<Slot> {
    if data == [] then []
    else if data[0].key in keys then Without(data[1..], keys)
    else [data[0]] + Without(data[1..], keys)
  }

  lemma {:induction false} WithoutNone(data: seq<Slot>)
    ensures Without(data, []) == data
  {
    if data != [] { WithoutNone(data[1..]); }
  }

  /** Deleting one more key. */
  lemma {:induction false} WithoutOneMore(data: seq<Slot>, keys: seq<string>, key: string)
    requires Distinct(data) && key !in keys && Has(data, key)
    ensures DeleteKey(Without(data, keys), key) == Without(data, keys + [key])
  {
    if data[0].key == key {
      NoEffect(data[1..], keys, key);
    } else {
      HasLater(data, key);
      WithoutOneMore(data[1..], keys, key);
      DeleteBehind(data[0], Without(data[1..], keys), key);
    }
  }

  lemma {:induction false} HasLater(data: seq<Slot>, key: string)
    requires Has(data, key) && data[0].key != key
    ensures Has(data[1..], key)
  {
    assert data == [data[0]] + data[1..];
  }

  lemma {:induction false} DeleteBehind(head: Slot, rest: seq<Slot>, key: string)
    requires head.key != key
    ensures DeleteKey([head] + rest, key) == [head] + DeleteKey(rest, key)
  {
    assert ([head] + rest)[1..] == rest;
    var i := Find(rest, key);
    assert Find([head] + rest, key) == 1 + i;
    if i < |rest| {
      RemovedBehind(head, rest, i);
    }
  }

  lemma {:induction false} RemovedBehind(head: Slot, rest: seq<Slot>, i: nat)
    requires i < |rest|
    ensures Removed([head] + rest, 1 + i) == [head] + Removed(rest, i)
  {
    var s := [head] + rest;
    assert s[..1 + i] == [head] + rest[..i] && s[i + 2..] == rest[i + 1..];
  }

  lemma {:induction false} DeleteNext(data: seq<Slot>, keys: seq<string>, n: nat)
    requires Distinct(data) && Deletable(data, keys) && n < |keys|
    ensures DeleteKey(Without(data, keys[..n]), keys[n]) == Without(data, keys[..n + 1])
  {
    WithoutOneMore(data, keys[..n], keys[n]);
    assert keys[..n] + [keys[n]] == keys[..n + 1];
  }

  lemma {:induction false} NoEffect(data: seq<Slot>, keys: seq<string>, key: string)
    requires forall i :: 0 <= i < |data| ==> data[i].key != key
    ensures Without(data, keys + [key]) == Without(data, keys)
  {
    if data != [] { NoEffect(data[1..], keys, key); }
  }

  /** Deleting the keys of the expired entries is sweeping. */
  lemma {:induction false} SweepIsWithout(data: seq<Slot>, keys: seq<string>, now: Time, ttl: Time)
    requires forall i :: 0 <= i < |data| ==> (Expired(data[i], now, ttl) <==> data[i].key in keys)
    ensures Without(data, keys) == Sweep(data, now, ttl)
  {
    if data != [] { SweepIsWithout(data[1..], keys, now, ttl); }
  }

  /** The keys of the expired entries, in order. */
  function ExpiredKeys(data: seq<Slot>, now: Time, ttl: Time): seq<string> {
    if data == [] then []
    else (if Expired(data[0], now, ttl) then [data[0].key] else []) + ExpiredKeys(data[1..], now, ttl)
  }

  /** The keys can be deleted one after the other. */
  ghost predicate Deletable(data: seq<Slot>, keys: seq<string>) {
    forall i :: 0 <= i < |keys| ==> Has(data, keys[i]) && keys[i] !in keys[..i]
  }

  lemma {:induction false} ExpiredKeysFacts(data: seq<Slot>, now: Time, ttl: Time)
    requires Distinct(data)
    ensures forall k :: k in ExpiredKeys(data, now, ttl) ==> Has(data, k)
    ensures forall i :: 0 <= i < |data| ==> (Expired(data[i], now, ttl) <==> data[i].key in ExpiredKeys(data, now, ttl))
  {
    if data != [] {
      var rest := data[1..];
      ExpiredKeysFacts(rest, now, ttl);
      assert data == [data[0]] + rest;
    }
  }

  lemma {:induction false} ExpiredKeysDeletable(data: seq<Slot>, now: Time, ttl: Time)
    requires Distinct(data)
    ensures Deletable(data, ExpiredKeys(data, now, ttl))
  {
    if data != [] {
      var rest := data[1..];
      ExpiredKeysFacts(rest, now, ttl);
      ExpiredKeysDeletable(rest, now, ttl);
      assert data == [data[0]] + rest;
    }
  }

  function Configured(argument: Option<Time>, env: Option<Time>): Time {
    var chosen := match argument
      case Some(t) => t
      case None => if env.Some? && env.value > 0 then env.value else DEFAULT_TTL;
    if chosen <= 0 then DEFAULT_TTL else chosen
  }

  function ConfiguredMax(argument: Option<int>, env: Option<int>): (max: nat)
    ensures max > 0
  {
    var chosen := match argument
      case Some(n) => n
      case None => if env.Some? && env.value > 0 then env.value else DEFAULT_MAX;
    if chosen <= 0 then DEFAULT_MAX else chosen
  }

  /** The limits in force: the argument if it is positive, the default if it is not; without an
      argument the environment's positive setting, or the default: a day, and 1024 entries. */
  lemma {:induction false} LimitsMeaning(ttl: Time, max: int, envTtl: Option<Time>, envMax: Option<int>)
    ensures Configured(Some(ttl), envTtl) == if ttl > 0 then ttl else 24 * 60 * 60 * SECOND
    ensures ConfiguredMax(Some(max), envMax) == if max > 0 then max else 1024
    ensures envTtl.Some? && envTtl.value > 0 ==> Configured(None, envTtl) == envTtl.value
    ensures envTtl.None? || envTtl.value <= 0 ==> Configured(None, envTtl) == 24 * 60 * 60 * SECOND
    ensures envMax.Some? && envMax.value > 0 ==> ConfiguredMax(None, envMax) == envMax.value
    ensures envMax.None? || envMax.value <= 0 ==> ConfiguredMax(None, envMax) == 1024
  {
  }

  class BoundedDict {
    const ttl: Time
    const max: nat
    var data: seq<Slot>

    ghost predicate Valid()
      reads this
    {
      ttl > 0 && max > 0 && Distinct(data) && |data| <= max
    }

    constructor (ttlTicks: Option<Time>, maxEntries: Option<int>, envTtl: Option<Time>, envMax: Option<int>)
      ensures Valid() && data == []
      ensures ttl == Configured(ttlTicks, envTtl) && max == ConfiguredMax(maxEntries, envMax)
    {
      ttl, max, data := Configured(ttlTicks, envTtl), ConfiguredMax(maxEntries, envMax), [];
    }

    method FindExpired(now: Time) returns (expired: seq<string>)
      ensures expired == ExpiredKeys(data, now, ttl)
    {
      expired := [];
      var i := 0;
      while i < |data|
        invariant 0 <= i <= |data|
        invariant expired + ExpiredKeys(data[i..], now, ttl) == ExpiredKeys(data, now, ttl)
      {
        assert data[i..][0] == data[i] && data[i..][1..] == data[i + 1..];
        if Expired(data[i], now, ttl) { expired := expired + [data[i].key]; }
        i := i + 1;
      }
    }

    method SweepExpired(now: Time)
      requires Valid()
      modifies this
      ensures Valid() && data == Sweep(old(data), now, ttl)
    {
      var expired := FindExpired(now);
      ExpiredKeysFacts(data, now, ttl);
      ExpiredKeysDeletable(data, now, ttl);
      SweepIsWithout(data, expired, now, ttl);
      SweepFacts(data, now, ttl);
      DeleteKeys(expired);
    }

    method DeleteKeys(keys: seq<string>)
      requires Distinct(data) && Deletable(data, keys)
      modifies this
      ensures data == Without(old(data), keys)
    {
      ghost var was := data;
      WithoutNone(was);
      assert keys[..0] == [];
      for n := 0 to |keys|
        invariant data == Without(was, keys[..n])
      {
        DeleteNext(was, keys, n);
        data := DeleteKey(data, keys[n]);
      }
      assert keys[..|keys|] == keys;
    }

    method SetItem(key: string, fields: Fields, now: Time)
      requires Valid()
      modifies this
      ensures Valid() && data == Apply(old(data), Write(key, fields, now), ttl, max)
      ensures Stored(data, Write(key, fields, now))
      ensures forall s :: s in data && s.key != key ==> s in old(data) && now <= s.ts + ttl
    {
      WriteLeaves(data, Write(key, fields, now), ttl, max);
      SweepExpired(now);
      ghost var swept := data;
      while |data| >= max
        invariant Distinct(data) && |data| <= max
        invariant Evict(data, max) == Evict(swept, max)
        decreases |data|
      {
        var oldest := Oldest(data);
        RemovedFacts(data, oldest);
        data := Removed(data, oldest);
      }
      PutFacts(data, Stamp(key, fields, now));
      data := Put(data, Stamp(key, fields, now));
    }

    /** A missing key is an error that changes nothing. */
    method DelItem(key: string) returns (found: bool)
      requires Valid()
      modifies this
      ensures Valid() && found == Has(old(data), key)
      ensures data == Apply(old(data), Delete(key), ttl, max)
    {
      FindFacts(data, key);
      var i := Find(data, key);
      found := i < |data|;
      if found {
        RemovedFacts(data, i);
        data := Removed(data, i);
      }
    }

    method GetItem(key: string) returns (r: Option<Slot>)
      requires Valid()
      ensures r.Some? <==> Has(data, key)
      ensures r.Some? ==> r.value in data && r.value.key == key
    {
      FindFacts(data, key);
      var i := Find(data, key);
      r := if i < |data| then Some(data[i]) else None;
    }
  }
}
