/** The gate table and its static validation: duplicate ids, wiring metadata,
    unknown needs, and Kahn's cycle check over the selected gates.
 */
module GateGraph {
  import opened Digraph
  import opened Options

  datatype Gate = Gate(
    id: string,
    needs: seq<string>,
    allowFailure: bool,
    wiring: string,
    wiringReason: string,
    fast: bool,
    estSeconds: Option<int>)

  datatype MetadataFault = IllegalWiring | MissingWiringReason | MissingEstimate

  datatype GraphError =
    | DuplicateIds(ids: set<string>)
    | BadMetadata(gate: string, fault: MetadataFault)
    | UnknownNeed(gate: string, need: string)
    | DependencyCycle(ids: set<string>)

  datatype Verdict = Valid | Invalid(error: GraphError)

  const WIRING_VALUES := {"ci", "inline-ci", "observation", "local"}

  predicate UniqueIds(gates: seq<Gate>) {
    forall i, j :: 0 <= i < j < |gates| ==> gates[i].id != gates[j].id
  }

  function IdSet(gates: seq<Gate>): set<string> {
    set i | 0 <= i < |gates| :: gates[i].id
  }

  /** Ids carried by two or more gates. */
  function RepeatedIds(gates: seq<Gate>): set<string> {
    set i, j | 0 <= i < j < |gates| && gates[i].id == gates[j].id :: gates[i].id
  }

  /** The needs relation restricted to the selected gates. */
  ghost function NeedGraph(gates: seq<Gate>): Graph {
    map a | a in IdSet(gates) ::
      set k, d | 0 <= k < |gates| && gates[k].id == a && d in gates[k].needs && d in IdSet(gates) :: d
  }

  lemma {:induction false} NeedGraphAt(gates: seq<Gate>, k: nat)
    requires UniqueIds(gates) && k < |gates|
    ensures gates[k].id in NeedGraph(gates)
    ensures forall d :: d in NeedGraph(gates)[gates[k].id] <==> d in gates[k].needs && d in IdSet(gates)
  {
  }

  lemma {:induction false} NeedGraphClosed(gates: seq<Gate>)
    ensures Closed(NeedGraph(gates)) && NeedGraph(gates).Keys == IdSet(gates)
  {
  }

  /** First complaint about one gate's metadata, in the order the checks are made. */
  function MetadataFaultOf(g: Gate): Option<MetadataFault> {
    if g.wiring !in WIRING_VALUES then Some(IllegalWiring)
    else if g.wiring != "ci" && g.wiringReason == "" then Some(MissingWiringReason)
    else if g.fast && g.estSeconds.None? then Some(MissingEstimate)
    else None
  }

  /** What a gate must say of itself: a known wiring, a reason for any but "ci", and an estimate when
      it is fast. */
  predicate Described(g: Gate) {
    && (g.wiring == "ci" || g.wiring == "inline-ci" || g.wiring == "observation" || g.wiring == "local")
    && (g.wiring != "ci" ==> g.wiringReason != "")
    && (g.fast ==> g.estSeconds.Some?)
  }

  /** A gate has no fault exactly when it is described, and the fault named is the first in the
      order wiring, reason, estimate. */
  lemma {:induction false} FaultMeaning(g: Gate)
    ensures
      var known := g.wiring == "ci" || g.wiring == "inline-ci" || g.wiring == "observation" || g.wiring == "local";
      && (MetadataFaultOf(g).None? <==> Described(g))
      && (MetadataFaultOf(g) == Some(IllegalWiring) <==> !known)
      && (MetadataFaultOf(g) == Some(MissingWiringReason) <==> known && g.wiring != "ci" && g.wiringReason == "")
      && (MetadataFaultOf(g) == Some(MissingEstimate) <==>
            known && (g.wiring == "ci" || g.wiringReason != "") && g.fast && g.estSeconds.None?)
  {
    assert g.wiring in WIRING_VALUES <==>
           g.wiring == "ci" || g.wiring == "inline-ci" || g.wiring == "observation" || g.wiring == "local";
  }

  /** The ids that the error names are those that occur more than once in the list of ids. */
  lemma {:induction false} RepeatedIdsOccurTwice(gates: seq<Gate>, a: string)
    ensures a in RepeatedIds(gates) <==> multiset(seq(|gates|, i requires 0 <= i < |gates| => gates[i].id))[a] > 1
  {
    var ids := seq(|gates|, i requires 0 <= i < |gates| => gates[i].id);
    OccursTwice(ids, a);
    if a in RepeatedIds(gates) {
      var i, j :| 0 <= i < j < |gates| && gates[i].id == gates[j].id == a;
      assert ids[i] == a && ids[j] == a;
    }
    if i, j :| 0 <= i < j < |ids| && ids[i] == a && ids[j] == a {
      assert gates[i].id == gates[j].id == a;
    }
  }

  lemma {:induction false} SomeIdRepeated(gates: seq<Gate>)
    requires !UniqueIds(gates)
    ensures RepeatedIds(gates) != {}
  {
    var i, j :| 0 <= i < j < |gates| && gates[i].id == gates[j].id;
    assert gates[i].id in RepeatedIds(gates);
  }

  lemma {:induction false} OccursTwice(ids: seq<string>, a: string)
    ensures multiset(ids)[a] > 1 <==> exists i, j :: 0 <= i < j < |ids| && ids[i] == a && ids[j] == a
  {
    if ids != [] {
      var init, last := ids[..|ids| - 1], ids[|ids| - 1];
      OccursTwice(init, a);
      assert ids == init + [last];
      assert multiset(init)[a] > 0 <==> a in init;
      if i, j :| 0 <= i < j < |ids| && ids[i] == a && ids[j] == a && j == |init| {
        assert init[i] == a;
      }
      if i, j :| 0 <= i < j < |init| && init[i] == a && init[j] == a {
        assert ids[i] == a && ids[j] == a;
      }
      if a in init && last == a {
        var i :| 0 <= i < |init| && init[i] == a;
        assert ids[i] == a && ids[|init|] == a;
      }
    }
  }

  predicate NeedsKnown(g: Gate, known: set<string>) {
    forall d :: d in g.needs ==> d in known
  }

  predicate WellDescribed(gates: seq<Gate>, known: set<string>) {
    && UniqueIds(gates)
    && (forall k :: 0 <= k < |gates| ==> Described(gates[k]))
    && (forall k :: 0 <= k < |gates| ==> NeedsKnown(gates[k], known))
  }

  // ---------- in-degree arithmetic ----------

  /** How many entries of needs, repeats included, are selected and not yet popped. */
  ghost function OpenNeeds(needs: seq<string>, ids: set<string>, popped: set<string>): nat {
    if needs == [] then 0
    else
      var last := needs[|needs| - 1];
      OpenNeeds(needs[..|needs| - 1], ids, popped) + if last in ids && last !in popped then 1 else 0
  }

  lemma {:induction false} OpenNeedsAfterPop(needs: seq<string>, ids: set<string>, popped: set<string>, d: string)
    requires d in ids && d !in popped
    ensures OpenNeeds(needs, ids, popped) == OpenNeeds(needs, ids, popped + {d}) + multiset(needs)[d]
  {
    if needs != [] {
      OpenNeedsAfterPop(needs[..|needs| - 1], ids, popped, d);
      assert needs == needs[..|needs| - 1] + [needs[|needs| - 1]];
    }
  }

  lemma {:induction false} OpenNeedsZero(needs: seq<string>, ids: set<string>, popped: set<string>)
    ensures OpenNeeds(needs, ids, popped) == 0 <==> forall d :: d in needs && d in ids ==> d in popped
  {
    if needs != [] {
      OpenNeedsZero(needs[..|needs| - 1], ids, popped);
      assert needs == needs[..|needs| - 1] + [needs[|needs| - 1]];
    }
  }

  /** The part of gate k's needs handled once the builder has reached need j of gate i. */
  ghost function Handled(gates: seq<Gate>, i: nat, j: nat, k: nat): seq<string>
    requires k < |gates| && i <= |gates|
    requires i < |gates| ==> j <= |gates[i].needs|
  {
    if k < i then gates[k].needs else if k == i then gates[i].needs[..j] else []
  }

  /** The in-degree of gate k counts the open needs among those handled. */
  ghost predicate RowBuilt(gates: seq<Gate>, ids: set<string>, i: nat, j: nat, k: nat, indegree: map<string, int>)
    requires k < |gates| && i <= |gates|
    requires i < |gates| ==> j <= |gates[i].needs|
  {
    && gates[k].id in indegree
    && indegree[gates[k].id] == OpenNeeds(Handled(gates, i, j, k), ids, {})
  }

  /** Gate k is listed as a dependent of d once for every handled mention of d. */
  ghost predicate ListBuilt(gates: seq<Gate>, i: nat, j: nat, k: nat, d: string, dependents: map<string, seq<string>>)
    requires k < |gates| && i <= |gates|
    requires i < |gates| ==> j <= |gates[i].needs|
  {
    d in dependents ==> multiset(dependents[d])[gates[k].id] == multiset(Handled(gates, i, j, k))[d]
  }

  ghost predicate ListsWithin(ids: set<string>, dependents: map<string, seq<string>>) {
    forall d, n :: d in dependents && 0 <= n < |dependents[d]| ==> dependents[d][n] in ids
  }

  ghost predicate Built(gates: seq<Gate>, ids: set<string>, i: nat, j: nat,
                        indegree: map<string, int>, dependents: map<string, seq<string>>)
    requires i <= |gates|
    requires i < |gates| ==> j <= |gates[i].needs|
  {
    && indegree.Keys == ids && dependents.Keys == ids && ListsWithin(ids, dependents)
    && (forall k {:trigger RowBuilt(gates, ids, i, j, k, indegree)} :: 0 <= k < |gates| ==>
          RowBuilt(gates, ids, i, j, k, indegree))
    && (forall k, d {:trigger ListBuilt(gates, i, j, k, d, dependents)} :: 0 <= k < |gates| ==>
          ListBuilt(gates, i, j, k, d, dependents))
  }

  /** Handling one more entry of needs extends one row of the handled parts. */
  lemma {:induction false} HandledStep(gates: seq<Gate>, i: nat, j: nat, k: nat)
    requires k < |gates| && i < |gates| && j < |gates[i].needs|
    ensures Handled(gates, i, j + 1, k) == Handled(gates, i, j, k) + if k == i then [gates[i].needs[j]] else []
  {
  }

  lemma {:induction false} HandledRow(gates: seq<Gate>, i: nat, k: nat)
    requires k < |gates| && i < |gates|
    ensures Handled(gates, i, |gates[i].needs|, k) == Handled(gates, i + 1, 0, k)
  {
  }

  lemma {:induction false} BuiltRow(gates: seq<Gate>, ids: set<string>, i: nat, indegree: map<string, int>,
                                    dependents: map<string, seq<string>>)
    requires i < |gates| && Built(gates, ids, i, |gates[i].needs|, indegree, dependents)
    ensures Built(gates, ids, i + 1, 0, indegree, dependents)
  {
    var next := i + 1;
    forall k | 0 <= k < |gates|
      ensures RowBuilt(gates, ids, next, 0, k, indegree)
    {
      HandledRow(gates, i, k);
      assert RowBuilt(gates, ids, i, |gates[i].needs|, k, indegree);
    }
    forall k, d | 0 <= k < |gates|
      ensures ListBuilt(gates, next, 0, k, d, dependents)
    {
      HandledRow(gates, i, k);
      assert ListBuilt(gates, i, |gates[i].needs|, k, d, dependents);
    }
  }

  /** A need outside the selection leaves both tables as they are. */
  lemma {:induction false} BuiltSkips(gates: seq<Gate>, ids: set<string>, i: nat, j: nat, indegree: map<string, int>,
                                      dependents: map<string, seq<string>>)
    requires i < |gates| && j < |gates[i].needs| && gates[i].needs[j] !in ids
    requires Built(gates, ids, i, j, indegree, dependents)
    ensures Built(gates, ids, i, j + 1, indegree, dependents)
  {
    var next := j + 1;
    forall k | 0 <= k < |gates|
      ensures RowBuilt(gates, ids, i, next, k, indegree)
    {
      HandledStep(gates, i, j, k);
      assert RowBuilt(gates, ids, i, j, k, indegree);
      if k == i {
        var h := Handled(gates, i, j + 1, k);
        assert h[..|h| - 1] == Handled(gates, i, j, k);
      }
    }
    forall k, d | 0 <= k < |gates|
      ensures ListBuilt(gates, i, next, k, d, dependents)
    {
      HandledStep(gates, i, j, k);
      assert ListBuilt(gates, i, j, k, d, dependents);
    }
  }

  /** A need inside the selection bumps one in-degree and one dependents list. */
  lemma {:induction false} BuiltCounts(gates: seq<Gate>, ids: set<string>, i: nat, j: nat,
                                       indegree: map<string, int>, dependents: map<string, seq<string>>,
                                       indegree': map<string, int>, dependents': map<string, seq<string>>)
    requires UniqueIds(gates) && i < |gates| && j < |gates[i].needs|
    requires gates[i].id in ids && gates[i].needs[j] in ids
    requires Built(gates, ids, i, j, indegree, dependents)
    requires indegree' == indegree[gates[i].id := indegree[gates[i].id] + 1]
    requires dependents' == dependents[gates[i].needs[j] := dependents[gates[i].needs[j]] + [gates[i].id]]
    ensures Built(gates, ids, i, j + 1, indegree', dependents')
  {
    var next := j + 1;
    forall k | 0 <= k < |gates|
      ensures RowBuilt(gates, ids, i, next, k, indegree')
    {
      HandledStep(gates, i, j, k);
      assert RowBuilt(gates, ids, i, j, k, indegree);
      if k == i {
        var h := Handled(gates, i, j + 1, k);
        assert h[..|h| - 1] == Handled(gates, i, j, k);
      }
    }
    forall k, d | 0 <= k < |gates|
      ensures ListBuilt(gates, i, next, k, d, dependents')
    {
      HandledStep(gates, i, j, k);
      assert ListBuilt(gates, i, j, k, d, dependents);
    }
  }

  method CountNeeds(gates: seq<Gate>, ids: set<string>)
    returns (indegree: map<string, int>, dependents: map<string, seq<string>>)
    requires UniqueIds(gates)
    requires forall k :: 0 <= k < |gates| ==> gates[k].id in ids
    ensures Built(gates, ids, |gates|, 0, indegree, dependents)
  {
    indegree := map a | a in ids :: 0;
    dependents := map a | a in ids :: [];
    for i := 0 to |gates|
      invariant Built(gates, ids, i, 0, indegree, dependents)
    {
      var g := gates[i];
      for j := 0 to |g.needs|
        invariant Built(gates, ids, i, j, indegree, dependents)
      {
        var dep := g.needs[j];
        if dep in ids {
          var indegree' := indegree[g.id := indegree[g.id] + 1];
          var dependents' := dependents[dep := dependents[dep] + [g.id]];
          BuiltCounts(gates, ids, i, j, indegree, dependents, indegree', dependents');
          indegree, dependents := indegree', dependents';
        } else {
          BuiltSkips(gates, ids, i, j, indegree, dependents);
        }
      }
      BuiltRow(gates, ids, i, indegree, dependents);
    }
  }

  // ---------- Kahn's algorithm ----------

  function Elements(s: seq<string>): set<string> {
    set x | x in s
  }

  predicate NoRepeats(s: seq<string>) {
    forall i, j :: 0 <= i < j < |s| ==> s[i] != s[j]
  }

  lemma {:induction false} NoRepeatsSize(s: seq<string>)
    requires NoRepeats(s)
    ensures |Elements(s)| == |s|
  {
    if s != [] {
      var n := |s| - 1;
      NoRepeatsSize(s[..n]);
      assert Elements(s) == Elements(s[..n]) + {s[n]};
    }
  }

  lemma {:induction false} IdsSize(gates: seq<Gate>)
    requires UniqueIds(gates)
    ensures |IdSet(gates)| == |gates|
  {
    var ids := seq(|gates|, i requires 0 <= i < |gates| => gates[i].id);
    NoRepeatsSize(ids);
    assert forall i :: 0 <= i < |gates| ==> ids[i] == gates[i].id;
    assert Elements(ids) == IdSet(gates);
  }

  /** In-degree of gate k while the mentions in rest are still to be discounted. */
  ghost predicate DegreeAt(gates: seq<Gate>, ids: set<string>, popped: set<string>, rest: multiset<string>, k: nat,
                           indegree: map<string, int>)
    requires k < |gates|
  {
    && gates[k].id in indegree
    && indegree[gates[k].id] == OpenNeeds(gates[k].needs, ids, popped) + rest[gates[k].id]
  }

  ghost predicate Degrees(gates: seq<Gate>, ids: set<string>, popped: set<string>, rest: multiset<string>,
                          indegree: map<string, int>)
  {
    && indegree.Keys == ids
    && forall k {:trigger DegreeAt(gates, ids, popped, rest, k, indegree)} :: 0 <= k < |gates| ==>
         DegreeAt(gates, ids, popped, rest, k, indegree)
  }

  ghost predicate Listed(gates: seq<Gate>, ids: set<string>, dependents: map<string, seq<string>>) {
    && dependents.Keys == ids && ListsWithin(ids, dependents)
    && forall k, d {:trigger ListBuilt(gates, |gates|, 0, k, d, dependents)} :: 0 <= k < |gates| ==>
         ListBuilt(gates, |gates|, 0, k, d, dependents)
  }

  /** The work list holds exactly the unpopped ids of in-degree zero, once each. */
  ghost predicate QueueHolds(ids: set<string>, order: seq<string>, queue: seq<string>, indegree: map<string, int>) {
    && indegree.Keys == ids
    && NoRepeats(queue) && NoRepeats(order)
    && (forall x :: x in queue <==> x in ids && indegree[x] == 0 && x !in order)
    && (forall x :: x in order ==> x in ids && indegree[x] == 0)
  }

  lemma {:induction false} BuiltDegrees(gates: seq<Gate>, ids: set<string>, indegree: map<string, int>,
                                        dependents: map<string, seq<string>>)
    requires Built(gates, ids, |gates|, 0, indegree, dependents)
    ensures Degrees(gates, ids, {}, multiset{}, indegree) && Listed(gates, ids, dependents)
  {
    forall k | 0 <= k < |gates|
      ensures DegreeAt(gates, ids, {}, multiset{}, k, indegree)
    {
      assert RowBuilt(gates, ids, |gates|, 0, k, indegree);
    }
  }

  lemma {:induction false} PopDegrees(gates: seq<Gate>, ids: set<string>, popped: set<string>, gid: string,
                                      indegree: map<string, int>, dependents: map<string, seq<string>>)
    requires gid in ids && gid !in popped
    requires Listed(gates, ids, dependents) && Degrees(gates, ids, popped, multiset{}, indegree)
    ensures Degrees(gates, ids, popped + {gid}, multiset(dependents[gid]), indegree)
  {
    var popped', rest := popped + {gid}, multiset(dependents[gid]);
    forall k | 0 <= k < |gates|
      ensures DegreeAt(gates, ids, popped', rest, k, indegree)
    {
      assert DegreeAt(gates, ids, popped, multiset{}, k, indegree);
      assert ListBuilt(gates, |gates|, 0, k, gid, dependents);
      OpenNeedsAfterPop(gates[k].needs, ids, popped, gid);
    }
  }

  lemma {:induction false} DiscountDegree(gates: seq<Gate>, ids: set<string>, popped: set<string>,
                                          rest: multiset<string>, nxt: string, indegree: map<string, int>)
    requires UniqueIds(gates) && nxt in ids && nxt in rest
    requires Degrees(gates, ids, popped, rest, indegree)
    ensures Degrees(gates, ids, popped, rest - multiset{nxt}, indegree[nxt := indegree[nxt] - 1])
  {
    var rest', indegree' := rest - multiset{nxt}, indegree[nxt := indegree[nxt] - 1];
    forall k | 0 <= k < |gates|
      ensures DegreeAt(gates, ids, popped, rest', k, indegree')
    {
      assert DegreeAt(gates, ids, popped, rest, k, indegree);
    }
  }

  /** A gate of in-degree zero has all its selected needs popped. */
  lemma {:induction false} ZeroDegreeReady(gates: seq<Gate>, ids: set<string>, popped: set<string>,
                                           indegree: map<string, int>, k: nat)
    requires k < |gates| && Degrees(gates, ids, popped, multiset{}, indegree)
    ensures gates[k].id in indegree
    ensures indegree[gates[k].id] >= 0
    ensures indegree[gates[k].id] == 0 <==> forall d :: d in gates[k].needs && d in ids ==> d in popped
  {
    assert DegreeAt(gates, ids, popped, multiset{}, k, indegree);
    OpenNeedsZero(gates[k].needs, ids, popped);
  }

  lemma {:induction false} DiscountQueue(ids: set<string>, order: seq<string>, queue: seq<string>,
                                         indegree: map<string, int>, nxt: string)
    requires QueueHolds(ids, order, queue, indegree) && nxt in ids && indegree[nxt] > 0
    ensures var indegree' := indegree[nxt := indegree[nxt] - 1];
            QueueHolds(ids, order, if indegree'[nxt] == 0 then queue + [nxt] else queue, indegree')
  {
  }

  /** Popping the last entry of the work list extends the order. */
  lemma {:induction false} PopQueue(ids: set<string>, order: seq<string>, queue: seq<string>,
                                    indegree: map<string, int>)
    requires QueueHolds(ids, order, queue, indegree) && queue != []
    ensures QueueHolds(ids, order + [queue[|queue| - 1]], queue[..|queue| - 1], indegree)
  {
    var n := |queue| - 1;
    assert queue == queue[..n] + [queue[n]];
    assert queue[n] in queue;
  }

  lemma {:induction false} ExtendOrder(gates: seq<Gate>, order: seq<string>, k: nat)
    requires UniqueIds(gates) && k < |gates| && gates[k].id !in order
    requires TopologicalOrder(NeedGraph(gates), order)
    requires forall d :: d in gates[k].needs && d in IdSet(gates) ==> d in Elements(order)
    ensures TopologicalOrder(NeedGraph(gates), order + [gates[k].id])
  {
    NeedGraphAt(gates, k);
    var order', g := order + [gates[k].id], NeedGraph(gates);
    forall i, b | 0 <= i < |order'| && b in g[order'[i]]
      ensures b in order'[..i]
    {
      if i < |order| {
        assert b in order[..i] && order'[..i] == order[..i];
      } else {
        assert order'[..i] == order;
      }
    }
  }

  method InitialQueue(gates: seq<Gate>, indegree: map<string, int>) returns (queue: seq<string>)
    requires UniqueIds(gates) && indegree.Keys == IdSet(gates)
    ensures QueueHolds(IdSet(gates), [], queue, indegree)
  {
    queue := [];
    for i := 0 to |gates|
      invariant NoRepeats(queue)
      invariant forall x :: x in queue ==> exists k :: 0 <= k < i && gates[k].id == x && indegree[x] == 0
      invariant forall k :: 0 <= k < i && indegree[gates[k].id] == 0 ==> gates[k].id in queue
    {
      if indegree[gates[i].id] == 0 {
        queue := queue + [gates[i].id];
      }
    }
  }

  /** What popping the last entry of the work list does to the loop's invariants. */
  lemma {:induction false} PopGate(gates: seq<Gate>, order: seq<string>, queue: seq<string>, gid: string,
                                   indegree: map<string, int>, dependents: map<string, seq<string>>)
    requires UniqueIds(gates) && queue != [] && gid == queue[|queue| - 1]
    requires QueueHolds(IdSet(gates), order, queue, indegree)
    requires TopologicalOrder(NeedGraph(gates), order)
    requires Listed(gates, IdSet(gates), dependents)
    requires Degrees(gates, IdSet(gates), Elements(order), multiset{}, indegree)
    ensures gid in IdSet(gates) && gid !in order && Elements(order + [gid]) == Elements(order) + {gid}
    ensures QueueHolds(IdSet(gates), order + [gid], queue[..|queue| - 1], indegree)
    ensures TopologicalOrder(NeedGraph(gates), order + [gid])
    ensures Degrees(gates, IdSet(gates), Elements(order + [gid]), multiset(dependents[gid]), indegree)
  {
    var ids := IdSet(gates);
    PopQueue(ids, order, queue, indegree);
    assert gid in queue;
    var k :| 0 <= k < |gates| && gates[k].id == gid;
    ZeroDegreeReady(gates, ids, Elements(order), indegree, k);
    ExtendOrder(gates, order, k);
    PopDegrees(gates, ids, Elements(order), gid, indegree, dependents);
    assert Elements(order + [gid]) == Elements(order) + {gid};
  }

  /** The inner loop: one decrement for every mention of the popped gate. */
  method ReleaseDependents(gates: seq<Gate>, ids: set<string>, ghost order: seq<string>, list: seq<string>,
                           indegree0: map<string, int>, queue0: seq<string>)
    returns (indegree: map<string, int>, queue: seq<string>)
    requires UniqueIds(gates) && ids == IdSet(gates)
    requires forall n :: 0 <= n < |list| ==> list[n] in ids
    requires QueueHolds(ids, order, queue0, indegree0)
    requires Degrees(gates, ids, Elements(order), multiset(list), indegree0)
    ensures QueueHolds(ids, order, queue, indegree)
    ensures Degrees(gates, ids, Elements(order), multiset{}, indegree)
  {
    indegree, queue := indegree0, queue0;
    ghost var popped, rest := Elements(order), multiset(list);
    assert list[0..] == list;
    for j := 0 to |list|
      invariant rest == multiset(list[j..])
      invariant QueueHolds(ids, order, queue, indegree)
      invariant Degrees(gates, ids, popped, rest, indegree)
    {
      var nxt := list[j];
      assert list[j..] == [nxt] + list[j + 1..];
      PositiveWhileListed(gates, ids, popped, rest, nxt, indegree);
      DiscountDegree(gates, ids, popped, rest, nxt, indegree);
      DiscountQueue(ids, order, queue, indegree, nxt);
      rest := rest - multiset{nxt};
      indegree := indegree[nxt := indegree[nxt] - 1];
      if indegree[nxt] == 0 {
        queue := queue + [nxt];
      }
    }
    assert list[|list|..] == [];
  }

  method Kahn(gates: seq<Gate>) returns (seen: nat, indegree: map<string, int>, ghost order: seq<string>)
    requires UniqueIds(gates)
    ensures seen == |order| && TopologicalOrder(NeedGraph(gates), order)
    ensures indegree.Keys == IdSet(gates) && Elements(order) <= IdSet(gates)
    ensures forall k :: 0 <= k < |gates| ==> indegree[gates[k].id] >= 0
    ensures forall x :: x in order <==> x in indegree && indegree[x] == 0
    ensures Trap(NeedGraph(gates), IdSet(gates) - Elements(order))
  {
    var ids := IdSet(gates);
    var dependents;
    indegree, dependents := CountNeeds(gates, ids);
    BuiltDegrees(gates, ids, indegree, dependents);
    var queue := InitialQueue(gates, indegree);
    seen, order := 0, [];
    assert Elements(order) == {};
    while queue != []
      invariant seen == |order|
      invariant QueueHolds(ids, order, queue, indegree)
      invariant TopologicalOrder(NeedGraph(gates), order)
      invariant Degrees(gates, ids, Elements(order), multiset{}, indegree)
      decreases ids - Elements(order)
    {
      var gid := queue[|queue| - 1];
      PopGate(gates, order, queue, gid, indegree, dependents);
      queue := queue[..|queue| - 1];
      seen := seen + 1;
      order := order + [gid];
      indegree, queue := ReleaseDependents(gates, ids, order, dependents[gid], indegree, queue);
    }
    StuckIsTrap(gates, order, indegree);
    forall i | 0 <= i < |gates| {
      ZeroDegreeReady(gates, ids, Elements(order), indegree, i);
    }
  }

  lemma {:induction false} PositiveWhileListed(gates: seq<Gate>, ids: set<string>, popped: set<string>,
                                               rest: multiset<string>, nxt: string, indegree: map<string, int>)
    requires ids == IdSet(gates) && nxt in ids && nxt in rest
    requires Degrees(gates, ids, popped, rest, indegree)
    ensures indegree[nxt] > 0
  {
    var k :| 0 <= k < |gates| && gates[k].id == nxt;
    assert DegreeAt(gates, ids, popped, rest, k, indegree);
  }

  /** When the work list runs dry, every gate left over needs another one left over. */
  lemma {:induction false} StuckIsTrap(gates: seq<Gate>, order: seq<string>, indegree: map<string, int>)
    requires UniqueIds(gates)
    requires QueueHolds(IdSet(gates), order, [], indegree)
    requires Degrees(gates, IdSet(gates), Elements(order), multiset{}, indegree)
    ensures Trap(NeedGraph(gates), IdSet(gates) - Elements(order))
  {
    var g, ids := NeedGraph(gates), IdSet(gates);
    var stuck := ids - Elements(order);
    NeedGraphClosed(gates);
    forall x | x in stuck
      ensures PointsInto(g, x, stuck)
    {
      var k :| 0 <= k < |gates| && gates[k].id == x;
      ZeroDegreeReady(gates, ids, Elements(order), indegree, k);
      NeedGraphAt(gates, k);
      assert indegree[x] != 0;
      var d :| d in gates[k].needs && d in ids && d !in Elements(order);
      assert d in g[x] && d in stuck;
    }
  }

  /** The complaint that comes first: repeated ids, then the first gate whose metadata is faulty, then
      the first need, gate by gate, that is unknown, then the largest set of gates that wait for
      each other. */
  ghost predicate FirstComplaint(gates: seq<Gate>, known: set<string>, error: GraphError) {
    match error
    case DuplicateIds(ids) => !UniqueIds(gates) && ids == RepeatedIds(gates) != {}
    case BadMetadata(gate, fault) =>
      UniqueIds(gates) && exists i :: 0 <= i < |gates| && FirstFaulty(gates, i, gate, fault)
    case UnknownNeed(gate, need) =>
      && UniqueIds(gates) && (forall k :: 0 <= k < |gates| ==> Described(gates[k]))
      && exists i, n :: 0 <= i < |gates| && 0 <= n < |gates[i].needs| && FirstUnknown(gates, known, i, n, gate, need)
    case DependencyCycle(ids) =>
      && WellDescribed(gates, known) && !Acyclic(NeedGraph(gates)) && Trap(NeedGraph(gates), ids)
      && forall s :: Trap(NeedGraph(gates), s) ==> s <= ids
  }

  predicate FirstFaulty(gates: seq<Gate>, i: nat, gate: string, fault: MetadataFault)
    requires i < |gates|
  {
    && gates[i].id == gate && MetadataFaultOf(gates[i]) == Some(fault)
    && forall j :: 0 <= j < i ==> Described(gates[j])
  }

  predicate FirstUnknown(gates: seq<Gate>, known: set<string>, i: nat, n: nat, gate: string, need: string)
    requires i < |gates| && n < |gates[i].needs|
  {
    && gates[i].id == gate && gates[i].needs[n] == need && need !in known
    && (forall m :: 0 <= m < n ==> gates[i].needs[m] in known)
    && (forall j :: 0 <= j < i ==> NeedsKnown(gates[j], known))
  }


  /** Validation of a selection of gates, complaint by complaint in source order. */
  method ValidateGraph(gates: seq<Gate>, known: set<string>) returns (r: Verdict)
    ensures r == Valid <==> WellDescribed(gates, known) && Acyclic(NeedGraph(gates))
    ensures r.Invalid? ==> FirstComplaint(gates, known, r.error)
  {
    if !UniqueIds(gates) {
      SomeIdRepeated(gates);
      return Invalid(DuplicateIds(RepeatedIds(gates)));
    }
    for i := 0 to |gates|
      invariant forall j :: 0 <= j < i ==> Described(gates[j])
    {
      var fault := MetadataFaultOf(gates[i]);
      FaultMeaning(gates[i]);
      if fault.Some? {
        assert FirstFaulty(gates, i, gates[i].id, fault.value);
        return Invalid(BadMetadata(gates[i].id, fault.value));
      }
    }
    for i := 0 to |gates|
      invariant forall j :: 0 <= j < i ==> NeedsKnown(gates[j], known)
    {
      for n := 0 to |gates[i].needs|
        invariant forall m :: 0 <= m < n ==> gates[i].needs[m] in known
      {
        if gates[i].needs[n] !in known {
          assert FirstUnknown(gates, known, i, n, gates[i].id, gates[i].needs[n]);
          return Invalid(UnknownNeed(gates[i].id, gates[i].needs[n]));
        }
      }
    }
    var seen, indegree, order := Kahn(gates);
    KahnDecides(gates, order);
    if seen != |gates| {
      var cyclic := set x | x in indegree && indegree[x] > 0;
      assert cyclic == IdSet(gates) - Elements(order);
      return Invalid(DependencyCycle(cyclic));
    }
    return Valid;
  }

  lemma {:induction false} SubsetSize(a: set<string>, b: set<string>)
    requires a <= b
    ensures |a| == |b| <==> b - a == {}
  {
    assert b == a + (b - a);
  }

  /** What the pop order misses is the largest trap. */
  lemma {:induction false} StuckIsLargest(g: Graph, order: seq<string>, s: set<string>)
    requires TopologicalOrder(g, order) && Trap(g, s)
    ensures s <= g.Keys - Elements(order)
  {
    TrapAvoidsOrder(g, order, s, |order|);
  }

  /** The pop order is complete exactly when the needs relation has no cycle. */
  lemma {:induction false} KahnDecides(gates: seq<Gate>, order: seq<string>)
    requires UniqueIds(gates)
    requires TopologicalOrder(NeedGraph(gates), order) && Elements(order) <= IdSet(gates)
    requires Trap(NeedGraph(gates), IdSet(gates) - Elements(order))
    ensures |order| == |gates| <==> Acyclic(NeedGraph(gates))
    ensures forall s :: Trap(NeedGraph(gates), s) ==> s <= IdSet(gates) - Elements(order)
  {
    var g, stuck := NeedGraph(gates), IdSet(gates) - Elements(order);
    IdsSize(gates);
    NoRepeatsSize(order);
    SubsetSize(Elements(order), IdSet(gates));
    assert g.Keys == IdSet(gates);
    forall s | Trap(g, s)
      ensures s <= stuck
    {
      StuckIsLargest(g, order, s);
    }
    if stuck != {} {
      TrapGivesCycle(g, stuck);
    } else if !Acyclic(g) {
      var s := CycleGivesTrap(g);
    }
  }
}
