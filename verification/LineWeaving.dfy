/** Searching a list of lines and inserting one line at several places at once. */
module LineWeaving {

  /** Index of the first line with the property, or the number of lines. */
  function First(l: seq<string>, p: string -> bool): (n: nat)
    ensures n <= |l|
  {
    if l == [] || p(l[0]) then 0 else 1 + First(l[1..], p)
  }

  lemma {:induction false} FirstFacts(l: seq<string>, p: string -> bool)
    ensures First(l, p) < |l| ==> p(l[First(l, p)])
    ensures forall i :: 0 <= i < First(l, p) ==> !p(l[i])
  {
    if l != [] && !p(l[0]) {
      FirstFacts(l[1..], p);
    }
  }

  lemma {:induction false} FirstIs(l: seq<string>, p: string -> bool, n: nat)
    requires n <= |l| && (n < |l| ==> p(l[n]))
    requires forall i :: 0 <= i < n ==> !p(l[i])
    ensures First(l, p) == n
  {
    FirstFacts(l, p);
  }

  /** The lines from position i on, with x inserted before every position in `at`. */
  function Weave(l: seq<string>, at: set<nat>, x: string, i: nat): seq<string>
    requires i <= |l|
    decreases |l| - i
  {
    if i == |l| then (if i in at then [x] else []) else Piece(l, at, x, i) + Weave(l, at, x, i + 1)
  }

  /** Line i, with x in front of it if i is an insertion point. */
  function Piece(l: seq<string>, at: set<nat>, x: string, i: nat): (piece: seq<string>)
    requires i < |l|
    ensures |piece| == if i in at then 2 else 1
    ensures piece[|piece| - 1] == l[i] && (i in at ==> piece[0] == x)
  {
    if i in at then [x, l[i]] else [l[i]]
  }

  /** Number of insertion points up to and including i. */
  ghost function Shift(at: set<nat>, i: nat): nat {
    (if i == 0 then 0 else Shift(at, i - 1)) + if i in at then 1 else 0
  }

  /** Where line i ends up. */
  ghost function Pos(at: set<nat>, i: nat): nat {
    i + Shift(at, i)
  }

  /** Where the woven text of position i begins. */
  ghost function Begin(at: set<nat>, i: nat): nat {
    Pos(at, i) - if i in at then 1 else 0
  }

  lemma {:induction false} BeginNext(at: set<nat>, i: nat)
    ensures Begin(at, i + 1) == Pos(at, i) + 1
  {
  }

  lemma {:induction false} PosMonotone(at: set<nat>, i: nat, j: nat)
    requires i <= j
    ensures Pos(at, i) + (j - i) <= Pos(at, j)
    ensures i < j ==> Pos(at, i) < Begin(at, j)
  {
    if i < j {
      PosMonotone(at, i, j - 1);
    }
  }

  /** Without insertion points in between, lines keep their distance. */
  lemma {:induction false} PosRigid(at: set<nat>, i: nat, j: nat)
    requires i <= j && forall k :: i < k <= j ==> k !in at
    ensures Pos(at, j) == Pos(at, i) + (j - i)
  {
    if i < j {
      PosRigid(at, i, j - 1);
    }
  }

  lemma {:induction false} WeaveLength(l: seq<string>, at: set<nat>, x: string, i: nat)
    requires i <= |l|
    ensures |Weave(l, at, x, i)| + Begin(at, i) == Pos(at, |l|)
    decreases |l| - i
  {
    if i < |l| {
      WeaveLength(l, at, x, i + 1);
      BeginNext(at, i);
    }
  }

  /** What follows line j in the woven text is the weaving from j + 1 on. */
  lemma {:induction false} WeaveSuffix(l: seq<string>, at: set<nat>, x: string, i: nat, j: nat)
    requires i <= j < |l|
    ensures var w := Weave(l, at, x, i);
            var k := Pos(at, j) - Begin(at, i);
            0 <= k < |w| && w[k] == l[j] && w[k + 1..] == Weave(l, at, x, j + 1)
    decreases j - i
  {
    var piece, rest := Piece(l, at, x, i), Weave(l, at, x, i + 1);
    if i == j {
      assert (piece + rest)[|piece|..] == rest;
    } else {
      WeaveSuffix(l, at, x, i + 1, j);
      BeginNext(at, i);
      PosMonotone(at, i, j);
      var k := Pos(at, j) - Begin(at, i);
      assert k - |piece| == Pos(at, j) - Begin(at, i + 1);
      assert (piece + rest)[k + 1..] == rest[k - |piece| + 1..];
    }
  }

  /** Every place of the woven text holds either a line at its position or an insertion. */
  lemma {:induction false} WeaveCovers(l: seq<string>, at: set<nat>, x: string, i: nat, k: nat) returns (j: nat)
    requires i <= |l| && k < |Weave(l, at, x, i)|
    ensures i <= j <= |l|
    ensures (j < |l| && k + Begin(at, i) == Pos(at, j)) || (j in at && k + Begin(at, i) + 1 == Pos(at, j))
    ensures Weave(l, at, x, i)[k] == if j < |l| && k + Begin(at, i) == Pos(at, j) then l[j] else x
    decreases |l| - i
  {
    if i == |l| || k < |Piece(l, at, x, i)| {
      j := i;
    } else {
      BeginNext(at, i);
      j := WeaveCovers(l, at, x, i + 1, k - |Piece(l, at, x, i)|);
    }
  }

  /** A property that the inserted line lacks is first met at the position of the line that
      first had it. */
  lemma {:induction false} FirstWeave(l: seq<string>, at: set<nat>, x: string, p: string -> bool, i: nat)
    requires i <= |l| && !p(x)
    ensures Begin(at, i) + First(Weave(l, at, x, i), p) == Pos(at, i + First(l[i..], p))
    decreases |l| - i
  {
    if i == |l| || p(l[i]) {
      FirstHere(l, at, x, p, i);
    } else {
      FirstWeave(l, at, x, p, i + 1);
      FirstLater(l, at, x, p, i);
      BeginNext(at, i);
    }
  }

  lemma {:induction false} FirstHere(l: seq<string>, at: set<nat>, x: string, p: string -> bool, i: nat)
    requires i <= |l| && !p(x) && (i < |l| ==> p(l[i]))
    ensures First(Weave(l, at, x, i), p) == (if i in at then 1 else 0) && First(l[i..], p) == 0
  {
    FirstIs(Weave(l, at, x, i), p, if i in at then 1 else 0);
  }

  lemma {:induction false} FirstLater(l: seq<string>, at: set<nat>, x: string, p: string -> bool, i: nat)
    requires i < |l| && !p(x) && !p(l[i])
    ensures First(Weave(l, at, x, i), p) == (if i in at then 2 else 1) + First(Weave(l, at, x, i + 1), p)
    ensures First(l[i..], p) == 1 + First(l[i + 1..], p)
  {
    FirstAfter(Piece(l, at, x, i), Weave(l, at, x, i + 1), p);
    FirstAfter([l[i]], l[i + 1..], p);
    assert l[i..] == [l[i]] + l[i + 1..];
  }

  lemma {:induction false} FirstAfter(head: seq<string>, rest: seq<string>, p: string -> bool)
    requires forall i :: 0 <= i < |head| ==> !p(head[i])
    ensures First(head + rest, p) == |head| + First(rest, p)
  {
    FirstFacts(rest, p);
    FirstIs(head + rest, p, |head| + First(rest, p));
  }

  /** The weaving from i on depends only on the insertion points from i on. */
  lemma {:induction false} WeaveAgrees(l: seq<string>, at: set<nat>, at': set<nat>, x: string, i: nat)
    requires i <= |l| && forall k :: i <= k ==> (k in at <==> k in at')
    ensures Weave(l, at, x, i) == Weave(l, at', x, i)
    decreases |l| - i
  {
    if i < |l| {
      WeaveAgrees(l, at, at', x, i + 1);
    }
  }

  /** Inserting below all earlier insertions uses the original line number. */
  lemma {:induction false} InsertBelow(l: seq<string>, done: set<nat>, x: string, idx: nat, i: nat)
    requires i <= idx <= |l| && forall k :: k in done ==> idx < k
    ensures var w := Weave(l, done, x, i);
            idx - i <= |w| && w[..idx - i] + [x] + w[idx - i..] == Weave(l, done + {idx}, x, i)
    decreases idx - i
  {
    var w := Weave(l, done, x, i);
    if i == idx {
      assert w[..0] + [x] + w[0..] == [x] + w;
      InsertHere(l, done, x, i);
    } else {
      InsertBelow(l, done, x, idx, i + 1);
      assert w == [l[i]] + Weave(l, done, x, i + 1);
      InsertBehind(l[i], Weave(l, done, x, i + 1), x, idx - i - 1);
    }
  }

  lemma {:induction false} InsertBehind(head: string, rest: seq<string>, x: string, k: nat)
    requires k <= |rest|
    ensures var w := [head] + rest; w[..k + 1] + [x] + w[k + 1..] == [head] + (rest[..k] + [x] + rest[k..])
  {
  }

  lemma {:induction false} InsertHere(l: seq<string>, done: set<nat>, x: string, i: nat)
    requires i <= |l| && i !in done
    ensures Weave(l, done + {i}, x, i) == [x] + Weave(l, done, x, i)
  {
    if i < |l| {
      var rest := Weave(l, done, x, i + 1);
      assert Weave(l, done + {i}, x, i + 1) == rest by {
        WeaveAgrees(l, done, done + {i}, x, i + 1);
      }
      assert Piece(l, done + {i}, x, i) == [x, l[i]] && Piece(l, done, x, i) == [l[i]];
      Associate(x, l[i], rest);
    }
  }

  lemma {:induction false} Associate(x: string, y: string, rest: seq<string>)
    ensures [x] + ([y] + rest) == [x, y] + rest
  {
  }

  // ---------- subsequences ----------

  ghost predicate Subsequence(a: seq<string>, b: seq<string>) {
    a == [] || (b != [] && ((a[0] == b[0] && Subsequence(a[1..], b[1..])) || Subsequence(a, b[1..])))
  }

  lemma {:induction false} WeaveKeepsLines(l: seq<string>, at: set<nat>, x: string, i: nat)
    requires i <= |l|
    ensures Subsequence(l[i..], Weave(l, at, x, i))
    decreases |l| - i
  {
    if i < |l| {
      WeaveKeepsLines(l, at, x, i + 1);
      PieceKeepsLine(l, at, x, i, Weave(l, at, x, i + 1));
    }
  }

  lemma {:induction false} PieceKeepsLine(l: seq<string>, at: set<nat>, x: string, i: nat, rest: seq<string>)
    requires i < |l| && Subsequence(l[i + 1..], rest)
    ensures Subsequence(l[i..], Piece(l, at, x, i) + rest)
  {
    assert l[i..][1..] == l[i + 1..];
    assert ([l[i]] + rest)[1..] == rest;
    assert Subsequence(l[i..], [l[i]] + rest);
    if i in at {
      assert (Piece(l, at, x, i) + rest)[1..] == [l[i]] + rest;
    }
  }
}
