/** Splitting a pytest argument list into shards that each carry the tail options. */
module Sharder {

  datatype Sharding =
    | Shards(parts: seq<seq<string>>)
    | DivisionByZero
    | ZeroStep

  predicate IsOption(arg: string) {
    arg == "-m" || "--" <= arg
  }

  /** Floor division, also for a negative divisor. */
  function FloorDiv(a: int, b: int): int
    requires b != 0
  {
    if b > 0 then a / b else (-a) / (-b)
  }

  /** Paths per shard: the ceiling of count / n for positive n. */
  function ShardSize(count: int, n: int): int
    requires n != 0
  {
    -FloorDiv(-count, n)
  }

  ghost function Flatten(parts: seq<seq<string>>): seq<string> {
    if parts == [] then [] else Flatten(parts[..|parts| - 1]) + parts[|parts| - 1]
  }

  lemma {:induction false} CeilBounds(count: int, n: int)
    requires n >= 1
    ensures var size := ShardSize(count, n); size * n - n < count <= size * n
  {
    var size := ShardSize(count, n);
    assert -count == (-size) * n + (-count) % n;
    assert (-size) * n == -(size * n);
  }

  lemma {:induction false} SizePositive(count: int, n: int)
    requires n >= 1 && count >= 0
    ensures ShardSize(count, n) >= 0
    ensures ShardSize(count, n) == 0 <==> count == 0
  {
    var size := ShardSize(count, n);
    CeilBounds(count, n);
    if size < 0 {
      MulMono(n, size, -1);
    } else if size >= 1 {
      MulMono(n, 1, size);
    }
  }

  lemma {:induction false} NegativeSize(count: nat, n: int)
    requires n < 0
    ensures ShardSize(count, n) <= 0
    ensures ShardSize(count, n) == 0 <==> count < -n
  {
  }

  lemma {:induction false} MulMono(a: nat, b: int, c: int)
    requires b <= c
    ensures a * b <= a * c
  {
  }

  lemma {:induction false} LessByFactor(a: int, b: int, size: nat)
    requires a * size < b * size
    ensures a < b
  {
    if b <= a {
      MulMono(size, b, a);
    }
  }

  /** m shards of `size` paths cover `count` paths with none left over: at most n of them, and
      n of them exactly when n - 1 full shards do not suffice. */
  lemma {:induction false} ShardCount(count: int, n: int, m: int)
    requires n >= 1 && count > 0
    requires (m - 1) * ShardSize(count, n) < count <= m * ShardSize(count, n)
    ensures m <= n
    ensures m == n <==> (n - 1) * ShardSize(count, n) < count
  {
    var size := ShardSize(count, n);
    CeilBounds(count, n);
    SizePositive(count, n);
    assert size * n == n * size;
    LessByFactor(m - 1, n, size);
    if (n - 1) * size < count {
      LessByFactor(n - 1, m, size);
    }
  }

  /** More than (n - 1)^2 paths are enough for exactly n shards. */
  lemma {:induction false} EnoughPaths(count: int, n: int)
    requires n >= 1 && count > (n - 1) * (n - 1)
    ensures (n - 1) * ShardSize(count, n) < count
  {
    var size := ShardSize(count, n);
    CeilBounds(count, n);
    MulMono(n - 1, size * n, count + n - 1);
    LessByFactor((n - 1) * size, count, n);
  }

  lemma {:induction false} SharpSize(n: int)
    requires n >= 2
    ensures ShardSize((n - 1) * (n - 1), n) == n - 1
  {
    var count := (n - 1) * (n - 1);
    var size := ShardSize(count, n);
    CeilBounds(count, n);
    LessByFactor(n - 2, size, n);
    assert (size - 1) * n == size * n - n;
    LessByFactor(size - 1, n - 1, n);
  }

  /** The bound is sharp: (n - 1)^2 paths make only n - 1 shards. */
  lemma {:induction false} OnePathTooFew(n: int, m: int)
    requires n >= 2
    requires (m - 1) * ShardSize((n - 1) * (n - 1), n) < (n - 1) * (n - 1) <= m * ShardSize((n - 1) * (n - 1), n)
    ensures m == n - 1
  {
    SharpSize(n);
    LessByFactor(m - 1, n - 1, n - 1);
    assert (n - 2) * (n - 1) == (n - 1) * (n - 1) - (n - 1);
    LessByFactor(n - 2, m, n - 1);
  }

  lemma {:induction false} OptionMeaning(arg: string)
    ensures IsOption(arg) <==> arg == "-m" || (|arg| >= 2 && arg[..2] == "--")
  {
  }

  /** Position of the first option, or the length if there is none. */
  method TailStart(args: seq<string>) returns (t: nat)
    ensures t <= |args|
    ensures forall a :: a in args[..t] ==> a != "-m" && (|a| < 2 || a[..2] != "--")
    ensures t < |args| ==> args[t] == "-m" || (|args[t]| >= 2 && args[t][..2] == "--")
  {
    t := 0;
    while t < |args| && !IsOption(args[t])
      invariant t <= |args|
      invariant forall a :: a in args[..t] ==> a != "-m" && (|a| < 2 || a[..2] != "--")
    {
      OptionMeaning(args[t]);
      assert args[..t + 1] == args[..t] + [args[t]];
      t := t + 1;
    }
    if t < |args| { OptionMeaning(args[t]); }
  }

  /** chunks is the partition of the paths; every shard is a chunk followed by the options. */
  method PytestArgvShards(args: seq<string>, n: int)
    returns (r: Sharding, ghost paths: seq<string>, ghost opts: seq<string>, ghost chunks: seq<seq<string>>)
    ensures args == paths + opts
    ensures forall a :: a in paths ==> a != "-m" && (|a| < 2 || a[..2] != "--")
    ensures opts != [] ==> opts[0] == "-m" || (|opts[0]| >= 2 && opts[0][..2] == "--")
    ensures r.DivisionByZero? <==> n == 0
    ensures r.ZeroStep? <==> n != 0 && (paths == [] || |paths| < -n)
    ensures r.Shards? && n < 0 ==> r.parts == []
    ensures r.Shards? && n > 0 ==>
              && CarryOptions(r.parts, chunks, opts, ShardSize(|paths|, n))
              && Flatten(chunks) == paths
              && (|r.parts| - 1) * ShardSize(|paths|, n) < |paths| <= |r.parts| * ShardSize(|paths|, n)
  {
    var tail := TailStart(args);
    var files, rest := args[..tail], args[tail..];
    paths, opts, chunks := files, rest, [];
    if n == 0 {
      r := DivisionByZero;
      return;
    }
    var size := ShardSize(|files|, n);
    if n < 0 {
      NegativeSize(|files|, n);
    } else {
      SizePositive(|files|, n);
    }
    if size == 0 {
      r := ZeroStep;
      return;
    }
    if size < 0 {
      r := Shards([]);
      return;
    }
    var parts: seq<seq<string>> := [];
    var i := 0;
    while i < |files|
      invariant 0 <= i < |files| + size && i == |chunks| * size
      invariant CutUpTo(files, i, parts, chunks, rest, size)
      decreases |files| - i
    {
      CutNext(files, i, parts, chunks, rest, size);
      NextMultiple(|chunks|, size);
      var chunk := files[i..Min(i + size, |files|)];
      parts := parts + [chunk + rest];
      chunks := chunks + [chunk];
      i := i + size;
    }
    AllCut(files, i, parts, chunks, rest, size);
    r := Shards(parts);
  }

  lemma {:induction false} NextMultiple(k: int, size: int)
    ensures (k + 1) * size == k * size + size
  {
  }

  /** The paths before i have been cut, and all chunks are full while paths are left. */
  ghost predicate CutUpTo(files: seq<string>, i: int, parts: seq<seq<string>>, chunks: seq<seq<string>>,
                          opts: seq<string>, size: int)
    requires 0 <= i
  {
    && CarryOptions(parts, chunks, opts, size)
    && Flatten(chunks) == files[..Min(i, |files|)]
    && (i < |files| ==> forall k :: 0 <= k < |chunks| ==> |chunks[k]| == size)
  }

  lemma {:induction false} CutNext(files: seq<string>, i: int, parts: seq<seq<string>>, chunks: seq<seq<string>>,
                                   opts: seq<string>, size: int)
    requires 0 <= i < |files| && size > 0 && CutUpTo(files, i, parts, chunks, opts, size)
    ensures var chunk := files[i..Min(i + size, |files|)];
            CutUpTo(files, i + size, parts + [chunk + opts], chunks + [chunk], opts, size)
  {
    var chunk := files[i..Min(i + size, |files|)];
    assert (chunks + [chunk])[..|chunks|] == chunks;
    assert files[..i] + chunk == files[..Min(i + size, |files|)];
  }

  lemma {:induction false} AllCut(files: seq<string>, i: int, parts: seq<seq<string>>, chunks: seq<seq<string>>,
                                  opts: seq<string>, size: int)
    requires |files| <= i < |files| + size && i == |chunks| * size && CutUpTo(files, i, parts, chunks, opts, size)
    ensures Flatten(chunks) == files && (|chunks| - 1) * size < |files| <= |chunks| * size
  {
    NextMultiple(|chunks| - 1, size);
    assert files[..|files|] == files;
  }

  /** Every part is a chunk followed by the options; every chunk but the last is full. */
  ghost predicate CarryOptions(parts: seq<seq<string>>, chunks: seq<seq<string>>, opts: seq<string>, size: int) {
    && |parts| == |chunks|
    && (forall k :: 0 <= k < |chunks| ==> parts[k] == chunks[k] + opts)
    && (forall k :: 0 <= k < |chunks| ==> 1 <= |chunks[k]| <= size)
    && (forall k :: 0 <= k < |chunks| - 1 ==> |chunks[k]| == size)
  }

  function Min(a: int, b: int): int {
    if a < b then a else b
  }

  /** For a positive shard count and at least one path the sharding succeeds with at most n
      shards; it yields all n of them whenever there are more than (n - 1)^2 paths. */
  lemma {:induction false} ShardsForPositiveCount(r: Sharding, paths: seq<string>, n: int)
    requires n >= 1 && paths != [] && r.Shards?
    requires (|r.parts| - 1) * ShardSize(|paths|, n) < |paths| <= |r.parts| * ShardSize(|paths|, n)
    ensures |r.parts| <= n
    ensures |r.parts| == n <==> (n - 1) * ShardSize(|paths|, n) < |paths|
    ensures |paths| > (n - 1) * (n - 1) ==> |r.parts| == n
    ensures n >= 2 && |paths| == (n - 1) * (n - 1) ==> |r.parts| == n - 1
  {
    ShardCount(|paths|, n, |r.parts|);
    if |paths| > (n - 1) * (n - 1) {
      EnoughPaths(|paths|, n);
    }
    if n >= 2 && |paths| == (n - 1) * (n - 1) {
      OnePathTooFew(n, |r.parts|);
    }
  }
}
