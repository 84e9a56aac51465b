/** Formats that read back what they wrote exist: every card value has its own code.

    The code is not JSON; it only shows that nothing impossible is asked of the parameters
    of CardIo.
 */
module CardFormats {
  import opened Base64
  import opened CardIo
  import opened Options

  type Bytes = seq<Byte>

  // ---------- codes that end where they should ----------

  /** n ones and a zero. */
  function Unary(n: nat): Bytes {
    if n == 0 then [0] else [1] + Unary(n - 1)
  }

  function Text(s: string): Bytes {
    if s == [] then Unary(0) else Unary(s[0] as int + 1) + Text(s[1..])
  }

  /** The keys of an object in some fixed order. */
  ghost function InOrder(keys: set<string>): (order: seq<string>)
    ensures forall k :: k in order <==> k in keys
  {
    if keys == {} then [] else
    var k :| k in keys;
    [k] + InOrder(keys - {k})
  }

  function Tag(j: Json): nat {
    match j
    case Null => 0
    case Bool(b) => if b then 1 else 2
    case Num(_) => 3
    case Str(_) => 4
    case Arr(_) => 5
    case Obj(_) => 6
  }

  ghost function Body(j: Json): Bytes
    decreases j, 1, 0
  {
    match j
    case Null => []
    case Bool(_) => []
    case Num(literal) => Text(literal)
    case Str(s) => Text(s)
    case Arr(_) => Items(j, 0)
    case Obj(fields) => Fields(j, InOrder(fields.Keys))
  }

  ghost function Code(j: Json): Bytes
    decreases j, 2, 0
  {
    Unary(Tag(j)) + Body(j)
  }

  ghost function Items(j: Json, i: nat): Bytes
    requires j.Arr? && i <= |j.items|
    decreases j, 0, |j.items| - i
  {
    if i == |j.items| then Unary(0) else Unary(1) + (Code(j.items[i]) + Items(j, i + 1))
  }

  ghost function Fields(j: Json, keys: seq<string>): Bytes
    requires j.Obj? && forall k :: k in keys ==> k in j.fields
    decreases j, 0, |keys|
  {
    if keys == [] then Unary(0)
    else Unary(1) + (Text(keys[0]) + (Code(j.fields[keys[0]]) + Fields(j, keys[1..])))
  }

  // ---------- a code is found in front of anything ----------

  lemma {:induction false} UnaryApart(m: nat, n: nat, r: Bytes, t: Bytes)
    requires Unary(m) + r == Unary(n) + t
    ensures m == n && r == t
  {
    var s := Unary(m) + r;
    assert s[0] == (if m == 0 then 0 else 1) == (if n == 0 then 0 else 1);
    if m == 0 {
      assert s[1..] == r && (Unary(n) + t)[1..] == t;
    } else {
      assert s[1..] == Unary(m - 1) + r && (Unary(n) + t)[1..] == Unary(n - 1) + t;
      UnaryApart(m - 1, n - 1, r, t);
    }
  }

  /** The same, with something after the number on both sides. */
  lemma {:induction false} CountedApart(m: nat, n: nat, x: Bytes, y: Bytes, r: Bytes, t: Bytes)
    requires Unary(m) + x + r == Unary(n) + y + t
    ensures m == n && x + r == y + t
  {
    assert Unary(m) + x + r == Unary(m) + (x + r) && Unary(n) + y + t == Unary(n) + (y + t);
    UnaryApart(m, n, x + r, y + t);
  }

  lemma {:induction false} TextApart(a: string, b: string, r: Bytes, t: Bytes)
    requires Text(a) + r == Text(b) + t
    ensures a == b && r == t
  {
    var m, n := if a == [] then 0 else a[0] as int + 1, if b == [] then 0 else b[0] as int + 1;
    var x := if a == [] then [] else Text(a[1..]);
    var y := if b == [] then [] else Text(b[1..]);
    assert Text(a) == Unary(m) + x && Text(b) == Unary(n) + y;
    CountedApart(m, n, x, y, r, t);
    if a == [] {
      assert x + r == r && y + t == t;
    } else {
      TextApart(a[1..], b[1..], r, t);
      assert a == [a[0]] + a[1..] && b == [b[0]] + b[1..];
    }
  }

  lemma {:induction false} CodeApart(a: Json, b: Json, r: Bytes, t: Bytes)
    requires Code(a) + r == Code(b) + t
    ensures a == b && r == t
    decreases a, 2, 0
  {
    CountedApart(Tag(a), Tag(b), Body(a), Body(b), r, t);
    match a
    case Null => assert Body(a) + r == r && Body(b) + t == t;
    case Bool(_) => assert Body(a) + r == r && Body(b) + t == t;
    case Num(_) => TextApart(a.literal, b.literal, r, t);
    case Str(_) => TextApart(a.s, b.s, r, t);
    case Arr(_) => ItemsApart(a, b, 0, r, t);
    case Obj(_) => ObjectsApart(a, b, r, t);
  }

  lemma {:induction false} ItemsApart(a: Json, b: Json, i: nat, r: Bytes, t: Bytes)
    requires a.Arr? && b.Arr? && i <= |a.items| && i <= |b.items|
    requires a.items[..i] == b.items[..i] && Items(a, i) + r == Items(b, i) + t
    ensures a == b && r == t
    decreases a, 0, |a.items| - i
  {
    var m, n := if i == |a.items| then 0 else 1, if i == |b.items| then 0 else 1;
    var x := if m == 0 then [] else Code(a.items[i]) + Items(a, i + 1);
    var y := if n == 0 then [] else Code(b.items[i]) + Items(b, i + 1);
    assert Items(a, i) == Unary(m) + x && Items(b, i) == Unary(n) + y;
    CountedApart(m, n, x, y, r, t);
    if m == 1 {
      assert x + r == Code(a.items[i]) + (Items(a, i + 1) + r) && y + t == Code(b.items[i]) + (Items(b, i + 1) + t);
      CodeApart(a.items[i], b.items[i], Items(a, i + 1) + r, Items(b, i + 1) + t);
      assert a.items[..i + 1] == a.items[..i] + [a.items[i]] && b.items[..i + 1] == b.items[..i] + [b.items[i]];
      ItemsApart(a, b, i + 1, r, t);
    } else {
      assert x + r == r && y + t == t;
      assert a.items == a.items[..i] && b.items == b.items[..i];
    }
  }

  lemma {:induction false} ObjectsApart(a: Json, b: Json, r: Bytes, t: Bytes)
    requires a.Obj? && b.Obj? && Body(a) + r == Body(b) + t
    ensures a == b && r == t
    decreases a, 1, 0
  {
    var ks, ls := InOrder(a.fields.Keys), InOrder(b.fields.Keys);
    FieldsApart(a, b, ks, ls, r, t);
    assert a.fields.Keys == b.fields.Keys by {
      forall k
        ensures k in a.fields.Keys <==> k in b.fields.Keys
      {
        assert k in ks <==> k in ls;
      }
    }
    assert a.fields == b.fields;
  }

  lemma {:induction false} FieldsApart(a: Json, b: Json, ks: seq<string>, ls: seq<string>, r: Bytes, t: Bytes)
    requires a.Obj? && b.Obj?
    requires (forall k :: k in ks ==> k in a.fields) && forall k :: k in ls ==> k in b.fields
    requires Fields(a, ks) + r == Fields(b, ls) + t
    ensures ks == ls && r == t
    ensures forall k :: k in ks ==> a.fields[k] == b.fields[k]
    decreases a, 0, |ks|
  {
    var m, n := if ks == [] then 0 else 1, if ls == [] then 0 else 1;
    var x := if m == 0 then [] else OneField(a, ks);
    var y := if n == 0 then [] else OneField(b, ls);
    assert Fields(a, ks) == Unary(m) + x && Fields(b, ls) == Unary(n) + y;
    CountedApart(m, n, x, y, r, t);
    if m == 1 {
      var v, w := Code(a.fields[ks[0]]), Code(b.fields[ls[0]]);
      FirstFieldApart(ks[0], ls[0], v, w, Fields(a, ks[1..]), Fields(b, ls[1..]), r, t);
      CodeApart(a.fields[ks[0]], b.fields[ls[0]], Fields(a, ks[1..]) + r, Fields(b, ls[1..]) + t);
      FieldsApart(a, b, ks[1..], ls[1..], r, t);
      assert ks == [ks[0]] + ks[1..] && ls == [ls[0]] + ls[1..];
    } else {
      assert x + r == r && y + t == t;
    }
  }

  ghost function OneField(j: Json, keys: seq<string>): Bytes
    requires j.Obj? && keys != [] && forall k :: k in keys ==> k in j.fields
  {
    Text(keys[0]) + (Code(j.fields[keys[0]]) + Fields(j, keys[1..]))
  }

  lemma {:induction false} FirstFieldApart(k: string, l: string, v: Bytes, w: Bytes, f: Bytes, g: Bytes, r: Bytes,
                                           t: Bytes)
    requires Text(k) + (v + f) + r == Text(l) + (w + g) + t
    ensures k == l && v + (f + r) == w + (g + t)
  {
    assert Text(k) + (v + f) + r == Text(k) + (v + (f + r)) && Text(l) + (w + g) + t == Text(l) + (w + (g + t));
    TextApart(k, l, v + (f + r), w + (g + t));
  }

  lemma {:induction false} SameCode(a: Json, b: Json)
    requires Code(a) == Code(b)
    ensures a == b
  {
    assert Code(a) + [] == Code(b) + [];
    CodeApart(a, b, [], []);
  }

  // ---------- the same for text chunks ----------

  function ChunkCode(chunks: Chunks): Bytes {
    if chunks == [] then Unary(0) else Unary(1) + (Text(chunks[0].0) + (Text(chunks[0].1) + ChunkCode(chunks[1..])))
  }

  lemma {:induction false} SameChunkCode(a: Chunks, b: Chunks)
    requires ChunkCode(a) == ChunkCode(b)
    ensures a == b
  {
    var m, n := if a == [] then 0 else 1, if b == [] then 0 else 1;
    var x := if m == 0 then [] else Text(a[0].0) + (Text(a[0].1) + ChunkCode(a[1..]));
    var y := if n == 0 then [] else Text(b[0].0) + (Text(b[0].1) + ChunkCode(b[1..]));
    assert ChunkCode(a) == Unary(m) + x && ChunkCode(b) == Unary(n) + y;
    assert Unary(m) + x + [] == Unary(m) + x && Unary(n) + y + [] == Unary(n) + y;
    CountedApart(m, n, x, y, [], []);
    assert x + [] == x && y + [] == y;
    if m == 1 {
      TextApart(a[0].0, b[0].0, Text(a[0].1) + ChunkCode(a[1..]), Text(b[0].1) + ChunkCode(b[1..]));
      TextApart(a[0].1, b[0].1, ChunkCode(a[1..]), ChunkCode(b[1..]));
      SameChunkCode(a[1..], b[1..]);
      assert a == [a[0]] + a[1..] && b == [b[0]] + b[1..];
    }
  }

  // ---------- formats ----------

  /** Objects start with a brace in the indented form. */
  ghost function Pretty(j: Json): Bytes {
    (if j.Obj? then [OPENING_BRACE] else [0]) + Code(j)
  }

  ghost function Read(raw: Bytes): Option<Json> {
    if j: Json :| Code(j) == raw then Some(j) else None
  }

  ghost function ReadPretty(raw: Bytes): Option<Json> {
    if j: Json :| Pretty(j) == raw then Some(j) else None
  }

  function ToPng(chunks: Chunks): Bytes {
    PNG_MAGIC + ChunkCode(chunks)
  }

  ghost function ChunksOf(raw: Bytes): Option<Chunks> {
    if chunks: Chunks :| ToPng(chunks) == raw then Some(chunks) else None
  }

  /** There are formats that read back all they wrote. */
  lemma {:induction false} SoundFormatsExist() returns (f: Formats)
    ensures forall j: Json :: ReadsCompact(f, j) && ReadsPretty(f, j)
    ensures forall chunks: Chunks :: ImageWith(f, f.toPng(chunks), chunks)
  {
    f := Formats(j => Code(j), j => Pretty(j), raw => Read(raw), raw => ReadPretty(raw), c => ToPng(c),
                 raw => ChunksOf(raw));
    forall j: Json
      ensures ReadsCompact(f, j)
    {
      SameCode(Read(Code(j)).value, j);
    }
    forall j: Json
      ensures ReadsPretty(f, j)
    {
      var back := ReadPretty(Pretty(j)).value;
      assert Pretty(back)[1..] == Code(back) && Pretty(j)[1..] == Code(j);
      SameCode(back, j);
    }
    forall c: Chunks
      ensures ImageWith(f, f.toPng(c), c)
    {
      var back := ChunksOf(ToPng(c)).value;
      assert ToPng(back)[|PNG_MAGIC|..] == ChunkCode(back) && ToPng(c)[|PNG_MAGIC|..] == ChunkCode(c);
      SameChunkCode(back, c);
    }
  }
}
