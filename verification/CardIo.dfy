/** Character cards in PNG text chunks and in JSON files.

    JSON text, PNG containers and the image library are parameters; a theorem asks of them only
    that they read back the values at hand.  Base 64 is concrete.  A JSON number is its literal.
 */
module CardIo {
  import opened Base64
  import opened Options
  import opened Text

  datatype Json =
    | Null
    | Bool(b: bool)
    | Num(literal: string)
    | Str(s: string)
    | Arr(items: seq<Json>)
    | Obj(fields: map<string, Json>)

  /** Text chunks of an image, in order; no keyword occurs twice. */
  type Chunks = seq<(string, string)>

  datatype Formats = Formats(
    compact: Json -> seq<Byte>, pretty: Json -> seq<Byte>,
    loads: seq<Byte> -> Option<Json>, loadsUtf8: seq<Byte> -> Option<Json>,
    toPng: Chunks -> seq<Byte>, chunksOf: seq<Byte> -> Option<Chunks>)

  const PNG_MAGIC: seq<Byte> := [137, 80, 78, 71, 13, 10, 26, 10]

  const OPENING_BRACE: Byte := 123

  /** The compact text of a value reads back as the value. */
  predicate ReadsCompact(f: Formats, j: Json) {
    f.loads(f.compact(j)) == Some(j)
  }

  /** So does the indented text, which starts with a brace when the value is an object. */
  predicate ReadsPretty(f: Formats, j: Json) {
    f.loadsUtf8(f.pretty(j)) == Some(j) && (j.Obj? ==> f.pretty(j) != [] && f.pretty(j)[0] == OPENING_BRACE)
  }

  /** The bytes are an image with these text chunks. */
  predicate ImageWith(f: Formats, raw: seq<Byte>, chunks: Chunks) {
    PNG_MAGIC <= raw && f.chunksOf(raw) == Some(chunks)
  }

  const SPEC_V2 := "chara_card_v2"
  const SPEC_V3 := "chara_card_v3"
  const KEYWORD_V2 := "chara"
  const KEYWORD_V3 := "ccv3"

  const STR_FIELDS := ["name", "description", "personality", "scenario", "first_mes", "mes_example", "system_prompt",
                       "post_history_instructions", "creator_notes", "creator", "character_version"]
  const LIST_FIELDS := ["alternate_greetings", "tags"]
  const DICT_FIELDS := ["extensions"]
  const ENVELOPE_KEYS := {"spec", "spec_version"}

  type Card = map<string, Json>

  datatype LoadError = NotAnImage | NoCardChunk | BadChunk(keyword: string) | BadJson | NotAnObject

  datatype Result = Loaded(card: Card) | Failed(error: LoadError)

  // ---------- the envelope ----------

  predicate IsEnvelope(c: Card) {
    "spec" in c && c["spec"].Str? && "data" in c && c["data"].Obj?
  }

  function StandardFields(): seq<string> {
    STR_FIELDS + LIST_FIELDS + DICT_FIELDS
  }

  function DefaultFor(field: string): Json {
    if field in LIST_FIELDS then Arr([]) else if field in DICT_FIELDS then Obj(map[]) else Str("")
  }

  /** The data of a bare card: its own fields, and defaults for the standard ones it lacks. */
  function LooseData(raw: Card): Card {
    Filled(raw - ENVELOPE_KEYS, StandardFields())
  }

  function Filled(own: Card, fields: seq<string>): Card {
    own + map field | field in fields && field !in own :: DefaultFor(field)
  }

  function Envelope(data: Card): Card {
    map["spec" := Str(SPEC_V2), "spec_version" := Str("2.0"), "data" := Obj(data)]
  }

  function Normalize(c: Card): Card {
    if IsEnvelope(c) then c else Envelope(LooseData(c))
  }

  lemma {:induction false} FillStep(own: Card, fields: seq<string>, field: string)
    ensures
      var data := Filled(own, fields);
      Filled(own, fields + [field]) == if field in data then data else data[field := DefaultFor(field)]
  {
  }

  method FillDefaults(own: Card, fields: seq<string>) returns (data: Card)
    ensures data == Filled(own, fields)
  {
    data := own;
    var i := 0;
    while i < |fields|
      invariant 0 <= i <= |fields|
      invariant data == Filled(own, fields[..i])
    {
      assert fields[..i + 1] == fields[..i] + [fields[i]];
      FillStep(own, fields[..i], fields[i]);
      if fields[i] !in data {
        data := data[fields[i] := DefaultFor(fields[i])];
      }
      i := i + 1;
    }
    assert fields[..i] == fields;
  }

  method WrapLoose(raw: Card) returns (card: Card)
    ensures card == Envelope(LooseData(raw))
  {
    var data := FillDefaults(raw - ENVELOPE_KEYS, StandardFields());
    card := Envelope(data);
  }

  // ---------- saving ----------

  function KeywordFor(c: Card): string {
    if "spec" in c && c["spec"] == Str(SPEC_V3) then KEYWORD_V3 else KEYWORD_V2
  }

  /** The one text chunk of a saved card. */
  function CardChunks(c: Card, f: Formats): Chunks {
    [(KeywordFor(c), Encode(f.compact(Obj(c))))]
  }

  function SavePng(c: Card, f: Formats): seq<Byte> {
    f.toPng(CardChunks(c, f))
  }

  function SaveJson(c: Card, f: Formats): seq<Byte> {
    f.pretty(Obj(c))
  }

  // ---------- loading ----------

  function LowerChar(c: char): char {
    if 'A' <= c <= 'Z' then (c as int + 32) as char else c
  }

  function Lower(s: string): string {
    seq(|s|, i requires 0 <= i < |s| => LowerChar(s[i]))
  }

  /** The value stored last under a keyword, names compared as they are or in lower case. */
  function ValueAt(chunks: Chunks, keyword: string, fold: bool): Option<string> {
    if chunks == [] then None
    else
      var (k, v) := chunks[|chunks| - 1];
      if (if fold then Lower(k) else k) == keyword then Some(v)
      else ValueAt(chunks[..|chunks| - 1], keyword, fold)
  }

  /** Which chunk is read: exact names before folded ones, version 3 before version 2. */
  function ChooseChunk(chunks: Chunks): Option<(string, string)> {
    if ValueAt(chunks, KEYWORD_V3, false).Some? then Some((KEYWORD_V3, ValueAt(chunks, KEYWORD_V3, false).value))
    else if ValueAt(chunks, KEYWORD_V2, false).Some? then Some((KEYWORD_V2, ValueAt(chunks, KEYWORD_V2, false).value))
    else if ValueAt(chunks, KEYWORD_V3, true).Some? then Some((KEYWORD_V3, ValueAt(chunks, KEYWORD_V3, true).value))
    else if ValueAt(chunks, KEYWORD_V2, true).Some? then Some((KEYWORD_V2, ValueAt(chunks, KEYWORD_V2, true).value))
    else None
  }

  function LoadChunk(keyword: string, value: string, f: Formats): Result {
    var bytes := B64Decode(value);
    if bytes.None? then Failed(BadChunk(keyword))
    else
      var card := f.loads(bytes.value);
      if card.None? then Failed(BadChunk(keyword))
      else if !card.value.Obj? then Failed(NotAnObject)
      else Loaded(Normalize(card.value.fields))
  }

  function Load(raw: seq<Byte>, f: Formats): Result {
    if PNG_MAGIC <= raw then
      var chunks := f.chunksOf(raw);
      if chunks.None? then Failed(NotAnImage)
      else
        var chunk := ChooseChunk(chunks.value);
        if chunk.None? then Failed(NoCardChunk) else LoadChunk(chunk.value.0, chunk.value.1, f)
    else
      var card := f.loadsUtf8(raw);
      if card.None? then Failed(BadJson)
      else if !card.value.Obj? then Failed(NotAnObject)
      else Loaded(Normalize(card.value.fields))
  }

  // ---------- the envelope, once and for all ----------

  /** Normalising twice is normalising once, and a card is left alone exactly when it has its envelope. */
  lemma {:induction false} NormalizeStable(c: Card)
    ensures IsEnvelope(Normalize(c)) && Normalize(Normalize(c)) == Normalize(c)
    ensures Normalize(c) == c <==> IsEnvelope(c)
  {
  }

  /** Wrapping a bare card drops its two envelope keys, keeps every other field as it is, known or
      not, and supplies every missing standard field with the empty value of its kind. */
  lemma {:induction false} WrappingKeepsFields(c: Card, key: string)
    requires !IsEnvelope(c)
    ensures
      var data := Normalize(c)["data"].fields;
      && (key in data <==> (key in c && key !in ENVELOPE_KEYS) || key in StandardFields())
      && (key in c && key !in ENVELOPE_KEYS ==> data[key] == c[key])
      && (key !in c && key in StandardFields() ==> data[key] == DefaultFor(key))
  {
  }

  /** The envelope of an empty card, written out. */
  lemma {:induction false} EmptyCard()
    ensures
      var c := Normalize(map[]);
      && c.Keys == {"spec", "spec_version", "data"}
      && c["spec"] == Str("chara_card_v2") && c["spec_version"] == Str("2.0") && c["data"].Obj?
    ensures
      var data := Normalize(map[])["data"].fields;
      var texts := ["name", "description", "personality", "scenario", "first_mes", "mes_example", "system_prompt",
                    "post_history_instructions", "creator_notes", "creator", "character_version"];
      && (forall key :: key in texts ==> key in data && data[key] == Str(""))
      && (forall key :: key in ["alternate_greetings", "tags"] ==> key in data && data[key] == Arr([]))
      && "extensions" in data && data["extensions"] == Obj(map[])
  {
    assert STR_FIELDS[0] == "name" && LIST_FIELDS[0] == "alternate_greetings" && DICT_FIELDS[0] == "extensions";
    forall key | key in STR_FIELDS
      ensures key !in LIST_FIELDS && key !in DICT_FIELDS
    {
      TextField(key);
    }
    assert "alternate_greetings" !in DICT_FIELDS && "tags" !in DICT_FIELDS && "extensions" !in LIST_FIELDS;
  }

  lemma {:induction false} TextField(key: string)
    requires key in STR_FIELDS
    ensures key !in LIST_FIELDS && key !in DICT_FIELDS
  {
    assert |"alternate_greetings"| == 19 && |"tags"| == 4 && |"extensions"| == 10;
    assert |key| == 4 ==> key == "name";
  }

  /** A saved version 3 card goes under its own keyword, any other under that of version 2. */
  lemma {:induction false} SavedUnder(c: Card, f: Formats)
    ensures
      SavePng(c, f) ==
      f.toPng([(if "spec" in c && c["spec"] == Str("chara_card_v3") then "ccv3" else "chara",
                Encode(f.compact(Obj(c))))])
  {
  }

  // ---------- round trips ----------

  /** Saving a card as PNG and loading it gives the normalised card, so the same card exactly when
      it has its envelope. */
  lemma {:induction false} PngRoundTrip(c: Card, f: Formats)
    requires ReadsCompact(f, Obj(c)) && ImageWith(f, SavePng(c, f), CardChunks(c, f))
    ensures Load(SavePng(c, f), f) == Loaded(Normalize(c))
    ensures Load(SavePng(c, f), f) == Loaded(c) <==> IsEnvelope(c)
  {
    SingleChunk(KeywordFor(c), Encode(f.compact(Obj(c))));
    EncodeDecodes(f.compact(Obj(c)));
    NormalizeStable(c);
  }

  lemma {:induction false} SingleChunk(keyword: string, value: string)
    requires keyword == KEYWORD_V2 || keyword == KEYWORD_V3
    ensures ChooseChunk([(keyword, value)]) == Some((keyword, value))
  {
    var chunks := [(keyword, value)];
    assert chunks[..0] == [];
    assert forall k :: ValueAt(chunks, k, false) == if keyword == k then Some(value) else None;
  }

  lemma {:induction false} EncodeDecodes(data: seq<Byte>)
    ensures B64Decode(Encode(data)) == Some(data)
  {
    EncodeShape(data);
    forall i | 0 <= i < |Encode(data)| ensures !IsSpace(Encode(data)[i]) {
      assert Encoded(Encode(data), i);
    }
    CompactPlain(Encode(data));
    assert Encode(data) + Repeat('=', 0) == Encode(data);
    ToleratesSpaceAndPadding(data, Encode(data), 0);
  }

  /** The same for the JSON file. */
  lemma {:induction false} JsonRoundTrip(c: Card, f: Formats)
    requires ReadsPretty(f, Obj(c))
    ensures Load(SaveJson(c, f), f) == Loaded(Normalize(c))
    ensures Load(SaveJson(c, f), f) == Loaded(c) <==> IsEnvelope(c)
  {
    var raw := f.pretty(Obj(c));
    assert raw[0] == OPENING_BRACE && PNG_MAGIC[0] != OPENING_BRACE;
    NormalizeStable(c);
  }

  /** A chunk whose text was broken by white space or lost its padding still holds the card. */
  lemma {:induction false} DamagedChunkStillLoads(c: Card, raw: seq<Byte>, keyword: string, value: string, k: nat,
                                                  f: Formats)
    requires ReadsCompact(f, Obj(c)) && ImageWith(f, raw, [(keyword, value)])
    requires keyword == KEYWORD_V2 || keyword == KEYWORD_V3
    requires Compact(value) + Repeat('=', k) == Encode(f.compact(Obj(c)))
    ensures Load(raw, f) == Loaded(Normalize(c))
  {
    SingleChunk(keyword, value);
    ToleratesSpaceAndPadding(f.compact(Obj(c)), value, k);
  }

  predicate OneEach(chunks: Chunks) {
    forall i, j :: 0 <= i < j < |chunks| ==> chunks[i].0 != chunks[j].0
  }

  lemma {:induction false} ValueAtExact(chunks: Chunks, keyword: string, value: string)
    requires OneEach(chunks) && (keyword, value) in chunks
    ensures ValueAt(chunks, keyword, false) == Some(value)
  {
    var last := chunks[|chunks| - 1];
    if last != (keyword, value) {
      assert chunks == chunks[..|chunks| - 1] + [last];
      assert (keyword, value) in chunks[..|chunks| - 1];
      ValueAtExact(chunks[..|chunks| - 1], keyword, value);
    }
  }

  /** Whatever other chunks an image carries, in whatever order: a version 3 chunk under its exact
      name is the one that is read. */
  lemma {:induction false} Version3Preferred(c: Card, raw: seq<Byte>, chunks: Chunks, f: Formats)
    requires ReadsCompact(f, Obj(c)) && ImageWith(f, raw, chunks) && OneEach(chunks)
    requires (KEYWORD_V3, Encode(f.compact(Obj(c)))) in chunks
    ensures Load(raw, f) == Loaded(Normalize(c))
  {
    ValueAtExact(chunks, KEYWORD_V3, Encode(f.compact(Obj(c))));
    EncodeDecodes(f.compact(Obj(c)));
  }

  /** Without one, a version 2 chunk under its exact name is read, even beside other spellings. */
  lemma {:induction false} Version2Next(c: Card, raw: seq<Byte>, chunks: Chunks, f: Formats)
    requires ReadsCompact(f, Obj(c)) && ImageWith(f, raw, chunks) && OneEach(chunks)
    requires (KEYWORD_V2, Encode(f.compact(Obj(c)))) in chunks
    requires forall i :: 0 <= i < |chunks| ==> chunks[i].0 != KEYWORD_V3
    ensures Load(raw, f) == Loaded(Normalize(c))
  {
    ValueAtExact(chunks, KEYWORD_V2, Encode(f.compact(Obj(c))));
    ValueAtNone(chunks, KEYWORD_V3);
    EncodeDecodes(f.compact(Obj(c)));
  }

  lemma {:induction false} ValueAtNone(chunks: Chunks, keyword: string)
    requires forall i :: 0 <= i < |chunks| ==> chunks[i].0 != keyword
    ensures ValueAt(chunks, keyword, false).None?
  {
    if chunks != [] { ValueAtNone(chunks[..|chunks| - 1], keyword); }
  }

  // ---------- other spellings, and nothing to read ----------

  /** The two strings agree but for the case of ASCII letters. */
  predicate SameButCase(a: string, b: string) {
    |a| == |b| && forall i :: 0 <= i < |a| ==>
      a[i] == b[i] || ('A' <= a[i] <= 'Z' && b[i] as int == a[i] as int + 32)
      || ('A' <= b[i] <= 'Z' && a[i] as int == b[i] as int + 32)
  }

  lemma {:induction false} LowerIff(k: string, keyword: string)
    requires keyword == KEYWORD_V2 || keyword == KEYWORD_V3
    ensures Lower(k) == keyword <==> SameButCase(k, keyword)
  {
    assert forall i :: 0 <= i < |keyword| ==> keyword[i] == '3' || 'a' <= keyword[i] <= 'z';
    assert forall i :: 0 <= i < |k| ==> Lower(k)[i] == LowerChar(k[i]);
  }

  lemma {:induction false} FoldedValue(chunks: Chunks, keyword: string)
    requires keyword == KEYWORD_V2 || keyword == KEYWORD_V3
    ensures
      match ValueAt(chunks, keyword, true)
      case None => forall i :: 0 <= i < |chunks| ==> !SameButCase(chunks[i].0, keyword)
      case Some(v) => exists i :: 0 <= i < |chunks| && SameButCase(chunks[i].0, keyword) && chunks[i].1 == v
                                  && forall j :: i < j < |chunks| ==> !SameButCase(chunks[j].0, keyword)
  {
    if chunks != [] {
      var n := |chunks| - 1;
      LowerIff(chunks[n].0, keyword);
      if SameButCase(chunks[n].0, keyword) {
        assert ValueAt(chunks, keyword, true) == Some(chunks[n].1);
      } else {
        FoldedValue(chunks[..n], keyword);
        if ValueAt(chunks, keyword, true).Some? {
          var v := ValueAt(chunks, keyword, true).value;
          var i :| 0 <= i < n && SameButCase(chunks[..n][i].0, keyword) && chunks[..n][i].1 == v
                   && forall j :: i < j < n ==> !SameButCase(chunks[..n][j].0, keyword);
          assert forall j :: i < j < |chunks| ==> !SameButCase(chunks[j].0, keyword);
        }
      }
    }
  }

  /** No chunk has the keyword exactly. */
  predicate NoneExact(chunks: Chunks, keyword: string) {
    forall i :: 0 <= i < |chunks| ==> chunks[i].0 != keyword
  }

  /** Without the exact names the last chunk is read whose name is, but for its case, the one of
      version 3, else of version 2; without any such name there is no card in the image. */
  lemma {:induction false} OtherSpellings(chunks: Chunks)
    requires NoneExact(chunks, KEYWORD_V3) && NoneExact(chunks, KEYWORD_V2)
    ensures
      match ChooseChunk(chunks)
      case None => forall i :: 0 <= i < |chunks| ==>
                     !SameButCase(chunks[i].0, KEYWORD_V3) && !SameButCase(chunks[i].0, KEYWORD_V2)
      case Some((k, v)) =>
        && (k == KEYWORD_V3 || (k == KEYWORD_V2 && forall i :: 0 <= i < |chunks| ==>
                                  !SameButCase(chunks[i].0, KEYWORD_V3)))
        && exists i :: 0 <= i < |chunks| && SameButCase(chunks[i].0, k) && chunks[i].1 == v
                       && forall j :: i < j < |chunks| ==> !SameButCase(chunks[j].0, k)
  {
    ValueAtNone(chunks, KEYWORD_V3);
    ValueAtNone(chunks, KEYWORD_V2);
    FoldedValue(chunks, KEYWORD_V3);
    FoldedValue(chunks, KEYWORD_V2);
  }

  /** An image without such a name is refused for it. */
  lemma {:induction false} NoCardRefused(raw: seq<Byte>, chunks: Chunks, f: Formats)
    requires ImageWith(f, raw, chunks)
    requires forall i :: 0 <= i < |chunks| ==>
               !SameButCase(chunks[i].0, KEYWORD_V3) && !SameButCase(chunks[i].0, KEYWORD_V2)
    ensures Load(raw, f) == Failed(NoCardChunk)
  {
    assert SameButCase(KEYWORD_V3, KEYWORD_V3) && SameButCase(KEYWORD_V2, KEYWORD_V2);
    assert NoneExact(chunks, KEYWORD_V3) && NoneExact(chunks, KEYWORD_V2);
    OtherSpellings(chunks);
  }

  /** What is loaded always has its envelope; a chunk or a file whose value is no object is refused. */
  lemma {:induction false} LoadedHasEnvelope(raw: seq<Byte>, f: Formats)
    ensures Load(raw, f).Loaded? ==> IsEnvelope(Load(raw, f).card)
  {
  }
}
