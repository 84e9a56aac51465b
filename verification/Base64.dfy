/** Base 64 (RFC 4648, sections 4 and 5), the decoder behind Python's base64 module, and
    the tolerant decoding of character-card chunks on top of it.
 */
module Base64 {
  import opened Options
  import opened Text

  type Byte = b: int | 0 <= b < 256

  /** The standard alphabet: upper case, lower case, digits, plus and slash. */
  function Symbol(v: int): char
    requires 0 <= v < 64
  {
    if v < 26 then ('A' as int + v) as char
    else if v < 52 then ('a' as int + v - 26) as char
    else if v < 62 then ('0' as int + v - 52) as char
    else if v == 62 then '+'
    else '/'
  }

  /** Value of a symbol of the standard alphabet; 64 for any other character. */
  function ValueOf(c: char): (v: int)
    ensures 0 <= v <= 64
  {
    if 'A' <= c <= 'Z' then c as int - 'A' as int
    else if 'a' <= c <= 'z' then c as int - 'a' as int + 26
    else if '0' <= c <= '9' then c as int - '0' as int + 52
    else if c == '+' then 62
    else if c == '/' then 63
    else 64
  }

  // ---------- encoding ----------

  function Encode(data: seq<Byte>): string {
    if |data| == 0 then []
    else if |data| == 1 then
      [Symbol(data[0] / 4), Symbol(data[0] % 4 * 16), '=', '=']
    else if |data| == 2 then
      [Symbol(data[0] / 4), Symbol(data[0] % 4 * 16 + data[1] / 16), Symbol(data[1] % 16 * 4), '=']
    else
      [Symbol(data[0] / 4), Symbol(data[0] % 4 * 16 + data[1] / 16),
       Symbol(data[1] % 16 * 4 + data[2] / 64), Symbol(data[2] % 64)] + Encode(data[3..])
  }

  function UrlSafeChar(c: char): char {
    if c == '+' then '-' else if c == '/' then '_' else c
  }

  function StandardChar(c: char): char {
    if c == '-' then '+' else if c == '_' then '/' else c
  }

  function Translate(s: string, f: char -> char): (t: string)
    ensures |t| == |s|
    ensures forall i :: 0 <= i < |s| ==> t[i] == f(s[i])
  {
    seq(|s|, i requires 0 <= i < |s| => f(s[i]))
  }

  function Repeat(c: char, n: nat): (s: string)
    ensures |s| == n
    ensures forall i :: 0 <= i < n ==> s[i] == c
  {
    seq(n, _ => c)
  }

  // ---------- decoding ----------

  /** The decoder from inside a quad: `quad` symbols seen, `left` their bits not yet output,
      `pads` padding characters since the last symbol.  Strict mode admits only symbols
      followed by the padding that completes the last quad. */
  function Scan(s: string, quad: nat, left: nat, pads: nat, padding: bool, strict: bool): Option<seq<Byte>>
    requires quad < 4
    requires left < (if quad == 1 then 64 else if quad == 2 then 16 else if quad == 3 then 4 else 1)
  {
    if s == [] then
      if quad == 0 then Some([]) else None
    else if s[0] == '=' then
      if quad >= 2 && quad + pads + 1 >= 4 then
        if strict && |s| > 1 then None else Some([])
      else
        Scan(s[1..], quad, left, if quad >= 2 then pads + 1 else pads, true, strict)
    else
      var v := ValueOf(s[0]);
      if v == 64 then
        if strict then None else Scan(s[1..], quad, left, pads, padding, strict)
      else if strict && padding then None
      else if quad == 0 then Scan(s[1..], 1, v, 0, padding, strict)
      else if quad == 1 then Prepend(left * 4 + v / 16, Scan(s[1..], 2, v % 16, 0, padding, strict))
      else if quad == 2 then Prepend(left * 16 + v / 4, Scan(s[1..], 3, v % 4, 0, padding, strict))
      else Prepend(left * 64 + v, Scan(s[1..], 0, 0, 0, padding, strict))
  }

  function Prepend(b: Byte, rest: Option<seq<Byte>>): Option<seq<Byte>> {
    if rest.Some? then Some([b] + rest.value) else None
  }

  function A2b(s: string, strict: bool): Option<seq<Byte>> {
    if exists i :: 0 <= i < |s| && s[i] as int >= 128 then None
    else if strict && s != [] && s[0] == '=' then None
    else Scan(s, 0, 0, 0, false, strict)
  }

  /** Padding repair: completes the length to a multiple of four. */
  function Repad(s: string): string {
    s + Repeat('=', (4 - |s| % 4) % 4)
  }

  function Compact(s: string): string {
    if s == [] then []
    else if IsSpace(s[0]) then Compact(s[1..])
    else [s[0]] + Compact(s[1..])
  }

  /** Tolerant decoding of a card chunk: drop white space, repair the padding, decode
      strictly, and fall back to the URL-safe alphabet. */
  function B64Decode(value: string): Option<seq<Byte>> {
    var padded := Repad(Compact(value));
    var standard := A2b(padded, true);
    if standard.Some? then standard else A2b(Translate(padded, StandardChar), false)
  }

  // ---------- the decoder undoes the encoder ----------

  /** One symbol of an undisturbed quad. */
  lemma {:induction false} ScanSymbol(v: int, rest: string, quad: nat, left: nat, strict: bool)
    requires 0 <= v < 64 && quad < 4
    requires left < (if quad == 1 then 64 else if quad == 2 then 16 else if quad == 3 then 4 else 1)
    ensures Scan([Symbol(v)] + rest, quad, left, 0, false, strict)
            == if quad == 0 then Scan(rest, 1, v, 0, false, strict)
               else if quad == 1 then Prepend(left * 4 + v / 16, Scan(rest, 2, v % 16, 0, false, strict))
               else if quad == 2 then Prepend(left * 16 + v / 4, Scan(rest, 3, v % 4, 0, false, strict))
               else Prepend(left * 64 + v, Scan(rest, 0, 0, 0, false, strict))
  {
    assert ([Symbol(v)] + rest)[1..] == rest;
  }

  lemma {:induction false} Bits(a: Byte, b: Byte, c: Byte)
    ensures a / 4 * 4 + (a % 4 * 16 + b / 16) / 16 == a
    ensures (a % 4 * 16 + b / 16) % 16 == b / 16
    ensures b / 16 * 16 + (b % 16 * 4 + c / 64) / 4 == b
    ensures (b % 16 * 4 + c / 64) % 4 == c / 64
    ensures c / 64 * 64 + c % 64 == c
  {
  }

  lemma {:induction false} FullQuad(a: Byte, b: Byte, c: Byte, rest: string, strict: bool)
    ensures Scan([Symbol(a / 4), Symbol(a % 4 * 16 + b / 16), Symbol(b % 16 * 4 + c / 64), Symbol(c % 64)] + rest,
                 0, 0, 0, false, strict)
            == Prepend(a, Prepend(b, Prepend(c, Scan(rest, 0, 0, 0, false, strict))))
  {
    Bits(a, b, c);
    QuadSteps(a / 4, a % 4 * 16 + b / 16, b % 16 * 4 + c / 64, c % 64, rest, strict);
  }

  /** Four symbols in a row give three bytes. */
  lemma {:induction false} QuadSteps(v1: int, v2: int, v3: int, v4: int, rest: string, strict: bool)
    requires 0 <= v1 < 64 && 0 <= v2 < 64 && 0 <= v3 < 64 && 0 <= v4 < 64
    ensures Scan([Symbol(v1), Symbol(v2), Symbol(v3), Symbol(v4)] + rest, 0, 0, 0, false, strict)
            == Prepend(v1 * 4 + v2 / 16, Prepend(v2 % 16 * 16 + v3 / 4, Prepend(v3 % 4 * 64 + v4,
                 Scan(rest, 0, 0, 0, false, strict))))
  {
    var t4 := [Symbol(v4)] + rest;
    var t3 := [Symbol(v3)] + t4;
    var t2 := [Symbol(v2)] + t3;
    ScanSymbol(v4, rest, 3, v3 % 4, strict);
    ScanSymbol(v3, t4, 2, v2 % 16, strict);
    ScanSymbol(v2, t3, 1, v1, strict);
    ScanSymbol(v1, t2, 0, 0, strict);
    assert [Symbol(v1), Symbol(v2), Symbol(v3), Symbol(v4)] + rest == [Symbol(v1)] + t2;
  }

  lemma {:induction false} LastOne(a: Byte, strict: bool)
    ensures Scan([Symbol(a / 4), Symbol(a % 4 * 16), '=', '='], 0, 0, 0, false, strict) == Some([a])
  {
    var v1, v2 := a / 4, a % 4 * 16;
    Bits(a, 0, 0);
    assert 0 / 16 == 0 && [a] + [] == [a];
    var t3 := ['=', '='];
    var t2 := [Symbol(v2)] + t3;
    assert t3[1..] == ['='];
    assert Scan(t3, 2, 0, 0, false, strict) == Scan(['='], 2, 0, 1, true, strict) == Some([]);
    ScanSymbol(v2, t3, 1, v1, strict);
    ScanSymbol(v1, t2, 0, 0, strict);
    assert [Symbol(v1), Symbol(v2), '=', '='] == [Symbol(v1)] + t2;
  }

  lemma {:induction false} LastTwo(a: Byte, b: Byte, strict: bool)
    ensures Scan([Symbol(a / 4), Symbol(a % 4 * 16 + b / 16), Symbol(b % 16 * 4), '='], 0, 0, 0, false, strict)
            == Some([a, b])
  {
    var v1, v2, v3 := a / 4, a % 4 * 16 + b / 16, b % 16 * 4;
    Bits(a, b, 0);
    assert 0 / 64 == 0 && [a] + ([b] + []) == [a, b];
    var t3 := [Symbol(v3)] + ['='];
    var t2 := [Symbol(v2)] + t3;
    assert Scan(['='], 3, 0, 0, false, strict) == Some([]);
    ScanSymbol(v3, ['='], 2, v2 % 16, strict);
    ScanSymbol(v2, t3, 1, v1, strict);
    ScanSymbol(v1, t2, 0, 0, strict);
    assert [Symbol(v1), Symbol(v2), Symbol(v3), '='] == [Symbol(v1)] + t2;
  }

  /** Decoding inverts encoding, in both modes. */
  lemma {:induction false} DecodeEncode(data: seq<Byte>, strict: bool)
    ensures Scan(Encode(data), 0, 0, 0, false, strict) == Some(data)
  {
    if |data| == 1 {
      LastOne(data[0], strict);
      assert data == [data[0]];
    } else if |data| == 2 {
      LastTwo(data[0], data[1], strict);
      assert data == [data[0], data[1]];
    } else if |data| >= 3 {
      DecodeEncode(data[3..], strict);
      DecodeThree(data, strict);
    }
  }

  lemma {:induction false} DecodeThree(data: seq<Byte>, strict: bool)
    requires |data| >= 3 && Scan(Encode(data[3..]), 0, 0, 0, false, strict) == Some(data[3..])
    ensures Scan(Encode(data), 0, 0, 0, false, strict) == Some(data)
  {
    FullQuad(data[0], data[1], data[2], Encode(data[3..]), strict);
    ThreeInFront(data);
  }

  lemma {:induction false} ThreeInFront(data: seq<Byte>)
    requires |data| >= 3
    ensures Prepend(data[0], Prepend(data[1], Prepend(data[2], Some(data[3..])))) == Some(data)
  {
    assert data == [data[0]] + ([data[1]] + ([data[2]] + data[3..]));
  }

  // ---------- tolerance: white space, missing padding, URL-safe alphabet ----------

  /** Shape of an encoding: whole quads of symbols, padding only in the last two places. */
  lemma {:induction false} EncodeShape(data: seq<Byte>)
    ensures |Encode(data)| % 4 == 0
    ensures forall i :: 0 <= i < |Encode(data)| ==> Encoded(Encode(data), i)
  {
    if 1 <= |data| <= 2 {
      ShortShape(data);
    } else if |data| >= 3 {
      EncodeShape(data[3..]);
      var head := Encode(data)[..4];
      QuadShape(data[0], data[1], data[2]);
      assert Encode(data) == head + Encode(data[3..]);
      forall i | 0 <= i < |Encode(data)|
        ensures Encoded(Encode(data), i)
      {
        if i >= 4 {
          assert Encoded(Encode(data[3..]), i - 4);
        }
      }
    }
  }

  lemma {:induction false} QuadShape(a: Byte, b: Byte, c: Byte)
    ensures forall s :: s in [Symbol(a / 4), Symbol(a % 4 * 16 + b / 16), Symbol(b % 16 * 4 + c / 64), Symbol(c % 64)]
              ==> ValueOf(s) < 64 && s != '='
  {
    SymbolShape(a / 4);
    SymbolShape(a % 4 * 16 + b / 16);
    SymbolShape(b % 16 * 4 + c / 64);
    SymbolShape(c % 64);
  }

  lemma {:induction false} SymbolShape(v: int)
    requires 0 <= v < 64
    ensures ValueOf(Symbol(v)) == v && Symbol(v) != '='
  {
  }

  lemma {:induction false} ShortShape(data: seq<Byte>)
    requires 1 <= |data| <= 2
    ensures |Encode(data)| == 4
    ensures forall i :: 0 <= i < |Encode(data)| ==> Encoded(Encode(data), i)
  {
    SymbolShape(data[0] / 4);
    if |data| == 1 {
      SymbolShape(data[0] % 4 * 16);
    } else {
      SymbolShape(data[0] % 4 * 16 + data[1] / 16);
      SymbolShape(data[1] % 16 * 4);
    }
  }

  predicate Encoded(s: string, i: nat)
    requires i < |s|
  {
    (ValueOf(s[i]) < 64 && s[i] != '=') || (s[i] == '=' && i + 2 >= |s| && s[|s| - 1] == '=')
  }

  /** Removing any number of trailing padding characters is undone by the padding repair. */
  lemma {:induction false} RepadRestores(core: string, k: nat, full: string)
    requires core + Repeat('=', k) == full && |full| % 4 == 0
    requires forall i :: 0 <= i < |full| ==> Encoded(full, i)
    ensures Repad(core) == full
  {
    assert k <= 2 || Encoded(full, |full| - 3);
    assert |core| + k == |full|;
    assert (4 - |core| % 4) % 4 == k;
  }

  lemma {:induction false} A2bEncode(data: seq<Byte>, strict: bool)
    ensures A2b(Encode(data), strict) == Some(data)
  {
    var s := Encode(data);
    DecodeEncode(data, strict);
    EncodeShape(data);
    assert s != [] ==> Encoded(s, 0);
    forall i | 0 <= i < |s|
      ensures s[i] as int < 128
    {
      assert Encoded(s, i);
    }
  }

  /** Strict decoding stops at a foreign character that comes before any padding. */
  lemma {:induction false} StrictRejects(s: string, i: nat, quad: nat, left: nat, pads: nat)
    requires quad < 4
    requires left < (if quad == 1 then 64 else if quad == 2 then 16 else if quad == 3 then 4 else 1)
    requires i < |s| && ValueOf(s[i]) == 64 && s[i] != '='
    requires forall j :: 0 <= j < i ==> s[j] != '='
    ensures Scan(s, quad, left, pads, false, true).None?
  {
    if i > 0 && ValueOf(s[0]) < 64 {
      var v := ValueOf(s[0]);
      StrictRejects(s[1..], i - 1, (quad + 1) % 4,
                    if quad == 0 then v else if quad == 1 then v % 16 else if quad == 2 then v % 4 else 0, 0);
    }
  }

  /** Any white space put into an encoding and any trailing padding taken off it: the card
      decoder still returns the encoded bytes. */
  lemma {:induction false} ToleratesSpaceAndPadding(data: seq<Byte>, value: string, k: nat)
    requires Compact(value) + Repeat('=', k) == Encode(data)
    ensures B64Decode(value) == Some(data)
  {
    EncodeShape(data);
    RepadRestores(Compact(value), k, Encode(data));
    A2bEncode(data, true);
  }

  /** The same for an encoding in the URL-safe alphabet. */
  lemma {:induction false} ToleratesUrlSafe(data: seq<Byte>, value: string, k: nat)
    requires Compact(value) + Repeat('=', k) == Translate(Encode(data), UrlSafeChar)
    ensures B64Decode(value) == Some(data)
  {
    var full := Encode(data);
    var url := Translate(full, UrlSafeChar);
    EncodeShape(data);
    RepadUrl(Compact(value), k, full);
    UrlSafeInverts(data);
    A2bEncode(data, false);
    A2bEncode(data, true);
    if url != full {
      UrlSafeIsNotStandard(data);
    }
  }

  lemma {:induction false} UrlSafeInverts(data: seq<Byte>)
    ensures Translate(Translate(Encode(data), UrlSafeChar), StandardChar) == Encode(data)
  {
    var full := Encode(data);
    EncodeShape(data);
    forall i | 0 <= i < |full|
      ensures StandardChar(UrlSafeChar(full[i])) == full[i]
    {
      assert Encoded(full, i);
    }
  }

  /** An encoding that uses a URL-safe symbol is refused by the strict decoder. */
  lemma {:induction false} UrlSafeIsNotStandard(data: seq<Byte>)
    requires Translate(Encode(data), UrlSafeChar) != Encode(data)
    ensures A2b(Translate(Encode(data), UrlSafeChar), true).None?
  {
    var full := Encode(data);
    var url := Translate(full, UrlSafeChar);
    EncodeShape(data);
    var i :| 0 <= i < |url| && url[i] != full[i];
    forall j | 0 <= j < i
      ensures url[j] != '='
    {
      assert Encoded(full, j) && Encoded(full, i);
    }
    StrictRejects(url, i, 0, 0, 0);
  }

  lemma {:induction false} RepadUrl(core: string, k: nat, full: string)
    requires core + Repeat('=', k) == Translate(full, UrlSafeChar) && |full| % 4 == 0
    requires forall i :: 0 <= i < |full| ==> Encoded(full, i)
    ensures Repad(core) == Translate(full, UrlSafeChar)
  {
    assert k <= 2 || Encoded(full, |full| - 3);
    assert |core| + k == |full|;
    assert (4 - |core| % 4) % 4 == k;
  }

  lemma {:induction false} CompactPlain(s: string)
    requires forall i :: 0 <= i < |s| ==> !IsSpace(s[i])
    ensures Compact(s) == s
  {
    if s != [] { CompactPlain(s[1..]); }
  }
}
