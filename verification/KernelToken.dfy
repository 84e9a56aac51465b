/** Reading the identity out of a kernel token without verifying its signature.

    UTF-8 decoding is a parameter: a function from bytes to a string, or None when the
    bytes are not valid UTF-8.
 */
module KernelToken {
  import opened Base64
  import opened Decimal
  import opened Text
  import opened Options

  type Utf8 = seq<Byte> -> Option<string>

  datatype Identity = Identity(userId: string, username: string, exp: int)

  // ---------- string helpers of the source language ----------

  /** The part of s before the first occurrence of c. */
  function Before(s: string, c: char): string {
    if s == [] || s[0] == c then [] else [s[0]] + Before(s[1..], c)
  }

  /** Fields of s separated by c, the last one keeping everything after `limit` separators. */
  function SplitMax(s: string, c: char, limit: nat): seq<string>
    decreases |s|
  {
    var head := Before(s, c);
    BeforeIsPrefix(s, c);
    if limit == 0 || |head| == |s| then [s]
    else [head] + SplitMax(s[|head| + 1..], c, limit - 1)
  }

  lemma {:induction false} BeforeIsPrefix(s: string, c: char)
    ensures |Before(s, c)| <= |s| && Before(s, c) == s[..|Before(s, c)|]
    ensures |Before(s, c)| < |s| ==> s[|Before(s, c)|] == c
    ensures c !in Before(s, c)
  {
    if s != [] && s[0] != c {
      BeforeIsPrefix(s[1..], c);
    }
  }

  // ---------- the token ----------

  function Decode(token: string, utf8: Utf8): Option<Identity> {
    var bare := Before(Strip(token), '.');
    var bytes := A2b(Repad(bare), false);
    if bytes.None? then None
    else
      var payload := utf8(bytes.value);
      if payload.None? then None
      else
        var parts := SplitMax(payload.value, ':', 4);
        if |parts| < 4 then None
        else
          var exp := ParseInt(parts[3]);
          if exp.None? then None else Some(Identity(parts[1], parts[2], exp.value))
  }

  /** The payload the kernel signs, with an optional tail after the expiry. */
  function Payload(kind: string, id: Identity, tail: string): string {
    kind + ":" + id.userId + ":" + id.username + ":" + ShowInt(id.exp) + tail
  }

  // ---------- proofs ----------

  lemma {:induction false} BeforeStops(s: string, rest: string, c: char)
    requires c !in s && (rest == [] || rest[0] == c)
    ensures Before(s + rest, c) == s
  {
    if s == [] {
      assert s + rest == rest;
    } else {
      assert (s + rest)[0] == s[0] && (s + rest)[1..] == s[1..] + rest;
      BeforeStops(s[1..], rest, c);
    }
  }

  /** A separator-free field is split off whole. */
  lemma {:induction false} SplitField(field: string, rest: string, c: char, limit: nat)
    requires c !in field && limit > 0
    ensures SplitMax(field + [c] + rest, c, limit) == [field] + SplitMax(rest, c, limit - 1)
  {
    var s := field + [c] + rest;
    assert s == field + ([c] + rest);
    BeforeStops(field, [c] + rest, c);
    assert s[|field| + 1..] == rest;
  }

  lemma {:induction false} SplitLast(field: string, tail: string, c: char, limit: nat)
    requires c !in field && limit > 0 && (tail == [] || tail[0] == c)
    ensures SplitMax(field + tail, c, limit)[0] == field
  {
    BeforeStops(field, tail, c);
    if tail == [] {
      assert field + tail == field;
    }
  }

  lemma {:induction false} SplitPayload(kind: string, id: Identity, tail: string)
    requires ':' !in kind && ':' !in id.userId && ':' !in id.username
    requires tail == [] || tail[0] == ':'
    ensures var parts := SplitMax(Payload(kind, id, tail), ':', 4);
            |parts| >= 4 && parts[1] == id.userId && parts[2] == id.username && parts[3] == ShowInt(id.exp)
  {
    var r3 := ShowInt(id.exp) + tail;
    var r2 := id.username + [':'] + r3;
    var r1 := id.userId + [':'] + r2;
    assert Payload(kind, id, tail) == kind + [':'] + r1;
    ShowIntPlain(id.exp);
    SplitField(kind, r1, ':', 4);
    SplitField(id.userId, r2, ':', 3);
    SplitField(id.username, r3, ':', 2);
    SplitLast(ShowInt(id.exp), tail, ':', 1);
  }

  lemma {:induction false} BeforePrefix(s: string, t: string, c: char)
    requires t <= s && |Before(s, c)| <= |t|
    ensures Before(t, c) == Before(s, c)
  {
    if t != [] && s[0] != c {
      BeforePrefix(s[1..], t[1..], c);
    }
  }

  /** What the token decoder keeps of a token whose signature is cut off at the first dot. */
  lemma {:induction false} BareOf(space: string, core: string, suffix: string)
    requires Blank(space)
    requires core != [] && forall i :: 0 <= i < |core| ==> !IsSpace(core[i]) && core[i] != '.'
    requires Blank(suffix) || suffix[0] == '.'
    ensures Before(Strip(space + core + suffix), '.') == core
  {
    var s := core + suffix;
    assert space + core + suffix == space + s;
    SpacesStripLeft(space, s);
    StripRightPrefix(s, |core|);
    var t := StripRight(s);
    if suffix != [] && suffix[0] == '.' {
      BeforeStops(core, suffix, '.');
      BeforePrefix(s, t, '.');
    } else {
      SpacesStripRight(core, suffix);
      BeforeStops(core, [], '.');
      assert core + [] == core;
    }
  }

  lemma {:induction false} CoreIsPlain(data: seq<Byte>, core: string, k: nat)
    requires core + Repeat('=', k) == Encode(data)
    ensures forall i :: 0 <= i < |core| ==> !IsSpace(core[i]) && core[i] != '.'
    ensures Repad(core) == Encode(data)
  {
    EncodeShape(data);
    RepadRestores(core, k, Encode(data));
    forall i | 0 <= i < |core|
      ensures !IsSpace(core[i]) && core[i] != '.'
    {
      assert core[i] == Encode(data)[i] && Encoded(Encode(data), i);
    }
  }

  /** A token made of the encoded identity, with or without padding, with or without a
      signature part, between white space: decoding returns exactly that identity. */
  lemma {:induction false} DecodeReturnsIdentity(kind: string, id: Identity, tail: string, data: seq<Byte>, utf8: Utf8,
                                                 space: string, core: string, k: nat, suffix: string)
    requires ':' !in kind && ':' !in id.userId && ':' !in id.username
    requires tail == [] || tail[0] == ':'
    requires utf8(data) == Some(Payload(kind, id, tail)) && data != []
    requires core + Repeat('=', k) == Encode(data)
    requires Blank(space)
    requires Blank(suffix) || suffix[0] == '.'
    ensures Decode(space + core + suffix, utf8) == Some(id)
  {
    CoreIsPlain(data, core, k);
    BareOf(space, core, suffix);
    A2bEncode(data, false);
    SplitPayload(kind, id, tail);
    ParseShow(id.exp);
  }

  // ---------- where a decoded identity comes from ----------

  /** The first field and what follows its separator. */
  lemma {:induction false} FirstField(s: string, c: char, limit: nat)
    requires limit > 0
    ensures
      var parts, head := SplitMax(s, c, limit), Before(s, c);
      && parts[0] == head && c !in head
      && (if |parts| == 1 then s == head
          else |head| < |s| && s == head + [c] + s[|head| + 1..]
               && parts[1..] == SplitMax(s[|head| + 1..], c, limit - 1))
  {
    BeforeIsPrefix(s, c);
    if limit > 1 || |Before(s, c)| < |s| {
      assert |SplitMax(s, c, limit)| == 1 <==> |Before(s, c)| == |s|;
    }
  }

  /** Nothing else is decoded: an identity comes from a payload whose second and third field are user
      and name, whose fourth field reads as the expiry, and which no colon breaks up further. */
  lemma {:induction false} DecodedFromPayload(token: string, utf8: Utf8)
    returns (data: seq<Byte>, kind: string, expiry: string, tail: string)
    requires Decode(token, utf8).Some?
    ensures A2b(Repad(Before(Strip(token), '.')), false) == Some(data)
    ensures
      var id := Decode(token, utf8).value;
      && utf8(data) == Some(kind + ":" + id.userId + ":" + id.username + ":" + (expiry + tail))
      && ':' !in kind && ':' !in id.userId && ':' !in id.username && ':' !in expiry
      && (tail == [] || tail[0] == ':') && ParseInt(expiry) == Some(id.exp)
  {
    data := A2b(Repad(Before(Strip(token), '.')), false).value;
    var text := utf8(data).value;
    kind, expiry, tail := FourFields(text);
  }

  lemma {:induction false} NextField(s: string, limit: nat) returns (rest: string)
    requires limit > 0 && |SplitMax(s, ':', limit)| > 1
    ensures
      var parts := SplitMax(s, ':', limit);
      s == parts[0] + ":" + rest && ':' !in parts[0] && parts[1..] == SplitMax(rest, ':', limit - 1)
  {
    FirstField(s, ':', limit);
    rest := s[|Before(s, ':')| + 1..];
  }

  lemma {:induction false} Glue(a: string, b: string, c: string, rest: string)
    ensures a + ":" + (b + ":" + (c + ":" + rest)) == a + ":" + b + ":" + c + ":" + rest
  {
    assert b + ":" + (c + ":" + rest) == b + ":" + c + ":" + rest;
    assert a + ":" + (b + ":" + c + ":" + rest) == a + ":" + b + ":" + c + ":" + rest;
  }

  /** The fields of a text that has at least four. */
  lemma {:induction false} FourFields(text: string) returns (kind: string, fourth: string, tail: string)
    requires |SplitMax(text, ':', 4)| >= 4
    ensures
      var parts := SplitMax(text, ':', 4);
      && text == kind + ":" + parts[1] + ":" + parts[2] + ":" + (fourth + tail) && fourth == parts[3]
      && ':' !in kind && ':' !in parts[1] && ':' !in parts[2] && ':' !in fourth && (tail == [] || tail[0] == ':')
  {
    var parts := SplitMax(text, ':', 4);
    var s1 := NextField(text, 4);
    var s2 := NextField(s1, 3);
    var s3 := NextField(s2, 2);
    kind, fourth := parts[0], parts[3];
    assert SplitMax(s3, ':', 1)[0] == fourth;
    tail := LastField(s3);
    Glue(kind, parts[1], parts[2], fourth + tail);
  }

  lemma {:induction false} LastField(s: string) returns (tail: string)
    ensures s == SplitMax(s, ':', 1)[0] + tail && ':' !in SplitMax(s, ':', 1)[0] && (tail == [] || tail[0] == ':')
  {
    FirstField(s, ':', 1);
    tail := s[|Before(s, ':')|..];
    BeforeIsPrefix(s, ':');
  }
}
