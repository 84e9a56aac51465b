/** What the repairing decoder of card chunks ignores, and known values of the encoding.
 */
module Base64Repair {
  import opened Base64
  import opened Options
  import opened Text

  lemma {:induction false} CompactAppend(a: string, b: string)
    ensures Compact(a + b) == Compact(a) + Compact(b)
  {
    if a == [] {
      assert a + b == b;
    } else {
      assert (a + b)[0] == a[0] && (a + b)[1..] == a[1..] + b;
      CompactAppend(a[1..], b);
    }
  }

  /** White space anywhere makes no difference, whatever the text is. */
  lemma {:induction false} WhiteSpaceIgnored(a: string, space: char, b: string)
    requires IsSpace(space)
    ensures B64Decode(a + [space] + b) == B64Decode(a + b)
  {
    CompactAppend(a + [space], b);
    CompactAppend(a, [space]);
    CompactAppend(a, b);
    assert [space][1..] == [];
    assert Compact([space]) == [];
    assert Compact(a + [space] + b) == Compact(a + b);
  }

  // ---------- tolerance: a foreign character ----------

  /** The lenient decoder skips characters that are neither symbols nor padding. */
  lemma {:induction false} ForeignSkipped(a: string, c: char, b: string, quad: nat, left: nat, pads: nat, padding: bool)
    requires quad < 4
    requires left < (if quad == 1 then 64 else if quad == 2 then 16 else if quad == 3 then 4 else 1)
    requires ValueOf(c) == 64 && c != '='
    ensures Scan(a + [c] + b, quad, left, pads, padding, false) == Scan(a + b, quad, left, pads, padding, false)
  {
    if a == [] {
      assert (a + [c] + b)[1..] == b && a + b == b;
    } else {
      var rest, v := a[1..], ValueOf(a[0]);
      assert (a + [c] + b)[1..] == rest + [c] + b && (a + b)[1..] == rest + b;
      if a[0] == '=' {
        if !(quad >= 2 && quad + pads + 1 >= 4) {
          ForeignSkipped(rest, c, b, quad, left, if quad >= 2 then pads + 1 else pads, true);
        }
      } else if v == 64 {
        ForeignSkipped(rest, c, b, quad, left, pads, padding);
      } else {
        var bits := if quad == 0 then v else if quad == 1 then v % 16 else if quad == 2 then v % 4 else 0;
        ForeignSkipped(rest, c, b, (quad + 1) % 4, bits, 0, padding);
      }
    }
  }

  /** Padding behind a text that it decodes makes no difference to it. */
  lemma {:induction false} MorePadding(s: string, n: nat, quad: nat, left: nat, pads: nat, padding: bool)
    requires quad < 4
    requires left < (if quad == 1 then 64 else if quad == 2 then 16 else if quad == 3 then 4 else 1)
    requires Scan(s, quad, left, pads, padding, false).Some?
    ensures Scan(s + Repeat('=', n), quad, left, pads, padding, false) == Scan(s, quad, left, pads, padding, false)
    decreases |s| + n
  {
    if s == [] {
      assert s + Repeat('=', n) == Repeat('=', n);
      if n > 0 {
        assert Repeat('=', n)[1..] == Repeat('=', n - 1) == [] + Repeat('=', n - 1);
        MorePadding([], n - 1, 0, 0, pads, true);
      }
    } else {
      var rest, v := s[1..], ValueOf(s[0]);
      assert (s + Repeat('=', n))[1..] == rest + Repeat('=', n);
      if s[0] == '=' {
        if !(quad >= 2 && quad + pads + 1 >= 4) {
          MorePadding(rest, n, quad, left, if quad >= 2 then pads + 1 else pads, true);
        }
      } else if v == 64 {
        MorePadding(rest, n, quad, left, pads, padding);
      } else {
        var bits := if quad == 0 then v else if quad == 1 then v % 16 else if quad == 2 then v % 4 else 0;
        MorePadding(rest, n, (quad + 1) % 4, bits, 0, padding);
      }
    }
  }

  lemma {:induction false} ForeignText(data: seq<Byte>, a: string, c: char, b: string, i: nat)
    requires a + b == Encode(data) && c as int < 128 && !IsSpace(c) && c != '-' && c != '_'
    requires i < |a + [c] + b|
    ensures var x := (a + [c] + b)[i]; !IsSpace(x) && x as int < 128 && StandardChar(x) == x
  {
    EncodeShape(data);
    if i < |a| {
      assert Encoded(a + b, i);
    } else if i > |a| {
      assert Encoded(a + b, i - 1);
    }
  }

  lemma {:induction false} StrictRefusesForeign(a: string, c: char, b: string)
    requires '=' !in a && ValueOf(c) == 64 && c != '='
    ensures A2b(a + [c] + b + Repeat('=', 3), true).None?
  {
    var padded := a + [c] + b + Repeat('=', 3);
    assert padded[|a|] == c && forall j :: 0 <= j < |a| ==> padded[j] == a[j];
    StrictRejects(padded, |a|, 0, 0, 0);
  }

  lemma {:induction false} ForeignCompact(data: seq<Byte>, a: string, c: char, b: string)
    requires a + b == Encode(data) && c as int < 128 && !IsSpace(c) && c != '-' && c != '_'
    ensures Repad(Compact(a + [c] + b)) == a + [c] + b + Repeat('=', 3)
  {
    EncodeShape(data);
    forall i | 0 <= i < |a + [c] + b|
      ensures !IsSpace((a + [c] + b)[i])
    {
      ForeignText(data, a, c, b, i);
    }
    CompactPlain(a + [c] + b);
  }

  lemma {:induction false} ForeignRepad(data: seq<Byte>, a: string, c: char, b: string)
    requires a + b == Encode(data) && c as int < 128 && !IsSpace(c) && c != '-' && c != '_'
    ensures
      var padded := a + [c] + b + Repeat('=', 3);
      && Repad(Compact(a + [c] + b)) == padded && Translate(padded, StandardChar) == padded
      && forall i :: 0 <= i < |padded| ==> padded[i] as int < 128
  {
    var value := a + [c] + b;
    ForeignCompact(data, a, c, b);
    forall i | 0 <= i < |value|
      ensures value[i] as int < 128 && StandardChar(value[i]) == value[i]
    {
      ForeignText(data, a, c, b, i);
    }
  }

  lemma {:induction false} ForeignScan(data: seq<Byte>, a: string, c: char, b: string)
    requires a + b == Encode(data) && ValueOf(c) == 64 && c != '='
    ensures Scan(a + [c] + b + Repeat('=', 3), 0, 0, 0, false, false) == Some(data)
  {
    DecodeEncode(data, false);
    ForeignSkipped(a, c, b, 0, 0, 0, false);
    MorePadding(a + [c] + b, 3, 0, 0, 0, false);
  }

  /** A foreign character anywhere before the padding is skipped by the fallback. */
  lemma {:induction false} ToleratesForeign(data: seq<Byte>, a: string, c: char, b: string)
    requires a + b == Encode(data) && '=' !in a
    requires c as int < 128 && !IsSpace(c) && ValueOf(c) == 64 && c != '=' && c != '-' && c != '_'
    ensures B64Decode(a + [c] + b) == Some(data)
  {
    ForeignRepad(data, a, c, b);
    StrictRefusesForeign(a, c, b);
    ForeignScan(data, a, c, b);
  }

  // ---------- known values ----------

  /** The test vectors of section 10 of RFC 4648. */
  lemma {:induction false} KnownVectors()
    ensures Encode([]) == "" && Encode([102]) == "Zg==" && Encode([102, 111]) == "Zm8="
    ensures Encode([102, 111, 111]) == "Zm9v"
  {
    FooThen([]);
    assert [102, 111, 111] + [] == [102, 111, 111];
  }

  lemma {:induction false} LongerKnownVectors()
    ensures Encode([102, 111, 111] + [98]) == "Zm9vYg=="
    ensures Encode([102, 111, 111] + [98, 97]) == "Zm9vYmE=" && Encode([102, 111, 111] + [98, 97, 114]) == "Zm9vYmFy"
  {
    FooThen([98]);
    FooThen([98, 97]);
    FooThen([98, 97, 114]);
    EndVectors();
  }

  /** The last two symbols of both alphabets. */
  lemma {:induction false} LastSymbols()
    ensures Encode([251, 240]) == "+/A=" && Translate("+/A=", UrlSafeChar) == "-_A="
  {
  }

  lemma {:induction false} FooThen(rest: seq<Byte>)
    ensures Encode([102, 111, 111] + rest) == "Zm9v" + Encode(rest)
  {
    var data := [102, 111, 111] + rest;
    assert data[3..] == rest;
    assert Symbol(25) == 'Z' && Symbol(38) == 'm' && Symbol(61) == '9' && Symbol(47) == 'v';
  }

  lemma {:induction false} EndVectors()
    ensures Encode([98]) == "Yg==" && Encode([98, 97]) == "YmE=" && Encode([98, 97, 114]) == "YmFy"
  {
    assert [98, 97, 114][3..] == [];
  }
}
