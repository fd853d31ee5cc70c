/** Unpadded base64url, sections 3.2 and 5 of RFC 4648, as the cursor codec encodes and validates it. */
module Base64 {
  import opened Wrappers

  type Byte = b: nat | b < 256
  type Sextet = s: nat | s < 64

  const PAD: char := '='

  function Symbol(s: Sextet): (c: char)
    ensures c != PAD
  {
    if s < 26 then ('A' as int + s) as char
    else if s < 52 then ('a' as int + s - 26) as char
    else if s < 62 then ('0' as int + s - 52) as char
    else if s == 62 then '-'
    else '_'
  }

  /** The decoder maps the URL-safe symbols onto the standard ones, so it takes either. */
  function Value(c: char): Option<Sextet>
  {
    if 'A' <= c <= 'Z' then Some(c as int - 'A' as int)
    else if 'a' <= c <= 'z' then Some(c as int - 'a' as int + 26)
    else if '0' <= c <= '9' then Some(c as int - '0' as int + 52)
    else if c == '-' || c == '+' then Some(62)
    else if c == '_' || c == '/' then Some(63)
    else None
  }

  // ---------------------------------------------------------------- encoding

  function Sextet1(a: Byte, b: Byte): Sextet { a % 4 * 16 + b / 16 }

  function Sextet2(b: Byte, c: Byte): Sextet { b % 16 * 4 + c / 64 }

  function Sextets3(a: Byte, b: Byte, c: Byte): seq<Sextet> { [a / 4, Sextet1(a, b), Sextet2(b, c), c % 64] }

  /** The sextets of the bytes; the last one carries zero bits when the bytes do not fill it. */
  function Sextets(bytes: seq<Byte>): seq<Sextet>
  {
    if bytes == [] then []
    else if |bytes| == 1 then [bytes[0] / 4, Sextet1(bytes[0], 0)]
    else if |bytes| == 2 then [bytes[0] / 4, Sextet1(bytes[0], bytes[1]), Sextet2(bytes[1], 0)]
    else Sextets3(bytes[0], bytes[1], bytes[2]) + Sextets(bytes[3..])
  }

  function Symbols(sextets: seq<Sextet>): (s: string)
    ensures |s| == |sextets| && forall i :: 0 <= i < |s| ==> s[i] == Symbol(sextets[i])
  {
    seq(|sextets|, i requires 0 <= i < |sextets| => Symbol(sextets[i]))
  }

  function Repeat(c: char, n: nat): (s: string)
    ensures |s| == n && forall i :: 0 <= i < n ==> s[i] == c
  {
    seq(n, _ => c)
  }

  /** How many pad symbols fill the last group of four. */
  function Padding(length: nat): (n: nat)
    ensures n < 4 && (length + n) % 4 == 0
  {
    (4 - length % 4) % 4
  }

  function Encode(bytes: seq<Byte>): string
  {
    var s := Symbols(Sextets(bytes));
    s + Repeat(PAD, Padding(|s|))
  }

  function StripPadding(s: string): string
    decreases |s|
  {
    if s != [] && s[|s| - 1] == PAD then StripPadding(s[..|s| - 1]) else s
  }

  // ---------------------------------------------------------------- decoding

  function Values(s: string): Option<seq<Sextet>>
  {
    if s == [] then Some([])
    else match (Value(s[0]), Values(s[1..])) case (Some(v), Some(vs)) => Some([v] + vs) case _ => None
  }

  function Byte0(v: Sextet, w: Sextet): Byte { v * 4 + w / 16 }

  function Byte1(v: Sextet, w: Sextet): Byte { v % 16 * 16 + w / 4 }

  function Byte2(v: Sextet, w: Sextet): Byte { v % 4 * 64 + w }

  function Bytes3(v: seq<Sextet>): seq<Byte>
    requires |v| == 4
  {
    [Byte0(v[0], v[1]), Byte1(v[1], v[2]), Byte2(v[2], v[3])]
  }

  /** The bytes of the sextets, four at a time; bits left over in the last sextet are dropped unchecked. */
  function Bytes(v: seq<Sextet>): Option<seq<Byte>>
  {
    if v == [] then Some([])
    else if |v| == 1 then None
    else if |v| == 2 then Some([Byte0(v[0], v[1])])
    else if |v| == 3 then Some([Byte0(v[0], v[1]), Byte1(v[1], v[2])])
    else match Bytes(v[4..]) case None => None case Some(rest) => Some(Bytes3(v[..4]) + rest)
  }

  /** Strict decoding: whole groups of four, symbols only, and at most two pad symbols, at the very end. */
  function Decode(s: string): Option<seq<Byte>>
  {
    var data := StripPadding(s);
    if |s| % 4 != 0 || |s| - |data| > 2 then None
    else match Values(data) case None => None case Some(v) => Bytes(v)
  }

  // ---------------------------------------------------------------- round trip

  lemma SymbolValue(s: Sextet)
    ensures Value(Symbol(s)) == Some(s)
  {
  }

  lemma {:induction false} SymbolsValues(v: seq<Sextet>)
    ensures Values(Symbols(v)) == Some(v)
  {
    if v != [] {
      SymbolValue(v[0]);
      assert Symbols(v)[1..] == Symbols(v[1..]);
      SymbolsValues(v[1..]);
      assert [v[0]] + v[1..] == v;
    }
  }

  lemma Group(a: Byte, b: Byte, c: Byte)
    ensures Bytes3(Sextets3(a, b, c)) == [a, b, c]
  {
    assert Byte0(a / 4, Sextet1(a, b)) == a;
    assert Byte1(Sextet1(a, b), Sextet2(b, c)) == b;
    assert Byte2(Sextet2(b, c), c % 64) == c;
  }

  lemma PartialGroups(a: Byte, b: Byte)
    ensures Byte0(a / 4, Sextet1(a, 0)) == a
    ensures Byte0(a / 4, Sextet1(a, b)) == a && Byte1(Sextet1(a, b), Sextet2(b, 0)) == b
  {
    Group(a, 0, 0);
    Group(a, b, 0);
  }

  lemma {:induction false} SextetsBytes(bytes: seq<Byte>)
    ensures Bytes(Sextets(bytes)) == Some(bytes)
  {
    if |bytes| == 1 {
      PartialGroups(bytes[0], 0);
      assert bytes == [bytes[0]];
    } else if |bytes| == 2 {
      PartialGroups(bytes[0], bytes[1]);
      assert bytes == [bytes[0], bytes[1]];
    } else if |bytes| >= 3 {
      SextetsBytes(bytes[3..]);
      Group(bytes[0], bytes[1], bytes[2]);
      BytesOfGroup(Sextets3(bytes[0], bytes[1], bytes[2]), Sextets(bytes[3..]));
      assert bytes == [bytes[0], bytes[1], bytes[2]] + bytes[3..];
      assert Bytes(Sextets(bytes)) == Some(bytes);
    }
  }

  /** The symbols never end one past a group of four. */
  lemma {:induction false} SextetsLength(bytes: seq<Byte>)
    ensures |Sextets(bytes)| % 4 == if |bytes| % 3 == 0 then 0 else |bytes| % 3 + 1
  {
    if |bytes| >= 3 {
      SextetsLength(bytes[3..]);
      assert |Sextets(bytes)| == 4 + |Sextets(bytes[3..])|;
      assert |bytes| % 3 == |bytes[3..]| % 3;
    }
  }

  lemma BytesOfGroup(group: seq<Sextet>, rest: seq<Sextet>)
    requires |group| == 4 && Bytes(rest).Some?
    ensures Bytes(group + rest) == Some(Bytes3(group) + Bytes(rest).value)
  {
    assert (group + rest)[..4] == group && (group + rest)[4..] == rest;
  }

  lemma {:induction false} StripsExactly(s: string, n: nat)
    requires s != [] ==> s[|s| - 1] != PAD
    ensures StripPadding(s + Repeat(PAD, n)) == s
  {
    if n > 0 {
      var padded := s + Repeat(PAD, n);
      assert padded[..|padded| - 1] == s + Repeat(PAD, n - 1);
      StripsExactly(s, n - 1);
    } else {
      assert s + Repeat(PAD, 0) == s;
    }
  }

  /** Decoding removes exactly the padding that makes the groups whole. */
  lemma DecodesPadded(raw: string, v: seq<Sextet>)
    requires (raw != [] ==> raw[|raw| - 1] != PAD) && Values(raw) == Some(v) && |raw| % 4 != 1
    ensures StripPadding(raw + Repeat(PAD, Padding(|raw|))) == raw
    ensures Decode(raw + Repeat(PAD, Padding(|raw|))) == Bytes(v)
  {
    var text := raw + Repeat(PAD, Padding(|raw|));
    StripsExactly(raw, Padding(|raw|));
    PaddedLength(raw);
    assert StripPadding(text) == raw && |text| % 4 == 0 && |text| - |raw| <= 2;
  }

  lemma PaddedLength(raw: string)
    requires |raw| % 4 != 1
    ensures |raw + Repeat(PAD, Padding(|raw|))| == |raw| + Padding(|raw|) && Padding(|raw|) <= 2
  {
  }

  /** Padding any symbols that do not end one past a group and decoding them gives their bytes. */
  lemma DecodesSymbols(v: seq<Sextet>)
    requires |v| % 4 != 1
    ensures var raw := Symbols(v);
            StripPadding(raw + Repeat(PAD, Padding(|raw|))) == raw
                && Decode(raw + Repeat(PAD, Padding(|raw|))) == Bytes(v)
  {
    SymbolsValues(v);
    DecodesPadded(Symbols(v), v);
  }

  /** Restoring the padding of any encoding and decoding it gives back the bytes, whatever their number. */
  lemma RoundTrip(bytes: seq<Byte>)
    ensures var raw := StripPadding(Encode(bytes));
            && raw == Symbols(Sextets(bytes))
            && Decode(raw + Repeat(PAD, Padding(|raw|))) == Some(bytes)
  {
    SextetsBytes(bytes);
    SextetsLength(bytes);
    DecodesSymbols(Sextets(bytes));
  }

  // ---------------------------------------------------------------- what decoding does not check

  /** The last sextet of a partial group, with other unused bits. */
  predicate SameUsedBits(length: nat, v: Sextet, w: Sextet)
  {
    (length % 4 == 2 && w / 16 == v / 16) || (length % 4 == 3 && w / 4 == v / 4)
  }

  /** Two texts that differ only in the unused bits of their last symbol decode alike. */
  lemma {:induction false} TrailingBitsAreIgnored(v: seq<Sextet>, last: Sextet)
    requires v != [] && SameUsedBits(|v|, v[|v| - 1], last)
    ensures Bytes(v[|v| - 1 := last]) == Bytes(v)
  {
    var w := v[|v| - 1 := last];
    if |v| > 4 {
      assert w[4..] == v[4..][|v| - 5 := last] && w[..4] == v[..4];
      TrailingBitsAreIgnored(v[4..], last);
    }
  }

  /** So decoding is not injective: every text that does not end on a whole group has another that decodes alike. */
  lemma DecodeIsNotInjective(bytes: seq<Byte>) returns (other: string)
    requires |bytes| % 3 != 0
    ensures var raw := StripPadding(Encode(bytes));
            other != raw && |other| == |raw| && Decode(other + Repeat(PAD, Padding(|other|))) == Some(bytes)
  {
    var v := Sextets(bytes);
    RoundTrip(bytes);
    SextetsBytes(bytes);
    PartialGroup(bytes);
    var last: Sextet := v[|v| - 1] + 1;
    TrailingBitsAreIgnored(v, last);
    other := Symbols(v[|v| - 1 := last]);
    DecodesSymbols(v[|v| - 1 := last]);
    SymbolValue(last);
    SymbolValue(v[|v| - 1]);
    assert other[|v| - 1] != Symbols(v)[|v| - 1];
  }

  /** An encoding that ends within a group leaves the low bits of its last sextet zero. */
  lemma {:induction false} PartialGroup(bytes: seq<Byte>)
    requires |bytes| % 3 != 0
    ensures var v := Sextets(bytes);
            v != [] && v[|v| - 1] < 63 && SameUsedBits(|v|, v[|v| - 1], v[|v| - 1] + 1)
  {
    if |bytes| > 3 {
      PartialGroup(bytes[3..]);
      LaterGroups(Sextets3(bytes[0], bytes[1], bytes[2]), Sextets(bytes[3..]));
    } else if |bytes| == 1 {
      LowBits(bytes[0] % 4, 16);
    } else {
      LowBits(bytes[1] % 16, 4);
    }
  }

  lemma LaterGroups(group: seq<Sextet>, rest: seq<Sextet>)
    requires |group| == 4 && rest != []
    ensures (group + rest)[|group + rest| - 1] == rest[|rest| - 1] && |group + rest| % 4 == |rest| % 4
  {
  }

  lemma LowBits(n: nat, unit: nat)
    requires (n < 4 && unit == 16) || (n < 16 && unit == 4)
    ensures (n * unit + 1) / unit == n * unit / unit == n && n * unit < 63
  {
  }

  /** The test vectors of section 10 of RFC 4648, and the two symbols of its section 5. */
  lemma KnownTexts()
    ensures Encode([]) == "" && Encode([102, 111, 111]) == "Zm9v"
  {
    assert Sextets([102, 111, 111]) == [25, 38, 61, 47] by { assert [102, 111, 111][3..] == []; }
    assert Symbols([25, 38, 61, 47]) == "Zm9v" && Symbols([]) == "" && Repeat(PAD, 0) == "";
  }

  lemma KnownPaddedTexts()
    ensures Encode([102]) == "Zg==" && Encode([102, 111]) == "Zm8=" && Encode([251, 255]) == "-_8="
  {
    assert Symbols([25, 38, 60]) == "Zm8" && Symbols([25, 32]) == "Zg" && Symbols([62, 63, 60]) == "-_8";
    assert Repeat(PAD, 1) == "=" && Repeat(PAD, 2) == "==";
  }
}
