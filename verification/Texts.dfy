/** Fixed-width numbers, separated fields and flat JSON objects, each with its parser. */
module Texts {
  import opened Wrappers

  // ---------------------------------------------------------------- fixed-width numbers

  function Power(base: nat, n: nat): nat { if n == 0 then 1 else base * Power(base, n - 1) }

  predicate Base(base: nat) { base == 10 || base == 16 }

  function Digit(n: nat): char
    requires n < 16
  {
    if n < 10 then ('0' as int + n) as char else ('a' as int + n - 10) as char
  }

  function DigitValue(c: char, base: nat): (v: Option<nat>)
    requires Base(base)
    ensures v.Some? ==> v.value < base
  {
    if '0' <= c <= '9' then Some(c as int - '0' as int)
    else if base == 16 && 'a' <= c <= 'f' then Some(c as int - 'a' as int + 10)
    else if base == 16 && 'A' <= c <= 'F' then Some(c as int - 'A' as int + 10)
    else None
  }

  function Fixed(n: nat, width: nat, base: nat): (s: string)
    requires Base(base)
    ensures |s| == width
  {
    if width == 0 then "" else Fixed(n / base, width - 1, base) + [Digit(n % base)]
  }

  function Number(s: string, base: nat): Option<nat>
    requires Base(base)
  {
    if s == "" then Some(0)
    else
      match (Number(s[..|s| - 1], base), DigitValue(s[|s| - 1], base))
      case (Some(n), Some(d)) => Some(n * base + d)
      case _ => None
  }

  lemma {:induction false} NumberFixed(n: nat, width: nat, base: nat)
    requires Base(base) && n < Power(base, width)
    ensures Number(Fixed(n, width, base), base) == Some(n)
  {
    if width > 0 {
      FirstDigits(n, Power(base, width - 1), base);
      NumberFixed(n / base, width - 1, base);
      LastDigit(n % base, base);
      NumberAppend(Fixed(n / base, width - 1, base), Digit(n % base), n / base, n % base, base);
    }
  }

  lemma NumberAppend(s: string, c: char, n: nat, d: nat, base: nat)
    requires Base(base) && Number(s, base) == Some(n) && DigitValue(c, base) == Some(d)
    ensures Number(s + [c], base) == Some(n * base + d)
  {
    assert (s + [c])[..|s|] == s;
  }

  lemma FirstDigits(n: nat, bound: nat, base: nat)
    requires Base(base) && n < base * bound
    ensures n / base < bound && n / base * base + n % base == n
  {
    if base == 10 { assert n / 10 < bound; } else { assert n / 16 < bound; }
  }

  lemma LastDigit(d: nat, base: nat)
    requires Base(base) && d < base
    ensures DigitValue(Digit(d), base) == Some(d)
  {
  }

  // ---------------------------------------------------------------- characters that need no escaping

  /** Digits, the letters of a hexadecimal number and the separators of a timestamp. */
  predicate PlainChar(c: char) { '0' <= c <= '9' || 'a' <= c <= 'f' || c == '-' || c == ':' || c == '.' || c == 'T' }

  predicate Plain(s: string) { forall i :: 0 <= i < |s| ==> PlainChar(s[i]) }

  lemma {:induction false} FixedPlain(n: nat, width: nat, base: nat)
    requires Base(base)
    ensures Plain(Fixed(n, width, base))
  {
    if width > 0 {
      FixedPlain(n / base, width - 1, base);
      DigitPlain(n % base);
    }
  }

  lemma DigitPlain(n: nat)
    requires n < 16
    ensures PlainChar(Digit(n))
  {
  }

  /** Text that a JSON string holds as it is. */
  predicate Unescaped(s: string) { forall i :: 0 <= i < |s| ==> s[i] != '"' && s[i] != '\\' && s[i] >= ' ' }

  // ---------------------------------------------------------------- fields

  /** A number of fixed width after a prefix; `any` takes whatever stands in the prefix's place. */
  datatype Field = Field(prefix: string, any: bool, width: nat)

  predicate Fits(values: seq<nat>, fields: seq<Field>, base: nat)
  {
    |values| == |fields| && forall i :: 0 <= i < |values| ==> values[i] < Power(base, fields[i].width)
  }

  function Format(values: seq<nat>, fields: seq<Field>, base: nat): string
    requires Base(base) && |values| == |fields|
  {
    if values == [] then ""
        else fields[0].prefix + Fixed(values[0], fields[0].width, base) + Format(values[1..], fields[1..], base)
  }

  function ParseField(s: string, f: Field, base: nat): Option<(nat, string)>
    requires Base(base)
  {
    var start, end := |f.prefix|, |f.prefix| + f.width;
    if |s| < end || !(f.any || s[..start] == f.prefix) then None
    else match Number(s[start..end], base) case None => None case Some(n) => Some((n, s[end..]))
  }

  function Parse(s: string, fields: seq<Field>, base: nat): (r: Option<(seq<nat>, string)>)
    requires Base(base)
    ensures r.Some? ==> |r.value.0| == |fields|
    decreases |fields|
  {
    if fields == [] then Some(([], s))
    else
      match ParseField(s, fields[0], base)
      case None => None
      case Some((n, rest)) =>
        match Parse(rest, fields[1..], base) case None => None case Some((ns, end)) => Some(([n] + ns, end))
  }

  lemma {:induction false} ParseFormat(values: seq<nat>, fields: seq<Field>, base: nat, rest: string)
    requires Base(base) && Fits(values, fields, base)
    ensures Parse(Format(values, fields, base) + rest, fields, base) == Some((values, rest))
    decreases |fields|
  {
    if fields == [] {
      assert Format(values, fields, base) + rest == rest;
    } else {
      var f, text, tail := fields[0], Fixed(values[0], fields[0].width, base),
          Format(values[1..], fields[1..], base) + rest;
      NumberFixed(values[0], f.width, base);
      assert Format(values, fields, base) + rest == f.prefix + text + tail;
      PrefixOf(f.prefix, text, tail);
      assert ParseField(f.prefix + text + tail, f, base) == Some((values[0], tail));
      ParseFormat(values[1..], fields[1..], base, rest);
      assert [values[0]] + values[1..] == values;
    }
  }

  function Width(fields: seq<Field>): nat
  {
    if fields == [] then 0 else |fields[0].prefix| + fields[0].width + Width(fields[1..])
  }

  lemma {:induction false} FormatLength(values: seq<nat>, fields: seq<Field>, base: nat)
    requires Base(base) && |values| == |fields|
    ensures |Format(values, fields, base)| == Width(fields)
    decreases |fields|
  {
    if fields != [] { FormatLength(values[1..], fields[1..], base); }
  }

  lemma PrefixOf(prefix: string, text: string, tail: string)
    ensures var s := prefix + text + tail;
            && s[..|prefix|] == prefix && s[|prefix|..|prefix| + |text|] == text && s[|prefix| + |text|..] == tail
  {
  }

  lemma {:induction false} FormatPlain(values: seq<nat>, fields: seq<Field>, base: nat)
    requires Base(base) && |values| == |fields| && forall i :: 0 <= i < |fields| ==> Plain(fields[i].prefix)
    ensures Plain(Format(values, fields, base))
    decreases |fields|
  {
    if fields != [] {
      FixedPlain(values[0], fields[0].width, base);
      FormatPlain(values[1..], fields[1..], base);
    }
  }

  // ---------------------------------------------------------------- flat JSON objects

  datatype Json = Str(text: string) | Num(n: nat)

  predicate Space(c: char) { c == ' ' || c == '\t' || c == '\n' || c == '\r' }

  function Skip(s: string): (r: string)
    ensures |r| <= |s|
  {
    if s != "" && Space(s[0]) then Skip(s[1..]) else s
  }

  /** The rest of a string after its opening quote; escapes and control characters are not taken. */
  function ParseString(s: string): (r: Option<(string, string)>)
    ensures r.Some? ==> |r.value.1| < |s|
  {
    if s == "" || s[0] == '\\' || s[0] < ' ' then None
    else if s[0] == '"' then Some(("", s[1..]))
    else match ParseString(s[1..]) case None => None case Some((text, rest)) => Some(([s[0]] + text, rest))
  }

  function Digits(s: string): (n: nat)
    ensures n <= |s|
  {
    if s != "" && '0' <= s[0] <= '9' then 1 + Digits(s[1..]) else 0
  }

  function ParseValue(s: string): (r: Option<(Json, string)>)
    ensures r.Some? ==> |r.value.1| < |s|
  {
    if s == "" then None
    else if s[0] == '"' then
      match ParseString(s[1..]) case None => None case Some((text, rest)) => Some((Str(text), rest))
    else
      var n := Digits(s);
      if n == 0 || (s[0] == '0' && n > 1) then None
      else match Number(s[..n], 10) case None => None case Some(v) => Some((Num(v), s[n..]))
  }

  function ParseMember(s: string): (r: Option<(string, Json, string)>)
    ensures r.Some? ==> |r.value.2| < |s|
  {
    if s == "" || s[0] != '"' then None
    else
      match ParseString(s[1..])
      case None => None
      case Some((key, afterKey)) =>
        var colon := Skip(afterKey);
        if colon == "" || colon[0] != ':' then None
        else match ParseValue(Skip(colon[1..])) case None => None case Some((value, rest)) => Some((key, value, rest))
  }

  /** The members up to the closing brace; a later member of the same name replaces an earlier one. */
  function ParseMembers(s: string, members: map<string, Json>): Option<(map<string, Json>, string)>
    decreases |s|
  {
    match ParseMember(s)
    case None => None
    case Some((key, value, rest)) =>
      var next := Skip(rest);
      if next == "" then None
      else if next[0] == '}' then Some((members[key := value], next[1..]))
      else if next[0] == ',' then ParseMembers(Skip(next[1..]), members[key := value])
      else None
  }

  function ParseObject(s: string): Option<map<string, Json>>
  {
    var open := Skip(s);
    if open == "" || open[0] != '{' then None
    else
      var first := Skip(open[1..]);
      var parsed: Option<(map<string, Json>, string)> :=
        if first != "" && first[0] == '}' then Some((map[], first[1..])) else ParseMembers(first, map[]);
      match parsed case None => None case Some((members, rest)) => if Skip(rest) == "" then Some(members) else None
  }

  lemma {:induction false} ScanString(text: string, rest: string)
    requires Unescaped(text)
    ensures ParseString(text + "\"" + rest) == Some((text, rest))
  {
    var s := text + "\"" + rest;
    if text != "" {
      assert s[1..] == text[1..] + "\"" + rest;
      ScanString(text[1..], rest);
      assert [text[0]] + text[1..] == text;
    } else {
      assert s[0] == '"' && s[1..] == rest;
    }
  }

  function QuotedMember(key: string, text: string): string { "\"" + key + "\":\"" + text + "\"" }

  /** The literal keys of the cursor are scanned like any string. */
  lemma {:induction false} ScanKey(key: string, rest: string)
    requires Letters(key)
    ensures ParseString(key + "\"" + rest) == Some((key, rest))
  {
    var s := key + "\"" + rest;
    if key != "" {
      assert s[1..] == key[1..] + "\"" + rest;
      ScanKey(key[1..], rest);
      assert [key[0]] + key[1..] == key;
    } else {
      assert s[0] == '"' && s[1..] == rest;
    }
  }

  predicate Letters(key: string) { forall i :: 0 <= i < |key| ==> 'a' <= key[i] <= 'z' }

  lemma OneMember(key: string, text: string, rest: string)
    requires Letters(key) && Unescaped(text)
    ensures ParseMember(QuotedMember(key, text) + rest) == Some((key, Str(text), rest))
  {
    var value := "\"" + text + "\"" + rest;
    var colon := ":" + value;
    var s := QuotedMember(key, text) + rest;
    assert s[1..] == key + "\"" + colon;
    ScanKey(key, colon);
    assert Skip(colon) == colon && colon[1..] == value && Skip(value) == value;
    assert value[1..] == text + "\"" + rest;
    ScanString(text, rest);
  }

  lemma StringMember(key: string, text: string, rest: string, members: map<string, Json>)
    requires Letters(key) && Unescaped(text) && rest != "" && !Space(rest[0])
    ensures ParseMembers(QuotedMember(key, text) + "," + rest, members) == ParseMembers(rest, members[key := Str(text)])
  {
    var tail := "," + rest;
    assert QuotedMember(key, text) + "," + rest == QuotedMember(key, text) + tail;
    OneMember(key, text, tail);
    assert Skip(tail) == tail && tail[1..] == rest && Skip(rest) == rest;
  }

  lemma LastNumber(key: string, digit: nat, members: map<string, Json>)
    requires Letters(key) && digit < 10
    ensures ParseMembers("\"" + key + "\":" + [Digit(digit)] + "}", members) == Some((members[key := Num(digit)], ""))
  {
    var value := [Digit(digit)] + "}";
    var colon := ":" + value;
    var s := "\"" + key + "\":" + [Digit(digit)] + "}";
    assert s[1..] == key + "\"" + colon;
    ScanKey(key, colon);
    assert Skip(colon) == colon && colon[1..] == value && Skip(value) == value;
    assert value[1..] == "}" && Digits(value[1..]) == 0;
    assert value[..1] == [Digit(digit)] && value[..1][..0] == "";
    assert Number([Digit(digit)], 10) == Some(digit);
    assert ParseMember(s) == Some((key, Num(digit), "}"));
    assert Skip("}") == "}" && "}"[1..] == "";
  }
}
