/** The transaction cursor: UTC timestamp and id, through canonical JSON and unpadded base64url, and back. */
module Cursor {
  import opened Wrappers
  import opened Texts
  import Base64
  import Recurrence

  // ---------------------------------------------------------------- values

  /** A UTC timestamp, field by field. */
  datatype Stamp = Stamp(year: nat, month: nat, day: nat, hour: nat, minute: nat, second: nat, micro: nat)
  {
    predicate Valid()
    {
      && 1 <= year <= 9999 && 1 <= month <= 12 && 1 <= day <= Recurrence.MonthLength(year, month)
      && hour < 24 && minute < 60 && second < 60 && micro < 1_000_000
    }
  }

  /** A 128-bit id by the five groups of its text. */
  datatype Id = Id(a: nat, b: nat, c: nat, d: nat, e: nat)
  {
    predicate Valid() {
      a < Power(16, 8) && b < Power(16, 4) && c < Power(16, 4) && d < Power(16, 4) && e < Power(16, 12)
    }
    function Groups(): seq<nat> { [a, b, c, d, e] }
  }

  datatype TransactionCursor = TransactionCursor(at: Stamp, id: Id)
  {
    predicate Valid() { at.Valid() && id.Valid() }
  }

  const VERSION := 1

  // ---------------------------------------------------------------- timestamps

  const DATE_TIME: seq<Field> :=
    [Field("", false, 4), Field("-", false, 2), Field("-", false, 2), Field("T", true, 2), Field(":", false, 2),
        Field(":", false, 2)]
  const MICROS: seq<Field> := [Field(".", false, 6)]
  const OFFSET: seq<Field> := [Field("+", true, 2), Field(":", false, 2)]
  const UTC_OFFSET := "+00:00"

  function DateTime(s: Stamp): seq<nat> { [s.year, s.month, s.day, s.hour, s.minute, s.second] }

  function FractionText(s: Stamp): string { if s.micro == 0 then "" else Format([s.micro], MICROS, 10) }

  /** ISO 8601 text without its offset; the fraction is left out when it is zero. */
  function LocalText(s: Stamp): string
  {
    Format(DateTime(s), DATE_TIME, 10) + FractionText(s)
  }

  function IsoFormat(s: Stamp): string { LocalText(s) + UTC_OFFSET }

  function NextDay(s: Stamp): Option<Stamp>
  {
    if s.day < Recurrence.MonthLength(s.year, s.month) then Some(s.(day := s.day + 1))
    else if s.month < 12 then Some(s.(month := s.month + 1, day := 1))
    else if s.year < 9999 then Some(s.(year := s.year + 1, month := 1, day := 1))
    else None
  }

  function PreviousDay(s: Stamp): Option<Stamp>
    requires s.Valid()
  {
    if s.day > 1 then Some(s.(day := s.day - 1))
    else if s.month > 1 then Some(s.(month := s.month - 1, day := Recurrence.MonthLength(s.year, s.month - 1)))
    else if s.year > 1 then Some(s.(year := s.year - 1, month := 12, day := 31))
    else None
  }

  const MINUTE := 60_000_000
  const HOUR := 3_600_000_000
  const DAY := 86_400_000_000

  /** Microseconds since midnight. */
  function TimeOfDay(s: Stamp): int { s.hour * HOUR + s.minute * MINUTE + s.second * 1_000_000 + s.micro }

  /** The same day at so many microseconds since midnight. */
  function AtTime(s: Stamp, time: nat): Stamp
  {
    s.(hour := time / HOUR, minute := time % HOUR / MINUTE, second := time % MINUTE / 1_000_000,
        micro := time % 1_000_000)
  }

  function OptionAtTime(day: Option<Stamp>, time: nat): Option<Stamp>
  {
    match day case None => None case Some(d) => Some(AtTime(d, time))
  }

  /** The UTC time of a local time `offset` microseconds ahead of UTC; None if it leaves the calendar. */
  function ToUtc(s: Stamp, offset: int): Option<Stamp>
    requires s.Valid() && -DAY < offset < DAY
  {
    var time := TimeOfDay(s) - offset;
    if time < 0 then OptionAtTime(PreviousDay(s), time + DAY)
    else if time < DAY then OptionAtTime(Some(s), time)
    else OptionAtTime(NextDay(s), time - DAY)
  }

  /** The signed offset that must end an aware timestamp. */
  function ParseOffset(s: string): (r: Option<int>)
    ensures r.Some? ==> -1440 < r.value < 1440
  {
    if s == "" || (s[0] != '+' && s[0] != '-') then None
    else
      match Parse(s, OFFSET, 10)
      case None => None
      case Some((v, rest)) =>
        if rest != "" || v[0] >= 24 || v[1] >= 60 then None
        else
          var minutes: int := v[0] * 60 + v[1];
          Some(if s[0] == '+' then minutes else -minutes)
  }

  /** The microseconds and what follows them; without a decimal point there are none. */
  function ParseFraction(s: string): Option<(nat, string)>
  {
    if s == "" || s[0] != '.' then Some((0, s))
    else match Parse(s, MICROS, 10) case None => None case Some((v, rest)) => Some((v[0], rest))
  }

  function ParseIso(s: string): Option<Stamp>
  {
    match Parse(s, DATE_TIME, 10)
    case None => None
    case Some((v, rest)) =>
      match ParseFraction(rest)
      case None => None
      case Some((micro, zone)) =>
        var stamp := Stamp(v[0], v[1], v[2], v[3], v[4], v[5], micro);
        var offset := ParseOffset(zone);
        if !stamp.Valid() || offset.None? then None else ToUtc(stamp, offset.value * MINUTE)
  }

  /** Every occurrence of the UTC offset becomes a Z. */
  function ZForOffset(s: string): string
    decreases |s|
  {
    if |s| >= 6 && s[..6] == UTC_OFFSET then "Z" + ZForOffset(s[6..])
    else if s == "" then "" else [s[0]] + ZForOffset(s[1..])
  }

  function OffsetForZ(s: string): string
  {
    if s == "" then "" else (if s[0] == 'Z' then UTC_OFFSET else [s[0]]) + OffsetForZ(s[1..])
  }

  // ---------------------------------------------------------------- ids

  const DASHED: seq<Field> := [Field("", false, 8), Field("-", false, 4), Field("-", false, 4), Field("-", false, 4),
      Field("-", false, 12)]
  const UNDASHED: seq<Field> := [Field("", false, 8), Field("", false, 4), Field("", false, 4), Field("", false, 4),
      Field("", false, 12)]

  function IdText(id: Id): string { Format(id.Groups(), DASHED, 16) }

  function WithoutDashes(s: string): string
  {
    if s == "" then "" else if s[0] == '-' then WithoutDashes(s[1..]) else [s[0]] + WithoutDashes(s[1..])
  }

  /** Dashes are ignored wherever they stand; exactly 32 hexadecimal digits must remain. */
  function ParseId(s: string): Option<Id>
  {
    match Parse(WithoutDashes(s), UNDASHED, 16)
    case None => None
    case Some((v, rest)) => if rest != "" then None else Some(Id(v[0], v[1], v[2], v[3], v[4]))
  }

  // ---------------------------------------------------------------- the cursor

  function VersionMember(): string { "\"" + "v" + "\":" + [Digit(VERSION)] + "}" }

  /** The members in the order of their names, without white space. */
  function Members(at: string, id: string): string
  {
    QuotedMember("at", at) + "," + (QuotedMember("id", id) + "," + VersionMember())
  }

  function Serialize(c: TransactionCursor): string { "{" + Members(ZForOffset(IsoFormat(c.at)), IdText(c.id)) }

  /** The UTF-8 bytes of ASCII text. */
  function ToBytes(s: string): Option<seq<Base64.Byte>>
  {
    if s == "" then Some([])
    else if s[0] as int >= 128 then None
    else match ToBytes(s[1..]) case None => None case Some(rest) => Some([s[0] as int] + rest)
  }

  function ToText(bytes: seq<Base64.Byte>): Option<string>
  {
    if bytes == [] then Some("")
    else if bytes[0] >= 128 then None
    else match ToText(bytes[1..]) case None => None case Some(rest) => Some([bytes[0] as char] + rest)
  }

  function Encode(c: TransactionCursor): Option<string>
  {
    match ToBytes(Serialize(c)) case None => None case Some(bytes) => Some(Base64.StripPadding(Base64.Encode(bytes)))
  }

  function FromMembers(members: map<string, Json>): Option<TransactionCursor>
  {
    if members.Keys != {"at", "id", "v"} || members["v"] != Num(VERSION) || !members["at"].Str? || !members["id"].Str?
        then None
    else
      match (ParseIso(OffsetForZ(members["at"].text)), ParseId(members["id"].text))
      case (Some(at), Some(id)) => Some(TransactionCursor(at, id))
      case _ => None
  }

  /** None is an invalid cursor. */
  function Decode(raw: string): Option<TransactionCursor>
  {
    match Base64.Decode(raw + Base64.Repeat(Base64.PAD, Base64.Padding(|raw|)))
    case None => None
    case Some(bytes) =>
      match ToText(bytes)
      case None => None
      case Some(text) =>
        match ParseObject(text) case None => None case Some(members) => FromMembers(members)
  }

  // ---------------------------------------------------------------- round trips of the parts

  lemma LocalPlain(s: Stamp)
    ensures Plain(LocalText(s))
  {
    FormatPlain(DateTime(s), DATE_TIME, 10);
    FormatPlain([s.micro], MICROS, 10);
  }

  lemma {:induction false} ZReplacesTheOffset(s: string)
    requires Plain(s)
    ensures ZForOffset(s + UTC_OFFSET) == s + "Z"
  {
    var t := s + UTC_OFFSET;
    if s == "" {
      assert t[..6] == UTC_OFFSET && t[6..] == "";
      assert ZForOffset("") == "";
    } else {
      assert t[0] == s[0] && t[1..] == s[1..] + UTC_OFFSET;
      assert t[..6] != UTC_OFFSET by { assert t[..6][0] != '+'; }
      ZReplacesTheOffset(s[1..]);
    }
  }

  lemma {:induction false} OffsetReplacesTheZ(s: string)
    requires Plain(s)
    ensures OffsetForZ(s + "Z") == s + UTC_OFFSET
  {
    var t := s + "Z";
    if s == "" {
      assert OffsetForZ("Z"[1..]) == "";
    } else {
      assert t[0] == s[0] && t[1..] == s[1..] + "Z";
      OffsetReplacesTheZ(s[1..]);
    }
  }

  lemma OffsetOfUtc()
    ensures ParseOffset(UTC_OFFSET) == Some(0)
  {
    assert Number("00", 10) == Some(0) by { assert "00"[..1] == "0" && "0"[..0] == ""; }
    var s := UTC_OFFSET;
    assert s[1..3] == "00" && s[3..] == ":00";
    assert s[3..][..1] == ":" && s[3..][1..3] == "00" && s[3..][3..] == "";
    assert ParseField(s, OFFSET[0], 10) == Some((0, ":00"));
    assert ParseField(":00", OFFSET[1], 10) == Some((0, ""));
    assert OFFSET[1..] == [OFFSET[1]] && OFFSET[1..][1..] == [];
  }

  lemma StampFits(s: Stamp)
    requires s.Valid()
    ensures Fits(DateTime(s), DATE_TIME, 10) && Fits([s.micro], MICROS, 10)
  {
    Powers();
  }

  lemma Powers()
    ensures Power(10, 2) == 100 && Power(10, 4) == 10_000 && Power(10, 6) == 1_000_000
  {
    assert Power(10, 0) == 1 && Power(10, 1) == 10 && Power(10, 2) == 100 && Power(10, 3) == 1000;
    assert Power(10, 4) == 10_000 && Power(10, 5) == 100_000 && Power(10, 6) == 1_000_000;
  }

  lemma FractionRoundTrip(s: Stamp)
    requires s.Valid()
    ensures ParseFraction(FractionText(s) + UTC_OFFSET) == Some((s.micro, UTC_OFFSET))
  {
    StampFits(s);
    if s.micro == 0 {
      assert FractionText(s) + UTC_OFFSET == UTC_OFFSET;
    } else {
      ParseFormat([s.micro], MICROS, 10, UTC_OFFSET);
      assert (FractionText(s) + UTC_OFFSET)[0] == '.';
    }
  }

  lemma IsoRoundTrip(s: Stamp)
    requires s.Valid()
    ensures ParseIso(IsoFormat(s)) == Some(s)
  {
    var rest := FractionText(s) + UTC_OFFSET;
    StampFits(s);
    assert IsoFormat(s) == Format(DateTime(s), DATE_TIME, 10) + rest;
    ParseFormat(DateTime(s), DATE_TIME, 10, rest);
    FractionRoundTrip(s);
    OffsetOfUtc();
    UtcIsUtc(s);
  }

  lemma UtcIsUtc(s: Stamp)
    requires s.Valid()
    ensures ToUtc(s, 0) == Some(s)
  {
    TimeRoundTrip(s);
  }

  lemma TimeRoundTrip(s: Stamp)
    requires s.Valid()
    ensures 0 <= TimeOfDay(s) < DAY && AtTime(s, TimeOfDay(s)) == s
  {
    var rest := s.second * 1_000_000 + s.micro;
    assert TimeOfDay(s) == s.hour * HOUR + (s.minute * MINUTE + rest);
    assert TimeOfDay(s) % MINUTE == rest by { assert TimeOfDay(s) == (s.hour * 60 + s.minute) * MINUTE + rest; }
    assert TimeOfDay(s) % 1_000_000 == s.micro;
  }

  lemma {:induction false} DashesGo(values: seq<nat>, dashed: seq<Field>, plain: seq<Field>)
    requires |values| == |dashed| == |plain|
    requires forall i :: 0 <= i < |dashed| ==>
               (dashed[i].prefix == "" || dashed[i].prefix == "-") && plain[i].prefix == ""
                   && plain[i].width == dashed[i].width
    ensures WithoutDashes(Format(values, dashed, 16)) == Format(values, plain, 16)
    decreases |values|
  {
    if values != [] {
      DashesGo(values[1..], dashed[1..], plain[1..]);
      NoDashIn(values[0], dashed[0].width);
      FieldGoes(dashed[0].prefix, Fixed(values[0], dashed[0].width, 16), Format(values[1..], dashed[1..], 16));
      assert "" + Fixed(values[0], plain[0].width, 16) == Fixed(values[0], plain[0].width, 16);
    }
  }

  lemma FieldGoes(prefix: string, text: string, tail: string)
    requires (prefix == "" || prefix == "-") && '-' !in text
    ensures WithoutDashes(prefix + text + tail) == text + WithoutDashes(tail)
  {
    assert prefix + text + tail == prefix + (text + tail);
    PrefixGoes(prefix, text + tail);
    KeepsUndashed(text, tail);
  }

  lemma PrefixGoes(prefix: string, s: string)
    requires prefix == "" || prefix == "-"
    ensures WithoutDashes(prefix + s) == WithoutDashes(s)
  {
    if prefix == "" {
      assert prefix + s == s;
    } else {
      assert (prefix + s)[1..] == s;
    }
  }

  lemma {:induction false} NoDashIn(n: nat, width: nat)
    ensures '-' !in Fixed(n, width, 16)
  {
    if width > 0 { NoDashIn(n / 16, width - 1); }
  }

  lemma {:induction false} KeepsUndashed(s: string, tail: string)
    requires '-' !in s
    ensures WithoutDashes(s + tail) == s + WithoutDashes(tail)
  {
    if s == "" {
      assert s + tail == tail;
    } else {
      assert (s + tail)[1..] == s[1..] + tail;
      KeepsUndashed(s[1..], tail);
    }
  }

  lemma IdRoundTrip(id: Id)
    requires id.Valid()
    ensures ParseId(IdText(id)) == Some(id)
  {
    DashesGo(id.Groups(), DASHED, UNDASHED);
    var text := Format(id.Groups(), UNDASHED, 16);
    ParseFormat(id.Groups(), UNDASHED, 16, "");
    assert text + "" == text;
  }

  lemma {:induction false} BytesRoundTrip(s: string)
    requires forall i :: 0 <= i < |s| ==> s[i] as int < 128
    ensures ToBytes(s).Some? && ToText(ToBytes(s).value) == Some(s)
  {
    if s != "" {
      BytesRoundTrip(s[1..]);
      var bytes := ToBytes(s[1..]).value;
      assert ([s[0] as int] + bytes)[1..] == bytes;
      assert [s[0]] + s[1..] == s;
    }
  }

  // ---------------------------------------------------------------- the round trip

  lemma AtText(c: TransactionCursor)
    ensures ZForOffset(IsoFormat(c.at)) == LocalText(c.at) + "Z" && OffsetForZ(LocalText(c.at) + "Z") == IsoFormat(c.at)
    ensures Plain(LocalText(c.at)) && Unescaped(LocalText(c.at) + "Z")
  {
    LocalPlain(c.at);
    ZReplacesTheOffset(LocalText(c.at));
    OffsetReplacesTheZ(LocalText(c.at));
  }

  predicate Ascii(s: string) { forall i :: 0 <= i < |s| ==> s[i] as int < 128 }

  lemma AsciiConcat(s: string, t: string)
    requires Ascii(s) && Ascii(t)
    ensures Ascii(s + t)
  {
  }

  lemma QuotedAscii(key: string, text: string)
    requires Ascii(key) && Ascii(text)
    ensures Ascii(QuotedMember(key, text))
  {
  }

  lemma MembersAscii(at: string, id: string)
    requires Ascii(at) && Ascii(id)
    ensures Ascii("{" + Members(at, id))
  {
    QuotedAscii("at", at);
    QuotedAscii("id", id);
    AsciiConcat(QuotedMember("id", id) + ",", VersionMember());
    AsciiConcat(QuotedMember("at", at) + ",", QuotedMember("id", id) + "," + VersionMember());
  }

  lemma SerializesAscii(c: TransactionCursor)
    ensures Ascii(Serialize(c))
  {
    AtText(c);
    FormatPlain(c.id.Groups(), DASHED, 16);
    PlainAscii(LocalText(c.at));
    PlainAscii(IdText(c.id));
    MembersAscii(LocalText(c.at) + "Z", IdText(c.id));
  }

  lemma PlainAscii(s: string)
    requires Plain(s)
    ensures Ascii(s) && Ascii(s + "Z")
  {
  }

  lemma ParsesMembers(at: string, id: string)
    requires Unescaped(at) && Unescaped(id)
    ensures ParseMembers(Members(at, id), map[])
              == Some((map["at" := Str(at), "id" := Str(id), "v" := Num(VERSION)], ""))
  {
    var second := QuotedMember("id", id) + "," + VersionMember();
    StringMember("at", at, second, map[]);
    StringMember("id", id, VersionMember(), map["at" := Str(at)]);
    LastNumber("v", VERSION, map["at" := Str(at), "id" := Str(id)]);
  }

  lemma ParsesObject(members: string, m: map<string, Json>)
    requires members != "" && members[0] == '"' && ParseMembers(members, map[]) == Some((m, ""))
    ensures ParseObject("{" + members) == Some(m)
  {
    var s := "{" + members;
    assert Skip(s) == s && s[1..] == members && Skip(members) == members;
  }

  lemma ParsesSerialized(c: TransactionCursor)
    ensures ParseObject(Serialize(c))
              == Some(map["at" := Str(LocalText(c.at) + "Z"), "id" := Str(IdText(c.id)), "v" := Num(VERSION)])
  {
    var at, id := LocalText(c.at) + "Z", IdText(c.id);
    AtText(c);
    FormatPlain(c.id.Groups(), DASHED, 16);
    ParsesMembers(at, id);
    ParsesObject(Members(at, id), map["at" := Str(at), "id" := Str(id), "v" := Num(VERSION)]);
  }

  /** The members under their three names, and no others. */
  predicate Canonical(members: map<string, Json>, at: string, id: string)
  {
    && members.Keys == {"at", "id", "v"}
    && members["at"] == Str(at) && members["id"] == Str(id) && members["v"] == Num(VERSION)
  }

  lemma CanonicalMembers(at: string, id: string)
    ensures Canonical(map["at" := Str(at), "id" := Str(id), "v" := Num(VERSION)], at, id)
  {
    assert "at"[0] != "id"[0] && |"v"| == 1;
  }

  lemma FromParts(members: map<string, Json>, c: TransactionCursor)
    requires c.Valid() && Canonical(members, LocalText(c.at) + "Z", IdText(c.id))
    ensures FromMembers(members) == Some(c)
  {
    AtText(c);
    IsoRoundTrip(c.at);
    IdRoundTrip(c.id);
  }

  lemma FromCanonical(c: TransactionCursor)
    requires c.Valid()
    ensures FromMembers(map["at" := Str(LocalText(c.at) + "Z"), "id" := Str(IdText(c.id)), "v" := Num(VERSION)])
              == Some(c)
  {
    CanonicalMembers(LocalText(c.at) + "Z", IdText(c.id));
    FromParts(map["at" := Str(LocalText(c.at) + "Z"), "id" := Str(IdText(c.id)), "v" := Num(VERSION)], c);
  }

  /**
   * Decoding what was encoded gives back the cursor, for every timestamp, with or without microseconds, and
   * every id.
   */
  lemma CursorRoundTrip(c: TransactionCursor)
    requires c.Valid()
    ensures Encode(c).Some? && Decode(Encode(c).value) == Some(c)
  {
    SerializesAscii(c);
    BytesRoundTrip(Serialize(c));
    Base64.RoundTrip(ToBytes(Serialize(c)).value);
    ParsesSerialized(c);
    FromCanonical(c);
  }

  /** Different positions have different cursors. */
  lemma EncodeIsInjective(c: TransactionCursor, d: TransactionCursor)
    requires c.Valid() && d.Valid() && Encode(c) == Encode(d)
    ensures c == d
  {
    CursorRoundTrip(c);
    CursorRoundTrip(d);
  }

  // ---------------------------------------------------------------- timestamps of any zone

  /** A timestamp with its offset from UTC in microseconds. */
  datatype Aware = Aware(local: Stamp, offset: int)
  {
    predicate Valid() { local.Valid() && -DAY < offset < DAY }
  }

  function DateOf(s: Stamp): Recurrence.Date { Recurrence.Date(s.year, s.month, s.day) }

  /** Microseconds of a UTC timestamp on the calendar's own scale. */
  function Instant(s: Stamp): int
    requires s.Valid()
  {
    Recurrence.Ordinal(DateOf(s)) * DAY + TimeOfDay(s)
  }

  /** The point in time, whatever the zone. */
  function Moment(a: Aware): int
    requires a.Valid()
  {
    Instant(a.local) - a.offset
  }

  const FIRST_DAY := Recurrence.Date(1, 1, 1)
  const LAST_DAY := Recurrence.Date(Recurrence.MAX_YEAR, 12, 31)

  predicate Between(first: int, last: int, moment: int) { first * DAY <= moment < (last + 1) * DAY }

  /** The moments that have a UTC timestamp. */
  predicate InCalendar(moment: int)
  {
    Between(Recurrence.Ordinal(FIRST_DAY), Recurrence.Ordinal(LAST_DAY), moment)
  }

  /** The day with this number, or none if it is off the calendar. */
  predicate DayIs(day: Option<Stamp>, ordinal: int)
  {
    match day
    case Some(d) => d.Valid() && Recurrence.Ordinal(DateOf(d)) == ordinal
    case None => ordinal < Recurrence.Ordinal(FIRST_DAY) || Recurrence.Ordinal(LAST_DAY) < ordinal
  }

  lemma NextDayIsOneOn(s: Stamp)
    requires s.Valid()
    ensures DayIs(NextDay(s), Recurrence.Ordinal(DateOf(s)) + 1)
  {
    Recurrence.YearLength(s.year);
    if NextDay(s).None? { assert DateOf(s) == LAST_DAY; }
  }

  lemma PreviousDayIsOneBack(s: Stamp)
    requires s.Valid()
    ensures DayIs(PreviousDay(s), Recurrence.Ordinal(DateOf(s)) - 1)
  {
    Recurrence.YearLength(s.year - 1);
    if PreviousDay(s).None? { assert DateOf(s) == FIRST_DAY; }
  }

  lemma AtTimeIs(s: Stamp, time: nat)
    requires s.Valid() && time < DAY
    ensures AtTime(s, time).Valid() && DateOf(AtTime(s, time)) == DateOf(s) && TimeOfDay(AtTime(s, time)) == time
  {
    assert time == time / HOUR * HOUR + time % HOUR;
    assert time % HOUR == time % HOUR / MINUTE * MINUTE + time % HOUR % MINUTE;
    assert time % HOUR % MINUTE == time % MINUTE;
    assert time % MINUTE == time % MINUTE / 1_000_000 * 1_000_000 + time % MINUTE % 1_000_000;
    assert time % MINUTE % 1_000_000 == time % 1_000_000;
  }

  /** The UTC timestamp of a moment, if the calendar has it. */
  predicate IsAt(s: Option<Stamp>, moment: int)
  {
    (s.Some? <==> InCalendar(moment)) && (s.Some? ==> s.value.Valid() && Instant(s.value) == moment)
  }

  /** Conversion keeps the moment, over midnights, months and years, and fails only for moments outside the calendar. */
  lemma ToUtcKeepsMoment(a: Aware)
    requires a.Valid()
    ensures IsAt(ToUtc(a.local, a.offset), Moment(a))
  {
    var time := TimeOfDay(a.local) - a.offset;
    TimeRoundTrip(a.local);
    if time < 0 {
      DayBefore(a, time);
    } else if time < DAY {
      SameDay(a, time);
    } else {
      DayAfter(a, time);
    }
  }

  lemma DayBefore(a: Aware, time: int)
    requires a.Valid() && time == TimeOfDay(a.local) - a.offset && -DAY <= time < 0
    ensures IsAt(OptionAtTime(PreviousDay(a.local), time + DAY), Moment(a))
  {
    PreviousDayIsOneBack(a.local);
    OnOtherDay(a, time, -1, PreviousDay(a.local), time + DAY);
  }

  lemma SameDay(a: Aware, time: int)
    requires a.Valid() && time == TimeOfDay(a.local) - a.offset && 0 <= time < DAY
    ensures IsAt(OptionAtTime(Some(a.local), time), Moment(a))
  {
    OnOtherDay(a, time, 0, Some(a.local), time);
  }

  lemma DayAfter(a: Aware, time: int)
    requires a.Valid() && time == TimeOfDay(a.local) - a.offset && DAY <= time < 2 * DAY
    ensures IsAt(OptionAtTime(NextDay(a.local), time - DAY), Moment(a))
  {
    NextDayIsOneOn(a.local);
    OnOtherDay(a, time, 1, NextDay(a.local), time - DAY);
  }

  lemma OnOtherDay(a: Aware, time: int, days: int, day: Option<Stamp>, rest: int)
    requires a.Valid() && time == TimeOfDay(a.local) - a.offset && -1 <= days <= 1
    requires 0 <= rest < DAY && rest == time - days * DAY
    requires DayIs(day, Recurrence.Ordinal(DateOf(a.local)) + days)
    ensures IsAt(OptionAtTime(day, rest), Moment(a))
  {
    var ordinal := Recurrence.Ordinal(DateOf(a.local));
    MomentOnDay(a, ordinal, time);
    OnDay(day, ordinal + days, rest, Moment(a));
  }

  lemma MomentOnDay(a: Aware, day: int, time: int)
    requires a.Valid() && day == Recurrence.Ordinal(DateOf(a.local)) && time == TimeOfDay(a.local) - a.offset
    ensures Moment(a) == day * DAY + time == (day - 1) * DAY + (time + DAY) == (day + 1) * DAY + (time - DAY)
  {
  }

  /** A time of the day with this number, if the calendar has it. */
  lemma OnDay(s: Option<Stamp>, day: int, time: int, moment: int)
    requires 0 <= time < DAY && moment == day * DAY + time
    requires DayIs(s, day)
    ensures IsAt(OptionAtTime(s, time), moment)
  {
    DayBetween(Recurrence.Ordinal(FIRST_DAY), Recurrence.Ordinal(LAST_DAY), day, time);
    if s.Some? {
      AtTimeIs(s.value, time);
      OrdinalInCalendar(s.value);
    }
  }

  lemma DayBetween(first: int, last: int, day: int, time: int)
    requires 0 <= time < DAY
    ensures Between(first, last, day * DAY + time) <==> first <= day <= last
  {
  }

  lemma OrdinalInCalendar(s: Stamp)
    requires s.Valid()
    ensures Recurrence.Ordinal(FIRST_DAY) <= Recurrence.Ordinal(DateOf(s)) <= Recurrence.Ordinal(LAST_DAY)
  {
    var d := DateOf(s);
    if d != FIRST_DAY { Recurrence.LaterIsMore(FIRST_DAY, d); }
    if d != LAST_DAY { Recurrence.LaterIsMore(d, LAST_DAY); }
  }

  /** Encoding converts to UTC first; None is a timestamp that leaves the calendar. */
  function EncodeAware(a: Aware, id: Id): Option<string>
    requires a.Valid()
  {
    match ToUtc(a.local, a.offset) case None => None case Some(at) => Encode(TransactionCursor(at, id))
  }

  /** In every zone: what is decoded is the same moment, in UTC, with the same id. */
  lemma AwareRoundTrip(a: Aware, id: Id)
    requires a.Valid() && id.Valid()
    ensures EncodeAware(a, id).Some? <==> InCalendar(Moment(a))
    ensures EncodeAware(a, id).Some? ==>
              var c := Decode(EncodeAware(a, id).value);
              c.Some? && c.value.Valid() && Instant(c.value.at) == Moment(a) && c.value.id == id
  {
    ToUtcKeepsMoment(a);
    if ToUtc(a.local, a.offset).Some? { CursorRoundTrip(TransactionCursor(ToUtc(a.local, a.offset).value, id)); }
  }

  lemma InstantIsInjective(s: Stamp, u: Stamp)
    requires s.Valid() && u.Valid() && Instant(s) == Instant(u)
    ensures s == u
  {
    TimeRoundTrip(s);
    TimeRoundTrip(u);
    var i, j := Recurrence.Ordinal(DateOf(s)), Recurrence.Ordinal(DateOf(u));
    assert i == j;
    if Recurrence.Before(DateOf(s), DateOf(u)) { Recurrence.LaterIsMore(DateOf(s), DateOf(u)); }
    if Recurrence.Before(DateOf(u), DateOf(s)) { Recurrence.LaterIsMore(DateOf(u), DateOf(s)); }
    assert DateOf(s) == DateOf(u);
    assert AtTime(s, TimeOfDay(s)) == AtTime(u, TimeOfDay(u));
  }

  /** Two positions have the same cursor exactly if they are the same moment and id, whatever their zones. */
  lemma SameCursorIff(a: Aware, b: Aware, id: Id, other: Id)
    requires a.Valid() && b.Valid() && id.Valid() && other.Valid() && EncodeAware(a, id).Some?
    ensures EncodeAware(a, id) == EncodeAware(b, other) <==> Moment(a) == Moment(b) && id == other
  {
    AwareRoundTrip(a, id);
    AwareRoundTrip(b, other);
    if Moment(a) == Moment(b) {
      ToUtcKeepsMoment(a);
      ToUtcKeepsMoment(b);
      InstantIsInjective(ToUtc(a.local, a.offset).value, ToUtc(b.local, b.offset).value);
    }
  }

  lemma WidthFrom(fields: seq<Field>, i: nat)
    requires i < |fields|
    ensures Width(fields[i..]) == |fields[i].prefix| + fields[i].width + Width(fields[i + 1..])
  {
    assert fields[i..][1..] == fields[i + 1..];
  }

  lemma DateTimeWidth()
    ensures Width(DATE_TIME) == 19
  {
    assert DATE_TIME[0..] == DATE_TIME && DATE_TIME[6..] == [];
    WidthFrom(DATE_TIME, 0);
    WidthFrom(DATE_TIME, 1);
    WidthFrom(DATE_TIME, 2);
    WidthFrom(DATE_TIME, 3);
    WidthFrom(DATE_TIME, 4);
    WidthFrom(DATE_TIME, 5);
  }

  lemma IdWidth()
    ensures Width(DASHED) == 36
  {
    assert DASHED[0..] == DASHED && DASHED[5..] == [];
    WidthFrom(DASHED, 0);
    WidthFrom(DASHED, 1);
    WidthFrom(DASHED, 2);
    WidthFrom(DASHED, 3);
    WidthFrom(DASHED, 4);
  }

  lemma SerializedLength(c: TransactionCursor)
    ensures |Serialize(c)| == if c.at.micro == 0 then 79 else 86
  {
    AtText(c);
    DateTimeWidth();
    IdWidth();
    assert Width(MICROS) == 7;
    FormatLength(DateTime(c.at), DATE_TIME, 10);
    FormatLength([c.at.micro], MICROS, 10);
    FormatLength(c.id.Groups(), DASHED, 16);
  }

  lemma {:induction false} BytesLength(s: string)
    requires ToBytes(s).Some?
    ensures |ToBytes(s).value| == |s|
  {
    if s != "" { BytesLength(s[1..]); }
  }

  /**
   * Decoding is not injective: the last symbol of every cursor has bits that nothing checks, so every
   * cursor has another text of the same length that decodes to it.
   */
  lemma EveryCursorHasAnotherText(c: TransactionCursor) returns (other: string)
    requires c.Valid()
    ensures Encode(c).Some? && other != Encode(c).value && |other| == |Encode(c).value| && Decode(other) == Some(c)
  {
    SerializesAscii(c);
    BytesRoundTrip(Serialize(c));
    var bytes := ToBytes(Serialize(c)).value;
    SerializedLength(c);
    BytesLength(Serialize(c));
    other := Base64.DecodeIsNotInjective(bytes);
    ParsesSerialized(c);
    FromCanonical(c);
  }

  // ---------------------------------------------------------------- the text itself

  /** What is encoded: an object of the timestamp with a Z, the id and the version, in this order. */
  lemma SerializedText(c: TransactionCursor)
    ensures Serialize(c) ==
            "{\"at\":\"" + LocalText(c.at) + "Z\",\"id\":\"" + IdText(c.id) + "\",\"v\":1}"
  {
    AtText(c);
  }
}
