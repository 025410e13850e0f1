/**
 * The Omni frame codec (directdevice/omni/codec.go). Bytes are characters below 256.
 */
module OmniCodec {
  import opened Prelude

  datatype Profile = Bike | Iot | OtherProfile(name: string)

  datatype FrameError =
    | InvalidProfile | EmptyFrame | FrameTooLarge | InvalidPrefix | InvalidHeader | InvalidVendor | InvalidImei
    | InvalidTimestamp | UnknownCommand | InvalidFields | TrailingData | InvalidFrame

  datatype Frame = Frame(profile: Profile, imei: string, timestamp: string, command: string, fields: seq<string>)

  datatype ParseResult = Ok(frame: Frame) | Err(error: FrameError)

  const TERMINATOR: string := "#\n"
  const DOWNLINK_PREFIX: string := "\U{00FF}\U{00FF}"
  const VENDOR_CODE: string := "OM"

  // ------------------------------------------------------------------ splitting

  /** The position of the first terminator. */
  function IndexOf(s: string): (found: Option<nat>)
    ensures found.Some? ==> found.value + 2 <= |s| && s[found.value..found.value + 2] == TERMINATOR
    ensures found.Some? ==> forall i :: 0 <= i < found.value ==> !TerminatorAt(s, i)
    ensures found.None? ==> forall i :: 0 <= i < |s| ==> !TerminatorAt(s, i)
  {
    IndexFrom(s, 0)
  }

  predicate TerminatorAt(s: string, i: int)
  {
    0 <= i && i + 2 <= |s| && s[i] == '#' && s[i + 1] == '\n'
  }

  function IndexFrom(s: string, k: nat): (found: Option<nat>)
    requires k <= |s|
    ensures found.Some? ==> k <= found.value && TerminatorAt(s, found.value)
    ensures found.Some? ==> forall i :: k <= i < found.value ==> !TerminatorAt(s, i)
    ensures found.None? ==> forall i :: k <= i < |s| ==> !TerminatorAt(s, i)
    decreases |s| - k
  {
    if k == |s| then None
    else if TerminatorAt(s, k) then Some(k)
    else IndexFrom(s, k + 1)
  }

  /** The length of the part of `s` before its first comma. */
  function Head(s: string): (n: nat)
    ensures n <= |s|
    ensures n < |s| ==> s[n] == ','
    ensures forall i :: 0 <= i < n ==> s[i] != ','
  {
    CommaFrom(s, 0)
  }

  function CommaFrom(s: string, k: nat): (n: nat)
    requires k <= |s|
    ensures k <= n <= |s|
    ensures n < |s| ==> s[n] == ','
    ensures forall i :: k <= i < n ==> s[i] != ','
    decreases |s| - k
  {
    if k == |s| || s[k] == ',' then k else CommaFrom(s, k + 1)
  }

  /** strings.Split on commas. */
  function Split(s: string): (parts: seq<string>)
    ensures |parts| >= 1
    decreases |s|
  {
    var n := Head(s);
    if n == |s| then [s] else [s[..n]] + Split(s[n + 1..])
  }

  /** strings.Join with commas. */
  function Join(parts: seq<string>): string
  {
    if parts == [] then ""
    else if |parts| == 1 then parts[0]
    else parts[0] + "," + Join(parts[1..])
  }

  predicate NoComma(s: string)
  {
    forall i :: 0 <= i < |s| ==> s[i] != ','
  }

  lemma JoinCons(part: string, parts: seq<string>)
    requires parts != []
    ensures Join([part] + parts) == part + "," + Join(parts)
  {
    assert ([part] + parts)[1..] == parts;
  }

  lemma CutAtComma(s: string, n: nat)
    requires n < |s| && s[n] == ','
    ensures s[..n] + "," + s[n + 1..] == s
  {
  }

  lemma SplitAtHead(s: string)
    requires Head(s) < |s|
    ensures Split(s) == [s[..Head(s)]] + Split(s[Head(s) + 1..])
  {
  }

  /** Joining what was split gives the text back. */
  lemma {:induction false} JoinSplit(s: string)
    ensures Join(Split(s)) == s
    decreases |s|
  {
    var n := Head(s);
    if n == |s| {
    } else {
      var part, rest := s[..n], s[n + 1..];
      JoinSplit(rest);
      SplitAtHead(s);
      JoinCons(part, Split(rest));
      CutAtComma(s, n);
    }
  }

  lemma {:induction false} SplitHasNoComma(s: string)
    ensures forall i :: 0 <= i < |Split(s)| ==> NoComma(Split(s)[i])
    decreases |s|
  {
    var n := Head(s);
    if n == |s| {
    } else {
      SplitHasNoComma(s[n + 1..]);
      SplitAtHead(s);
    }
  }

  lemma HeadOfPart(part: string, rest: string)
    requires NoComma(part)
    ensures Head(part + "," + rest) == |part|
    ensures Head(part) == |part|
  {
    var s := part + "," + rest;
    assert s[|part|] == ',';
    assert forall i :: 0 <= i < |part| ==> s[i] == part[i];
  }

  lemma {:induction false} SplitJoin(parts: seq<string>)
    requires |parts| >= 1 && forall i :: 0 <= i < |parts| ==> NoComma(parts[i])
    ensures Split(Join(parts)) == parts
  {
    if |parts| == 1 {
      HeadOfPart(parts[0], "");
    } else {
      var rest := Join(parts[1..]);
      HeadOfPart(parts[0], rest);
      SplitJoin(parts[1..]);
      assert Join(parts)[|parts[0]| + 1..] == rest;
      assert Join(parts)[..|parts[0]|] == parts[0];
    }
  }

  // ----------------------------------------------------------------- validators

  predicate ValidImei(s: string)
  {
    |s| == 15 && Digits(s)
  }

  function Two(s: string, i: nat): int
    requires i + 2 <= |s|
  {
    10 * (s[i] as int - '0' as int) + (s[i + 1] as int - '0' as int)
  }

  /** Two-digit years are 1969 to 2068, where every fourth is a leap year. */
  function DaysIn(year: int, month: int): int
  {
    if month == 2 then if year % 4 == 0 then 29 else 28
    else if month == 4 || month == 6 || month == 9 || month == 11 then 30
    else 31
  }

  /** YYMMDDhhmmss, and a date and time that exist. */
  predicate ValidTimestamp(s: string)
  {
    && |s| == 12 && Digits(s)
    && 1 <= Two(s, 2) <= 12
    && 1 <= Two(s, 4) <= DaysIn(Two(s, 0), Two(s, 2))
    && Two(s, 6) < 24 && Two(s, 8) < 60 && Two(s, 10) < 60
  }

  predicate KnownCommand(profile: Profile, command: string)
  {
    match profile
    case Bike => command in {"Q0", "H0", "L0", "L1", "S5"}
    case Iot => command in {"Q0", "H0", "R0", "L0", "L1", "S6"}
    case OtherProfile(_) => false
  }

  /** A nonempty run of digits whose value fits 32 bits. */
  predicate Unsigned(s: string)
  {
    s != "" && Digits(s) && Decimal(s) < 0x1_0000_0000
  }

  predicate InRange(s: string, low: int, high: int)
  {
    Unsigned(s) && low <= Decimal(s) <= high
  }

  predicate ValidBikeFields(command: string, fields: seq<string>)
  {
    match command
    case "Q0" => |fields| == 1 && InRange(fields[0], 320, 420)
    case "H0" =>
      |fields| == 3 && InRange(fields[0], 0, 1) && InRange(fields[1], 320, 420) && InRange(fields[2], 2, 32)
    case "S5" =>
      && |fields| == 5 && InRange(fields[0], 320, 420) && InRange(fields[1], 2, 32)
      && InRange(fields[2], 0, 4294967295) && InRange(fields[3], 0, 1) && fields[4] == "0"
    case _ => |fields| > 0
  }

  predicate ValidIotFields(command: string, fields: seq<string>)
  {
    match command
    case "Q0" => |fields| == 3 && Unsigned(fields[0]) && InRange(fields[1], 0, 100) && InRange(fields[2], 2, 32)
    case "H0" =>
      && |fields| == 5 && InRange(fields[0], 0, 1) && Unsigned(fields[1]) && InRange(fields[2], 2, 32)
      && InRange(fields[3], 0, 100) && InRange(fields[4], 0, 1)
    case "S6" =>
      && |fields| == 10 && InRange(fields[0], 0, 100) && InRange(fields[1], 1, 3) && Unsigned(fields[2])
      && InRange(fields[3], 0, 1) && Unsigned(fields[4]) && Unsigned(fields[5])
      && InRange(fields[6], 0, 1) && InRange(fields[7], 2, 32) && Unsigned(fields[8]) && Unsigned(fields[9])
    case _ => |fields| > 0
  }

  predicate ValidFields(profile: Profile, command: string, fields: seq<string>)
  {
    if profile.Bike? then ValidBikeFields(command, fields)
    else if profile.Iot? then ValidIotFields(command, fields)
    else |fields| > 0
  }

  predicate NoneEmpty(fields: seq<string>)
  {
    forall i :: 0 <= i < |fields| ==> fields[i] != ""
  }

  /** Printable ASCII other than the terminator's first byte. */
  predicate PlainByte(c: char)
  {
    ' ' <= c <= '~' && c != '#'
  }

  predicate Plain(s: string)
  {
    forall i :: 0 <= i < |s| ==> PlainByte(s[i])
  }

  // -------------------------------------------------- the same, as the protocol's tables

  const UINT32_MAX: int := 4294967295
  const MILLIVOLT10: (int, int) := (320, 420)
  const SIGNAL: (int, int) := (2, 32)
  const PERCENT: (int, int) := (0, 100)
  const FLAG: (int, int) := (0, 1)
  const ANY: (int, int) := (0, UINT32_MAX)

  /** The ranges of the numbers a command carries; the other commands carry whatever they like. */
  function FieldRanges(profile: Profile, command: string): Option<seq<(int, int)>>
  {
    match (profile, command)
    case (Bike, "Q0") => Some([MILLIVOLT10])
    case (Bike, "H0") => Some([FLAG, MILLIVOLT10, SIGNAL])
    case (Bike, "S5") => Some([MILLIVOLT10, SIGNAL, ANY, FLAG, (0, 0)])
    case (Iot, "Q0") => Some([ANY, PERCENT, SIGNAL])
    case (Iot, "H0") => Some([FLAG, ANY, SIGNAL, PERCENT, FLAG])
    case (Iot, "S6") => Some([PERCENT, (1, 3), ANY, FLAG, ANY, ANY, FLAG, SIGNAL, ANY, ANY])
    case _ => None
  }

  predicate IsNumber(s: string, range: (int, int))
  {
    && s != "" && (forall i :: 0 <= i < |s| ==> '0' <= s[i] <= '9')
    && range.0 <= Decimal(s) <= range.1
  }

  /** The fields of a status report are numbers in their ranges, the last one of a Bike's exactly "0". */
  lemma FieldsMeaning(profile: Profile, command: string, fields: seq<string>)
    ensures match FieldRanges(profile, command)
            case Some(ranges) =>
              ValidFields(profile, command, fields) <==>
                && |fields| == |ranges|
                && (forall i :: 0 <= i < |fields| ==> IsNumber(fields[i], ranges[i]))
                && (profile.Bike? && command == "S5" ==> fields[4] == "0")
            case None => ValidFields(profile, command, fields) <==> fields != []
  {
    if profile.Bike? && command == "S5" && |fields| == 5 && fields[4] == "0" {
      assert "0"[..0] == "" && Decimal("0") == 0;
    }
  }

  /** Besides the reports whose fields are known there are the lock commands, and R0 for Iot. */
  lemma CommandsMeaning(profile: Profile, command: string)
    ensures KnownCommand(profile, command) <==>
              || FieldRanges(profile, command).Some?
              || ((profile == Bike || profile == Iot) && command in {"L0", "L1"})
              || (profile == Iot && command == "R0")
  {
  }

  const MONTH_DAYS: seq<int> := [31, 28, 31, 30, 31, 30, 31, 31, 30, 31, 30, 31]

  /** A timestamp is twelve digits that read as a date and a time of day. */
  lemma TimestampMeaning(s: string, year: int, month: int, day: int, hour: int, minute: int, second: int)
    requires |s| == 12 && forall i :: 0 <= i < 12 ==> '0' <= s[i] <= '9'
    requires year == Decimal(s[0..2]) && month == Decimal(s[2..4]) && day == Decimal(s[4..6])
    requires hour == Decimal(s[6..8]) && minute == Decimal(s[8..10]) && second == Decimal(s[10..12])
    ensures ValidTimestamp(s) <==>
              && 1 <= month <= 12
              && 1 <= day <= MONTH_DAYS[month - 1] + (if month == 2 && year % 4 == 0 then 1 else 0)
              && hour <= 23 && minute <= 59 && second <= 59
  {
    TwoDigits(s, 0);
    TwoDigits(s, 2);
    TwoDigits(s, 4);
    TwoDigits(s, 6);
    TwoDigits(s, 8);
    TwoDigits(s, 10);
  }

  lemma TwoDigits(s: string, i: nat)
    requires i + 2 <= |s| && forall k :: 0 <= k < |s| ==> '0' <= s[k] <= '9'
    ensures Two(s, i) == Decimal(s[i..i + 2])
  {
    var t := s[i..i + 2];
    assert t[..1][..0] == "";
    assert Decimal(t[..1]) == t[0] as int - '0' as int;
  }

  // -------------------------------------------------------------------- parsing

  function ResponseHead(profile: Profile): string
  {
    if profile.Bike? then "*CMDR" else "*SCOR"
  }

  function CommandIndex(profile: Profile): nat
  {
    if profile.Bike? then 4 else 3
  }

  function ParseFrame(profile: Profile, raw: string): ParseResult
  {
    if profile.OtherProfile? then Err(InvalidProfile)
    else if raw == TERMINATOR then Err(EmptyFrame)
    else if DOWNLINK_PREFIX <= raw || raw == "" || raw[0] != '*' then Err(InvalidPrefix)
    else if |raw| < 2 || raw[|raw| - 2..] != TERMINATOR then Err(TrailingData)
    else
      var body := raw[..|raw| - 2];
      if body == "" then Err(EmptyFrame)
      else if IndexOf(body).Some? then Err(TrailingData)
      else if !Plain(body) then Err(InvalidFrame)
      else ParseParts(profile, Split(body))
  }

  function ParseParts(profile: Profile, parts: seq<string>): ParseResult
  {
    var k := CommandIndex(profile);
    if |parts| < k + 1 then Err(InvalidFrame)
    else if parts[0] != ResponseHead(profile) then Err(InvalidHeader)
    else if parts[1] != VENDOR_CODE then Err(InvalidVendor)
    else if !ValidImei(parts[2]) then Err(InvalidImei)
    else if profile.Bike? && !ValidTimestamp(parts[3]) then Err(InvalidTimestamp)
    else if !KnownCommand(profile, parts[k]) then Err(UnknownCommand)
    else
      var fields := parts[k + 1..];
      if !NoneEmpty(fields) || !ValidFields(profile, parts[k], fields) then Err(InvalidFields)
      else Ok(Frame(profile, parts[2], if profile.Bike? then parts[3] else "", parts[k], fields))
  }

  // ------------------------------------------------------------------ rendering

  function PartsOf(f: Frame): seq<string>
  {
    [ResponseHead(f.profile), VENDOR_CODE, f.imei]
    + (if f.profile.Bike? then [f.timestamp] else [])
    + [f.command] + f.fields
  }

  function Render(f: Frame): string
  {
    Join(PartsOf(f)) + TERMINATOR
  }

  /** What an accepted frame satisfies, said of its parts. */
  predicate ValidFrame(f: Frame)
  {
    && !f.profile.OtherProfile?
    && ValidImei(f.imei)
    && (if f.profile.Bike? then ValidTimestamp(f.timestamp) else f.timestamp == "")
    && KnownCommand(f.profile, f.command)
    && NoneEmpty(f.fields)
    && (forall i :: 0 <= i < |f.fields| ==> Plain(f.fields[i]) && NoComma(f.fields[i]))
    && ValidFields(f.profile, f.command, f.fields)
  }

  lemma {:induction false} JoinPlain(parts: seq<string>)
    ensures Plain(Join(parts)) <==> forall i :: 0 <= i < |parts| ==> Plain(parts[i])
  {
    if |parts| <= 1 {
    } else {
      JoinPlain(parts[1..]);
      PlainCons(parts[0], Join(parts[1..]));
      assert parts == [parts[0]] + parts[1..];
      assert forall i :: 1 <= i < |parts| ==> parts[i] == parts[1..][i - 1];
      assert forall i :: 0 <= i < |parts| - 1 ==> parts[1..][i] == parts[i + 1];
    }
  }

  lemma PlainCons(part: string, rest: string)
    ensures Plain(part + "," + rest) <==> Plain(part) && Plain(rest)
  {
    var s := part + "," + rest;
    assert forall i :: 0 <= i < |part| ==> s[i] == part[i];
    assert forall i :: 0 <= i < |rest| ==> s[|part| + 1 + i] == rest[i];
    if Plain(s) {
      forall i | 0 <= i < |part|
        ensures PlainByte(part[i])
      {
        assert s[i] == part[i];
      }
      forall i | 0 <= i < |rest|
        ensures PlainByte(rest[i])
      {
        assert s[|part| + 1 + i] == rest[i];
      }
    }
  }

  /** The parts of a valid frame are plain and free of commas. */
  lemma PartsArePlain(f: Frame)
    requires ValidFrame(f)
    ensures forall i :: 0 <= i < |PartsOf(f)| ==> Plain(PartsOf(f)[i]) && NoComma(PartsOf(f)[i])
  {
    assert Plain(f.command) && NoComma(f.command);
    assert Plain(f.imei) && NoComma(f.imei);
    assert f.profile.Bike? ==> Plain(f.timestamp) && NoComma(f.timestamp);
  }

  lemma PartsParse(f: Frame)
    requires ValidFrame(f)
    ensures ParseParts(f.profile, PartsOf(f)) == Ok(f)
  {
    var k := CommandIndex(f.profile);
    assert PartsOf(f)[k + 1..] == f.fields;
  }

  /** Every valid frame's rendering parses to that frame. */
  lemma RenderParses(f: Frame)
    requires ValidFrame(f)
    ensures ParseFrame(f.profile, Render(f)) == Ok(f)
  {
    var parts, body := PartsOf(f), Join(PartsOf(f));
    PartsArePlain(f);
    SplitJoin(parts);
    JoinPlain(parts);
    PartsParse(f);
    assert body[0] == '*' by {
      assert body == parts[0] + "," + Join(parts[1..]);
    }
    assert Render(f)[..|Render(f)| - 2] == body;
    assert Render(f)[0] == body[0];
    assert Render(f)[|Render(f)| - 2..] == TERMINATOR;
  }

  lemma ParsedParts(profile: Profile, parts: seq<string>)
    requires !profile.OtherProfile?
    requires forall i :: 0 <= i < |parts| ==> Plain(parts[i]) && NoComma(parts[i])
    requires ParseParts(profile, parts).Ok?
    ensures var f := ParseParts(profile, parts).frame; f.profile == profile && ValidFrame(f) && PartsOf(f) == parts
  {
    var k := CommandIndex(profile);
    var f := ParseParts(profile, parts).frame;
    assert parts == parts[..k + 1] + parts[k + 1..];
    assert PartsOf(f)[..k + 1] == parts[..k + 1];
    assert PartsOf(f) == PartsOf(f)[..k + 1] + f.fields;
  }

  /** What is accepted is valid, and rendering it gives back exactly the parsed bytes. */
  lemma ParsedRenders(profile: Profile, raw: string)
    requires ParseFrame(profile, raw).Ok?
    ensures var f := ParseFrame(profile, raw).frame; f.profile == profile && ValidFrame(f) && raw == Render(f)
  {
    var body := raw[..|raw| - 2];
    var parts := Split(body);
    JoinSplit(body);
    SplitHasNoComma(body);
    JoinPlain(parts);
    ParsedParts(profile, parts);
    assert raw == body + TERMINATOR;
  }

  /**
   * The accepted set is canonical: a frame is what some bytes parse to exactly if it is valid and they
   * are its rendering.
   */
  lemma ParseIsInverseOfRender(profile: Profile, raw: string, f: Frame)
    ensures ParseFrame(profile, raw) == Ok(f) <==> f.profile == profile && ValidFrame(f) && raw == Render(f)
  {
    if ParseFrame(profile, raw).Ok? {
      ParsedRenders(profile, raw);
    }
    if f.profile == profile && ValidFrame(f) && raw == Render(f) {
      RenderParses(f);
    }
  }

  // ------------------------------------------------------------------- encoding

  datatype EncodeResult = Encoded(bytes: string) | Refused(error: FrameError)

  /** `timestamp` is the clock's time, formatted as in a frame. */
  function EncodeQueryStatus(profile: Profile, imei: string, timestamp: string): EncodeResult
  {
    match profile
    case OtherProfile(_) => Refused(InvalidProfile)
    case _ =>
      if !ValidImei(imei) then Refused(InvalidImei)
      else
        var parts :=
          if profile.Bike? then ["*CMDS", VENDOR_CODE, imei, timestamp, "S5"] else ["*SCOS", VENDOR_CODE, imei, "S6"];
        Encoded(DOWNLINK_PREFIX + Join(parts) + TERMINATOR)
  }

  /** What the platform sends is never taken for something a Device sent, under any profile. */
  lemma EncodedIsNeverAccepted(profile: Profile, imei: string, timestamp: string, reader: Profile)
    ensures var r := EncodeQueryStatus(profile, imei, timestamp);
            r.Encoded? ==>
              && ParseFrame(reader, r.bytes) == Err(if reader.OtherProfile? then InvalidProfile else InvalidPrefix)
              && r.bytes[|r.bytes| - 2..] == TERMINATOR
  {
    var r := EncodeQueryStatus(profile, imei, timestamp);
    if r.Encoded? {
      assert r.bytes[0] == '\U{00FF}';
      assert TERMINATOR[0] == '#';
      assert DOWNLINK_PREFIX <= r.bytes;
    }
  }

  /** Encoding succeeds exactly for a known profile and fifteen digits, and this is what is sent. */
  lemma EncodedBytes(profile: Profile, imei: string, timestamp: string)
    ensures var r := EncodeQueryStatus(profile, imei, timestamp);
            && (r.Encoded? <==>
                  (profile == Bike || profile == Iot) && |imei| == 15
                    && forall i :: 0 <= i < 15 ==> '0' <= imei[i] <= '9')
            && (r.Encoded? ==>
                  r.bytes == if profile == Bike then "\U{00FF}\U{00FF}*CMDS,OM," + imei + "," + timestamp + ",S5#\n"
                             else "\U{00FF}\U{00FF}*SCOS,OM," + imei + ",S6#\n")
            && (r.Refused? ==> r.error == if profile == Bike || profile == Iot then InvalidImei else InvalidProfile)
  {
    if profile == Bike {
      JoinFive("*CMDS", "OM", imei, timestamp, "S5");
      assert "\U{00FF}\U{00FF}" + ("*CMDS,OM," + imei + "," + timestamp + ",S5") + "#\n"
             == "\U{00FF}\U{00FF}*CMDS,OM," + imei + "," + timestamp + ",S5#\n";
      assert "*CMDS" + "," + "OM" + "," + imei + "," + timestamp + "," + "S5" == "*CMDS,OM," + imei + "," + timestamp
             + ",S5";
    } else if profile == Iot {
      JoinFour("*SCOS", "OM", imei, "S6");
      assert "\U{00FF}\U{00FF}" + ("*SCOS,OM," + imei + ",S6") + "#\n"
             == "\U{00FF}\U{00FF}*SCOS,OM," + imei + ",S6#\n";
      assert "*SCOS" + "," + "OM" + "," + imei + "," + "S6" == "*SCOS,OM," + imei + ",S6";
    }
  }

  lemma JoinFour(a: string, b: string, c: string, d: string)
    ensures Join([a, b, c, d]) == a + "," + b + "," + c + "," + d
  {
    assert [c, d][1..] == [d] && Join([c, d]) == c + "," + d;
    assert [b, c, d][1..] == [c, d] && Join([b, c, d]) == b + "," + (c + "," + d);
    assert [a, b, c, d][1..] == [b, c, d] && Join([a, b, c, d]) == a + "," + (b + "," + (c + "," + d));
    assert a + "," + (b + "," + (c + "," + d)) == a + "," + b + "," + c + "," + d;
  }

  lemma JoinFive(a: string, b: string, c: string, d: string, e: string)
    ensures Join([a, b, c, d, e]) == a + "," + b + "," + c + "," + d + "," + e
  {
    JoinFour(b, c, d, e);
    assert [a, b, c, d, e][1..] == [b, c, d, e] && Join([a, b, c, d, e]) == a + "," + Join([b, c, d, e]);
    assert a + "," + (b + "," + c + "," + d + "," + e) == a + "," + b + "," + c + "," + d + "," + e;
  }

  /** Between prefix and terminator the sent bytes split into exactly these parts. */
  lemma EncodedParts(profile: Profile, imei: string, timestamp: string)
    requires profile == Bike || profile == Iot
    requires ValidImei(imei) && NoComma(timestamp)
    ensures var r := EncodeQueryStatus(profile, imei, timestamp);
            && r.Encoded? && |r.bytes| >= 4
            && Split(r.bytes[2..|r.bytes| - 2])
               == if profile == Bike then ["*CMDS", "OM", imei, timestamp, "S5"] else ["*SCOS", "OM", imei, "S6"]
  {
    var parts := if profile == Bike then ["*CMDS", "OM", imei, timestamp, "S5"] else ["*SCOS", "OM", imei, "S6"];
    var r := EncodeQueryStatus(profile, imei, timestamp);
    assert r.bytes == DOWNLINK_PREFIX + Join(parts) + TERMINATOR;
    assert r.bytes[2..|r.bytes| - 2] == Join(parts);
    SplitJoin(parts);
  }

  lemma JoinThree(a: string, b: string, c: string, rest: seq<string>)
    requires rest != []
    ensures Join([a, b, c] + rest) == a + "," + b + "," + c + "," + Join(rest)
  {
    JoinCons(c, rest);
    JoinCons(b, [c] + rest);
    JoinCons(a, [b] + ([c] + rest));
    assert [a, b, c] + rest == [a] + ([b] + ([c] + rest));
    assert a + "," + (b + "," + (c + "," + Join(rest))) == a + "," + b + "," + c + "," + Join(rest);
  }

  /** A Device's frame, byte for byte. */
  lemma RenderedBytes(f: Frame)
    requires f.profile == Bike || f.profile == Iot
    ensures Render(f) == (if f.profile == Bike then "*CMDR" + "," + "OM" + "," + f.imei + "," + BikePart(f)
                          else "*SCOR" + "," + "OM" + "," + f.imei + "," + Join([f.command] + f.fields)) + "#\n"
  {
    var tail := [f.command] + f.fields;
    if f.profile == Bike {
      assert PartsOf(f) == ["*CMDR", "OM", f.imei] + ([f.timestamp] + tail);
      JoinThree("*CMDR", "OM", f.imei, [f.timestamp] + tail);
      JoinCons(f.timestamp, tail);
    } else {
      assert PartsOf(f) == ["*SCOR", "OM", f.imei] + tail;
      JoinThree("*SCOR", "OM", f.imei, tail);
    }
  }

  /** A Bike states the time before its command. */
  function BikePart(f: Frame): string
  {
    f.timestamp + "," + Join([f.command] + f.fields)
  }

  // --------------------------------------------------------------------- refusals

  /** A byte before the terminator that no text may have. */
  predicate OddByte(raw: string)
  {
    exists i :: 0 <= i < |raw| - 2 && (raw[i] == '#' || !(' ' <= raw[i] <= '~'))
  }

  /** What a refusal says of the bytes as a whole. */
  lemma RefusedWhole(profile: Profile, raw: string)
    ensures var r := ParseFrame(profile, raw);
            r.Err? ==>
              match r.error
              case InvalidProfile => profile != Bike && profile != Iot
              case EmptyFrame => raw == "#\n"
              case InvalidPrefix => raw == "" || raw[0] != '*'
              case TrailingData =>
                |raw| < 2 || raw[|raw| - 2..] != "#\n" || exists i :: TerminatorAt(raw, i) && i + 2 < |raw|
              case _ =>
                || (|raw| >= 2 && r == ParseParts(profile, Split(raw[..|raw| - 2])))
                || (r.error == InvalidFrame && OddByte(raw))
  {
    if |raw| >= 2 {
      var body := raw[..|raw| - 2];
      if IndexOf(body).Some? {
        assert TerminatorAt(raw, IndexOf(body).value);
      }
      if !Plain(body) {
        var i :| 0 <= i < |body| && !PlainByte(body[i]);
        assert raw[i] == body[i];
      }
    }
  }

  /** ... and what it says of the parts. */
  lemma RefusedParts(profile: Profile, parts: seq<string>)
    requires (profile == Bike || profile == Iot) && parts != []
    ensures var r := ParseParts(profile, parts);
            var k := if profile == Bike then 4 else 3;
            r.Err? ==>
              match r.error
              case InvalidFrame => |parts| <= k
              case InvalidHeader => parts[0] != if profile == Bike then "*CMDR" else "*SCOR"
              case InvalidVendor => |parts| > 1 && parts[1] != "OM"
              case InvalidImei => |parts| > 2 && !ValidImei(parts[2])
              case InvalidTimestamp => profile == Bike && |parts| > 3 && !ValidTimestamp(parts[3])
              case UnknownCommand => |parts| > k && !KnownCommand(profile, parts[k])
              case InvalidFields =>
                && |parts| > k
                && ("" in parts[k + 1..] || !ValidFields(profile, parts[k], parts[k + 1..]))
              case _ => false
  {
  }
}
