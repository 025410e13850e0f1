/**
 * The Omni stream decoder (directdevice/omni/decoder.go): chunks of a TCP stream in, frames
 * and errors out, against one scan of the whole stream.
 */
module OmniDecoder {
  import opened Prelude
  import opened OmniCodec

  /** A too large segment is reported without its bytes. */
  datatype Decoded =
    | Segment(raw: string, result: ParseResult)
    | TooLarge
    | Trailing(raw: string)

  datatype State = State(buffer: string, discarding: bool)

  const FRESH: State := State("", false)

  predicate StateOk(max: nat, s: State)
  {
    |s.buffer| <= max && (s.discarding ==> s.buffer == "")
  }

  /** The report of one terminated segment. */
  function ReportOf(profile: Profile, max: nat, segment: string): Decoded
  {
    if |segment| > max then TooLarge else Segment(segment, ParseFrame(profile, segment))
  }

  /** What feeding one chunk does. */
  function Feed(profile: Profile, max: nat, s: State, chunk: string): (seq<Decoded>, State)
    decreases |chunk|
  {
    if chunk == "" then ([], s)
    else
      match IndexOf(chunk)
      case None =>
        if s.discarding then ([], s)
        else if |s.buffer| + |chunk| > max then ([TooLarge], State("", true))
        else ([], State(s.buffer + chunk, false))
      case Some(i) =>
        var (later, s') := Feed(profile, max, FRESH, chunk[i + 2..]);
        if s.discarding then (later, s')
        else ([ReportOf(profile, max, s.buffer + chunk[..i + 2])] + later, s')
  }

  function FeedAll(profile: Profile, max: nat, s: State, chunks: seq<string>): (seq<Decoded>, State)
    decreases |chunks|
  {
    if chunks == [] then ([], s)
    else
      var (first, s1) := Feed(profile, max, s, chunks[0]);
      var (rest, s2) := FeedAll(profile, max, s1, chunks[1..]);
      (first + rest, s2)
  }

  /**
   * The whole stream in one pass: the report of each terminated segment, and for the tail one
   * too-large report if it is too large, else its bytes kept.
   */
  function Scan(profile: Profile, max: nat, stream: string): (seq<Decoded>, State)
    decreases |stream|
  {
    match IndexOf(stream)
    case None => if |stream| > max then ([TooLarge], State("", true)) else ([], State(stream, false))
    case Some(i) =>
      var (later, s) := Scan(profile, max, stream[i + 2..]);
      ([ReportOf(profile, max, stream[..i + 2])] + later, s)
  }

  function Concat(chunks: seq<string>): string
  {
    if chunks == [] then "" else chunks[0] + Concat(chunks[1..])
  }

  /** A boundary between `a` and `b` falls inside a terminator. */
  predicate Cuts(a: string, b: string)
  {
    |a| > 0 && |b| > 0 && a[|a| - 1] == '#' && b[0] == '\n'
  }

  predicate NoCut(chunks: seq<string>)
  {
    chunks == [] || (!Cuts(chunks[0], Concat(chunks[1..])) && NoCut(chunks[1..]))
  }

  // ----------------------------------------------------------- terminator search

  lemma IndexIs(s: string, i: nat)
    requires TerminatorAt(s, i) && forall j :: 0 <= j < i ==> !TerminatorAt(s, j)
    ensures IndexOf(s) == Some(i)
  {
  }

  lemma NoIndex(s: string)
    requires forall j :: 0 <= j < |s| ==> !TerminatorAt(s, j)
    ensures IndexOf(s) == None
  {
  }

  lemma TerminatorsOfAppend(a: string, b: string, j: nat)
    ensures TerminatorAt(a + b, j) <==>
              || (j + 2 <= |a| && TerminatorAt(a, j))
              || (j >= |a| && TerminatorAt(b, j - |a|))
              || (j + 1 == |a| && Cuts(a, b))
  {
  }

  /** Where the first terminator of `a + b` is, when the boundary cuts none. */
  lemma IndexOfAppend(a: string, b: string)
    requires !Cuts(a, b)
    ensures IndexOf(a + b) == if IndexOf(a).Some? then IndexOf(a)
                              else if IndexOf(b).Some? then Some(|a| + IndexOf(b).value) else None
  {
    forall j: nat
      ensures TerminatorAt(a + b, j) <==> (j < |a| && TerminatorAt(a, j)) || (j >= |a| && TerminatorAt(b, j - |a|))
    {
      TerminatorsOfAppend(a, b, j);
    }
    if IndexOf(a).Some? {
      IndexIs(a + b, IndexOf(a).value);
    } else if IndexOf(b).Some? {
      IndexIs(a + b, |a| + IndexOf(b).value);
    } else {
      NoIndex(a + b);
    }
  }

  // ---------------------------------------------------------------- refinement

  lemma {:induction false} FeedKeepsState(profile: Profile, max: nat, s: State, chunk: string)
    requires StateOk(max, s)
    ensures StateOk(max, Feed(profile, max, s, chunk).1)
    decreases |chunk|
  {
    if chunk == "" || IndexOf(chunk).None? {
    } else {
      FeedKeepsState(profile, max, FRESH, chunk[IndexOf(chunk).value + 2..]);
    }
  }

  /** A terminator in the chunk ends the first report, and the rest is fed afresh. */
  lemma FeedTerminated(profile: Profile, max: nat, s: State, chunk: string, i: nat, rest: string)
    requires IndexOf(chunk) == Some(i) && rest == chunk[i + 2..]
    ensures var (later, s') := Feed(profile, max, FRESH, rest);
            Feed(profile, max, s, chunk)
            == if s.discarding then (later, s')
               else ([ReportOf(profile, max, s.buffer + chunk[..i + 2])] + later, s')
  {
  }

  lemma FeedAppendTerminated(profile: Profile, max: nat, s: State, a: string, b: string, i: nat, a': string)
    requires IndexOf(a) == Some(i) && a' == a[i + 2..] && !Cuts(a, b)
    requires var (later, s1) := Feed(profile, max, FRESH, a');
             var (rest, s2) := Feed(profile, max, s1, b);
             Feed(profile, max, FRESH, a' + b) == (later + rest, s2)
    ensures var (first, s1) := Feed(profile, max, s, a);
            var (rest, s2) := Feed(profile, max, s1, b);
            Feed(profile, max, s, a + b) == (first + rest, s2)
  {
    var stream, rest' := a + b, a' + b;
    CutAfterTerminator(a, b, i);
    FeedTerminated(profile, max, s, a, i, a');
    FeedTerminated(profile, max, s, stream, i, rest');
    var (later, s1) := Feed(profile, max, FRESH, a');
    Prepend(ReportOf(profile, max, s.buffer + a[..i + 2]), later, Feed(profile, max, s1, b).0);
  }

  lemma CutAfterTerminator(a: string, b: string, i: nat)
    requires IndexOf(a) == Some(i) && !Cuts(a, b)
    ensures IndexOf(a + b) == Some(i) && (a + b)[i + 2..] == a[i + 2..] + b && (a + b)[..i + 2] == a[..i + 2]
  {
    IndexOfAppend(a, b);
  }

  lemma Prepend(report: Decoded, later: seq<Decoded>, rest: seq<Decoded>)
    ensures ([report] + later) + rest == [report] + (later + rest)
  {
  }

  /** Feeding a concatenation is feeding its parts, unless the boundary cuts a terminator. */
  lemma {:induction false} FeedAppend(profile: Profile, max: nat, s: State, a: string, b: string)
    requires StateOk(max, s) && !Cuts(a, b)
    ensures var (first, s1) := Feed(profile, max, s, a);
            var (rest, s2) := Feed(profile, max, s1, b);
            Feed(profile, max, s, a + b) == (first + rest, s2)
    decreases |a|
  {
    if a == "" {
      FeedNothing(profile, max, s, b);
    } else if b == "" {
      FeedNothing(profile, max, Feed(profile, max, s, a).1, b);
      assert a + b == a && Feed(profile, max, s, a).0 + [] == Feed(profile, max, s, a).0;
    } else if IndexOf(a).Some? {
      var i := IndexOf(a).value;
      FeedAppend(profile, max, FRESH, a[i + 2..], b);
      FeedAppendTerminated(profile, max, s, a, b, i, a[i + 2..]);
    } else {
      FeedAppendUnterminated(profile, max, s, a, b);
    }
  }

  lemma FeedNothing(profile: Profile, max: nat, s: State, b: string)
    ensures Feed(profile, max, s, "") == ([], s)
    ensures "" + b == b && [] + Feed(profile, max, s, b).0 == Feed(profile, max, s, b).0
  {
  }

  lemma FeedAppendUnterminated(profile: Profile, max: nat, s: State, a: string, b: string)
    requires StateOk(max, s) && !Cuts(a, b) && a != "" && b != "" && IndexOf(a).None?
    ensures var (first, s1) := Feed(profile, max, s, a);
            var (rest, s2) := Feed(profile, max, s1, b);
            Feed(profile, max, s, a + b) == (first + rest, s2)
  {
    IndexOfAppend(a, b);
    var (first, s1) := Feed(profile, max, s, a);
    var rest := Feed(profile, max, s1, b).0;
    assert [] + rest == rest && first + [] == first;
    if IndexOf(b).None? {
      assert s.buffer + (a + b) == (s.buffer + a) + b;
    } else {
      var j := IndexOf(b).value;
      assert (a + b)[|a| + j + 2..] == b[j + 2..];
      assert (a + b)[..|a| + j + 2] == a + b[..j + 2];
      assert s.buffer + (a + b[..j + 2]) == (s.buffer + a) + b[..j + 2];
    }
  }

  lemma {:induction false} FeedAllIsFeed(profile: Profile, max: nat, s: State, chunks: seq<string>)
    requires StateOk(max, s) && NoCut(chunks)
    ensures FeedAll(profile, max, s, chunks) == Feed(profile, max, s, Concat(chunks))
    decreases |chunks|
  {
    if chunks == [] {
    } else {
      FeedKeepsState(profile, max, s, chunks[0]);
      FeedAllIsFeed(profile, max, Feed(profile, max, s, chunks[0]).1, chunks[1..]);
      FeedAppend(profile, max, s, chunks[0], Concat(chunks[1..]));
    }
  }

  lemma {:induction false} FeedIsScan(profile: Profile, max: nat, stream: string)
    ensures Feed(profile, max, FRESH, stream) == Scan(profile, max, stream)
    decreases |stream|
  {
    if IndexOf(stream).None? {
      assert "" + stream == stream;
    } else {
      var i := IndexOf(stream).value;
      FeedIsScan(profile, max, stream[i + 2..]);
      FeedTerminated(profile, max, FRESH, stream, i, stream[i + 2..]);
      assert "" + stream[..i + 2] == stream[..i + 2];
    }
  }

  // ----------------------------------------------------------- what the scan says

  /** The bytes that were reported. */
  function Raws(reports: seq<Decoded>): string
  {
    if reports == [] then ""
    else Raws(reports[..|reports| - 1]) + if reports[|reports| - 1].TooLarge? then "" else reports[|reports| - 1].raw
  }

  lemma {:induction false} RawsAppend(a: seq<Decoded>, b: seq<Decoded>)
    ensures Raws(a + b) == Raws(a) + Raws(b)
    decreases |b|
  {
    if b == [] {
      assert a + b == a;
    } else {
      assert (a + b)[..|a + b| - 1] == a + b[..|b| - 1];
      RawsAppend(a, b[..|b| - 1]);
    }
  }

  /** A frame as it is reported: up to and with its first terminator, within the limit, parsed. */
  predicate ReportedWell(profile: Profile, max: nat, report: Decoded)
  {
    && report.Segment? && 2 <= |report.raw| <= max && report.raw[|report.raw| - 2..] == "#\n"
    && IndexOf(report.raw) == Some(|report.raw| - 2)
    && report.result == ParseFrame(profile, report.raw)
  }

  lemma {:induction false} ScanReportsWell(profile: Profile, max: nat, stream: string)
    ensures forall i :: 0 <= i < |Scan(profile, max, stream).0| ==>
              Scan(profile, max, stream).0[i] == TooLarge || ReportedWell(profile, max, Scan(profile, max, stream).0[i])
    ensures var s := Scan(profile, max, stream).1; |s.buffer| <= max && IndexOf(s.buffer) == None
    decreases |stream|
  {
    match IndexOf(stream)
    case None => NoIndex("");
    case Some(i) =>
      ScanReportsWell(profile, max, stream[i + 2..]);
      var raw := stream[..i + 2];
      forall j | 0 <= j < i
        ensures !TerminatorAt(raw, j)
      {
        assert TerminatorAt(raw, j) ==> TerminatorAt(stream, j);
      }
      IndexIs(raw, i);
      assert raw[|raw| - 2..] == stream[i..i + 2];
  }

  lemma ConserveOne(report: Decoded, later: seq<Decoded>, buffer: string, raw: string, rest: string)
    requires report == TooLarge || report.raw == raw
    requires TooLarge !in later ==> Raws(later) + buffer == rest
    ensures TooLarge !in [report] + later ==> Raws([report] + later) + buffer == raw + rest
  {
    RawsAppend([report], later);
    assert [report][..0] == [];
    if TooLarge !in [report] + later {
      assert report in [report] + later && report != TooLarge;
      assert forall r :: r in later ==> r in [report] + later;
      assert Raws([report]) == raw;
      assert raw + Raws(later) + buffer == raw + (Raws(later) + buffer);
    }
  }

  /** Nothing is lost: unless something was too large, the reports and the bytes kept are the stream. */
  lemma {:induction false} ScanConserves(profile: Profile, max: nat, stream: string)
    ensures var (reports, s) := Scan(profile, max, stream);
            TooLarge !in reports ==> Raws(reports) + s.buffer == stream
    decreases |stream|
  {
    match IndexOf(stream)
    case None =>
    case Some(i) =>
      var raw, rest := stream[..i + 2], stream[i + 2..];
      ScanConserves(profile, max, rest);
      var (later, s) := Scan(profile, max, rest);
      ConserveOne(ReportOf(profile, max, raw), later, s.buffer, raw, rest);
      assert raw + rest == stream;
  }

  /** A stream within the limit has nothing too large; a tail beyond it has. */
  lemma {:induction false} TooLargeMeansTooLarge(profile: Profile, max: nat, stream: string)
    ensures |stream| <= max ==> TooLarge !in Scan(profile, max, stream).0 && !Scan(profile, max, stream).1.discarding
    ensures IndexOf(stream).None? && |stream| > max ==> Scan(profile, max, stream) == ([TooLarge], State("", true))
    decreases |stream|
  {
    match IndexOf(stream)
    case None =>
    case Some(i) => TooLargeMeansTooLarge(profile, max, stream[i + 2..]);
  }

  // ---------------------------------------------------------- why cuts must not be

  function Terminators(s: string): nat
    decreases |s|
  {
    match IndexOf(s)
    case None => 0
    case Some(i) => 1 + Terminators(s[i + 2..])
  }

  function Bit(b: bool): nat
  {
    if b then 1 else 0
  }

  lemma TerminatorsFrom(s: string, i: nat, rest: string)
    requires IndexOf(s) == Some(i) && i + 2 <= |s| && s[i + 2..] == rest
    ensures Terminators(s) == 1 + Terminators(rest)
  {
  }

  lemma {:induction false} TerminatorsAppend(a: string, b: string)
    ensures Terminators(a + b) == Terminators(a) + Terminators(b) + Bit(Cuts(a, b))
    decreases |a|
  {
    if IndexOf(a).Some? {
      var i := IndexOf(a).value;
      var rest := a[i + 2..];
      FirstStaysFirst(a, b, i);
      assert (a + b)[i + 2..] == rest + b;
      TerminatorsFrom(a + b, i, rest + b);
      TerminatorsFrom(a, i, rest);
      TerminatorsAppend(rest, b);
      assert Cuts(a, b) == Cuts(rest, b) by {
        assert rest == "" ==> a[|a| - 1] == '\n';
        assert rest != "" ==> rest[|rest| - 1] == a[|a| - 1];
      }
    } else if Cuts(a, b) {
      FirstStaysFirst(a, b, |a| - 1);
      assert (a + b)[|a| + 1..] == b[1..];
      TerminatorsFrom(a + b, |a| - 1, b[1..]);
      TailTerminators(b);
    } else {
      UnterminatedAppend(a, b);
    }
  }

  lemma UnterminatedAppend(a: string, b: string)
    requires IndexOf(a).None? && !Cuts(a, b)
    ensures Terminators(a + b) == Terminators(b)
  {
    IndexOfAppend(a, b);
    if IndexOf(b).Some? {
      var j := IndexOf(b).value;
      assert (a + b)[|a| + j + 2..] == b[j + 2..];
      TerminatorsFrom(a + b, |a| + j, b[j + 2..]);
      TerminatorsFrom(b, j, b[j + 2..]);
    }
  }

  /** A terminator that begins in `a`, before which `a` has none, is the first of `a + b`. */
  lemma FirstStaysFirst(a: string, b: string, i: nat)
    requires i < |a| && TerminatorAt(a + b, i)
    requires forall j :: 0 <= j < i ==> !TerminatorAt(a, j)
    ensures IndexOf(a + b) == Some(i)
  {
    forall j | 0 <= j < i
      ensures !TerminatorAt(a + b, j)
    {
      TerminatorsOfAppend(a, b, j);
    }
    IndexIs(a + b, i);
  }

  /** A leading line feed takes part in no terminator. */
  lemma TailTerminators(b: string)
    requires |b| > 0 && b[0] == '\n'
    ensures Terminators(b[1..]) == Terminators(b)
  {
    var t := b[1..];
    assert b == "\n" + t;
    forall j: nat
      ensures TerminatorAt(b, j) <==> j > 0 && TerminatorAt(t, j - 1)
    {
    }
    if IndexOf(t).Some? {
      IndexIs(b, IndexOf(t).value + 1);
      assert b[IndexOf(t).value + 3..] == t[IndexOf(t).value + 2..];
    } else {
      NoIndex(b);
    }
  }

  /** Every terminator the decoder finds makes one report, except that an overflow is reported before its terminator. */
  lemma {:induction false} FeedCounts(profile: Profile, max: nat, s: State, chunk: string)
    ensures var (results, s') := Feed(profile, max, s, chunk);
            |results| + Bit(s.discarding) == Terminators(chunk) + Bit(s'.discarding)
    decreases |chunk|
  {
    if chunk == "" || IndexOf(chunk).None? {
    } else {
      FeedCounts(profile, max, FRESH, chunk[IndexOf(chunk).value + 2..]);
    }
  }

  function Found(chunks: seq<string>): nat
  {
    if chunks == [] then 0 else Terminators(chunks[0]) + Found(chunks[1..])
  }

  lemma {:induction false} FeedAllCounts(profile: Profile, max: nat, s: State, chunks: seq<string>)
    ensures var (results, s') := FeedAll(profile, max, s, chunks);
            |results| + Bit(s.discarding) == Found(chunks) + Bit(s'.discarding)
    decreases |chunks|
  {
    if chunks == [] {
    } else {
      FeedCounts(profile, max, s, chunks[0]);
      FeedAllCounts(profile, max, Feed(profile, max, s, chunks[0]).1, chunks[1..]);
    }
  }

  lemma {:induction false} CutsLoseTerminators(chunks: seq<string>)
    ensures Found(chunks) <= Terminators(Concat(chunks))
    ensures Found(chunks) == Terminators(Concat(chunks)) <==> NoCut(chunks)
  {
    if chunks == [] {
    } else {
      CutsLoseTerminators(chunks[1..]);
      TerminatorsAppend(chunks[0], Concat(chunks[1..]));
    }
  }

  /**
   * The decoder agrees with the whole-stream scan, in its reports and its final state, exactly
   * when no chunk boundary falls between the two bytes of a terminator.
   */
  lemma DecoderRefinesScanIff(profile: Profile, max: nat, chunks: seq<string>)
    ensures FeedAll(profile, max, FRESH, chunks) == Scan(profile, max, Concat(chunks)) <==> NoCut(chunks)
  {
    FeedIsScan(profile, max, Concat(chunks));
    if NoCut(chunks) {
      FeedAllIsFeed(profile, max, FRESH, chunks);
    } else {
      CutsLoseTerminators(chunks);
      FeedAllCounts(profile, max, FRESH, chunks);
      FeedCounts(profile, max, FRESH, Concat(chunks));
    }
  }

  /** One cut terminator: the decoder waits for a terminator that the scan has already seen. */
  lemma CutTerminatorExample(profile: Profile)
    ensures FeedAll(profile, 8, FRESH, ["a#", "\n"]) == ([], State("a#\n", false))
    ensures Scan(profile, 8, "a#\n") == ([Segment("a#\n", ParseFrame(profile, "a#\n"))], FRESH)
  {
    var chunks := ["a#", "\n"];
    NoIndex("a#");
    NoIndex("\n");
    assert Feed(profile, 8, FRESH, "a#") == ([], State("a#", false)) by {
      assert "" + "a#" == "a#";
    }
    assert Feed(profile, 8, State("a#", false), "\n") == ([], State("a#\n", false)) by {
      assert "a#" + "\n" == "a#\n";
    }
    assert chunks[1..] == ["\n"];
    assert ["\n"][0] == "\n" && ["\n"][1..] == [];
    assert FeedAll(profile, 8, State("a#\n", false), []) == ([], State("a#\n", false));
    var nothing: seq<Decoded> := [];
    assert nothing + nothing == nothing;
    assert FeedAll(profile, 8, State("a#", false), ["\n"]) == ([], State("a#\n", false));
    IndexIs("a#\n", 1);
    NoIndex("");
    assert "a#\n"[..3] == "a#\n" && "a#\n"[3..] == "";
    assert Scan(profile, 8, "") == ([], FRESH);
    assert IndexOf("a#\n") == Some(1) && |"a#\n"| == 3;
    var report := ReportOf(profile, 8, "a#\n");
    assert [report] + nothing == [report];
  }

  // ------------------------------------------------------------------- the class

  datatype NewResult = Made(decoder: Decoder) | NotMade(error: FrameError)

  /** A decoder is bound to one known profile, and at least one byte and a terminator must fit its buffer. */
  method NewDecoder(profile: Profile, maxBytes: int) returns (r: NewResult)
    ensures r.Made? <==> !profile.OtherProfile? && maxBytes >= |TERMINATOR| + 1
    ensures r.Made? ==>
              && fresh(r.decoder) && r.decoder.Valid() && r.decoder.Now() == FRESH
              && r.decoder.profile == profile && r.decoder.maxBytes == maxBytes
    ensures r.NotMade? ==> r.error == if profile.OtherProfile? then InvalidProfile else FrameTooLarge
  {
    if profile.OtherProfile? {
      return NotMade(InvalidProfile);
    }
    if maxBytes < |TERMINATOR| + 1 {
      return NotMade(FrameTooLarge);
    }
    var decoder := new Decoder(profile, maxBytes);
    return Made(decoder);
  }

  class Decoder {
    const profile: Profile
    const maxBytes: nat
    var buffer: string
    var discarding: bool

    constructor (profile: Profile, maxBytes: nat)
      ensures Valid() && Now() == FRESH && this.profile == profile && this.maxBytes == maxBytes
    {
      this.profile, this.maxBytes := profile, maxBytes;
      buffer, discarding := "", false;
    }

    function Now(): State
      reads this
    {
      State(buffer, discarding)
    }

    /** The buffer never outgrows its limit. */
    predicate Valid()
      reads this
    {
      StateOk(maxBytes, Now())
    }

    method FeedChunk(chunk: string) returns (results: seq<Decoded>)
      requires Valid()
      modifies this
      ensures Valid()
      ensures (results, Now()) == Feed(profile, maxBytes, old(Now()), chunk)
    {
      results := [];
      var rest := chunk;
      ghost var start := Now();
      assert [] + Feed(profile, maxBytes, start, chunk).0 == Feed(profile, maxBytes, start, chunk).0;
      while |rest| > 0
        invariant Valid()
        invariant var (later, s) := Feed(profile, maxBytes, Now(), rest);
                  Feed(profile, maxBytes, start, chunk) == (results + later, s)
        decreases |rest|
      {
        var index := IndexOf(rest);
        if discarding {
          if index.None? {
            assert results + [] == results;
            return;
          }
          discarding := false;
          rest := rest[index.value + |TERMINATOR|..];
          continue;
        }
        if index.None? {
          if |buffer| + |rest| > maxBytes {
            buffer := "";
            discarding := true;
            results := results + [TooLarge];
            return;
          }
          buffer := buffer + rest;
          assert results + [] == results;
          return;
        }
        var segment := rest[..index.value + |TERMINATOR|];
        ghost var before, later := results, Feed(profile, maxBytes, FRESH, rest[index.value + 2..]).0;
        ghost var report := ReportOf(profile, maxBytes, buffer + segment);
        var ended := EndSegment(segment);
        results := results + [ended];
        assert before + ([report] + later) == results + later;
        rest := rest[index.value + |TERMINATOR|..];
      }
      assert results + [] == results;
    }

    /** A terminator was found: the buffered segment is reported and the buffer starts over. */
    method EndSegment(segment: string) returns (report: Decoded)
      requires Valid()
      modifies this`buffer
      ensures buffer == "" && report == ReportOf(profile, maxBytes, old(buffer) + segment)
    {
      if |buffer| + |segment| > maxBytes {
        buffer := "";
        return TooLarge;
      }
      var raw := buffer + segment;
      buffer := "";
      return Segment(raw, ParseFrame(profile, raw));
    }

    /** The end of the stream: a partial frame is reported, a discarded tail was reported before. */
    method Close() returns (results: seq<Decoded>)
      requires Valid()
      modifies this
      ensures Now() == FRESH
      ensures results == if old(discarding) || old(buffer) == "" then [] else [Trailing(old(buffer))]
    {
      if discarding {
        discarding := false;
        buffer := "";
        return [];
      }
      if |buffer| == 0 {
        return [];
      }
      var raw := buffer;
      buffer := "";
      return [Trailing(raw)];
    }

    /** A whole connection. */
    method Decode(chunks: seq<string>) returns (results: seq<Decoded>)
      requires Valid() && Now() == FRESH
      modifies this
      ensures Valid()
      ensures (results, Now()) == FeedAll(profile, maxBytes, FRESH, chunks)
      ensures (results, Now()) == Scan(profile, maxBytes, Concat(chunks)) <==> NoCut(chunks)
    {
      results := [];
      ghost var all := FeedAll(profile, maxBytes, FRESH, chunks);
      assert chunks[0..] == chunks && [] + all.0 == all.0;
      for k := 0 to |chunks|
        invariant Valid()
        invariant var (later, s) := FeedAll(profile, maxBytes, Now(), chunks[k..]); all == (results + later, s)
      {
        assert chunks[k..][1..] == chunks[k + 1..];
        ghost var before, s := results, Now();
        var reports := FeedChunk(chunks[k]);
        results := results + reports;
        ghost var later := FeedAll(profile, maxBytes, Now(), chunks[k + 1..]).0;
        assert before + (reports + later) == results + later;
      }
      assert results + [] == results;
      DecoderRefinesScanIff(profile, maxBytes, chunks);
    }
  }
}
