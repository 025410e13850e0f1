/**
 * The runtime configuration file as it is written (cmd/server/setup.go) and as it is read back
 * (cmd/server/config.go, setup_recovery.go). A character is one Unicode code point.
 */
module EnvFile {
  import opened Prelude

  /** bufio.Scanner gives up on a line of this many bytes. */
  const MAX_LINE: nat := 65536

  const EXPORT: string := "export "
  const DATABASE_KEY: string := "DATABASE_URL"

  predicate IsQuote(c: char)
  {
    c == '\'' || c == '"'
  }

  // ------------------------------------------------------------------- writing

  /** What shellQuote writes without quotes. */
  predicate IsPlain(c: char)
  {
    'A' <= c <= 'Z' || 'a' <= c <= 'z' || '0' <= c <= '9' || c in "_./:@?=&%+-,"
  }

  predicate AllPlain(s: string)
  {
    forall i :: 0 <= i < |s| ==> IsPlain(s[i])
  }

  /** Each quote as the shell wants it inside single quotes. */
  function Escaped(s: string): string
  {
    if s == "" then ""
    else Escaped(s[..|s| - 1]) + if s[|s| - 1] == '\'' then "'\\''" else [s[|s| - 1]]
  }

  function ShellQuote(s: string): string
  {
    if s == "" || AllPlain(s) then s else "'" + Escaped(s) + "'"
  }

  /** The file of an installation: its first line names the database. */
  function FileText(address: string, rest: string): string
  {
    DATABASE_KEY + "=" + ShellQuote(address) + "\n" + rest
  }

  // ------------------------------------------------------------------- reading

  /** The position of the first `c` from `k` on, or the end. */
  function Find(s: string, c: char, k: nat): (n: nat)
    requires k <= |s|
    ensures k <= n <= |s|
    ensures n < |s| ==> s[n] == c
    ensures forall i :: k <= i < n ==> s[i] != c
    decreases |s| - k
  {
    if k == |s| || s[k] == c then k else Find(s, c, k + 1)
  }

  /** bufio.ScanLines. */
  function Lines(text: string): seq<string>
    decreases |text|
  {
    if text == "" then []
    else
      var n := Find(text, '\n', 0);
      [text[..n]] + if n == |text| then [] else Lines(text[n + 1..])
  }

  function Utf8Length(s: string): nat
  {
    if s == "" then 0
    else
      var c := s[|s| - 1];
      Utf8Length(s[..|s| - 1]) + if c < '\U{0080}' then 1 else if c < '\U{0800}' then 2 else if c < '\U{10000}' then 3
        else 4
  }

  predicate LineFits(line: string)
  {
    Utf8Length(line) < MAX_LINE
  }

  predicate AllFit(lines: seq<string>)
  {
    forall i :: 0 <= i < |lines| ==> LineFits(lines[i])
  }

  /** Where stripInlineEnvComment stops, from `k` on, inside single or double quotes or not. */
  function CommentFrom(s: string, k: nat, single: bool, double: bool): (n: nat)
    requires k <= |s|
    ensures k <= n <= |s|
    ensures n < |s| ==> s[n] == '#'
    decreases |s| - k
  {
    if k == |s| then k
    else if s[k] == '\'' then CommentFrom(s, k + 1, if double then single else !single, double)
    else if s[k] == '"' then CommentFrom(s, k + 1, single, if single then double else !double)
    else if s[k] == '#' && !single && !double && (k == 0 || s[k - 1] == ' ' || s[k - 1] == '\t') then k
    else CommentFrom(s, k + 1, single, double)
  }

  function StripComment(s: string): string
  {
    s[..CommentFrom(s, 0, false, false)]
  }

  /** strings.Trim of both kinds of quote. */
  function TrimQuotes(s: string): string
    decreases |s|
  {
    if s == "" then s
    else if IsQuote(s[0]) then TrimQuotes(s[1..])
    else if IsQuote(s[|s| - 1]) then TrimQuotes(s[..|s| - 1])
    else s
  }

  /** The key and value of one line, if it sets one. */
  function Setting(line: string): Option<(string, string)>
  {
    var trimmed := Trim(line);
    if trimmed == "" || trimmed[0] == '#' then None
    else SettingOf(if EXPORT <= trimmed then Trim(trimmed[|EXPORT|..]) else trimmed)
  }

  function SettingOf(body: string): Option<(string, string)>
  {
    var n := Find(body, '=', 0);
    if n == |body| || Trim(body[..n]) == "" then None
    else Some((Trim(body[..n]), TrimQuotes(Trim(StripComment(body[n + 1..])))))
  }

  /** The first line that sets a key decides. */
  function Lookup(lines: seq<string>, key: string): Option<string>
    decreases |lines|
  {
    if lines == [] then None
    else
      match Setting(lines[0])
      case Some((k, value)) => if k == key then Some(value) else Lookup(lines[1..], key)
      case None => Lookup(lines[1..], key)
  }

  /** The database a configuration file names; None is a file that cannot be read. */
  function DatabaseAddress(text: string): Option<string>
  {
    if !AllFit(Lines(text)) then None
    else
      match Lookup(Lines(text), DATABASE_KEY)
      case None => Some("")
      case Some(value) => Some(Trim(value))
  }

  // ---------------------------------------------------------------- what is kept

  lemma FirstAndRest(s: string)
    requires s != ""
    ensures s == [s[0]] + s[1..] && s == s[..|s| - 1] + [s[|s| - 1]]
  {
  }

  /** Trimming keeps every character that it does not trim. */
  lemma {:induction false} TrimKeeps(s: string, c: char)
    requires !IsSpace(c)
    ensures multiset(Trim(s))[c] == multiset(s)[c]
    decreases |s|
  {
    if s == "" {
    } else {
      FirstAndRest(s);
      if IsSpace(s[0]) {
        TrimKeeps(s[1..], c);
      } else if IsSpace(s[|s| - 1]) {
        TrimKeeps(s[..|s| - 1], c);
      }
    }
  }

  lemma {:induction false} TrimQuotesKeeps(s: string, c: char)
    requires !IsQuote(c)
    ensures multiset(TrimQuotes(s))[c] == multiset(s)[c]
    decreases |s|
  {
    if s == "" {
    } else {
      FirstAndRest(s);
      if IsQuote(s[0]) {
        TrimQuotesKeeps(s[1..], c);
      } else if IsQuote(s[|s| - 1]) {
        TrimQuotesKeeps(s[..|s| - 1], c);
      }
    }
  }

  /** Escaping adds one backslash for each quote, and no other character but quotes. */
  lemma {:induction false} EscapedCounts(s: string)
    ensures multiset(Escaped(s))['\\'] == multiset(s)['\\'] + multiset(s)['\'']
    ensures multiset(Escaped(s))['#'] == multiset(s)['#']
    decreases |s|
  {
    if s == "" {
    } else {
      var init, last := s[..|s| - 1], s[|s| - 1];
      EscapedCounts(init);
      assert multiset(s) == multiset(init) + multiset{last} by {
        FirstAndRest(s);
      }
      if last == '\'' {
        assert multiset("'\\''")['\\'] == 1 && multiset("'\\''")['#'] == 0;
      }
    }
  }

  lemma {:induction false} NothingToEscape(s: string)
    requires '\'' !in s
    ensures Escaped(s) == s
    decreases |s|
  {
    if s == "" {
    } else {
      FirstAndRest(s);
      NothingToEscape(s[..|s| - 1]);
    }
  }

  predicate Trimmed(s: string)
  {
    s == "" || (!IsSpace(s[0]) && !IsSpace(s[|s| - 1]))
  }

  lemma {:induction false} TrimTrims(s: string)
    ensures Trimmed(Trim(s)) && |Trim(s)| <= |s|
    ensures Trim(s) == s <==> Trimmed(s)
    decreases |s|
  {
    if s == "" {
    } else if IsSpace(s[0]) {
      TrimTrims(s[1..]);
    } else if IsSpace(s[|s| - 1]) {
      TrimTrims(s[..|s| - 1]);
    }
  }

  lemma {:induction false} TrimQuotesShortens(s: string)
    ensures |TrimQuotes(s)| <= |s|
    ensures s != "" && (IsQuote(s[0]) || IsQuote(s[|s| - 1])) ==> |TrimQuotes(s)| < |s|
    ensures s == "" || (!IsQuote(s[0]) && !IsQuote(s[|s| - 1])) ==> TrimQuotes(s) == s
    decreases |s|
  {
    if s == "" {
    } else if IsQuote(s[0]) {
      TrimQuotesShortens(s[1..]);
    } else if IsQuote(s[|s| - 1]) {
      TrimQuotesShortens(s[..|s| - 1]);
    }
  }

  lemma {:induction false} NoComment(s: string, k: nat, single: bool, double: bool)
    requires k <= |s| && forall i :: k <= i < |s| ==> s[i] != '#'
    ensures CommentFrom(s, k, single, double) == |s|
    decreases |s| - k
  {
    if k == |s| {
    } else {
      NoComment(s, k + 1, if s[k] == '\'' && !double then !single else single,
                if s[k] == '"' && !single then !double else double);
    }
  }

  /** Nothing between single quotes is a comment. */
  lemma {:induction false} NoCommentInside(s: string, k: nat)
    requires k < |s| && s[|s| - 1] == '\'' && forall i :: k <= i < |s| - 1 ==> s[i] != '\''
    ensures CommentFrom(s, k, true, false) == |s|
    decreases |s| - k
  {
    if k == |s| - 1 {
    } else {
      NoCommentInside(s, k + 1);
    }
  }

  /** Without quotes the comment starts at the first '#' that stands first or after a blank. */
  lemma {:induction false} CommentWithoutQuotes(s: string, k: nat)
    requires k <= |s| && forall i :: k <= i < |s| ==> !IsQuote(s[i])
    ensures var n := CommentFrom(s, k, false, false);
            && (forall i :: k <= i < n ==> !StartsComment(s, i))
            && (n < |s| ==> StartsComment(s, n))
    decreases |s| - k
  {
    if k == |s| {
    } else {
      CommentWithoutQuotes(s, k + 1);
    }
  }

  predicate StartsComment(s: string, i: nat)
    requires i < |s|
  {
    s[i] == '#' && (i == 0 || s[i - 1] == ' ' || s[i - 1] == '\t')
  }

  /** Nor is anything between double quotes a comment. */
  lemma {:induction false} NoCommentInsideDouble(s: string, k: nat)
    requires k < |s| && s[|s| - 1] == '"' && forall i :: k <= i < |s| - 1 ==> s[i] != '"'
    ensures CommentFrom(s, k, false, true) == |s|
    decreases |s| - k
  {
    if k == |s| - 1 {
    } else {
      NoCommentInsideDouble(s, k + 1);
    }
  }

  // ------------------------------------------------------------- one quoted value

  /** What the reader makes of a value on its own. */
  function Unquoted(s: string): string
  {
    TrimQuotes(Trim(StripComment(s)))
  }

  /** The condition a caller can check: see RoundTripIff. */
  predicate Survives(address: string)
  {
    && Trim(address) == address
    && '\'' !in address && '\n' !in address
    && (address != "" ==> address[0] != '"' && address[|address| - 1] != '"')
  }

  lemma PlainChar(c: char)
    requires IsPlain(c)
    ensures !IsSpace(c) && !IsQuote(c) && c != '#' && c != '\n'
  {
  }

  lemma PlainIsKept(v: string)
    requires v == "" || AllPlain(v)
    ensures Trimmed(v) && Unquoted(v) == v && '\'' !in v && '\n' !in v && (v != "" ==> v[0] != '"' && v[|v| - 1] != '"')
  {
    forall i | 0 <= i < |v|
      ensures !IsSpace(v[i]) && !IsQuote(v[i]) && v[i] != '#' && v[i] != '\n'
    {
      PlainChar(v[i]);
    }
    NoComment(v, 0, false, false);
    TrimTrims(v);
    TrimQuotesShortens(v);
  }

  lemma TrimQuotesUnwraps(v: string)
    requires v != ""
    ensures TrimQuotes("'" + v + "'") == if IsQuote(v[0]) then TrimQuotes(v[1..] + "'") else TrimQuotes(v)
  {
    var s, t := "'" + v + "'", v + "'";
    assert s[1..] == t;
    assert t[0] == v[0];
    if IsQuote(v[0]) {
      assert t[1..] == v[1..] + "'";
    } else {
      assert t[..|t| - 1] == v;
    }
  }

  lemma QuotedIsKeptIff(v: string)
    requires v != "" && '\'' !in v
    ensures if v[0] == '"' || v[|v| - 1] == '"' then |Unquoted("'" + v + "'")| < |v| else Unquoted("'" + v + "'") == v
  {
    var s := "'" + v + "'";
    NoCommentInside(s, 1);
    assert StripComment(s) == s;
    TrimTrims(s);
    TrimQuotesUnwraps(v);
    if v[0] == '"' {
      TrimQuotesShortens(v[1..] + "'");
    } else {
      TrimQuotesShortens(v);
    }
  }

  lemma ReadingKeeps(s: string, c: char)
    requires !IsSpace(c) && !IsQuote(c)
    ensures multiset(Trim(TrimQuotes(Trim(s))))[c] == multiset(s)[c]
  {
    TrimKeeps(s, c);
    TrimQuotesKeeps(Trim(s), c);
    TrimKeeps(TrimQuotes(Trim(s)), c);
  }

  lemma CutLoses(s: string, n: nat)
    requires n < |s| && s[n] == '#'
    ensures multiset(s[..n])['#'] < multiset(s)['#']
  {
    assert s == s[..n] + [s[n]] + s[n + 1..];
  }

  lemma WrappedCounts(s: string, c: char)
    requires c != '\''
    ensures multiset("'" + s + "'")[c] == multiset(s)[c]
  {
  }

  lemma CutIsLost(v: string, n: nat)
    requires var s := "'" + Escaped(v) + "'"; n < |s| && s[n] == '#'
    ensures Trim(TrimQuotes(Trim(("'" + Escaped(v) + "'")[..n]))) != v
  {
    var s := "'" + Escaped(v) + "'";
    EscapedCounts(v);
    WrappedCounts(Escaped(v), '#');
    ReadingKeeps(s[..n], '#');
    CutLoses(s, n);
  }

  lemma BackslashIsKept(v: string)
    requires '\'' in v
    ensures Trim(TrimQuotes(Trim("'" + Escaped(v) + "'"))) != v
  {
    EscapedCounts(v);
    assert multiset(v)['\''] > 0;
    WrappedCounts(Escaped(v), '\\');
    ReadingKeeps("'" + Escaped(v) + "'", '\\');
  }

  /** A quote inside is read back with a backslash more, unless a comment was cut off. */
  lemma EscapedIsLost(v: string)
    requires '\'' in v
    ensures Trim(Unquoted("'" + Escaped(v) + "'")) != v
  {
    var s := "'" + Escaped(v) + "'";
    var n := CommentFrom(s, 0, false, false);
    if n < |s| {
      CutIsLost(v, n);
    } else {
      assert s[..n] == s;
      BackslashIsKept(v);
    }
  }

  lemma ValueIsKeptIff(v: string)
    requires '\n' !in v
    ensures Trim(Unquoted(ShellQuote(v))) == v <==> Survives(v)
  {
    TrimTrims(v);
    TrimTrims(Unquoted(ShellQuote(v)));
    if v == "" || AllPlain(v) {
      PlainIsKept(v);
    } else if '\'' in v {
      EscapedIsLost(v);
    } else {
      NothingToEscape(v);
      QuotedIsKeptIff(v);
    }
  }

  // ------------------------------------------------------------------ whole files

  lemma FindIs(s: string, c: char, k: nat, n: nat)
    requires k <= n < |s| && s[n] == c && forall i :: k <= i < n ==> s[i] != c
    ensures Find(s, c, k) == n
  {
  }

  lemma FirstLine(line: string, rest: string)
    requires '\n' !in line
    ensures Lines(line + "\n" + rest) == [line] + Lines(rest)
  {
    var text := line + "\n" + rest;
    FindIs(text, '\n', 0, |line|);
    assert text[..|line|] == line && text[|line| + 1..] == rest;
  }

  lemma {:induction false} LinesHaveNoNewline(text: string)
    ensures forall i :: 0 <= i < |Lines(text)| ==> '\n' !in Lines(text)[i]
    decreases |text|
  {
    var n := Find(text, '\n', 0);
    if n == |text| {
    } else {
      LinesHaveNoNewline(text[n + 1..]);
    }
  }

  lemma SettingHasNoNewline(line: string)
    requires '\n' !in line
    ensures Setting(line).Some? ==> '\n' !in Setting(line).value.1
  {
    var trimmed := Trim(line);
    TrimPart(line);
    if trimmed != "" && trimmed[0] != '#' {
      var body := if EXPORT <= trimmed then Trim(trimmed[|EXPORT|..]) else trimmed;
      if EXPORT <= trimmed {
        TrimPart(trimmed[|EXPORT|..]);
      }
      assert '\n' !in body;
      var n := Find(body, '=', 0);
      if n < |body| {
        var value := body[n + 1..];
        assert '\n' !in value && '\n' !in StripComment(value);
        TrimPart(StripComment(value));
        TrimQuotesPart(Trim(StripComment(value)));
      }
    }
  }

  lemma {:induction false} TrimPart(s: string)
    ensures forall c :: c in Trim(s) ==> c in s
    decreases |s|
  {
    if s == "" {
    } else if IsSpace(s[0]) {
      TrimPart(s[1..]);
    } else if IsSpace(s[|s| - 1]) {
      TrimPart(s[..|s| - 1]);
    }
  }

  lemma {:induction false} TrimQuotesPart(s: string)
    ensures forall c :: c in TrimQuotes(s) ==> c in s
    decreases |s|
  {
    if s == "" {
    } else if IsQuote(s[0]) {
      TrimQuotesPart(s[1..]);
    } else if IsQuote(s[|s| - 1]) {
      TrimQuotesPart(s[..|s| - 1]);
    }
  }

  lemma {:induction false} LookupHasNoNewline(lines: seq<string>, key: string)
    requires forall i :: 0 <= i < |lines| ==> '\n' !in lines[i]
    ensures Lookup(lines, key).Some? ==> '\n' !in Lookup(lines, key).value
    decreases |lines|
  {
    if lines == [] {
    } else {
      SettingHasNoNewline(lines[0]);
      LookupHasNoNewline(lines[1..], key);
    }
  }

  lemma SettingOfAddress(value: string)
    requires Trimmed(value)
    ensures Setting(DATABASE_KEY + "=" + value) == Some((DATABASE_KEY, Unquoted(value)))
  {
    var line := DATABASE_KEY + "=" + value;
    TrimTrims(line);
    TrimTrims(DATABASE_KEY);
    FindIs(line, '=', 0, |DATABASE_KEY|);
    assert line[0] == 'D' && EXPORT[0] == 'e';
    assert line[..|DATABASE_KEY|] == DATABASE_KEY && line[|DATABASE_KEY| + 1..] == value;
  }

  lemma EscapedHasNoNewline(s: string)
    requires '\n' !in s
    ensures '\n' !in Escaped(s)
  {
  }

  lemma ShellQuoteOnOneLine(v: string)
    requires '\n' !in v
    ensures '\n' !in DATABASE_KEY + "=" + ShellQuote(v) && Trimmed(ShellQuote(v))
  {
    EscapedHasNoNewline(v);
    if v == "" || AllPlain(v) {
      PlainIsKept(v);
    }
  }

  /** The address in a written file, when it stands on one line. */
  lemma WrittenAddress(v: string, rest: string)
    requires '\n' !in v && AllFit(Lines(FileText(v, rest)))
    ensures DatabaseAddress(FileText(v, rest)) == Some(Trim(Unquoted(ShellQuote(v))))
  {
    ShellQuoteOnOneLine(v);
    FirstLine(DATABASE_KEY + "=" + ShellQuote(v), rest);
    SettingOfAddress(ShellQuote(v));
  }

  /** Every other setting of the configuration is found in the written file as it was given. */
  lemma RestIsKept(v: string, rest: string, key: string)
    requires '\n' !in v && key != DATABASE_KEY
    ensures Lookup(Lines(FileText(v, rest)), key) == Lookup(Lines(rest), key)
    ensures AllFit(Lines(FileText(v, rest))) <==> LineFits(DATABASE_KEY + "=" + ShellQuote(v)) && AllFit(Lines(rest))
  {
    var line := DATABASE_KEY + "=" + ShellQuote(v);
    ShellQuoteOnOneLine(v);
    FirstLine(line, rest);
    SettingOfAddress(ShellQuote(v));
    assert ([line] + Lines(rest))[1..] == Lines(rest);
    if AllFit([line] + Lines(rest)) {
      forall i | 0 <= i < |Lines(rest)|
        ensures LineFits(Lines(rest)[i])
      {
        assert ([line] + Lines(rest))[i + 1] == Lines(rest)[i];
      }
    }
  }

  /**
   * The database address of an installation is read back as it was given exactly if it is
   * trimmed, has no single quote and no newline, neither begins nor ends with a double quote,
   * and no line of the file is too long.
   */
  lemma RoundTripIff(v: string, rest: string)
    ensures DatabaseAddress(FileText(v, rest)) == Some(v) <==> Survives(v) && AllFit(Lines(FileText(v, rest)))
  {
    var text := FileText(v, rest);
    if AllFit(Lines(text)) {
      if '\n' in v {
        LinesHaveNoNewline(text);
        LookupHasNoNewline(Lines(text), DATABASE_KEY);
        if Lookup(Lines(text), DATABASE_KEY).Some? {
          TrimPart(Lookup(Lines(text), DATABASE_KEY).value);
        }
      } else {
        ValueIsKeptIff(v);
        WrittenAddress(v, rest);
      }
    }
  }

  lemma {:induction false} EscapedAppend(a: string, b: string)
    ensures Escaped(a + b) == Escaped(a) + Escaped(b)
    decreases |b|
  {
    if b == "" {
      assert a + b == a;
    } else {
      EscapedAppend(a, b[..|b| - 1]);
      assert (a + b)[..|a + b| - 1] == a + b[..|b| - 1];
    }
  }

  /** No quote, no comment, no newline. */
  predicate IsCalm(s: string)
  {
    forall i :: 0 <= i < |s| ==> !IsQuote(s[i]) && s[i] != '#' && s[i] != '\n'
  }

  lemma EscapedInnerQuote(before: string, after: string)
    requires IsCalm(before) && IsCalm(after)
    ensures Escaped(before + "'" + after) == before + "'\\''" + after
  {
    EscapedAppend(before + "'", after);
    assert (before + "'")[..|before|] == before;
    NothingToEscape(before);
    NothingToEscape(after);
  }

  lemma WrappedIsRead(read: string)
    requires read != "" && Trimmed(read) && '#' !in read && !IsQuote(read[0]) && !IsQuote(read[|read| - 1])
    ensures Trim(Unquoted("'" + read + "'")) == read
  {
    var s := "'" + read + "'";
    NoComment(s, 0, false, false);
    assert StripComment(s) == s;
    TrimTrims(s);
    TrimQuotesUnwraps(read);
    TrimQuotesShortens(read);
    TrimTrims(read);
  }

  /** An inner single quote alone makes the reader find the shell's escape of it instead. */
  lemma InnerQuoteIsMisread(before: string, after: string, rest: string)
    requires before != "" && after != "" && !IsSpace(before[0]) && !IsSpace(after[|after| - 1])
    requires IsCalm(before) && IsCalm(after)
    requires AllFit(Lines(FileText(before + "'" + after, rest)))
    ensures DatabaseAddress(FileText(before + "'" + after, rest)) == Some(before + "'\\''" + after)
  {
    InnerQuoteIsQuoted(before, after);
    WrappedIsRead(before + "'\\''" + after);
    WrittenAddress(before + "'" + after, rest);
  }

  lemma InnerQuoteIsQuoted(before: string, after: string)
    requires before != "" && after != "" && IsCalm(before) && IsCalm(after)
    ensures var v, read := before + "'" + after, before + "'\\''" + after;
            && ShellQuote(v) == "'" + read + "'" && '\n' !in v && '#' !in read
            && read[0] == before[0] && read[|read| - 1] == after[|after| - 1]
  {
    var v, read := before + "'" + after, before + "'\\''" + after;
    assert v[|before|] == '\'' && !IsPlain('\'');
    EscapedInnerQuote(before, after);
    forall i | 0 <= i < |v|
      ensures v[i] != '\n'
    {
      assert v[i] == if i < |before| then before[i] else if i == |before| then '\'' else after[i - |before| - 1];
    }
    forall i | 0 <= i < |read|
      ensures read[i] != '#'
    {
      assert read[i] == if i < |before| then before[i] else if i < |before| + 4 then "'\\''"[i - |before|]
             else after[i - |before| - 4];
    }
  }

  /** A key that needs no reading: a trimmed word that is neither empty nor cut by '='. */
  predicate IsKey(key: string)
  {
    key != "" && Trimmed(key) && '=' !in key && key[0] != '#' && !(EXPORT <= key)
  }

  /** A plain setting is read with or without `export`; a comment sets nothing. */
  lemma SettingForms(key: string, value: string)
    requires IsKey(key) && Trimmed(value) && IsCalm(value)
    ensures Setting(key + "=" + value) == Some((key, value))
    ensures Setting(EXPORT + (key + "=" + value)) == Some((key, value))
    ensures Setting("#" + (key + "=" + value)).None?
  {
    var line := key + "=" + value;
    PlainSetting(key, value);
    LineIsTrimmed(key, value);
    TrimTrims(line);
    NotExported(key, value);
    ExportedSetting(line);
    CommentSetsNothing(line);
  }

  lemma ExportedSetting(line: string)
    requires line != "" && Trimmed(line)
    ensures Setting(EXPORT + line) == SettingOf(line)
  {
    var exported := EXPORT + line;
    assert exported[0] == 'e' && exported[|exported| - 1] == line[|line| - 1];
    TrimTrims(exported);
    assert exported[|EXPORT|..] == line;
    TrimTrims(line);
  }

  lemma CommentSetsNothing(line: string)
    requires line != "" && Trimmed(line)
    ensures Setting("#" + line).None?
  {
    var comment := "#" + line;
    assert comment[0] == '#' && comment[|comment| - 1] == line[|line| - 1];
    TrimTrims(comment);
  }

  lemma LineIsTrimmed(key: string, value: string)
    requires IsKey(key) && Trimmed(value)
    ensures var line := key + "=" + value; line != "" && Trimmed(line) && line[0] == key[0]
  {
    var line := key + "=" + value;
    assert line[0] == key[0];
    assert line[|line| - 1] == if value == "" then '=' else value[|value| - 1];
  }

  lemma NotExported(key: string, value: string)
    requires IsKey(key)
    ensures !(EXPORT <= key + "=" + value)
  {
    var line := key + "=" + value;
    assert line[|key|] == '=' && line[..|key|] == key;
    assert '=' !in EXPORT;
    assert |key| >= |EXPORT| ==> line[..|EXPORT|] == key[..|EXPORT|];
  }

  lemma PlainSetting(key: string, value: string)
    requires IsKey(key) && Trimmed(value) && IsCalm(value)
    ensures SettingOf(key + "=" + value) == Some((key, value))
  {
    var line := key + "=" + value;
    TrimTrims(key);
    FindIs(line, '=', 0, |key|);
    assert line[..|key|] == key && line[|key| + 1..] == value;
    CalmIsRead(value);
  }

  lemma CalmIsRead(value: string)
    requires Trimmed(value) && IsCalm(value)
    ensures Unquoted(value) == value
  {
    NoComment(value, 0, false, false);
    assert StripComment(value) == value;
    TrimTrims(value);
    TrimQuotesShortens(value);
  }

  /** A line is too long from 65536 bytes on. */
  lemma LineLimit(line: string)
    ensures LineFits(line) <==> Utf8Length(line) <= 65535
  {
  }

  /** What is written without quotes: letters, digits and twelve signs. */
  lemma PlainChars(c: char)
    ensures IsPlain(c) <==>
              || 65 <= c as int <= 90 || 97 <= c as int <= 122 || 48 <= c as int <= 57
              || c in {'_', '.', '/', ':', '@', '?', '=', '&', '%', '+', '-', ','}
  {
  }

  /** In ASCII a line is as long as it has characters. */
  lemma {:induction false} AsciiLength(s: string)
    requires forall i :: 0 <= i < |s| ==> s[i] < '\U{0080}'
    ensures Utf8Length(s) == |s|
    decreases |s|
  {
    if s == "" {
    } else {
      AsciiLength(s[..|s| - 1]);
    }
  }

  // ------------------------------------------------------------- the reading loops

  /** stripInlineEnvComment. */
  method StripInlineEnvComment(value: string) returns (stripped: string)
    ensures stripped == StripComment(value)
  {
    var single, double := false, false;
    for i := 0 to |value|
      invariant CommentFrom(value, 0, false, false) == CommentFrom(value, i, single, double)
    {
      match value[i] {
        case '\'' =>
          if !double {
            single := !single;
          }
        case '"' =>
          if !single {
            double := !double;
          }
        case '#' =>
          if !single && !double && (i == 0 || value[i - 1] == ' ' || value[i - 1] == '\t') {
            return value[..i];
          }
        case _ =>
      }
    }
    return value;
  }

  lemma {:induction false} LookupAppend(lines: seq<string>, line: string, key: string)
    ensures Lookup(lines + [line], key) == if Lookup(lines, key).Some? then Lookup(lines, key) else Lookup([line], key)
    decreases |lines|
  {
    if lines == [] {
      assert lines + [line] == [line];
    } else {
      LookupAppend(lines[1..], line, key);
      assert (lines + [line])[1..] == lines[1..] + [line];
    }
  }

  /** `values` holds what the lines set. */
  ghost predicate AreSettings(values: map<string, string>, lines: seq<string>)
  {
    forall key {:trigger Lookup(lines, key)} ::
      if key in values then Lookup(lines, key) == Some(values[key]) else Lookup(lines, key).None?
  }

  lemma SettingsOfOneMore(values: map<string, string>, lines: seq<string>, line: string, values': map<string, string>)
    requires AreSettings(values, lines)
    requires values' == if Setting(line).None? || Setting(line).value.0 in values then values
                        else values[Setting(line).value.0 := Setting(line).value.1]
    ensures AreSettings(values', lines + [line])
  {
    forall key
      ensures if key in values' then Lookup(lines + [line], key) == Some(values'[key])
              else Lookup(lines + [line], key).None?
    {
      LookupAppend(lines, line, key);
      assert Lookup([line], key)
             == if Setting(line).Some? && Setting(line).value.0 == key then Some(Setting(line).value.1) else None;
      assert key in values <==> Lookup(lines, key).Some?;
    }
  }

  lemma FitAppend(lines: seq<string>, line: string)
    ensures AllFit(lines + [line]) <==> AllFit(lines) && LineFits(line)
  {
    assert AllFit(lines + [line]) ==> LineFits((lines + [line])[|lines|]);
    assert forall i :: 0 <= i < |lines| ==> (lines + [line])[i] == lines[i];
  }

  /** readEnvValues: the settings of a file, or None if a line is too long for it. */
  method ReadEnvValues(text: string) returns (values: Option<map<string, string>>)
    ensures values.None? <==> !AllFit(Lines(text))
    ensures values.Some? ==> AreSettings(values.value, Lines(text))
  {
    var lines := Lines(text);
    var found: map<string, string> := map[];
    for i := 0 to |lines|
      invariant AllFit(lines[..i]) && AreSettings(found, lines[..i])
    {
      if !LineFits(lines[i]) {
        return None;
      }
      assert lines[..i + 1] == lines[..i] + [lines[i]];
      FitAppend(lines[..i], lines[i]);
      ghost var before := found;
      var setting := Setting(lines[i]);
      if setting.Some? && setting.value.0 !in found {
        found := found[setting.value.0 := setting.value.1];
      }
      SettingsOfOneMore(before, lines[..i], lines[i], found);
    }
    assert lines[..|lines|] == lines;
    return Some(found);
  }

  /** databaseURLFromRuntimeConfig, up to the check of what was read. */
  method DatabaseUrlFromRuntimeConfig(text: string) returns (address: Option<string>)
    ensures address == DatabaseAddress(text)
  {
    var values := ReadEnvValues(text);
    if values.None? {
      return None;
    }
    assert DATABASE_KEY in values.value <==> Lookup(Lines(text), DATABASE_KEY).Some?;
    return Some(if DATABASE_KEY in values.value then Trim(values.value[DATABASE_KEY]) else "");
  }
}
