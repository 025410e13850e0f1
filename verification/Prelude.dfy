/** Small shared vocabulary. */
module Prelude {

  datatype Option<+T> = None | Some(value: T)

  function Min(a: int, b: int): (m: int)
  {
    if a <= b then a else b
  }

  function Max(a: int, b: int): (m: int)
  {
    if a >= b then a else b
  }

  /** No value occurs at two positions of `s`. */
  ghost predicate Distinct<T>(s: seq<T>)
  {
    forall i, j :: 0 <= i < j < |s| ==> s[i] != s[j]
  }

  predicate Digits(s: string)
  {
    forall i :: 0 <= i < |s| ==> '0' <= s[i] <= '9'
  }

  /** The value of a run of decimal digits. */
  function Decimal(s: string): nat
    requires Digits(s)
  {
    if s == "" then 0 else 10 * Decimal(s[..|s| - 1]) + (s[|s| - 1] as int - '0' as int)
  }

  /** unicode.IsSpace. */
  predicate IsSpace(c: char)
  {
    || c == ' ' || '\t' <= c <= '\r' || c == '\U{0085}' || c == '\U{00A0}' || c == '\U{1680}'
    || '\U{2000}' <= c <= '\U{200A}'
    || c == '\U{2028}' || c == '\U{2029}' || c == '\U{202F}' || c == '\U{205F}' || c == '\U{3000}'
  }

  /** The six blanks of Latin-1 besides the two of its upper half, and those of general punctuation. */
  lemma SpacesAre(c: char)
    ensures IsSpace(c) <==>
              c in "\t\n\U{000B}\U{000C}\r \U{0085}\U{00A0}\U{1680}\U{2000}\U{2001}\U{2002}\U{2003}\U{2004}\U{2005}"
                   + "\U{2006}\U{2007}\U{2008}\U{2009}\U{200A}\U{2028}\U{2029}\U{202F}\U{205F}\U{3000}"
  {
  }

  predicate Blank(s: string)
  {
    forall i :: 0 <= i < |s| ==> IsSpace(s[i])
  }

  /** strings.TrimSpace. */
  function Trim(s: string): string
    decreases |s|
  {
    if s == "" then s
    else if IsSpace(s[0]) then Trim(s[1..])
    else if IsSpace(s[|s| - 1]) then Trim(s[..|s| - 1])
    else s
  }

  /** What ORDER BY compares before it falls back on the identifier. */
  type Rank = (int, int)

  predicate RanksBefore(r: Rank, r': Rank)
  {
    r.0 < r'.0 || (r.0 == r'.0 && r.1 < r'.1)
  }

  predicate ComesBefore(due: map<nat, Rank>, id: nat, other: nat)
    requires id in due && other in due
  {
    RanksBefore(due[id], due[other]) || (due[id] == due[other] && id <= other)
  }

  predicate IsFirst(due: map<nat, Rank>, id: nat)
  {
    id in due && forall other :: other in due ==> ComesBefore(due, id, other)
  }

  /** ORDER BY ... LIMIT 1 over the rows that are due, in a table that holds the rows `ids`. */
  method First(ids: seq<nat>, due: map<nat, Rank>) returns (found: Option<nat>)
    requires forall id :: id in due ==> id in ids
    ensures found.Some? ==> IsFirst(due, found.value)
    ensures found.None? ==> due == map[]
  {
    found := None;
    for k := 0 to |ids|
      invariant found.Some? ==> found.value in due
      invariant found.Some? ==> forall j :: 0 <= j < k && ids[j] in due ==> ComesBefore(due, found.value, ids[j])
      invariant found.None? ==> forall j :: 0 <= j < k ==> ids[j] !in due
    {
      if ids[k] in due && (found.None? || !ComesBefore(due, found.value, ids[k])) {
        found := Some(ids[k]);
      }
    }
  }
}
