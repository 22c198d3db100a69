/** Shared vocabulary: optional values, results, and the Python string operations the service relies on. */
module Basics {

  datatype Option<+T> = None | Some(value: T)

  datatype Result<+T, +E> = Success(value: T) | Failure(error: E)

  /** The characters for which Python's str.isspace is true, hence the ones str.strip removes. */
  predicate IsSpace(c: char) {
    var n := c as int;
    || 0x09 <= n <= 0x0D
    || 0x1C <= n <= 0x20
    || n == 0x85 || n == 0xA0 || n == 0x1680
    || 0x2000 <= n <= 0x200A
    || n == 0x2028 || n == 0x2029 || n == 0x202F || n == 0x205F || n == 0x3000
  }

  /** Python's str.strip(): drop whitespace characters from either end. */
  function Strip(s: string): string {
    if s != "" && IsSpace(s[0]) then Strip(s[1..])
    else if s != "" && IsSpace(s[|s| - 1]) then Strip(s[..|s| - 1])
    else s
  }

  /** The test `not s.strip()`. */
  predicate Blank(s: string) {
    forall i :: 0 <= i < |s| ==> IsSpace(s[i])
  }

  lemma {:induction false} BlankStripsToNothing(s: string)
    ensures Strip(s) == "" <==> Blank(s)
    decreases |s|
  {
    if s != "" && IsSpace(s[0]) {
      BlankStripsToNothing(s[1..]);
      assert s == [s[0]] + s[1..];
    } else if s != "" && IsSpace(s[|s| - 1]) {
      BlankStripsToNothing(s[..|s| - 1]);
      assert s == s[..|s| - 1] + [s[|s| - 1]];
    }
  }

  /** "".join(parts) */
  function Concat(parts: seq<string>): string {
    if parts == [] then "" else Concat(parts[..|parts| - 1]) + parts[|parts| - 1]
  }

  lemma ConcatSnoc(parts: seq<string>, part: string)
    ensures Concat(parts + [part]) == Concat(parts) + part
  {
    assert (parts + [part])[..|parts|] == parts;
  }

  lemma {:induction false} ConcatCons(parts: seq<string>)
    requires parts != []
    ensures Concat(parts) == parts[0] + Concat(parts[1..])
  {
    if |parts| > 1 {
      var front := parts[..|parts| - 1];
      ConcatCons(front);
      assert parts[1..] == front[1..] + [parts[|parts| - 1]];
      ConcatSnoc(front[1..], parts[|parts| - 1]);
    }
  }

  /** "\n".join(parts) */
  function JoinLines(parts: seq<string>): string {
    if parts == [] then "" else if |parts| == 1 then parts[0]
    else JoinLines(parts[..|parts| - 1]) + "\n" + parts[|parts| - 1]
  }

  lemma JoinSnoc(parts: seq<string>, part: string)
    requires parts != []
    ensures JoinLines(parts + [part]) == JoinLines(parts) + "\n" + part
  {
    assert (parts + [part])[..|parts|] == parts;
  }

  /** The characters at which str.splitlines ends a line. */
  predicate EndsLine(c: char) {
    var n := c as int;
    0x0A <= n <= 0x0D || 0x1C <= n <= 0x1E || n == 0x85 || n == 0x2028 || n == 0x2029
  }

  function LineLength(s: string): (n: nat)
    ensures n <= |s| && (n < |s| ==> EndsLine(s[n]))
  {
    if s == "" || EndsLine(s[0]) then 0 else 1 + LineLength(s[1..])
  }

  /** str.splitlines() */
  function SplitLines(s: string): seq<string>
    decreases |s|
  {
    if s == "" then []
    else
      var n := LineLength(s);
      var ending := if n == |s| then 0 else if s[n] == '\r' && n + 1 < |s| && s[n + 1] == '\n' then 2 else 1;
      [s[..n]] + SplitLines(s[n + ending..])
  }

  predicate OneLine(s: string) {
    forall i :: 0 <= i < |s| ==> !EndsLine(s[i])
  }

  predicate LineEnding(e: string) { e == "\r\n" || (|e| == 1 && EndsLine(e[0])) }

  /** Every line with its ending behind it. */
  function Rejoined(lines: seq<string>, endings: seq<string>): string
    requires |lines| == |endings|
  {
    if lines == [] then "" else lines[0] + endings[0] + Rejoined(lines[1..], endings[1..])
  }

  /** These are the lines of the text and what ends them; only the last may lack an ending, and a carriage
      return with a line feed behind it is one ending. */
  predicate SplitsAt(s: string, lines: seq<string>, endings: seq<string>) {
    && |endings| == |lines| && Rejoined(lines, endings) == s
    && (forall i :: 0 <= i < |lines| ==> OneLine(lines[i]))
    && (forall i :: 0 <= i < |lines| ==> LineEnding(endings[i]) || (i == |lines| - 1 && endings[i] == "" && lines[i] != ""))
    && (forall i :: 0 <= i < |lines| - 1 && endings[i] == "\r" && lines[i + 1] == "" ==> endings[i + 1] != "\n")
  }

  lemma {:induction false} FirstLine(s: string)
    ensures OneLine(s[..LineLength(s)])
  {
    if s != "" && !EndsLine(s[0]) {
      FirstLine(s[1..]);
      assert s[..LineLength(s)] == [s[0]] + s[1..][..LineLength(s[1..])];
    }
  }

  lemma ConsSplits(s: string, line: string, ending: string, rest: string, lines: seq<string>, endings: seq<string>)
    requires s == line + ending + rest && OneLine(line) && SplitsAt(rest, lines, endings)
    requires LineEnding(ending) || (lines == [] && ending == "" && line != "")
    requires ending == "\r" && rest != "" ==> rest[0] != '\n'
    ensures SplitsAt(s, [line] + lines, [ending] + endings)
  {
    assert ([line] + lines)[1..] == lines && ([ending] + endings)[1..] == endings;
    if lines != [] {
      assert rest == lines[0] + endings[0] + Rejoined(lines[1..], endings[1..]);
    }
  }

  /** splitlines keeps every character that does not end a line, in order. */
  lemma {:induction false} LinesSpell(s: string) returns (endings: seq<string>)
    ensures SplitsAt(s, SplitLines(s), endings)
    decreases |s|
  {
    if s == "" {
      endings := [];
    } else {
      var n := LineLength(s);
      var k := if n == |s| then 0 else if s[n] == '\r' && n + 1 < |s| && s[n + 1] == '\n' then 2 else 1;
      var rest := s[n + k..];
      var more := LinesSpell(rest);
      FirstLine(s);
      assert s == s[..n] + s[n..n + k] + rest;
      ConsSplits(s, s[..n], s[n..n + k], rest, SplitLines(rest), more);
      endings := [s[n..n + k]] + more;
    }
  }

  lemma {:induction false} LineBreak(line: string, rest: string)
    requires OneLine(line)
    ensures LineLength(line + "\n" + rest) == |line|
  {
    if line != "" {
      LineBreak(line[1..], rest);
      assert (line + "\n" + rest)[1..] == line[1..] + "\n" + rest;
    }
  }

  lemma SplitsLine(line: string, rest: string)
    requires OneLine(line)
    ensures SplitLines(line + "\n" + rest) == [line] + SplitLines(rest)
  {
    LineBreak(line, rest);
    var s := line + "\n" + rest;
    assert s[..|line|] == line && s[|line|] == '\n' && s[|line| + 1..] == rest;
  }

  /** The decimal digit for a value below ten. */
  function Digit(n: nat): char
    requires n < 10
  {
    '0' + n as char
  }

  /** str(n) for a non-negative integer. */
  function Decimal(n: nat): (s: string)
    ensures s != ""
  {
    if n < 10 then [Digit(n)] else Decimal(n / 10) + [Digit(n % 10)]
  }

  /** `out` holds, in order, one value for every element of `all` that is kept and for no other; `at` are the
      positions of the kept ones. */
  ghost predicate Filters<A(!new), B(!new)>(at: seq<nat>, out: seq<B>, all: seq<A>, shows: (B, A) -> bool, keeps: A -> bool) {
    && |at| == |out|
    && (forall k :: 0 <= k < |at| ==> at[k] < |all| && keeps(all[at[k]]) && shows(out[k], all[at[k]]))
    && (forall j, k :: 0 <= j < k < |at| ==> at[j] < at[k])
    && (forall i :: 0 <= i < |all| && keeps(all[i]) ==> i in at)
  }

  lemma KeptToo<A(!new), B(!new)>(at: seq<nat>, out: seq<B>, all: seq<A>, shows: (B, A) -> bool, keeps: A -> bool, b: B, a: A)
    requires Filters(at, out, all, shows, keeps) && keeps(a) && shows(b, a)
    ensures Filters(at + [|all|], out + [b], all + [a], shows, keeps)
  {
    forall i | 0 <= i < |all + [a]| && keeps((all + [a])[i])
      ensures i in at + [|all|]
    {
      if i < |all| { assert keeps(all[i]) && i in at; } else { assert (at + [|all|])[|at|] == i; }
    }
  }

  lemma NotKept<A(!new), B(!new)>(at: seq<nat>, out: seq<B>, all: seq<A>, shows: (B, A) -> bool, keeps: A -> bool, a: A)
    requires Filters(at, out, all, shows, keeps) && !keeps(a)
    ensures Filters(at, out, all + [a], shows, keeps)
  {
  }

  predicate NoDuplicates<T(==)>(s: seq<T>) {
    forall i, j :: 0 <= i < j < |s| ==> s[i] != s[j]
  }

  function Elements<T>(s: seq<T>): set<T> {
    set x | x in s
  }

  lemma {:induction false} DistinctCount<T>(s: seq<T>)
    requires NoDuplicates(s)
    ensures |Elements(s)| == |s|
  {
    if s != [] {
      var front, last := s[..|s| - 1], s[|s| - 1];
      DistinctCount(front);
      assert Elements(s) == Elements(front) + {last};
    }
  }
}
