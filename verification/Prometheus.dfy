/** The parser of metrics pages (internal/collector/prometheus.go). Each loop of the code is a
    method proved equal to a recursive function over the text still to be read. A sample keeps
    its value as the token that was accepted by `strconv.ParseFloat`. */
module Prometheus {
  import opened Options

  type Labels = map<string, string>

  datatype Sample = Sample(name: string, labels: Labels, value: string)

  datatype ParseResult = Parsed(samples: seq<Sample>) | LineTooLong

  const MAX_LINE := 1024 * 1024

  /** The ASCII characters for which `unicode.IsSpace` holds. */
  predicate IsSpace(c: char) {
    c == ' ' || c == '\t' || c == '\n' || c == '\r' || c == '\U{000B}' || c == '\U{000C}'
  }

  function TrimLeft(s: string): string {
    if s != "" && IsSpace(s[0]) then TrimLeft(s[1..]) else s
  }

  function TrimRight(s: string): string {
    if s != "" && IsSpace(s[|s| - 1]) then TrimRight(s[..|s| - 1]) else s
  }

  function TrimSpace(s: string): string {
    TrimRight(TrimLeft(s))
  }

  /** Position of the first `c`, or the length. */
  function IndexOf(s: string, c: char): (i: nat)
    ensures i <= |s| && (i < |s| ==> s[i] == c) && c !in s[..i]
  {
    if s == "" || s[0] == c then 0 else 1 + IndexOf(s[1..], c)
  }

  /** Position of the last `c`, or -1. */
  function LastIndexOf(s: string, c: char): (i: int)
    ensures -1 <= i < |s| && (0 <= i ==> s[i] == c) && c !in s[i + 1..]
  {
    if s == "" then -1
    else if s[|s| - 1] == c then |s| - 1
    else LastIndexOf(s[..|s| - 1], c)
  }

  // ---------------------------------------------------------------------------------------
  // Splitting a line into metric token and value
  // ---------------------------------------------------------------------------------------

  datatype Scan = Scan(inLabels: bool, inQuote: bool, escaped: bool)

  const START := Scan(false, false, false)

  /** The switch over one character. */
  function Next(st: Scan, c: char): Scan {
    if st.escaped then st.(escaped := false)
    else if c == '\\' && st.inQuote then st.(escaped := true)
    else if c == '"' then st.(inQuote := !st.inQuote)
    else if c == '{' && !st.inQuote then st.(inLabels := true)
    else if c == '}' && !st.inQuote then st.(inLabels := false)
    else st
  }

  predicate Splits(st: Scan, c: char) {
    !st.escaped && IsSpace(c) && !st.inLabels && !st.inQuote
  }

  function FindSplit(line: string, st: Scan): (i: nat)
    ensures i <= |line|
  {
    if line == "" || Splits(st, line[0]) then 0
    else 1 + FindSplit(line[1..], Next(st, line[0]))
  }

  function SplitLine(line: string): Option<(string, string)> {
    var i := FindSplit(line, START);
    if i < |line| then Some((TrimSpace(line[..i]), TrimSpace(line[i + 1..]))) else None
  }

  method SplitMetricLine(line: string) returns (r: Option<(string, string)>)
    ensures r == SplitLine(line)
  {
    var st := START;
    for i := 0 to |line|
      invariant FindSplit(line, START) == i + FindSplit(line[i..], st)
    {
      var c := line[i];
      if Splits(st, c) {
        return Some((TrimSpace(line[..i]), TrimSpace(line[i + 1..])));
      }
      assert line[i..][1..] == line[i + 1..];
      st := Next(st, c);
    }
    r := None;
  }

  function FieldEnd(s: string): (i: nat)
    ensures i <= |s|
  {
    if s == "" || IsSpace(s[0]) then 0 else 1 + FieldEnd(s[1..])
  }

  method FirstField(s: string) returns (field: string)
    ensures field == s[..FieldEnd(s)]
  {
    for i := 0 to |s|
      invariant FieldEnd(s) == i + FieldEnd(s[i..])
    {
      if IsSpace(s[i]) {
        return s[..i];
      }
      assert s[i..][1..] == s[i + 1..];
    }
    field := s;
  }

  // ---------------------------------------------------------------------------------------
  // Labels
  // ---------------------------------------------------------------------------------------

  predicate IsSeparator(c: char) {
    c == ',' || c == ' ' || c == '\t'
  }

  function SkipSeparators(s: string): (rest: string)
    ensures |rest| <= |s|
  {
    if s != "" && IsSeparator(s[0]) then SkipSeparators(s[1..]) else s
  }

  /** The unescaped text up to the closing quote, and what follows that quote. */
  function ReadQuoted(s: string): (r: (string, string))
    ensures |r.1| <= |s|
  {
    if s == "" then ("", "")
    else if s[0] == '\\' && |s| > 1 then
      var (text, rest) := ReadQuoted(s[2..]);
      ([if s[1] == 'n' then '\n' else s[1]] + text, rest)
    else if s[0] == '"' then ("", s[1..])
    else
      var (text, rest) := ReadQuoted(s[1..]);
      ([s[0]] + text, rest)
  }

  /** The trimmed text before the first `=` and what follows it, if there is one. */
  function ReadKey(raw: string): (r: Option<(string, string)>)
    ensures r.Some? ==> |r.value.1| < |raw|
  {
    var s := SkipSeparators(raw);
    var e := IndexOf(s, '=');
    if e == |s| then None else Some((TrimSpace(s[..e]), s[e + 1..]))
  }

  /** The quoted text after an opening quote, and what is left from the next comma on. */
  function ReadValue(s: string): (r: (string, string))
    ensures |r.1| <= |s|
  {
    var (text, rest) := ReadQuoted(s);
    (text, rest[IndexOf(rest, ',')..])
  }

  /** What one round of the loop over label pairs leaves: the text still to be read, the labels,
      and whether the loop is left with `break`. */
  function ReadPair(raw: string, labels: Labels): (r: (string, Labels, bool))
    ensures |r.0| <= |raw| && (!r.2 ==> |r.0| < |raw|)
  {
    match ReadKey(raw)
    case None => ("", labels, true)
    case Some((key, s)) =>
      if s == "" || s[0] != '"' then (s, labels, true)
      else
        var (text, rest) := ReadValue(s[1..]);
        (rest, if key != "" then labels[key := text] else labels, false)
  }

  function ReadLabels(raw: string, labels: Labels): Labels
    decreases |raw|
  {
    if raw == "" then labels
    else
      var (rest, labels', stop) := ReadPair(raw, labels);
      if stop then labels' else ReadLabels(rest, labels')
  }

  /** Reads from just after an opening quote; returns the text and the index after the closing
      quote. */
  method ReadQuotedFrom(raw: string, from: nat) returns (text: string, i: nat)
    requires from <= |raw|
    ensures from <= i <= |raw| && (text, raw[i..]) == ReadQuoted(raw[from..])
  {
    text, i := "", from;
    assert "" + ReadQuoted(raw[from..]).0 == ReadQuoted(raw[from..]).0;
    while i < |raw|
      invariant from <= i <= |raw|
      invariant ReadSoFar(raw, from, text, i)
      decreases |raw| - i
    {
      var ch := raw[i];
      if ch == '\\' && i + 1 < |raw| {
        var next := raw[i + 1];
        ReadStep(raw, from, text, i);
        text := text + [if next == 'n' then '\n' else next];
        i := i + 2;
      } else if ch == '"' {
        ReadStop(raw, from, text, i);
        i := i + 1;
        return;
      } else {
        ReadStep(raw, from, text, i);
        text := text + [ch];
        i := i + 1;
      }
    }
    ReadStop(raw, from, text, i);
  }

  /** `text` has been read from `from` up to `i`. */
  ghost predicate ReadSoFar(raw: string, from: nat, text: string, i: nat)
    requires from <= |raw| && i <= |raw|
  {
    var whole, more := ReadQuoted(raw[from..]), ReadQuoted(raw[i..]);
    whole.0 == text + more.0 && whole.1 == more.1
  }

  lemma ReadStep(raw: string, from: nat, text: string, i: nat)
    requires from <= i < |raw| && ReadSoFar(raw, from, text, i)
    ensures raw[i] == '\\' && i + 1 < |raw| ==>
        ReadSoFar(raw, from, text + [if raw[i + 1] == 'n' then '\n' else raw[i + 1]], i + 2)
    ensures raw[i] != '"' && !(raw[i] == '\\' && i + 1 < |raw|) ==>
        ReadSoFar(raw, from, text + [raw[i]], i + 1)
  {
    if raw[i] == '\\' && i + 1 < |raw| {
      assert raw[i..][2..] == raw[i + 2..];
      Regroup(text, if raw[i + 1] == 'n' then '\n' else raw[i + 1], ReadQuoted(raw[i + 2..]).0);
    } else {
      assert raw[i..][1..] == raw[i + 1..];
      Regroup(text, raw[i], ReadQuoted(raw[i + 1..]).0);
    }
  }

  lemma Regroup(text: string, c: char, more: string)
    ensures text + ([c] + more) == (text + [c]) + more
  {
  }

  lemma ReadStop(raw: string, from: nat, text: string, i: nat)
    requires from <= i <= |raw| && ReadSoFar(raw, from, text, i)
    requires i < |raw| ==> raw[i] == '"'
    ensures ReadQuoted(raw[from..]) == (text, raw[if i < |raw| then i + 1 else i..])
  {
    assert text + "" == text;
    if i < |raw| {
      assert raw[i..][1..] == raw[i + 1..];
    }
  }

  method SkipWhileSeparator(raw: string, from: nat) returns (i: nat)
    requires from <= |raw|
    ensures from <= i <= |raw| && raw[i..] == SkipSeparators(raw[from..])
  {
    i := from;
    while i < |raw| && IsSeparator(raw[i])
      invariant from <= i <= |raw| && SkipSeparators(raw[from..]) == SkipSeparators(raw[i..])
    {
      assert raw[i..][1..] == raw[i + 1..];
      i := i + 1;
    }
  }

  method SkipUntil(raw: string, from: nat, c: char) returns (i: nat)
    requires from <= |raw|
    ensures i == from + IndexOf(raw[from..], c) && i <= |raw|
  {
    i := from;
    while i < |raw| && raw[i] != c
      invariant from <= i <= |raw| && IndexOf(raw[from..], c) == i - from + IndexOf(raw[i..], c)
    {
      assert raw[i..][1..] == raw[i + 1..];
      i := i + 1;
    }
  }

  lemma SuffixOf(raw: string, from: nat, k: nat)
    requires from <= |raw| && k <= |raw| - from
    ensures raw[from..][k..] == raw[from + k..]
    ensures raw[from..][..k] == raw[from..from + k]
  {
  }

  /** Reads a key from `from`; `next` is just after the `=`, or there is none. */
  method ParseKey(raw: string, from: nat) returns (key: string, next: nat, found: bool)
    requires from <= |raw|
    ensures from <= next <= |raw|
    ensures ReadKey(raw[from..]) == if found then Some((key, raw[next..])) else None
  {
    var start := SkipWhileSeparator(raw, from);
    var eq := SkipUntil(raw, start, '=');
    SuffixOf(raw, start, eq - start);
    if eq >= |raw| {
      return "", eq, false;
    }
    SuffixOf(raw, start, eq - start + 1);
    key, next, found := TrimSpace(raw[start..eq]), eq + 1, true;
  }

  method ParseValue(raw: string, from: nat) returns (text: string, i: nat)
    requires from <= |raw|
    ensures from <= i <= |raw| && (text, raw[i..]) == ReadValue(raw[from..])
  {
    var t, close := ReadQuotedFrom(raw, from);
    i := SkipUntil(raw, close, ',');
    SuffixOf(raw, close, i - close);
    text := t;
  }

  method ParsePair(raw: string, from: nat, labels: Labels) returns (i: nat, labels': Labels, stop: bool)
    requires from < |raw|
    ensures from <= i <= |raw| && (raw[i..], labels', stop) == ReadPair(raw[from..], labels)
  {
    var key, next, found := ParseKey(raw, from);
    if !found {
      assert raw[|raw|..] == "";
      return |raw|, labels, true;
    }
    if next >= |raw| || raw[next] != '"' {
      return next, labels, true;
    }
    SuffixOf(raw, next, 1);
    var text, after := ParseValue(raw, next + 1);
    i, labels', stop := after, if key != "" then labels[key := text] else labels, false;
  }

  method ParseLabels(raw: string) returns (labels: Labels)
    ensures labels == ReadLabels(raw, map[])
  {
    labels := map[];
    var i := 0;
    while i < |raw|
      invariant 0 <= i <= |raw| && ReadLabels(raw, map[]) == ReadLabels(raw[i..], labels)
      decreases |raw| - i
    {
      var next, labels', stop := ParsePair(raw, i, labels);
      labels := labels';
      if stop {
        return;
      }
      i := next;
    }
  }

  function SplitToken(token: string): Option<(string, Labels)> {
    var open := IndexOf(token, '{');
    if open < |token| then
      var close := LastIndexOf(token, '}');
      if close < open then None
      else Some((TrimSpace(token[..open]), ReadLabels(token[open + 1..close], map[])))
    else Some((TrimSpace(token), map[]))
  }

  method ParseMetricToken(token: string) returns (r: Option<(string, Labels)>)
    ensures r == SplitToken(token)
  {
    var open := IndexOf(token, '{');
    if open < |token| {
      var close := LastIndexOf(token, '}');
      if close < open {
        return None;
      }
      var labels := ParseLabels(token[open + 1..close]);
      r := Some((TrimSpace(token[..open]), labels));
    } else {
      r := Some((TrimSpace(token), map[]));
    }
  }

  // ---------------------------------------------------------------------------------------
  // The page
  // ---------------------------------------------------------------------------------------

  /** The tokens of a line scanner: text between newlines, without an empty last one. */
  function Lines(data: string): seq<string>
    decreases |data|
  {
    if data == "" then []
    else
      var i := IndexOf(data, '\n');
      if i == |data| then [data] else [data[..i]] + Lines(data[i + 1..])
  }

  /** The samples of one line: one or none. `finite` says which tokens parse as finite floats. */
  function LineSamples(raw: string, finite: string -> bool): seq<Sample> {
    var line := TrimSpace(raw);
    if line == "" || line[0] == '#' then []
    else
      match SplitLine(line)
      case None => []
      case Some((token, rest)) =>
        var value := rest[..FieldEnd(rest)];
        if value == "" || !finite(value) then []
        else
          match SplitToken(token)
          case None => []
          case Some((name, labels)) => if name == "" then [] else [Sample(name, labels, value)]
  }

  function AllSamples(lines: seq<string>, finite: string -> bool): seq<Sample> {
    if lines == [] then [] else LineSamples(lines[0], finite) + AllSamples(lines[1..], finite)
  }

  predicate Fits(lines: seq<string>) {
    forall i | 0 <= i < |lines| :: |lines[i]| < MAX_LINE
  }

  function ParsePage(data: string, finite: string -> bool): ParseResult {
    if Fits(Lines(data)) then Parsed(AllSamples(Lines(data), finite)) else LineTooLong
  }

  method ParseLine(raw: string, finite: string -> bool) returns (samples: seq<Sample>)
    ensures samples == LineSamples(raw, finite)
  {
    var line := TrimSpace(raw);
    if line == "" || line[0] == '#' {
      return [];
    }
    var split := SplitMetricLine(line);
    if split.None? {
      return [];
    }
    var (token, rest) := split.value;
    var value := FirstField(rest);
    if value == "" || !finite(value) {
      return [];
    }
    var parsed := ParseMetricToken(token);
    if parsed.None? || parsed.value.0 == "" {
      return [];
    }
    samples := [Sample(parsed.value.0, parsed.value.1, value)];
  }

  method ScanLines(lines: seq<string>, finite: string -> bool) returns (r: ParseResult)
    ensures r == if Fits(lines) then Parsed(AllSamples(lines, finite)) else LineTooLong
  {
    var samples := [];
    for i := 0 to |lines|
      invariant forall j | 0 <= j < i :: |lines[j]| < MAX_LINE
      invariant AllSamples(lines, finite) == samples + AllSamples(lines[i..], finite)
    {
      if |lines[i]| >= MAX_LINE {
        return LineTooLong;
      }
      var more := ParseLine(lines[i], finite);
      assert lines[i..][1..] == lines[i + 1..];
      var rest := AllSamples(lines[i + 1..], finite);
      assert samples + (more + rest) == (samples + more) + rest;
      samples := samples + more;
    }
    r := Parsed(samples);
  }

  /** Any text at all: the parser ends, in bounds, with the samples of the lines or, when a line
      does not fit the scanner's buffer, with an error. */
  method ParsePrometheusText(data: string, finite: string -> bool) returns (r: ParseResult)
    ensures r == ParsePage(data, finite)
  {
    r := ScanLines(Lines(data), finite);
  }
}
