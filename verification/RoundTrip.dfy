/** The printer and the parser of metrics pages were written separately; this is how far they
    undo each other. */
module RoundTrip {
  import opened Metrics
  import opened Options
  import P = Prometheus

  // ---------------------------------------------------------------------------------------
  // Quoted values
  // ---------------------------------------------------------------------------------------

  /** The characters that survive quoting and unquoting. */
  predicate Safe(c: char) {
    Printable(c) || c == '\n'
  }

  predicate AllSafe(v: string) {
    forall i | 0 <= i < |v| :: Safe(v[i])
  }

  predicate Ascii(v: string) {
    forall i | 0 <= i < |v| :: v[i] <= '\U{007F}'
  }

  /** What the parser makes of one printed character: for an escape it does not know it drops
      the backslash and keeps the rest. */
  function Reread(c: char): string {
    if c > '\U{007F}' || Safe(c) then [c] else QuoteChar(c)[1..]
  }

  function RereadAll(v: string): string {
    if v == "" then "" else Reread(v[0]) + RereadAll(v[1..])
  }

  lemma ReadPlain(s: string, rest: string)
    requires Plain(s)
    ensures P.ReadQuoted(s + rest) == (s + P.ReadQuoted(rest).0, P.ReadQuoted(rest).1)
  {
    if s == "" {
      assert s + rest == rest;
      assert s + P.ReadQuoted(rest).0 == P.ReadQuoted(rest).0;
    } else {
      assert (s + rest)[1..] == s[1..] + rest;
      ReadPlain(s[1..], rest);
      assert [s[0]] + (s[1..] + P.ReadQuoted(rest).0) == s + P.ReadQuoted(rest).0;
    }
  }

  lemma ReadEscaped(c: char, rest: string)
    ensures P.ReadQuoted(['\\', c] + rest)
         == ([if c == 'n' then '\n' else c] + P.ReadQuoted(rest).0, P.ReadQuoted(rest).1)
  {
    assert (['\\', c] + rest)[2..] == rest;
  }

  predicate Plain(s: string) {
    forall i | 0 <= i < |s| :: s[i] != '\\' && s[i] != '"'
  }

  /** A printed character is itself, or a backslash, one more character and plain text. */
  lemma QuoteShape(c: char)
    ensures var q := QuoteChar(c);
      if q[0] != '\\' then q == [c] && Plain(q) && Reread(c) == q
      else |q| >= 2 && Plain(q[2..]) && q == ['\\', q[1]] + q[2..]
           && Reread(c) == [if q[1] == 'n' then '\n' else q[1]] + q[2..]
  {
    var q := QuoteChar(c);
    if c < ' ' || c == '\U{007F}' {
      assert q[1] != 'n' || c == '\n';
      assert c != '\n' ==> q[1..] == [q[1]] + q[2..];
    }
  }

  lemma ReadOneChar(c: char, rest: string)
    ensures P.ReadQuoted(QuoteChar(c) + rest)
         == (Reread(c) + P.ReadQuoted(rest).0, P.ReadQuoted(rest).1)
  {
    var q := QuoteChar(c);
    QuoteShape(c);
    if q[0] == '\\' {
      ReadEscapeAndPlain(q[1], q[2..], rest);
    } else {
      ReadPlain(q, rest);
    }
  }

  lemma ReadEscapeAndPlain(x: char, more: string, rest: string)
    requires Plain(more)
    ensures P.ReadQuoted(['\\', x] + more + rest)
         == ([if x == 'n' then '\n' else x] + more + P.ReadQuoted(rest).0, P.ReadQuoted(rest).1)
  {
    assert ['\\', x] + more + rest == ['\\', x] + (more + rest);
    ReadEscaped(x, more + rest);
    ReadPlain(more, rest);
    var d := if x == 'n' then '\n' else x;
    assert [d] + (more + P.ReadQuoted(rest).0) == [d] + more + P.ReadQuoted(rest).0;
  }

  /** Reading a printed value consumes exactly it and its closing quote. */
  lemma {:induction false} ReadBack(v: string, rest: string)
    ensures P.ReadQuoted(QuoteBody(v) + "\"" + rest) == (RereadAll(v), rest)
  {
    if v == "" {
      assert QuoteBody(v) + "\"" + rest == "\"" + rest;
    } else {
      ReadBack(v[1..], rest);
      ReadOneChar(v[0], QuoteBody(v[1..]) + "\"" + rest);
      assert QuoteBody(v) + "\"" + rest == QuoteChar(v[0]) + (QuoteBody(v[1..]) + "\"" + rest);
    }
  }

  lemma CharSurvivesIff(c: char)
    requires c <= '\U{007F}'
    ensures Reread(c) != "" && (Safe(c) <==> Reread(c) == [c]) && (!Safe(c) ==> Reread(c)[0] != c)
  {
    QuoteShape(c);
  }

  /** A value comes back unchanged exactly when all its characters are printable or newlines. */
  lemma {:induction false} ValueSurvivesIff(v: string)
    requires Ascii(v)
    ensures RereadAll(v) == v <==> AllSafe(v)
  {
    if v != "" {
      ValueSurvivesIff(v[1..]);
      CharSurvivesIff(v[0]);
      if Safe(v[0]) {
        assert RereadAll(v)[1..] == RereadAll(v[1..]);
        assert v == [v[0]] + v[1..];
      } else {
        assert RereadAll(v)[0] == Reread(v[0])[0];
      }
    }
  }

  /** For example a tab is printed as \t and read back as the letter t. */
  lemma TabDoesNotSurvive()
    ensures P.ReadQuoted(QuoteBody("\t") + "\"") == ("t", "")
  {
    ReadBack("\t", "");
    assert QuoteBody("\t") + "\"" + "" == QuoteBody("\t") + "\"";
    assert RereadAll("\t") == Reread('\t') + RereadAll("\t"[1..]);
    assert Reread('\t') == "t" && "t" + "" == "t";
  }

  // ---------------------------------------------------------------------------------------
  // Labels
  // ---------------------------------------------------------------------------------------

  predicate NoSpace(s: string) {
    forall i | 0 <= i < |s| :: !P.IsSpace(s[i])
  }

  predicate GoodKey(k: string) {
    k != "" && NoSpace(k) && '=' !in k && '"' !in k && k[0] != ','
  }

  lemma TrimIdentity(s: string)
    requires s != "" && !P.IsSpace(s[0]) && !P.IsSpace(s[|s| - 1])
    ensures P.TrimSpace(s) == s
  {
  }

  lemma {:induction false} IndexAt(s: string, c: char, i: nat)
    requires i <= |s| && c !in s[..i] && (i < |s| ==> s[i] == c)
    ensures P.IndexOf(s, c) == i
  {
    if 0 < i {
      assert s[0] == s[..i][0];
      assert s[1..][..i - 1] == s[..i][1..];
      IndexAt(s[1..], c, i - 1);
    }
  }

  lemma ReadKeyOfLabel(k: string, tail: string)
    requires GoodKey(k)
    ensures P.ReadKey(k + "=" + tail) == Some((k, tail))
    ensures P.ReadKey("," + (k + "=" + tail)) == Some((k, tail))
  {
    var s := k + "=" + tail;
    assert s[0] == k[0];
    assert ("," + s)[1..] == s;
    assert P.SkipSeparators(s) == s && P.SkipSeparators("," + s) == s;
    assert s[..|k|] == k && s[|k| + 1..] == tail;
    IndexAt(s, '=', |k|);
    TrimIdentity(k);
  }

  lemma ReadValueOfLabel(v: string, rest: string)
    requires rest == "" || rest[0] == ','
    ensures P.ReadValue(QuoteBody(v) + "\"" + rest) == (RereadAll(v), rest)
  {
    ReadBack(v, rest);
    IndexAt(rest, ',', 0);
  }

  lemma PairFrom(raw: string, k: string, body: string, v: string, rest: string, labels: Labels)
    requires P.ReadKey(raw) == Some((k, "\"" + body)) && P.ReadValue(body) == (v, rest) && k != ""
    ensures P.ReadPair(raw, labels) == (rest, labels[k := v], false)
  {
    assert ("\"" + body)[1..] == body;
  }

  /** One printed label is read as one pair, with or without the comma in front. */
  lemma ReadPairOfLabel(k: string, v: string, rest: string, labels: Labels)
    requires GoodKey(k) && (rest == "" || rest[0] == ',')
    ensures P.ReadPair(LabelText(k, v) + rest, labels) == (rest, labels[k := RereadAll(v)], false)
    ensures P.ReadPair("," + (LabelText(k, v) + rest), labels) == (rest, labels[k := RereadAll(v)], false)
  {
    var body := QuoteBody(v) + "\"" + rest;
    var line := k + "=" + ("\"" + body);
    LabelSplits(k, v, rest);
    ReadKeyOfLabel(k, "\"" + body);
    ReadValueOfLabel(v, rest);
    PairFrom(line, k, body, RereadAll(v), rest, labels);
    PairFrom("," + line, k, body, RereadAll(v), rest, labels);
  }

  lemma LabelSplits(k: string, v: string, rest: string)
    ensures LabelText(k, v) + rest == k + "=" + ("\"" + (QuoteBody(v) + "\"" + rest))
  {
  }

  /** The labels of `keys` as they are read back, on top of `labels`. */
  function Collected(keys: seq<string>, from: Labels, labels: Labels): Labels
    requires forall k <- keys :: k in from
  {
    if keys == [] then labels
    else Collected(keys[1..], from, labels[keys[0] := RereadAll(from[keys[0]])])
  }

  lemma {:induction false} ReadLabelsText(keys: seq<string>, from: Labels, labels: Labels)
    requires keys != [] && forall k <- keys :: k in from && GoodKey(k)
    ensures P.ReadLabels(LabelsText(keys, from), labels) == Collected(keys, from, labels)
    ensures P.ReadLabels("," + LabelsText(keys, from), labels) == Collected(keys, from, labels)
    decreases |keys|
  {
    var k, v := keys[0], from[keys[0]];
    var labels' := labels[k := RereadAll(v)];
    if |keys| == 1 {
      assert LabelsText(keys, from) == LabelText(k, v) + "";
      ReadPairOfLabel(k, v, "", labels);
    } else {
      var rest := "," + LabelsText(keys[1..], from);
      assert LabelsText(keys, from) == LabelText(k, v) + rest;
      ReadPairOfLabel(k, v, rest, labels);
      ReadLabelsText(keys[1..], from, labels');
    }
  }

  lemma {:induction false} CollectedIs(keys: seq<string>, from: Labels, labels: Labels)
    requires forall k <- keys :: k in from
    ensures var c := Collected(keys, from, labels);
      && (forall k :: k in c <==> k in keys || k in labels)
      && (forall k <- c :: c[k] == if k in keys then RereadAll(from[k]) else labels[k])
    decreases |keys|
  {
    if keys != [] {
      CollectedIs(keys[1..], from, labels[keys[0] := RereadAll(from[keys[0]])]);
    }
  }

  function RereadLabels(labels: Labels): Labels {
    map k <- labels :: RereadAll(labels[k])
  }

  lemma ReadAllLabels(keys: seq<string>, labels: Labels)
    requires Enumerates(keys, labels) && forall k <- labels :: GoodKey(k)
    ensures P.ReadLabels(LabelsText(keys, labels), map[]) == RereadLabels(labels)
  {
    if keys != [] {
      ReadLabelsText(keys, labels, map[]);
      CollectedIs(keys, labels, map[]);
    } else {
      assert forall k :: k !in labels by {
        assert forall k <- labels :: k in keys;
      }
    }
  }

  // ---------------------------------------------------------------------------------------
  // The scan for the end of the metric token
  // ---------------------------------------------------------------------------------------

  function ScanAll(st: P.Scan, s: string): P.Scan
    decreases |s|
  {
    if s == "" then st else ScanAll(P.Next(st, s[0]), s[1..])
  }

  predicate Quiet(st: P.Scan, s: string)
    decreases |s|
  {
    s == "" || (!P.Splits(st, s[0]) && Quiet(P.Next(st, s[0]), s[1..]))
  }

  lemma {:induction false} ScanAppend(st: P.Scan, a: string, b: string)
    ensures ScanAll(st, a + b) == ScanAll(ScanAll(st, a), b)
    ensures Quiet(st, a) && Quiet(ScanAll(st, a), b) ==> Quiet(st, a + b)
    ensures Quiet(st, a) ==> P.FindSplit(a + b, st) == |a| + P.FindSplit(b, ScanAll(st, a))
    decreases |a|
  {
    if a == "" {
      assert a + b == b;
    } else {
      assert (a + b)[1..] == a[1..] + b;
      ScanAppend(P.Next(st, a[0]), a[1..], b);
    }
  }

  /** Reading `s` splits nowhere and leads from quotes `q` to quotes `q'`, outside an escape. */
  ghost predicate Crosses(s: string, q: bool, q': bool) {
    forall l: bool :: CrossesFrom(P.Scan(l, q, false), s, q')
  }

  predicate CrossesFrom(st: P.Scan, s: string, q': bool) {
    Quiet(st, s) && !ScanAll(st, s).escaped && ScanAll(st, s).inQuote == q'
  }

  lemma CrossAppendFrom(st: P.Scan, a: string, b: string, q': bool, q'': bool)
    requires CrossesFrom(st, a, q') && Crosses(b, q', q'')
    ensures CrossesFrom(st, a + b, q'')
  {
    var mid := ScanAll(st, a);
    assert mid == P.Scan(mid.inLabels, q', false);
    assert CrossesFrom(mid, b, q'');
    ScanAppend(st, a, b);
  }

  lemma CrossAppend(a: string, b: string, q: bool, q': bool, q'': bool)
    requires Crosses(a, q, q') && Crosses(b, q', q'')
    ensures Crosses(a + b, q, q'')
  {
    forall l: bool
      ensures CrossesFrom(P.Scan(l, q, false), a + b, q'')
    {
      assert CrossesFrom(P.Scan(l, q, false), a, q');
      CrossAppendFrom(P.Scan(l, q, false), a, b, q', q'');
    }
  }

  lemma {:induction false} CrossBareFrom(st: P.Scan, s: string)
    requires NoSpace(s) && '"' !in s && !st.inQuote && !st.escaped
    ensures CrossesFrom(st, s, false)
    ensures '{' !in s && !st.inLabels ==> !ScanAll(st, s).inLabels
    decreases |s|
  {
    if s != "" {
      CrossBareFrom(P.Next(st, s[0]), s[1..]);
    }
  }

  lemma CrossBare(s: string)
    requires NoSpace(s) && '"' !in s
    ensures Crosses(s, false, false)
  {
    forall l: bool
      ensures CrossesFrom(P.Scan(l, false, false), s, false)
    {
      CrossBareFrom(P.Scan(l, false, false), s);
    }
  }

  lemma {:induction false} CrossPlainFrom(st: P.Scan, s: string)
    requires Plain(s) && st.inQuote && !st.escaped
    ensures CrossesFrom(st, s, true)
    decreases |s|
  {
    if s != "" {
      CrossPlainFrom(st, s[1..]);
    }
  }

  lemma CrossChar(c: char)
    ensures Crosses(QuoteChar(c), true, true)
  {
    var q := QuoteChar(c);
    QuoteShape(c);
    forall l: bool
      ensures CrossesFrom(P.Scan(l, true, false), q, true)
    {
      var st := P.Scan(l, true, false);
      if q[0] == '\\' {
        var more := q[2..];
        assert q[1..][1..] == more;
        CrossPlainFrom(st, more);
        assert P.Next(P.Next(st, q[0]), q[1]) == st;
        assert Quiet(P.Next(st, q[0]), q[1..]);
      } else {
        CrossPlainFrom(st, q);
      }
    }
  }

  lemma {:induction false} CrossBody(v: string)
    ensures Crosses(QuoteBody(v), true, true)
  {
    if v != "" {
      CrossChar(v[0]);
      CrossBody(v[1..]);
      CrossAppend(QuoteChar(v[0]), QuoteBody(v[1..]), true, true, true);
    }
  }

  lemma CrossQuote(q: bool)
    ensures Crosses("\"", q, !q)
  {
    forall l: bool
      ensures CrossesFrom(P.Scan(l, q, false), "\"", !q)
    {
      var st := P.Scan(l, q, false);
      assert ScanAll(st, "\"") == ScanAll(P.Next(st, '"'), "");
    }
  }

  lemma CrossLabel(k: string, v: string)
    requires GoodKey(k)
    ensures Crosses(LabelText(k, v), false, false)
  {
    CrossBare(k + "=");
    CrossQuote(false);
    CrossAppend(k + "=", "\"", false, false, true);
    assert k + "=" + "\"" == k + "=\"";
    CrossBody(v);
    CrossAppend(k + "=\"", QuoteBody(v), false, true, true);
    CrossQuote(true);
    CrossAppend(k + "=\"" + QuoteBody(v), "\"", false, true, false);
  }

  lemma {:induction false} CrossLabels(keys: seq<string>, labels: Labels)
    requires forall k <- keys :: k in labels && GoodKey(k)
    ensures Crosses(LabelsText(keys, labels), false, false)
    decreases |keys|
  {
    if keys != [] {
      var text := LabelText(keys[0], labels[keys[0]]);
      CrossLabel(keys[0], labels[keys[0]]);
      if |keys| == 1 {
        assert text + "" == text;
      } else {
        CrossLabels(keys[1..], labels);
        CrossBare(",");
        CrossAppend(",", LabelsText(keys[1..], labels), false, false, false);
        CrossAppend(text, "," + LabelsText(keys[1..], labels), false, false, false);
      }
    }
  }

  // ---------------------------------------------------------------------------------------
  // Lines
  // ---------------------------------------------------------------------------------------

  predicate GoodName(name: string) {
    name != "" && NoSpace(name) && '{' !in name && '"' !in name && name[0] != '#'
  }

  /** What must hold of a metric for its text to be read back: no delimiter or whitespace in the
      name, the label keys and the value token, and no newline in the comments. Label values are
      arbitrary. */
  ghost predicate Readable(m: Metric) {
    && GoodName(m.name) && (forall k <- m.labels :: GoodKey(k))
    && m.value != "" && NoSpace(m.value)
    && '\n' !in m.help && '\n' !in m.typ
  }

  lemma ClosingBrace(inner: string)
    requires Crosses(inner, false, false)
    ensures Quiet(P.START, inner + "}") && ScanAll(P.START, inner + "}") == P.START
  {
    assert CrossesFrom(P.Scan(false, false, false), inner, false);
    ScanAppend(P.START, inner, "}");
    var st := ScanAll(P.START, inner);
    assert ScanAll(st, "}") == ScanAll(P.Next(st, '}'), "");
  }

  lemma BracedScan(name: string, body: string)
    requires GoodName(name) && Crosses(body, false, false)
    ensures Quiet(P.START, name + "{" + body + "}") && ScanAll(P.START, name + "{" + body + "}") == P.START
  {
    CrossBare(name + "{");
    CrossAppend(name + "{", body, false, false, false);
    ClosingBrace(name + "{" + body);
  }

  lemma TokenScan(m: Metric, keys: seq<string>)
    requires Readable(m) && Enumerates(keys, m.labels)
    ensures Quiet(P.START, Token(m, keys)) && ScanAll(P.START, Token(m, keys)) == P.START
  {
    if keys == [] {
      CrossBareFrom(P.START, m.name);
    } else {
      CrossLabels(keys, m.labels);
      BracedScan(m.name, LabelsText(keys, m.labels));
    }
  }

  lemma TokenSplits(m: Metric, keys: seq<string>)
    requires Readable(m) && Enumerates(keys, m.labels)
    ensures P.SplitToken(Token(m, keys)) == Some((m.name, RereadLabels(m.labels)))
  {
    var token := Token(m, keys);
    TrimIdentity(m.name);
    ReadAllLabels(keys, m.labels);
    IndexAt(token, '{', |m.name|) by {
      assert token[..|m.name|] == m.name;
    }
    if keys != [] {
      var body := LabelsText(keys, m.labels);
      assert token == m.name + "{" + body + "}";
      assert P.LastIndexOf(token, '}') == |token| - 1;
      assert token[|m.name| + 1..|token| - 1] == body;
      assert token[..|m.name|] == m.name;
    }
  }

  lemma {:induction false} NoSpaceField(s: string)
    requires NoSpace(s)
    ensures P.FieldEnd(s) == |s|
  {
    if s != "" {
      NoSpaceField(s[1..]);
    }
  }

  /** The samples the parser makes of a metric: one, unless the value is no finite number. */
  function Expected(m: Metric, finite: string -> bool): seq<P.Sample> {
    if finite(m.value) then [P.Sample(m.name, RereadLabels(m.labels), m.value)] else []
  }

  lemma TokenEnds(m: Metric, keys: seq<string>)
    ensures (forall k <- keys :: k in m.labels) ==> |Token(m, keys)| >= |m.name| && m.name <= Token(m, keys)
  {
  }

  lemma SplitSampleLine(m: Metric, keys: seq<string>)
    requires Readable(m) && Enumerates(keys, m.labels)
    ensures P.SplitLine(Token(m, keys) + " " + m.value) == Some((Token(m, keys), m.value))
  {
    var token := Token(m, keys);
    var line := token + " " + m.value;
    var tail := " " + m.value;
    assert line == token + tail;
    TokenScan(m, keys);
    ScanAppend(P.START, token, tail);
    assert P.FindSplit(tail, P.START) == 0;
    assert line[..|token|] == token && line[|token| + 1..] == m.value;
    TokenEnds(m, keys);
    assert token[0] == m.name[0];
    TrimIdentity(token);
    TrimIdentity(m.value);
  }

  lemma SampleLineReads(m: Metric, keys: seq<string>, finite: string -> bool)
    requires Readable(m) && Enumerates(keys, m.labels)
    ensures P.LineSamples(Token(m, keys) + " " + m.value, finite) == Expected(m, finite)
  {
    var line := Token(m, keys) + " " + m.value;
    TokenEnds(m, keys);
    assert line[0] == m.name[0] && line[|line| - 1] == m.value[|m.value| - 1];
    TrimIdentity(line);
    SplitSampleLine(m, keys);
    NoSpaceField(m.value);
    assert m.value[..|m.value|] == m.value;
    TokenSplits(m, keys);
  }

  /** Trimming on the right leaves what ends in no space, and some beginning of what follows it. */
  lemma {:induction false} TrimRightKeeps(a: string, b: string) returns (n: nat)
    requires a != "" && !P.IsSpace(a[|a| - 1])
    ensures n <= |b| && P.TrimRight(a + b) == a + b[..n]
    decreases |b|
  {
    if b == "" {
      n := 0;
      assert a + b == a;
    } else if P.IsSpace(b[|b| - 1]) {
      assert (a + b)[..|a + b| - 1] == a + b[..|b| - 1];
      n := TrimRightKeeps(a, b[..|b| - 1]);
      assert b[..|b| - 1][..n] == b[..n];
    } else {
      n := |b|;
      assert (a + b)[|a + b| - 1] == b[|b| - 1];
    }
  }

  lemma TrimKeeps(a: string, b: string) returns (n: nat)
    requires a != "" && !P.IsSpace(a[0]) && !P.IsSpace(a[|a| - 1])
    ensures n <= |b| && P.TrimSpace(a + b) == a + b[..n]
  {
    n := TrimRightKeeps(a, b);
    assert P.TrimLeft(a + b) == a + b;
  }

  lemma {:induction false} FieldEndsAtSpace(field: string, more: string)
    requires NoSpace(field) && (more == "" || P.IsSpace(more[0]))
    ensures P.FieldEnd(field + more) == |field|
  {
    if field == "" {
      assert field + more == more;
    } else {
      assert (field + more)[1..] == field[1..] + more;
      FieldEndsAtSpace(field[1..], more);
    }
  }

  lemma SplitLongLine(m: Metric, keys: seq<string>, more: string)
    requires Readable(m) && Enumerates(keys, m.labels)
    ensures P.SplitLine(Token(m, keys) + (" " + (m.value + more)))
         == Some((Token(m, keys), P.TrimSpace(m.value + more)))
  {
    var token := Token(m, keys);
    var tail := " " + (m.value + more);
    TokenScan(m, keys);
    ScanAppend(P.START, token, tail);
    assert P.FindSplit(tail, P.START) == 0;
    assert (token + tail)[..|token|] == token && (token + tail)[|token| + 1..] == m.value + more;
    TokenEnds(m, keys);
    assert token[0] == m.name[0];
    TrimIdentity(token);
  }

  /** A printed line followed by a space and anything else, such as a timestamp, reads as the same
      sample. */
  lemma LongerLineReads(m: Metric, keys: seq<string>, finite: string -> bool, space: char, more: string)
    requires Readable(m) && Enumerates(keys, m.labels) && P.IsSpace(space)
    ensures P.LineSamples(Token(m, keys) + " " + m.value + ([space] + more), finite) == Expected(m, finite)
  {
    var printed, after := Token(m, keys) + " " + m.value, [space] + more;
    TokenEnds(m, keys);
    assert printed[0] == m.name[0] && printed[|printed| - 1] == m.value[|m.value| - 1];
    var n := TrimKeeps(printed, after);
    var kept := after[..n];
    assert printed + kept == Token(m, keys) + (" " + (m.value + kept));
    SplitLongLine(m, keys, kept);
    var i := TrimKeeps(m.value, kept);
    FieldEndsAtSpace(m.value, kept[..i]);
    assert (m.value + kept[..i])[..|m.value|] == m.value;
    TokenSplits(m, keys);
  }

  lemma {:induction false} TrimRightKeepsHead(s: string)
    requires s != "" && !P.IsSpace(s[0])
    ensures P.TrimRight(s) != "" && P.TrimRight(s)[0] == s[0]
  {
    if P.IsSpace(s[|s| - 1]) {
      TrimRightKeepsHead(s[..|s| - 1]);
    }
  }

  lemma CommentLineIsSkipped(line: string, finite: string -> bool)
    requires line != "" && line[0] == '#'
    ensures P.LineSamples(line, finite) == []
  {
    TrimRightKeepsHead(line);
  }

  lemma LinesCons(line: string, rest: string)
    requires '\n' !in line
    ensures P.Lines(line + "\n" + rest) == [line] + P.Lines(rest)
  {
    var all := line + "\n" + rest;
    assert all[..|line|] == line && all[|line| + 1..] == rest;
    IndexAt(all, '\n', |line|);
  }

  // ---------------------------------------------------------------------------------------
  // Pages
  // ---------------------------------------------------------------------------------------

  type Page = seq<(Metric, seq<string>)>

  ghost predicate ReadablePage(page: Page) {
    WellPrinted(page) && forall i | 0 <= i < |page| :: Readable(page[i].0)
  }

  function HelpLine(m: Metric): string {
    "# HELP " + m.name + " " + m.help
  }

  function TypeLine(m: Metric): string {
    "# TYPE " + m.name + " " + m.typ
  }

  function CommentLines(m: Metric): seq<string> {
    if m.help == "" then [] else [HelpLine(m), TypeLine(m)]
  }

  function LinesOf(m: Metric, keys: seq<string>): seq<string>
    requires forall k <- keys :: k in m.labels
  {
    CommentLines(m) + [Token(m, keys) + " " + m.value]
  }

  function LinesOfPage(page: Page): seq<string>
    requires forall i | 0 <= i < |page| :: forall k <- page[i].1 :: k in page[i].0.labels
  {
    if page == [] then [] else LinesOf(page[0].0, page[0].1) + LinesOfPage(page[1..])
  }

  function ExpectedPage(page: Page, finite: string -> bool): seq<P.Sample> {
    if page == [] then [] else Expected(page[0].0, finite) + ExpectedPage(page[1..], finite)
  }

  lemma {:induction false} BodyHasNoNewline(v: string)
    ensures '\n' !in QuoteBody(v)
  {
    if v != "" {
      BodyHasNoNewline(v[1..]);
    }
  }

  lemma {:induction false} LabelsHaveNoNewline(keys: seq<string>, labels: Labels)
    requires forall k <- keys :: k in labels && GoodKey(k)
    ensures '\n' !in LabelsText(keys, labels)
    decreases |keys|
  {
    if keys != [] {
      BodyHasNoNewline(labels[keys[0]]);
      assert '\n' !in keys[0];
      LabelsHaveNoNewline(keys[1..], labels);
    }
  }

  lemma SampleLineHasNoNewline(m: Metric, keys: seq<string>)
    requires Readable(m) && Enumerates(keys, m.labels)
    ensures '\n' !in Token(m, keys) + " " + m.value
  {
    assert '\n' !in m.name && '\n' !in m.value;
    LabelsHaveNoNewline(keys, m.labels);
  }

  lemma CommentLinesAre(m: Metric, rest: string)
    requires Readable(m)
    ensures P.Lines(Comments(m) + rest) == CommentLines(m) + P.Lines(rest)
  {
    if m.help == "" {
      assert Comments(m) + rest == rest && CommentLines(m) + P.Lines(rest) == P.Lines(rest);
    } else {
      assert '\n' !in m.name;
      LinesCons(TypeLine(m), rest);
      LinesCons(HelpLine(m), TypeLine(m) + "\n" + rest);
      assert Comments(m) + rest == HelpLine(m) + "\n" + (TypeLine(m) + "\n" + rest);
      Pair(HelpLine(m), TypeLine(m), P.Lines(rest));
    }
  }

  lemma Pair<T>(x: T, y: T, rest: seq<T>)
    ensures [x, y] + rest == [x] + ([y] + rest)
  {
  }

  lemma LineInside(before: string, line: string, rest: string)
    ensures before + (line + "\n") + rest == before + (line + "\n" + rest)
  {
  }

  /** The text of a metric is exactly its lines. */
  lemma MetricLines(m: Metric, keys: seq<string>, rest: string)
    requires Readable(m) && Enumerates(keys, m.labels)
    ensures P.Lines(MetricText(m, keys) + rest) == LinesOf(m, keys) + P.Lines(rest)
  {
    var line := Token(m, keys) + " " + m.value;
    SampleLineHasNoNewline(m, keys);
    LinesCons(line, rest);
    CommentLinesAre(m, line + "\n" + rest);
    LineInside(Comments(m), line, rest);
    Regroup(CommentLines(m), [line], P.Lines(rest));
  }

  lemma Regroup<T>(a: seq<T>, b: seq<T>, c: seq<T>)
    ensures (a + b) + c == a + (b + c)
  {
  }

  lemma {:induction false} SkippedLines(lines: seq<string>, rest: seq<string>, finite: string -> bool)
    requires forall i | 0 <= i < |lines| :: lines[i] != "" && lines[i][0] == '#'
    ensures P.AllSamples(lines + rest, finite) == P.AllSamples(rest, finite)
    decreases |lines|
  {
    if lines == [] {
      assert lines + rest == rest;
    } else {
      assert (lines + rest)[1..] == lines[1..] + rest;
      CommentLineIsSkipped(lines[0], finite);
      SkippedLines(lines[1..], rest, finite);
    }
  }

  lemma MetricSamples(m: Metric, keys: seq<string>, rest: seq<string>, finite: string -> bool)
    requires Readable(m) && Enumerates(keys, m.labels)
    ensures P.AllSamples(LinesOf(m, keys) + rest, finite) == Expected(m, finite) + P.AllSamples(rest, finite)
  {
    var line := Token(m, keys) + " " + m.value;
    SampleLineReads(m, keys, finite);
    assert ([line] + rest)[1..] == rest;
    Regroup(CommentLines(m), [line], rest);
    SkippedLines(CommentLines(m), [line] + rest, finite);
  }

  lemma {:induction false} PageReads(page: Page, finite: string -> bool)
    requires ReadablePage(page)
    ensures P.Lines(PageText(page)) == LinesOfPage(page)
    ensures P.AllSamples(LinesOfPage(page), finite) == ExpectedPage(page, finite)
    decreases |page|
  {
    if page != [] {
      var (m, keys) := page[0];
      PageReads(page[1..], finite);
      MetricLines(m, keys, PageText(page[1..]));
      MetricSamples(m, keys, LinesOfPage(page[1..]), finite);
    }
  }

  /** Parsing a printed page gives, metric by metric and in order, the names, label maps and value
      tokens that were printed - with every label value as it is reread - unless some printed line
      is a mebibyte long or longer, and then the parser reports an error. */
  lemma PageRoundTrip(page: Page, finite: string -> bool)
    requires ReadablePage(page)
    ensures P.ParsePage(PageText(page), finite)
         == if P.Fits(LinesOfPage(page)) then P.Parsed(ExpectedPage(page, finite)) else P.LineTooLong
  {
    PageReads(page, finite);
  }

  ghost predicate SafeLabels(m: Metric) {
    forall k <- m.labels :: AllSafe(m.labels[k])
  }

  /** The samples of a page as they were handed to the printer. */
  function Printed(page: Page): seq<P.Sample> {
    if page == [] then []
    else [P.Sample(page[0].0.name, page[0].0.labels, page[0].0.value)] + Printed(page[1..])
  }

  lemma LabelsSurviveIff(labels: Labels)
    requires forall k <- labels :: Ascii(labels[k])
    ensures RereadLabels(labels) == labels <==> forall k <- labels :: AllSafe(labels[k])
  {
    forall k <- labels
      ensures RereadAll(labels[k]) == labels[k] <==> AllSafe(labels[k])
    {
      ValueSurvivesIff(labels[k]);
    }
    if exists k :: k in labels && !AllSafe(labels[k]) {
      var k :| k in labels && !AllSafe(labels[k]);
      assert RereadLabels(labels)[k] != labels[k];
    }
  }

  lemma {:induction false} ExpectedIsPrintedIff(page: Page, finite: string -> bool)
    requires forall i | 0 <= i < |page| :: finite(page[i].0.value)
    requires forall i | 0 <= i < |page| :: forall k <- page[i].0.labels :: Ascii(page[i].0.labels[k])
    ensures ExpectedPage(page, finite) == Printed(page)
       <==> forall i | 0 <= i < |page| :: SafeLabels(page[i].0)
    decreases |page|
  {
    if page != [] {
      var m := page[0].0;
      LabelsSurviveIff(m.labels);
      ExpectedIsPrintedIff(page[1..], finite);
      assert forall i | 0 < i < |page| :: page[i] == page[1..][i - 1];
      assert ExpectedPage(page, finite)[0] == P.Sample(m.name, RereadLabels(m.labels), m.value);
      assert ExpectedPage(page, finite)[1..] == ExpectedPage(page[1..], finite);
      assert Printed(page)[1..] == Printed(page[1..]);
      assert (forall i | 0 <= i < |page| :: SafeLabels(page[i].0))
        <==> SafeLabels(page[0].0) && forall i | 0 <= i < |page[1..]| :: SafeLabels(page[1..][i].0);
    }
  }

  /** Exactly when the round trip is the identity: all label values consist of printable characters
      and newlines. */
  lemma RoundTripIff(page: Page, finite: string -> bool)
    requires ReadablePage(page) && P.Fits(LinesOfPage(page))
    requires forall i | 0 <= i < |page| :: finite(page[i].0.value)
    requires forall i | 0 <= i < |page| :: forall k <- page[i].0.labels :: Ascii(page[i].0.labels[k])
    ensures P.ParsePage(PageText(page), finite) == P.Parsed(Printed(page))
       <==> forall i | 0 <= i < |page| :: SafeLabels(page[i].0)
  {
    PageRoundTrip(page, finite);
    ExpectedIsPrintedIff(page, finite);
  }
}
