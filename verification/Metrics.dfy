/** The printer of the metrics page (internal/metrics/metrics.go): `writeMetric` and the quoting
    of label values by `%q`. Numbers are opaque tokens: what `%g` prints is an input. */
module Metrics {
  import opened Sorting

  function HexDigit(n: nat): char
    requires n < 16
  {
    "0123456789abcdef"[n]
  }

  predicate Printable(c: char) {
    ' ' <= c <= '~'
  }

  /** How `%q` renders one ASCII character between the quotes. */
  function QuoteChar(c: char): (s: string)
    ensures s != ""
  {
    if c == '"' || c == '\\' then ['\\', c]
    else if c == '\n' then "\\n"
    else if c == '\t' then "\\t"
    else if c == '\r' then "\\r"
    else if c == '\U{0007}' then "\\a"
    else if c == '\U{0008}' then "\\b"
    else if c == '\U{000B}' then "\\v"
    else if c == '\U{000C}' then "\\f"
    else if c < ' ' then ['\\', 'x', HexDigit(c as int / 16), HexDigit(c as int % 16)]
    else if c == '\U{007F}' then "\\x7f"
    else [c]
  }

  function QuoteBody(v: string): string {
    if v == "" then "" else QuoteChar(v[0]) + QuoteBody(v[1..])
  }

  function LabelText(key: string, value: string): string {
    key + "=\"" + QuoteBody(value) + "\""
  }

  type Labels = map<string, string>

  /** The label pairs of `keys`, separated by commas. */
  function LabelsText(keys: seq<string>, labels: Labels): string
    requires forall k <- keys :: k in labels
  {
    if keys == [] then ""
    else LabelText(keys[0], labels[keys[0]])
         + if |keys| == 1 then "" else "," + LabelsText(keys[1..], labels)
  }

  datatype Metric = Metric(typ: string, name: string, help: string, labels: Labels, value: string)

  /** The order of `sort.Strings`. */
  predicate Precedes(a: string, b: string) {
    b != "" && (a == "" || a[0] < b[0] || (a[0] == b[0] && Precedes(a[1..], b[1..])))
  }

  lemma {:induction false} PrecedesOnce(a: string, b: string)
    ensures !(Precedes(a, b) && Precedes(b, a))
    ensures a != b ==> Precedes(a, b) || Precedes(b, a)
    decreases |a|
  {
    if a != "" && b != "" && a[0] == b[0] {
      PrecedesOnce(a[1..], b[1..]);
      assert a == [a[0]] + a[1..] && b == [b[0]] + b[1..];
    }
  }

  lemma {:induction false} PrecedesThrough(a: string, b: string, c: string)
    requires Precedes(a, b) && Precedes(b, c)
    ensures Precedes(a, c)
    decreases |a|
  {
    if a != "" && a[0] == b[0] == c[0] {
      PrecedesThrough(a[1..], b[1..], c[1..]);
    }
  }

  lemma PrecedesIsOrdering()
    ensures IsOrdering(Precedes)
  {
    forall a, b
      ensures !(Precedes(a, b) && Precedes(b, a)) && (a != b ==> Precedes(a, b) || Precedes(b, a))
    {
      PrecedesOnce(a, b);
    }
    forall a, b, c | Precedes(a, b) && Precedes(b, c)
      ensures Precedes(a, c)
    {
      PrecedesThrough(a, b, c);
    }
  }

  /** `keys` lists every label once, in whatever order: reading them back does not depend on it. */
  ghost predicate Enumerates(keys: seq<string>, labels: Labels) {
    && (forall i, j | 0 <= i < j < |keys| :: keys[i] != keys[j])
    && (forall k :: k in keys <==> k in labels)
  }

  function Comments(m: Metric): string {
    if m.help == "" then ""
    else "# HELP " + m.name + " " + m.help + "\n" + ("# TYPE " + m.name + " " + m.typ + "\n")
  }

  function Token(m: Metric, keys: seq<string>): string
    requires forall k <- keys :: k in m.labels
  {
    if keys == [] then m.name else m.name + "{" + LabelsText(keys, m.labels) + "}"
  }

  function MetricText(m: Metric, keys: seq<string>): string
    requires forall k <- keys :: k in m.labels
  {
    Comments(m) + (Token(m, keys) + " " + m.value + "\n")
  }

  /** What has been printed so far, with the key order each metric was printed in. */
  function PageText(page: seq<(Metric, seq<string>)>): string
    requires forall i | 0 <= i < |page| :: forall k <- page[i].1 :: k in page[i].0.labels
  {
    if page == [] then "" else MetricText(page[0].0, page[0].1) + PageText(page[1..])
  }

  ghost predicate WellPrinted(page: seq<(Metric, seq<string>)>) {
    forall i | 0 <= i < |page| :: Enumerates(page[i].1, page[i].0.labels)
  }

  /** `keys` is the sorted list of the labels: there is exactly one. */
  ghost predicate Alphabetical(keys: seq<string>, labels: Labels) {
    Enumerates(keys, labels) && InOrder(keys, Precedes)
  }

  lemma AlphabeticalOnce(labels: Labels, keys: seq<string>, keys': seq<string>)
    requires Alphabetical(keys, labels) && Alphabetical(keys', labels)
    ensures keys == keys'
  {
    PrecedesIsOrdering();
    SortedOnce(keys, keys', Precedes);
  }

  lemma {:induction false} PageSnoc(page: seq<(Metric, seq<string>)>, m: Metric, keys: seq<string>)
    requires WellPrinted(page) && Enumerates(keys, m.labels)
    ensures PageText(page + [(m, keys)]) == PageText(page) + MetricText(m, keys)
  {
    var all := page + [(m, keys)];
    if page == [] {
      assert all[1..] == [];
    } else {
      assert all[1..] == page[1..] + [(m, keys)];
      PageSnoc(page[1..], m, keys);
    }
  }

  lemma {:induction false} LabelsSnoc(keys: seq<string>, k: string, labels: Labels)
    requires (forall k <- keys :: k in labels) && k in labels
    ensures LabelsText(keys + [k], labels)
         == LabelsText(keys, labels) + (if keys == [] then "" else ",") + LabelText(k, labels[k])
  {
    var all := keys + [k];
    if keys == [] {
      assert all[1..] == [];
    } else {
      assert all[1..] == keys[1..] + [k];
      LabelsSnoc(keys[1..], k, labels);
    }
  }

  /** The buffered writer the page is printed to. */
  class PageWriter {
    var text: string
    ghost var page: seq<(Metric, seq<string>)>

    ghost predicate Valid()
      reads this
    {
      WellPrinted(page) && text == PageText(page)
    }

    constructor ()
      ensures Valid() && page == []
    {
      text, page := "", [];
    }

    method WriteMetric(m: Metric)
      requires Valid()
      modifies this
      ensures Valid()
      ensures |page| == |old(page)| + 1 && old(page) <= page && page[|old(page)|].0 == m
      ensures Alphabetical(page[|old(page)|].1, m.labels) && text == old(text) + MetricText(m, page[|old(page)|].1)
    {
      var lines := PrintMetric(m);
      ghost var keys :| Alphabetical(keys, m.labels) && lines == MetricText(m, keys);
      PageSnoc(page, m, keys);
      text := text + lines;
      page := page + [(m, keys)];
    }
  }

  /** The lines one metric adds to the page. */
  method PrintMetric(m: Metric) returns (lines: string)
    ensures exists keys :: Alphabetical(keys, m.labels) && lines == MetricText(m, keys)
  {
    var comments := if m.help == "" then ""
                    else "# HELP " + m.name + " " + m.help + "\n" + ("# TYPE " + m.name + " " + m.typ + "\n");
    var pairs := PrintLabels(m.labels);
    ghost var keys :| Alphabetical(keys, m.labels) && pairs == LabelsText(keys, m.labels);
    var token := if |m.labels| == 0 then m.name else m.name + "{" + pairs + "}";
    SameEmptiness(keys, m.labels);
    lines := comments + (token + " " + m.value + "\n");
  }

  lemma SameEmptiness(keys: seq<string>, labels: Labels)
    requires Enumerates(keys, labels)
    ensures keys == [] <==> |labels| == 0
  {
    assert keys != [] ==> keys[0] in labels;
    if |labels| != 0 {
      var k :| k in labels;
      assert k in keys;
    }
  }

  lemma SortsAlphabetically(keys: seq<string>, labels: Labels)
    requires Sorts(keys, labels.Keys, Precedes)
    ensures Alphabetical(keys, labels)
  {
    PrecedesIsOrdering();
  }

  /** The loop over the sorted keys. */
  method PrintLabels(labels: Labels) returns (text: string)
    ensures exists keys :: Alphabetical(keys, labels) && text == LabelsText(keys, labels)
  {
    PrecedesIsOrdering();
    var keys := Sort(labels.Keys, Precedes);
    SortsAlphabetically(keys, labels);
    text := "";
    for i := 0 to |keys|
      invariant text == LabelsText(keys[..i], labels)
    {
      if i > 0 {
        text := text + ",";
      }
      text := text + LabelText(keys[i], labels[keys[i]]);
      LabelsSnoc(keys[..i], keys[i], labels);
      assert keys[..i + 1] == keys[..i] + [keys[i]];
    }
    assert keys[..|keys|] == keys;
  }
}
