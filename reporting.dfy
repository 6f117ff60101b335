/**
 * The report that `impl fmt::Display for Stats` writes (src/lib.rs:85-126):
 * the reporting peer's id, then one entry per peer of the ping map, then one
 * entry per peer of the transmission map. Each entry is a numeric line when
 * the peer's window has a mean and an error bound, and a "no data" line
 * otherwise.
 *
 * `CHashMap::into_iter` yields the peers in an unspecified order, so each
 * section takes that order as a parameter: any sequence listing every key of
 * the map exactly once. The `{:?}` Debug formatting of `String` and of
 * `Duration` is a parameter too (`Formatter`).
 */
module Reporting {
  import opened Wrappers
  import opened Reducer

  datatype Entry = Data(peer: string, mean: Duration, error: Duration) | NoData(peer: string)

  datatype Report = Report(selfPeer: string, pings: seq<Entry>, transmissions: seq<Entry>)

  datatype Section = PingSection | TransmissionSection

  /** Every window of the map can be summed without overflowing a `Duration`. */
  ghost predicate SumsFit(m: map<string, seq<Duration>>)
  {
    forall p :: p in m ==> Sum(m[p]) <= MaxDurationNanos
  }

  /** `order` lists every key of `m` exactly once: one iteration of the map. */
  ghost predicate Enumerates(order: seq<string>, m: map<string, seq<Duration>>)
  {
    && (forall i, j :: 0 <= i < j < |order| ==> order[i] != order[j])
    && (forall p :: p in order <==> p in m)
  }

  /**
   * The closure passed to `map` for one `(peer, durations)` pair: a numeric
   * entry when both `durations_mean` and `durations_error_with_ci` are `Some`,
   * a "no data" entry otherwise.
   */
  function EntryFor(peer: string, window: seq<Duration>, ops: FloatOps): (e: Entry)
    requires Sum(window) <= MaxDurationNanos
    requires IsSquareRoot(ops.sqrt)
    ensures e.peer == peer
    ensures e.Data? <==> window != []
    ensures e.Data? ==> (DurationsMean(window) == Some(e.mean)
                         && DurationsErrorWithCi(window, ops) == Some(e.error))
  {
    match (DurationsMean(window), DurationsErrorWithCi(window, ops))
    case (Some(mean), Some(error)) => Data(peer, mean, error)
    case _ => NoData(peer)
  }

  /** One section: the entries of the peers of `m`, in iteration order. */
  function SectionEntries(m: map<string, seq<Duration>>, order: seq<string>, ops: FloatOps): (es: seq<Entry>)
    requires forall p :: p in order ==> p in m
    requires SumsFit(m)
    requires IsSquareRoot(ops.sqrt)
    ensures |es| == |order|
    ensures forall i :: 0 <= i < |es| ==> es[i].peer == order[i]
  {
    if order == [] then []
    else [EntryFor(order[0], m[order[0]], ops)] + SectionEntries(m, order[1..], ops)
  }

  /** The i-th entry of a section is the entry of the i-th peer in iteration order. */
  lemma {:induction false} SectionFollowsOrder(m: map<string, seq<Duration>>, order: seq<string>, ops: FloatOps)
    requires forall p :: p in order ==> p in m
    requires SumsFit(m)
    requires IsSquareRoot(ops.sqrt)
    ensures |SectionEntries(m, order, ops)| == |order|
    ensures forall i :: 0 <= i < |order| ==>
      SectionEntries(m, order, ops)[i] == EntryFor(order[i], m[order[i]], ops)
  {
    if order != [] {
      SectionFollowsOrder(m, order[1..], ops);
    }
  }

  /**
   * Each peer of the map appears in its section exactly once, and its entry is
   * a numeric line exactly when its window is non-empty, with the window's mean.
   */
  lemma SectionListsEachPeerOnce(m: map<string, seq<Duration>>, order: seq<string>, ops: FloatOps)
    requires Enumerates(order, m)
    requires SumsFit(m)
    requires IsSquareRoot(ops.sqrt)
    ensures var es := SectionEntries(m, order, ops);
      && (forall p :: p in m <==> exists i :: 0 <= i < |es| && es[i].peer == p)
      && (forall i, j :: 0 <= i < j < |es| ==> es[i].peer != es[j].peer)
      && (forall i :: 0 <= i < |es| ==>
            (&& es[i].peer in m
             && (es[i].Data? <==> m[es[i].peer] != [])
             && (es[i].Data? ==> DurationsMean(m[es[i].peer]) == Some(es[i].mean))))
  {
    var es := SectionEntries(m, order, ops);
    SectionFollowsOrder(m, order, ops);
    forall p | p in m
      ensures exists i :: 0 <= i < |es| && es[i].peer == p
    {
      var i :| 0 <= i < |order| && order[i] == p;
      assert es[i].peer == p;
    }
    assert forall i, j :: 0 <= i < j < |es| ==> es[i].peer != es[j].peer by {
      assert forall i :: 0 <= i < |es| ==> es[i].peer == order[i];
    }
    forall i | 0 <= i < |es|
      ensures es[i].peer in m
      ensures es[i].Data? <==> m[es[i].peer] != []
      ensures es[i].Data? ==> DurationsMean(m[es[i].peer]) == Some(es[i].mean)
    {
      assert es[i] == EntryFor(order[i], m[order[i]], ops);
    }
  }

  /**
   * The report `Display` writes for a peer id and the two maps, each iterated
   * in the given order.
   */
  function BuildReport(
    selfPeer: string,
    pings: map<string, seq<Duration>>, pingOrder: seq<string>,
    transmissions: map<string, seq<Duration>>, transmissionOrder: seq<string>,
    ops: FloatOps): (r: Report)
    requires Enumerates(pingOrder, pings) && Enumerates(transmissionOrder, transmissions)
    requires SumsFit(pings) && SumsFit(transmissions)
    requires IsSquareRoot(ops.sqrt)
    ensures r.selfPeer == selfPeer
    ensures |r.pings| == |pings.Keys| && |r.transmissions| == |transmissions.Keys|
  {
    SectionFollowsOrder(pings, pingOrder, ops);
    SectionFollowsOrder(transmissions, transmissionOrder, ops);
    EnumerationSize(pingOrder, pings);
    EnumerationSize(transmissionOrder, transmissions);
    Report(selfPeer,
           SectionEntries(pings, pingOrder, ops),
           SectionEntries(transmissions, transmissionOrder, ops))
  }

  /** An enumeration of a map's keys is exactly as long as the map has keys. */
  lemma {:induction false} EnumerationSize(order: seq<string>, m: map<string, seq<Duration>>)
    requires Enumerates(order, m)
    ensures |order| == |m.Keys|
    decreases |order|
  {
    if order != [] {
      var rest := m - {order[0]};
      assert Enumerates(order[1..], rest) by {
        forall i, j | 0 <= i < j < |order[1..]|
          ensures order[1..][i] != order[1..][j]
        {
          assert order[1..][i] == order[i + 1] && order[1..][j] == order[j + 1];
        }
        forall p
          ensures p in order[1..] <==> p in rest
        {
          if p in order[1..] {
            var k :| 0 <= k < |order[1..]| && order[1..][k] == p;
            assert order[k + 1] == p;
          }
        }
      }
      EnumerationSize(order[1..], rest);
      assert rest.Keys == m.Keys - {order[0]};
    } else {
      assert m.Keys == {};
    }
  }

  // Rendering to text.

  /** The `{:?}` Debug formatting of a `String` and of a `Duration`. */
  datatype Formatter = Formatter(debugString: string -> string, debugDuration: Duration -> string)

  /** One line as `format!` renders it; a "no data" line has no trailing newline. */
  function RenderEntry(section: Section, e: Entry, fmt: Formatter): (line: string)
    ensures e.Data? ==> |line| > 0 && line[|line| - 1] == '\n'
    ensures e.NoData? ==> EndsWith(line, fmt.debugString(e.peer))
  {
    match e
    case Data(peer, mean, error) =>
      fmt.debugString(peer) + " " + fmt.debugDuration(mean) + "±" + fmt.debugDuration(error)
        + (if section == PingSection then "\n" else " per byte\n")
    case NoData(peer) =>
      (if section == PingSection then "No ping data for peer " else "No transmission data for peer ")
        + fmt.debugString(peer)
  }

  /** `collect::<String>()` over the lines of a section. */
  function RenderEntries(section: Section, es: seq<Entry>, fmt: Formatter): (text: string)
    ensures es != [] ==> EndsWith(text, RenderEntry(section, es[|es| - 1], fmt))
  {
    if es == [] then "" else RenderEntry(section, es[0], fmt) + RenderEntries(section, es[1..], fmt)
  }

  const PingHeading: string := "Ping mean for each peer:"
  const RateHeading: string := "Transmission rate mean by peer:"

  /** The final `write!`: the peer id, the two headings and the two sections. */
  function Render(r: Report, fmt: Formatter): (text: string)
    ensures StartsWith(text, fmt.debugString(r.selfPeer) + "\n")
  {
    fmt.debugString(r.selfPeer) + "\n" + PingHeading + "\n"
      + RenderEntries(PingSection, r.pings, fmt)
      + RateHeading + "\n"
      + RenderEntries(TransmissionSection, r.transmissions, fmt)
  }

  predicate StartsWith(s: string, prefix: string)
  {
    |prefix| <= |s| && s[..|prefix|] == prefix
  }

  predicate EndsWith(s: string, suffix: string)
  {
    |suffix| <= |s| && s[|s| - |suffix|..] == suffix
  }

  /** Neither Debug formatting produces a line break. */
  ghost predicate SingleLine(fmt: Formatter)
  {
    && (forall s :: '\n' !in fmt.debugString(s))
    && (forall d :: '\n' !in fmt.debugDuration(d))
  }

  function LineBreaks(s: string): nat
  {
    if s == [] then 0 else (if s[0] == '\n' then 1 else 0) + LineBreaks(s[1..])
  }

  function DataCount(es: seq<Entry>): nat
  {
    if es == [] then 0 else (if es[0].Data? then 1 else 0) + DataCount(es[1..])
  }

  lemma {:induction false} LineBreaksAppend(a: string, b: string)
    ensures LineBreaks(a + b) == LineBreaks(a) + LineBreaks(b)
  {
    if a != [] {
      assert (a + b)[1..] == a[1..] + b;
      LineBreaksAppend(a[1..], b);
    } else {
      assert a + b == b;
    }
  }

  lemma {:induction false} NoLineBreaks(s: string)
    requires '\n' !in s
    ensures LineBreaks(s) == 0
  {
    if s != [] {
      NoLineBreaks(s[1..]);
    }
  }

  /**
   * A rendered numeric line ends in a line break and contains no other; a
   * rendered "no data" line contains none at all.
   */
  lemma EntryLineBreaks(section: Section, e: Entry, fmt: Formatter)
    requires SingleLine(fmt)
    ensures var t := RenderEntry(section, e, fmt);
      && LineBreaks(t) == (if e.Data? then 1 else 0)
      && (|t| > 0 && t[|t| - 1] == '\n' <==> e.Data?)
  {
    var t := RenderEntry(section, e, fmt);
    match e
    case Data(peer, mean, error) =>
      var unit := if section == PingSection then "" else " per byte";
      var head := fmt.debugString(peer) + " " + fmt.debugDuration(mean) + "±" + fmt.debugDuration(error) + unit;
      assert t == head + "\n";
      assert '\n' !in head;
      NoLineBreaks(head);
      LineBreaksAppend(head, "\n");
    case NoData(peer) =>
      var lead := if section == PingSection then "No ping data for peer " else "No transmission data for peer ";
      assert t == lead + fmt.debugString(peer);
      assert '\n' !in t;
      NoLineBreaks(t);
  }

  lemma {:induction false} SectionLineBreaks(section: Section, es: seq<Entry>, fmt: Formatter)
    requires SingleLine(fmt)
    ensures LineBreaks(RenderEntries(section, es, fmt)) == DataCount(es)
  {
    if es != [] {
      EntryLineBreaks(section, es[0], fmt);
      SectionLineBreaks(section, es[1..], fmt);
      LineBreaksAppend(RenderEntry(section, es[0], fmt), RenderEntries(section, es[1..], fmt));
    }
  }

  /**
   * The rendered report has one line break after the peer id, one after each
   * heading and one per numeric line: "no data" lines add none, so the next
   * line of the report continues on the same text line.
   */
  lemma ReportLineBreaks(r: Report, fmt: Formatter)
    requires SingleLine(fmt)
    ensures LineBreaks(Render(r, fmt)) == 3 + DataCount(r.pings) + DataCount(r.transmissions)
  {
    var id := fmt.debugString(r.selfPeer);
    var s1 := RenderEntries(PingSection, r.pings, fmt);
    var s2 := RenderEntries(TransmissionSection, r.transmissions, fmt);
    var head, middle := id + "\n" + PingHeading + "\n", s1 + RateHeading + "\n";
    assert Render(r, fmt) == head + middle + s2;
    HeadingsSingleLine();
    HeadLineBreaks(id, PingHeading);
    SectionLineBreaks(PingSection, r.pings, fmt);
    MiddleLineBreaks(s1, RateHeading);
    SectionLineBreaks(TransmissionSection, r.transmissions, fmt);
    AppendLineBreaks(head, middle, 2);
    AppendLineBreaks(head + middle, s2, 3 + DataCount(r.pings));
  }

  lemma HeadLineBreaks(id: string, heading: string)
    requires '\n' !in id && '\n' !in heading
    ensures LineBreaks(id + "\n" + heading + "\n") == 2
  {
    NoLineBreaks(id);
    NoLineBreaks(heading);
    AppendLineBreaks(id, "\n", 0);
    AppendLineBreaks(id + "\n", heading, 1);
    AppendLineBreaks(id + "\n" + heading, "\n", 1);
  }

  lemma MiddleLineBreaks(s: string, heading: string)
    requires '\n' !in heading
    ensures LineBreaks(s + heading + "\n") == LineBreaks(s) + 1
  {
    NoLineBreaks(heading);
    AppendLineBreaks(s, heading, LineBreaks(s));
    AppendLineBreaks(s + heading, "\n", LineBreaks(s));
  }

  lemma HeadingsSingleLine()
    ensures '\n' !in PingHeading && '\n' !in RateHeading
  {
  }

  /** Appending to a text with `n` line breaks adds the appended text's own. */
  lemma AppendLineBreaks(s: string, t: string, n: nat)
    requires LineBreaks(s) == n
    ensures LineBreaks(s + t) == n + LineBreaks(t)
  {
    LineBreaksAppend(s, t);
  }
}
