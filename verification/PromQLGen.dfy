/**
  The telemetry selector compiler of pkg/promqlgen: a list of parsed PromQL selectors becomes
  a relabel configuration on the one hand and one grouped PromQL selector on the other.
  This file holds the data model, both compilers and the functions that specify them;
  the meaning of what they emit is in Relabel.dfy and Grouped.dfy.
 */
module PromQLGen {
  import opened Text
  import opened Order

  datatype MatchType = Equal | NotEqual | Regexp | NotRegexp

  datatype Matcher = Matcher(kind: MatchType, name: string, value: string)

  type Selector = seq<Matcher>

  datatype RelabelConfig = RelabelConfig(action: string, sourceLabels: seq<string>, regex: string)

  const METRIC_NAME := "__name__"

  // ---------- Specification functions ----------

  function Flatten(matches: seq<Selector>): seq<Matcher> {
    if matches == [] then [] else Flatten(matches[..|matches| - 1]) + matches[|matches| - 1]
  }

  /** The distinct label names, in the order in which they are first seen. */
  function LabelsSeen(ms: seq<Matcher>): seq<string> {
    if ms == [] then []
    else
      var m := ms[|ms| - 1];
      var names := LabelsSeen(ms[..|ms| - 1]);
      if m.name in names then names else names + [m.name]
  }

  ghost predicate Mentions(ms: seq<Matcher>, name: string) {
    exists m :: m in ms && m.name == name
  }

  /** No label has two matchers. */
  ghost predicate DistinctLabels(ls: Selector) {
    forall i, j :: 0 <= i < j < |ls| ==> ls[i].name != ls[j].name
  }

  /** The value a selector ends up giving to a label: that of its last matcher on it. */
  function LastValue(ls: Selector, name: string): string {
    if ls == [] then ""
    else if ls[|ls| - 1].name == name then ls[|ls| - 1].value
    else LastValue(ls[..|ls| - 1], name)
  }

  function Row(ls: Selector, labels: seq<string>): seq<string> {
    seq(|labels|, i requires 0 <= i < |labels| => LastValue(ls, labels[i]))
  }

  function RegexPart(ls: Selector, labels: seq<string>): string {
    Join(Row(ls, labels), ";")
  }

  function RegexParts(matches: seq<Selector>, labels: seq<string>): seq<string> {
    seq(|matches|, i requires 0 <= i < |matches| => RegexPart(matches[i], labels))
  }

  function Compile(matches: seq<Selector>): RelabelConfig {
    var labels := LabelsSeen(Flatten(matches));
    RelabelConfig("keep", labels, "(" + Join(RegexParts(matches, labels), "|") + ")")
  }

  /** All values given to a label, in order. */
  function ValuesOf(ms: seq<Matcher>, name: string): seq<string> {
    if ms == [] then []
    else
      var m := ms[|ms| - 1];
      var values := ValuesOf(ms[..|ms| - 1], name);
      if m.name == name then values + [m.value] else values
  }

  /** The regular expression printed for one label: its values, and "" as well unless it is the metric name. */
  function Pattern(ms: seq<Matcher>, name: string): string {
    Join(ValuesOf(ms, name), "|") + (if name != METRIC_NAME then "|" else "")
  }

  function Term(ms: seq<Matcher>, name: string): string {
    name + "=~\"" + Pattern(ms, name) + "\""
  }

  function Terms(ms: seq<Matcher>, names: seq<string>): seq<string> {
    seq(|names|, i requires 0 <= i < |names| => Term(ms, names[i]))
  }

  function SortedLabels(ms: seq<Matcher>): seq<string> {
    SortStrings(LabelsSeen(ms))
  }

  function PrintGrouped(matches: seq<Selector>): string {
    var ms := Flatten(matches);
    "{" + Join(Terms(ms, SortedLabels(ms)), ",") + "}"
  }

  // ---------- The same, by indices into the selectors ----------

  /** The value of the last matcher a selector has on a label, and "" where it has none. */
  ghost predicate Gives(ls: Selector, name: string, v: string) {
    && (forall j :: 0 <= j < |ls| && ls[j].name == name && (forall k :: j < k < |ls| ==> ls[k].name != name) ==>
          v == ls[j].value)
    && ((forall j :: 0 <= j < |ls| ==> ls[j].name != name) ==> v == "")
  }

  ghost predicate GivesRow(ls: Selector, labels: seq<string>, row: seq<string>) {
    |row| == |labels| && forall k :: 0 <= k < |labels| ==> Gives(ls, labels[k], row[k])
  }

  /** The alternatives of a regular expression, and the values in each of them, are those the selectors give. */
  ghost predicate HoldsValues(regex: string, labels: seq<string>, matches: seq<Selector>) {
    && |regex| >= 2 && regex[0] == '(' && regex[|regex| - 1] == ')'
    && var parts := Split(regex[1..|regex| - 1], '|');
       && |parts| == |matches|
       && forall i :: 0 <= i < |matches| ==>
            if labels == [] then parts[i] == "" else GivesRow(matches[i], labels, Split(parts[i], ';'))
  }

  /** The same for any values at all: rows of values, joined by ';' and then by '|'. */
  ghost predicate JoinsRows(regex: string, labels: seq<string>, matches: seq<Selector>, rows: seq<seq<string>>) {
    && |rows| == |matches|
    && (forall i :: 0 <= i < |matches| ==> GivesRow(matches[i], labels, rows[i]))
    && regex == "(" + Join(seq(|rows|, i requires 0 <= i < |rows| => Join(rows[i], ";")), "|") + ")"
  }

  /** No value holds this character. */
  ghost predicate FreeOf(matches: seq<Selector>, c: char) {
    forall i, m :: 0 <= i < |matches| && m in matches[i] ==> c !in m.value
  }

  /** Each earlier label is mentioned before any mention of a later one. */
  ghost predicate InOrderSeen(labels: seq<string>, matches: seq<Selector>) {
    forall a, b :: 0 <= a < b < |labels| ==> SeenBefore(matches, labels[a], labels[b])
  }

  /** Some matcher is on the first label, and none up to it is on the second. */
  ghost predicate SeenBefore(matches: seq<Selector>, first: string, second: string) {
    exists i: nat, j: nat :: i < |matches| && j < |matches[i]| && matches[i][j].name == first &&
      (forall k, m :: 0 <= k < i && m in matches[k] ==> m.name != second) &&
      forall k :: 0 <= k <= j ==> matches[i][k].name != second
  }

  /**
    A configuration compiled from selectors: the source labels are the labels they mention, each once
    and in the order seen, and the regular expression holds what they give.
   */
  ghost predicate CompiledByIndices(cfg: RelabelConfig, matches: seq<Selector>, rows: seq<seq<string>>) {
    && Distinct(cfg.sourceLabels) && InOrderSeen(cfg.sourceLabels, matches)
    && (forall l :: l in cfg.sourceLabels <==> exists i :: 0 <= i < |matches| && Mentions(matches[i], l))
    && JoinsRows(cfg.regex, cfg.sourceLabels, matches, rows)
    && (matches != [] && FreeOf(matches, ';') && FreeOf(matches, '|') ==>
          HoldsValues(cfg.regex, cfg.sourceLabels, matches))
  }

  lemma {:induction false} LastValueGiven(ls: Selector, name: string)
    ensures Gives(ls, name, LastValue(ls, name))
  {
    if ls != [] && ls[|ls| - 1].name != name {
      LastValueGiven(ls[..|ls| - 1], name);
      StillGives(ls, name, LastValue(ls, name));
    }
  }

  lemma StillGives(ls: Selector, name: string, v: string)
    requires ls != [] && ls[|ls| - 1].name != name && Gives(ls[..|ls| - 1], name, v)
    ensures Gives(ls, name, v)
  {
    var p := ls[..|ls| - 1];
    assert forall j :: 0 <= j < |p| ==> p[j] == ls[j];
    forall j | 0 <= j < |ls| && ls[j].name == name && (forall k :: j < k < |ls| ==> ls[k].name != name)
      ensures v == ls[j].value
    {
      assert p[j].name == name && forall k :: j < k < |p| ==> p[k].name != name;
    }
  }

  lemma RowGiven(ls: Selector, labels: seq<string>)
    ensures GivesRow(ls, labels, Row(ls, labels))
  {
    forall k | 0 <= k < |labels|
      ensures Gives(ls, labels[k], Row(ls, labels)[k])
    {
      LastValueGiven(ls, labels[k]);
    }
  }

  lemma {:induction false} LastValueFree(ls: Selector, name: string, c: char)
    requires forall m :: m in ls ==> c !in m.value
    ensures c !in LastValue(ls, name)
  {
    if ls != [] {
      assert ls[|ls| - 1] in ls;
      LastValueFree(ls[..|ls| - 1], name, c);
    }
  }

  lemma RowFree(ls: Selector, labels: seq<string>, c: char)
    requires forall m :: m in ls ==> c !in m.value
    ensures AllFree(Row(ls, labels), c)
  {
    forall k | 0 <= k < |labels|
      ensures c !in Row(ls, labels)[k]
    {
      LastValueFree(ls, labels[k], c);
    }
  }

  lemma PartsSplit(matches: seq<Selector>, labels: seq<string>)
    requires matches != [] && FreeOf(matches, '|')
    ensures Split(Join(RegexParts(matches, labels), "|"), '|') == RegexParts(matches, labels)
  {
    var parts := RegexParts(matches, labels);
    forall i | 0 <= i < |matches|
      ensures '|' !in parts[i]
    {
      RowFree(matches[i], labels, '|');
      JoinFree(Row(matches[i], labels), ";", '|');
    }
    SplitJoin(parts, '|');
  }

  /**
    The compiled regular expression holds exactly the values the selectors give, whatever else is in
    them: one alternative per selector, one value per source label.
   */
  lemma RegexHoldsValues(matches: seq<Selector>)
    requires matches != [] && FreeOf(matches, ';') && FreeOf(matches, '|')
    ensures HoldsValues(Compile(matches).regex, Compile(matches).sourceLabels, matches)
  {
    var labels := Compile(matches).sourceLabels;
    var joined := Join(RegexParts(matches, labels), "|");
    PartsSplit(matches, labels);
    Unbraced(joined);
    forall i | 0 <= i < |matches|
      ensures if labels == [] then RegexPart(matches[i], labels) == ""
              else GivesRow(matches[i], labels, Split(RegexPart(matches[i], labels), ';'))
    {
      if labels != [] {
        RowFree(matches[i], labels, ';');
        RowGiven(matches[i], labels);
        SplitJoin(Row(matches[i], labels), ';');
      }
    }
  }

  lemma Unbraced(s: string)
    ensures ("(" + s + ")")[1..|"(" + s + ")"| - 1] == s
  {
  }

  // ---------- Order of first appearance ----------

  /** Where the k-th matcher of the flattened list comes from. */
  lemma {:induction false} FlattenPlace(matches: seq<Selector>, k: nat) returns (i: nat, j: nat)
    requires k < |Flatten(matches)|
    ensures i < |matches| && j < |matches[i]| && matches[i][j] == Flatten(matches)[k]
    ensures Flatten(matches)[..k + 1] == Flatten(matches[..i]) + matches[i][..j + 1]
  {
    var n := |matches| - 1;
    var p := |Flatten(matches[..n])|;
    if k < p {
      i, j := FlattenPlace(matches[..n], k);
      assert matches[..n][..i] == matches[..i];
    } else {
      i, j := n, k - p;
    }
  }

  /** The a-th label seen has a matcher before any on a later one. */
  lemma {:induction false} SeenFirst(ms: seq<Matcher>, a: nat, b: nat) returns (k: nat)
    requires a < b < |LabelsSeen(ms)|
    ensures k < |ms| && ms[k].name == LabelsSeen(ms)[a]
    ensures forall m :: m in ms[..k + 1] ==> m.name != LabelsSeen(ms)[b]
  {
    var n := |ms| - 1;
    var names := LabelsSeen(ms[..n]);
    LabelsSeenOnce(ms);
    LabelsSeenOnce(ms[..n]);
    if b < |names| {
      k := SeenFirst(ms[..n], a, b);
      assert ms[..n][..k + 1] == ms[..k + 1];
    } else {
      assert names[a] in names;
      var m :| m in ms[..n] && m.name == names[a];
      k :| 0 <= k < n && ms[k] == m;
      assert ms[n].name !in names;
    }
  }

  lemma LabelsInOrderSeen(matches: seq<Selector>)
    ensures InOrderSeen(LabelsSeen(Flatten(matches)), matches)
  {
    var ms := Flatten(matches);
    var labels := LabelsSeen(ms);
    forall a, b | 0 <= a < b < |labels|
      ensures SeenBefore(matches, labels[a], labels[b])
    {
      var k := SeenFirst(ms, a, b);
      var i, j := FlattenPlace(matches, k);
      PlaceIsBefore(matches, i, j, labels[b]);
      assert matches[i][j].name == labels[a];
    }
  }

  lemma PlaceIsBefore(matches: seq<Selector>, i: nat, j: nat, name: string)
    requires i < |matches| && j < |matches[i]|
    requires forall m :: m in Flatten(matches[..i]) + matches[i][..j + 1] ==> m.name != name
    ensures forall k, m :: 0 <= k < i && m in matches[k] ==> m.name != name
    ensures forall k :: 0 <= k <= j ==> matches[i][k].name != name
  {
    forall k, m | 0 <= k < i && m in matches[k]
      ensures m.name != name
    {
      MentionedInFlatten(matches[..i], k);
      assert m in Flatten(matches[..i]) + matches[i][..j + 1];
    }
    forall k | 0 <= k <= j
      ensures matches[i][k].name != name
    {
      assert matches[i][..j + 1][k] in Flatten(matches[..i]) + matches[i][..j + 1];
    }
  }

  // ---------- The compilers ----------

  lemma {:induction false} LabelsSeenOnce(ms: seq<Matcher>)
    ensures Distinct(LabelsSeen(ms))
    ensures forall l :: l in LabelsSeen(ms) <==> Mentions(ms, l)
  {
    if ms != [] {
      var n := |ms| - 1;
      LabelsSeenOnce(ms[..n]);
      assert ms == ms[..n] + [ms[n]];
      forall l ensures Mentions(ms, l) <==> Mentions(ms[..n], l) || l == ms[n].name {
      }
    }
  }

  lemma {:induction false} ValuesOfMentioned(ms: seq<Matcher>, name: string)
    ensures ValuesOf(ms, name) != [] <==> Mentions(ms, name)
    ensures forall v :: v in ValuesOf(ms, name) <==> exists m :: m in ms && m.name == name && m.value == v
  {
    if ms != [] {
      var n := |ms| - 1;
      ValuesOfMentioned(ms[..n], name);
      assert ms == ms[..n] + [ms[n]];
    }
  }

  lemma SortedLabelsListAll(ms: seq<Matcher>)
    ensures StrictlySorted(SortedLabels(ms))
    ensures forall l :: l in SortedLabels(ms) <==> Mentions(ms, l)
  {
    LabelsSeenOnce(ms);
  }

  lemma FlattenNext(matches: seq<Selector>, a: nat)
    requires a < |matches|
    ensures Flatten(matches[..a + 1]) == Flatten(matches[..a]) + matches[a]
  {
    assert matches[..a + 1][..a] == matches[..a];
  }

  lemma PrefixNext<T>(s: seq<T>, k: nat)
    requires k < |s|
    ensures s[..k + 1][..k] == s[..k] && s[..k + 1][k] == s[k]
    ensures s[..k] + [s[k]] == s[..k + 1]
  {
  }

  lemma AppendNext<T>(done: seq<T>, s: seq<T>, k: nat)
    requires k < |s|
    ensures done + s[..k] + [s[k]] == done + s[..k + 1]
  {
  }

  /** Where each label stands among the source labels. */
  ghost predicate Indexes(positions: map<string, nat>, labels: seq<string>) {
    && (forall l :: l in positions <==> l in labels)
    && (forall l :: l in positions ==> positions[l] < |labels| && labels[positions[l]] == l)
  }

  lemma LabelsSeenNext(ms: seq<Matcher>, m: Matcher)
    ensures LabelsSeen(ms + [m]) == if m.name in LabelsSeen(ms) then LabelsSeen(ms) else LabelsSeen(ms) + [m.name]
  {
  }

  lemma LabelsSeenInRow(done: seq<Matcher>, ls: Selector, b: nat)
    requires b < |ls|
    ensures var labels := LabelsSeen(done + ls[..b]);
            LabelsSeen(done + ls[..b + 1]) == if ls[b].name in labels then labels else labels + [ls[b].name]
  {
    LabelsSeenNext(done + ls[..b], ls[b]);
    AppendNext(done, ls, b);
  }

  lemma IndexesNext(positions: map<string, nat>, labels: seq<string>, name: string)
    requires Indexes(positions, labels) && name !in labels
    ensures Indexes(positions[name := |labels|], labels + [name])
  {
  }

  method LabelPositions(matches: seq<Selector>) returns (labels: seq<string>, positions: map<string, nat>)
    ensures labels == LabelsSeen(Flatten(matches))
    ensures Indexes(positions, labels)
    ensures Distinct(labels) && InOrderSeen(labels, matches)
  {
    positions := map[];
    labels := [];
    var i := 0;
    for a := 0 to |matches|
      invariant i == |labels|
      invariant labels == LabelsSeen(Flatten(matches[..a]))
      invariant Indexes(positions, labels)
    {
      var ls := matches[a];
      ghost var done := Flatten(matches[..a]);
      assert done + ls[..0] == done;
      for b := 0 to |ls|
        invariant i == |labels|
        invariant labels == LabelsSeen(done + ls[..b])
        invariant Indexes(positions, labels)
      {
        var lm := ls[b];
        LabelsSeenInRow(done, ls, b);
        if lm.name in positions {
          continue;
        }
        IndexesNext(positions, labels, lm.name);
        labels := labels + [lm.name];
        positions := positions[lm.name := i];
        i := i + 1;
      }
      assert ls[..|ls|] == ls;
      FlattenNext(matches, a);
    }
    assert matches[..|matches|] == matches;
    LabelsSeenOnce(Flatten(matches));
    LabelsInOrderSeen(matches);
  }

  method LabelValues(ls: Selector, labels: seq<string>, positions: map<string, nat>) returns (row: seq<string>)
    requires Distinct(labels) && Indexes(positions, labels)
    requires forall m :: m in ls ==> m.name in labels
    ensures row == Row(ls, labels) && GivesRow(ls, labels, row)
  {
    var labelValues := new string[|labels|](_ => "");
    assert labelValues[..] == Row(ls[..0], labels);
    for b := 0 to |ls|
      invariant labelValues[..] == Row(ls[..b], labels)
    {
      var lm := ls[b];
      PrefixNext(ls, b);
      assert lm in ls;
      labelValues[positions[lm.name]] := lm.value;
      forall j | 0 <= j < |labels|
        ensures labelValues[j] == LastValue(ls[..b + 1], labels[j])
      {
        assert labels[j] == lm.name <==> j == positions[lm.name];
        assert LastValue(ls[..b], labels[j]) == Row(ls[..b], labels)[j];
      }
    }
    assert ls[..|ls|] == ls;
    row := labelValues[..];
    RowGiven(ls, labels);
  }

  lemma RegexPartsNext(matches: seq<Selector>, labels: seq<string>, a: nat)
    requires a < |matches|
    ensures RegexParts(matches[..a + 1], labels) == RegexParts(matches[..a], labels) + [RegexPart(matches[a], labels)]
  {
  }

  method RegexOf(matches: seq<Selector>, sourceLabels: seq<string>, labelPositions: map<string, nat>) returns (regex: string)
    requires Distinct(sourceLabels) && Indexes(labelPositions, sourceLabels)
    requires forall a, m :: 0 <= a < |matches| && m in matches[a] ==> m.name in sourceLabels
    ensures regex == "(" + Join(RegexParts(matches, sourceLabels), "|") + ")"
  {
    var regexParts := [];
    for a := 0 to |matches|
      invariant regexParts == RegexParts(matches[..a], sourceLabels)
    {
      var labelValues := LabelValues(matches[a], sourceLabels, labelPositions);
      regexParts := regexParts + [Join(labelValues, ";")];
      RegexPartsNext(matches, sourceLabels, a);
    }
    assert matches[..|matches|] == matches;
    regex := "(" + Join(regexParts, "|") + ")";
  }

  method LabelSelectorsToRelabelConfig(matches: seq<Selector>) returns (cfg: RelabelConfig, ghost rows: seq<seq<string>>)
    ensures cfg == Compile(matches) && cfg.action == "keep"
    ensures CompiledByIndices(cfg, matches, rows)
  {
    var sourceLabels, labelPositions := LabelPositions(matches);
    forall a, m | 0 <= a < |matches| && m in matches[a]
      ensures m.name in sourceLabels
    {
      LabelsSeenOnce(Flatten(matches));
      MentionedInFlatten(matches, a);
    }
    var regex := RegexOf(matches, sourceLabels, labelPositions);
    cfg := RelabelConfig("keep", sourceLabels, regex);
    rows := CompileIsByIndices(matches);
  }

  lemma CompileIsByIndices(matches: seq<Selector>) returns (rows: seq<seq<string>>)
    ensures CompiledByIndices(Compile(matches), matches, rows)
  {
    SourceLabelsAre(matches);
    LabelsSeenOnce(Flatten(matches));
    LabelsInOrderSeen(matches);
    var labels := LabelsSeen(Flatten(matches));
    rows := seq(|matches|, i requires 0 <= i < |matches| => Row(matches[i], labels));
    CompileJoinsRows(matches, rows);
    if matches != [] && FreeOf(matches, ';') && FreeOf(matches, '|') {
      RegexHoldsValues(matches);
    }
  }

  lemma CompileJoinsRows(matches: seq<Selector>, rows: seq<seq<string>>)
    requires |rows| == |matches|
    requires forall i :: 0 <= i < |matches| ==> rows[i] == Row(matches[i], Compile(matches).sourceLabels)
    ensures JoinsRows(Compile(matches).regex, Compile(matches).sourceLabels, matches, rows)
  {
    var labels := Compile(matches).sourceLabels;
    forall i | 0 <= i < |matches|
      ensures GivesRow(matches[i], labels, rows[i])
    {
      RowGiven(matches[i], labels);
    }
    assert RegexParts(matches, labels) == seq(|rows|, i requires 0 <= i < |rows| => Join(rows[i], ";"));
  }

  lemma {:induction false} FlattenHasOnly(matches: seq<Selector>, m: Matcher)
    requires m in Flatten(matches)
    ensures exists i :: 0 <= i < |matches| && m in matches[i]
  {
    var n := |matches| - 1;
    if m !in matches[n] {
      FlattenHasOnly(matches[..n], m);
    }
  }

  /** The source labels are the labels some selector mentions. */
  lemma SourceLabelsAre(matches: seq<Selector>)
    ensures forall l :: l in LabelsSeen(Flatten(matches)) <==> exists i :: 0 <= i < |matches| && Mentions(matches[i], l)
  {
    LabelsSeenOnce(Flatten(matches));
    forall l
      ensures Mentions(Flatten(matches), l) <==> exists i :: 0 <= i < |matches| && Mentions(matches[i], l)
    {
      if Mentions(Flatten(matches), l) {
        var m :| m in Flatten(matches) && m.name == l;
        FlattenHasOnly(matches, m);
      }
      if i :| 0 <= i < |matches| && Mentions(matches[i], l) {
        MentionedInFlatten(matches, i);
      }
    }
  }

  lemma {:induction false} MentionedInFlatten(matches: seq<Selector>, a: nat)
    requires a < |matches|
    ensures forall m :: m in matches[a] ==> m in Flatten(matches)
    decreases |matches|
  {
    if a < |matches| - 1 {
      MentionedInFlatten(matches[..|matches| - 1], a);
    }
  }

  ghost predicate Groups(grouped: map<string, seq<string>>, ms: seq<Matcher>) {
    && (forall l :: l in grouped <==> Mentions(ms, l))
    && (forall l :: l in grouped ==> grouped[l] == ValuesOf(ms, l))
  }

  lemma GroupsNext(grouped: map<string, seq<string>>, ms: seq<Matcher>, m: Matcher)
    requires Groups(grouped, ms)
    ensures Groups(grouped[m.name := (if m.name in grouped then grouped[m.name] else []) + [m.value]], ms + [m])
  {
    assert (ms + [m])[..|ms|] == ms;
    ValuesOfMentioned(ms, m.name);
    forall l ensures Mentions(ms + [m], l) <==> Mentions(ms, l) || l == m.name {
      assert m in ms + [m];
    }
  }

  method GroupValues(matches: seq<Selector>) returns (grouped: map<string, seq<string>>)
    ensures Groups(grouped, Flatten(matches))
  {
    grouped := map[];
    for a := 0 to |matches|
      invariant Groups(grouped, Flatten(matches[..a]))
    {
      var ls := matches[a];
      ghost var done := Flatten(matches[..a]);
      assert done + ls[..0] == done;
      for b := 0 to |ls|
        invariant Groups(grouped, done + ls[..b])
      {
        var lm := ls[b];
        GroupsNext(grouped, done + ls[..b], lm);
        AppendNext(done, ls, b);
        if lm.name in grouped {
          grouped := grouped[lm.name := grouped[lm.name] + [lm.value]];
        } else {
          grouped := grouped[lm.name := [lm.value]];
        }
      }
      assert ls[..|ls|] == ls;
      FlattenNext(matches, a);
    }
    assert matches[..|matches|] == matches;
  }

  /** The keys of a Go map come out in any order, each one once. */
  method MapKeys(grouped: map<string, seq<string>>) returns (keys: seq<string>)
    ensures Distinct(keys)
    ensures forall k :: k in keys <==> k in grouped
    ensures |keys| == |grouped|
  {
    keys := [];
    var rest := grouped.Keys;
    while rest != {}
      invariant rest <= grouped.Keys
      invariant Distinct(keys)
      invariant forall k :: k in keys <==> k in grouped.Keys - rest
      invariant |keys| + |rest| == |grouped|
    {
      var k :| k in rest;
      assert forall i :: 0 <= i < |keys| ==> keys[i] in keys;
      keys := keys + [k];
      rest := rest - {k};
    }
  }

  /**
    The text of a grouped selector: for each label mentioned, in increasing order, the label with its
    values in order, and the empty value after them unless it is the metric name.
   */
  ghost predicate PrintsLabels(text: string, labels: seq<string>, matches: seq<Selector>) {
    && StrictlySorted(labels)
    && (forall l :: l in labels <==> exists i :: 0 <= i < |matches| && Mentions(matches[i], l))
    && exists terms: seq<string> :: |terms| == |labels| && text == "{" + Join(terms, ",") + "}" &&
         forall k :: 0 <= k < |labels| ==>
           terms[k] == labels[k] + "=~\"" + Join(ValuesOf(Flatten(matches), labels[k]), "|") +
                       if labels[k] == "__name__" then "\"" else "|\""
  }

  lemma GroupedPrintsLabels(matches: seq<Selector>)
    ensures PrintsLabels(PrintGrouped(matches), SortedLabels(Flatten(matches)), matches)
  {
    var ms := Flatten(matches);
    var labels := SortedLabels(ms);
    var terms := Terms(ms, labels);
    SortedLabelsListAll(ms);
    SourceLabelsAre(matches);
    LabelsSeenOnce(ms);
    forall k | 0 <= k < |labels|
      ensures terms[k] == labels[k] + "=~\"" + Join(ValuesOf(ms, labels[k]), "|") +
                          if labels[k] == "__name__" then "\"" else "|\""
    {
      TermText(labels[k], Join(ValuesOf(ms, labels[k]), "|"));
    }
  }

  lemma TermText(name: string, values: string)
    ensures name + "=~\"" + (values + "|") + "\"" == name + "=~\"" + values + "|\""
    ensures name + "=~\"" + (values + "") + "\"" == name + "=~\"" + values + "\""
  {
  }

  method GroupLabelSelectors(matches: seq<Selector>) returns (res: string)
    ensures res == PrintGrouped(matches)
    ensures PrintsLabels(res, SortedLabels(Flatten(matches)), matches)
  {
    var newLabelSet := GroupValues(matches);
    var found := MapKeys(newLabelSet);
    var keys := SortStrings(found);
    ghost var ms := Flatten(matches);
    SortedLabelsListAll(ms);
    StrictOrderUnique(keys, SortedLabels(ms));
    SortKeepsLength(found);
    res := PrintSelector(newLabelSet, keys, ms);
    GroupedPrintsLabels(matches);
  }

  method PrintSelector(newLabelSet: map<string, seq<string>>, keys: seq<string>, ghost ms: seq<Matcher>)
      returns (res: string)
    requires Groups(newLabelSet, ms)
    requires |keys| == |newLabelSet| && forall k :: k in keys ==> k in newLabelSet
    ensures res == "{" + Join(Terms(ms, keys), ",") + "}"
  {
    ghost var terms := Terms(ms, keys);
    res := "{";
    var i := 0;
    for j := 0 to |keys|
      invariant i == j
      invariant res == Printed(terms, j)
    {
      var k := keys[j];
      assert k in keys && terms[j] == Term(ms, k);
      PrintedNext(terms, j);
      ghost var before := res;
      res := res + k + "=~\"";
      res := res + Join(newLabelSet[k], "|");
      i := i + 1;
      if k != METRIC_NAME {
        res := res + "|";
      }
      TermConcat(ms, k, before, res);
      if i == |newLabelSet| {
        res := res + "\"";
        continue;
      }
      res := res + "\",";
    }
    assert terms[..|keys|] == terms;
    res := res + "}";
  }

  /** What has been printed once the first j terms are out. */
  ghost function Printed(terms: seq<string>, j: nat): string
    requires j <= |terms|
  {
    "{" + Join(terms[..j], ",") + (if 0 < j < |terms| then "," else "")
  }

  lemma PrintedNext(terms: seq<string>, j: nat)
    requires j < |terms|
    ensures Printed(terms, j + 1) == Printed(terms, j) + terms[j] + (if j + 1 < |terms| then "," else "")
  {
    PrefixNext(terms, j);
    if j > 0 {
      JoinSnoc(terms[..j], terms[j], ",");
    }
  }

  lemma TermConcat(ms: seq<Matcher>, k: string, before: string, res: string)
    requires res == before + k + "=~\"" + Join(ValuesOf(ms, k), "|") + (if k != METRIC_NAME then "|" else "")
    ensures res + "\"" == before + Term(ms, k)
    ensures res + "\"," == before + Term(ms, k) + ","
  {
  }
}
