/**
  What a compiled relabel configuration keeps, said without looking at the text of its regular
  expression: the meaning-preservation theorem of the telemetry compiler.
 */
module Relabel {
  import opened Results
  import opened Text
  import opened Order
  import opened PromQLGen

  /** A series is its label set; Prometheus reads an absent label as the empty string. */
  type Series = map<string, string>

  function Val(s: Series, name: string): string {
    if name in s then s[name] else ""
  }

  // ---------- Prometheus' side ----------

  const METACHARACTERS := "\\.+*?()|[]{}^$"

  ghost predicate Literal(v: string) {
    forall c :: c in v ==> c !in METACHARACTERS
  }

  /** A regular expression without its outer group, if it has one. */
  function Body(re: string): string {
    if |re| >= 2 && re[0] == '(' && re[|re| - 1] == ')' then re[1..|re| - 1] else re
  }

  /**
    Fully anchored regular expressions, for the fragment both compilers emit: an optional outer
    group around alternatives that are literals. None for anything outside the fragment.
   */
  ghost function Alternatives(re: string): Option<seq<string>> {
    var alts := Split(Body(re), '|');
    if forall i :: 0 <= i < |alts| ==> Literal(alts[i]) then Some(alts) else None
  }

  ghost predicate RegexMatches(re: string, v: string) {
    Alternatives(re).Some? && v in Alternatives(re).value
  }

  /** The values a "keep" rule joins with its default separator before matching. */
  function SourceValues(labels: seq<string>, s: Series): seq<string> {
    seq(|labels|, i requires 0 <= i < |labels| => Val(s, labels[i]))
  }

  ghost predicate Keeps(cfg: RelabelConfig, s: Series) {
    cfg.action == "keep" && RegexMatches(cfg.regex, Join(SourceValues(cfg.sourceLabels, s), ";"))
  }

  ghost predicate MatcherMatches(m: Matcher, s: Series) {
    match m.kind
    case Equal => Val(s, m.name) == m.value
    case NotEqual => Val(s, m.name) != m.value
    case Regexp => RegexMatches(m.value, Val(s, m.name))
    case NotRegexp => !RegexMatches(m.value, Val(s, m.name))
  }

  ghost predicate Selects(ls: Selector, s: Series) {
    forall m :: m in ls ==> MatcherMatches(m, s)
  }

  // ---------- The inputs the compiler is meant for ----------

  ghost predicate PlainValue(v: string) {
    Literal(v) && ';' !in v
  }

  ghost predicate PlainValues(matches: seq<Selector>) {
    forall i, m :: 0 <= i < |matches| && m in matches[i] ==> PlainValue(m.value)
  }

  predicate Positive(m: Matcher) {
    m.kind.Equal? || m.kind.Regexp?
  }

  /** The series agrees, on every source label, with what the selector says of it, silence meaning "". */
  ghost predicate AgreesOn(labels: seq<string>, ls: Selector, s: Series) {
    forall l :: l in labels ==> Val(s, l) == LastValue(ls, l)
  }

  /**
    What the i-th selector means to the compiler's callers: it selects the series, and the series
    leaves every source label the selector does not mention empty.
   */
  ghost predicate Meant(matches: seq<Selector>, i: nat, s: Series)
    requires i < |matches|
  {
    && Selects(matches[i], s)
    && forall l :: l in Compile(matches).sourceLabels && !Mentions(matches[i], l) ==> Val(s, l) == ""
  }

  ghost predicate PreservesMeaning(matches: seq<Selector>) {
    forall s :: Keeps(Compile(matches), s) <==> exists i: nat :: i < |matches| && Meant(matches, i, s)
  }

  // ---------- Theorems ----------

  lemma {:induction false} LastValuePlain(ls: Selector, name: string)
    requires forall m :: m in ls ==> PlainValue(m.value)
    ensures PlainValue(LastValue(ls, name))
  {
    if ls != [] {
      assert ls[|ls| - 1] in ls;
      LastValuePlain(ls[..|ls| - 1], name);
    }
  }

  /** A regex part is a literal with no alternation bar in it. */
  lemma PartIsLiteral(ls: Selector, labels: seq<string>)
    requires forall m :: m in ls ==> PlainValue(m.value)
    ensures AllFree(Row(ls, labels), ';')
    ensures Literal(RegexPart(ls, labels)) && '|' !in RegexPart(ls, labels)
  {
    var row := Row(ls, labels);
    forall i | 0 <= i < |labels|
      ensures PlainValue(row[i])
    {
      LastValuePlain(ls, labels[i]);
    }
    forall c | c in METACHARACTERS
      ensures c !in Join(row, ";")
    {
      JoinFree(row, ";", c);
    }
    assert '|' in METACHARACTERS;
  }

  lemma CompiledAlternatives(matches: seq<Selector>, labels: seq<string>)
    requires PlainValues(matches)
    ensures Alternatives("(" + Join(RegexParts(matches, labels), "|") + ")") ==
            Some(if matches == [] then [""] else RegexParts(matches, labels))
  {
    var parts := RegexParts(matches, labels);
    var re := "(" + Join(parts, "|") + ")";
    assert Body(re) == Join(parts, "|");
    forall i | 0 <= i < |matches|
      ensures Literal(parts[i]) && '|' !in parts[i]
    {
      PartIsLiteral(matches[i], labels);
    }
    if matches != [] {
      SplitJoin(parts, '|');
    }
  }

  lemma PartMatches(labels: seq<string>, ls: Selector, s: Series)
    requires forall m :: m in ls ==> PlainValue(m.value)
    ensures Join(SourceValues(labels, s), ";") == RegexPart(ls, labels) <==> AgreesOn(labels, ls, s)
  {
    var values, row := SourceValues(labels, s), Row(ls, labels);
    PartIsLiteral(ls, labels);
    if Join(values, ";") == Join(row, ";") {
      JoinInjective(values, row, ';');
      forall l | l in labels
        ensures Val(s, l) == LastValue(ls, l)
      {
        var i :| 0 <= i < |labels| && labels[i] == l;
        assert values[i] == row[i];
      }
    }
    if AgreesOn(labels, ls, s) {
      assert forall i :: 0 <= i < |labels| ==> labels[i] in labels;
      assert values == row;
    }
  }

  /**
    Meaning of the compiled configuration, for any list of selectors with plain values, repeated
    labels included: a series is kept exactly when it agrees with some selector on every source
    label. An empty list keeps every series.
   */
  lemma CompiledMeaning(matches: seq<Selector>, s: Series)
    requires PlainValues(matches)
    ensures Keeps(Compile(matches), s) <==>
            matches == [] ||
            exists i :: 0 <= i < |matches| && AgreesOn(Compile(matches).sourceLabels, matches[i], s)
  {
    var cfg := Compile(matches);
    var parts := RegexParts(matches, cfg.sourceLabels);
    var joined := Join(SourceValues(cfg.sourceLabels, s), ";");
    CompiledAlternatives(matches, cfg.sourceLabels);
    forall i | 0 <= i < |matches|
      ensures joined == parts[i] <==> AgreesOn(cfg.sourceLabels, matches[i], s)
    {
      PartMatches(cfg.sourceLabels, matches[i], s);
    }
    if matches != [] {
      assert Keeps(cfg, s) <==> exists i :: 0 <= i < |parts| && parts[i] == joined;
    }
  }

  /** A plain value, read as a regular expression, matches itself alone. */
  lemma PlainMatchesItself(v: string, x: string)
    requires PlainValue(v)
    ensures RegexMatches(v, x) <==> x == v
  {
    assert '(' in METACHARACTERS && '|' in METACHARACTERS;
    assert Body(v) == v;
    assert Join([v], "|") == v;
    SplitJoin([v], '|');
  }

  lemma PlainMatcher(m: Matcher, s: Series)
    requires PlainValue(m.value)
    ensures MatcherMatches(m, s) <==> (Val(s, m.name) == m.value <==> Positive(m))
  {
    PlainMatchesItself(m.value, Val(s, m.name));
  }

  lemma {:induction false} LastValueOfDistinct(ls: Selector, m: Matcher)
    requires DistinctLabels(ls) && m in ls
    ensures LastValue(ls, m.name) == m.value
  {
    var n := |ls| - 1;
    if ls[n] != m {
      assert m in ls[..n];
      var i :| 0 <= i < n && ls[i] == m;
      assert ls[i].name != ls[n].name;
      LastValueOfDistinct(ls[..n], m);
    }
  }

  lemma {:induction false} LastValueUnmentioned(ls: Selector, name: string)
    requires !Mentions(ls, name)
    ensures LastValue(ls, name) == ""
  {
    if ls != [] {
      assert ls[|ls| - 1] in ls;
      LastValueUnmentioned(ls[..|ls| - 1], name);
    }
  }

  lemma {:induction false} LastMatcher(ls: Selector, name: string) returns (m: Matcher)
    requires Mentions(ls, name)
    ensures m in ls && m.name == name && m.value == LastValue(ls, name)
  {
    var n := |ls| - 1;
    if ls[n].name == name {
      m := ls[n];
    } else {
      var k :| k in ls && k.name == name;
      assert k in ls[..n];
      m := LastMatcher(ls[..n], name);
    }
  }

  /** On each label, exactly the matchers that are not negated give the last value. */
  ghost predicate Coherent(ls: Selector) {
    forall m :: m in ls ==> (Positive(m) <==> m.value == LastValue(ls, m.name))
  }

  lemma AgreementIsSelection(matches: seq<Selector>, i: nat, s: Series)
    requires PlainValues(matches) && i < |matches| && Coherent(matches[i])
    ensures AgreesOn(Compile(matches).sourceLabels, matches[i], s) <==> Meant(matches, i, s)
  {
    var ls, labels := matches[i], Compile(matches).sourceLabels;
    LabelsSeenOnce(Flatten(matches));
    MentionedInFlatten(matches, i);
    forall m | m in ls
      ensures m.name in labels
      ensures MatcherMatches(m, s) <==> (Val(s, m.name) == m.value <==> Positive(m))
    {
      PlainMatcher(m, s);
    }
    forall l | l in labels
      ensures !Mentions(ls, l) ==> LastValue(ls, l) == ""
      ensures Mentions(ls, l) && Selects(ls, s) ==> Val(s, l) == LastValue(ls, l)
    {
      if Mentions(ls, l) {
        var m := LastMatcher(ls, l);
      } else {
        LastValueUnmentioned(ls, l);
      }
    }
  }

  /** The series that agrees with one selector on every source label. */
  function Agreeing(labels: seq<string>, ls: Selector): Series {
    map l | l in labels :: LastValue(ls, l)
  }

  /**
    One selector of a list, repeated labels included: its regex part says what it means if and only
    if the selector is coherent.
   */
  lemma SelectorMeaningExactly(matches: seq<Selector>, i: nat)
    requires PlainValues(matches) && i < |matches|
    ensures (forall s :: AgreesOn(Compile(matches).sourceLabels, matches[i], s) <==> Meant(matches, i, s)) <==>
            Coherent(matches[i])
  {
    var ls, labels := matches[i], Compile(matches).sourceLabels;
    if Coherent(ls) {
      forall s
        ensures AgreesOn(labels, ls, s) <==> Meant(matches, i, s)
      {
        AgreementIsSelection(matches, i, s);
      }
    } else {
      var m :| m in ls && !(Positive(m) <==> m.value == LastValue(ls, m.name));
      var s := Agreeing(labels, ls);
      LabelsSeenOnce(Flatten(matches));
      MentionedInFlatten(matches, i);
      PlainMatcher(m, s);
      assert m.name in labels;
      assert AgreesOn(labels, ls, s) && !MatcherMatches(m, s);
    }
  }

  /** A rule compiled from coherent selectors keeps a series exactly when some selector means it. */
  lemma RelabelPreservesMeaning(matches: seq<Selector>)
    requires matches != [] && PlainValues(matches)
    requires forall i :: 0 <= i < |matches| ==> Coherent(matches[i])
    ensures PreservesMeaning(matches)
  {
    forall s
      ensures Keeps(Compile(matches), s) <==> exists i: nat :: i < |matches| && Meant(matches, i, s)
    {
      CompiledMeaning(matches, s);
      forall i: nat | i < |matches|
        ensures AgreesOn(Compile(matches).sourceLabels, matches[i], s) <==> Meant(matches, i, s)
      {
        AgreementIsSelection(matches, i, s);
      }
    }
  }

  // ---------- Negated matchers ----------

  /** A value none of the matchers gives, being longer than each. */
  function Longer(ms: seq<Matcher>): string {
    if ms == [] then "x" else ms[0].value + Longer(ms[1..])
  }

  lemma {:induction false} LongerThanEach(ms: seq<Matcher>)
    ensures |Longer(ms)| > 0
    ensures forall m :: m in ms ==> |m.value| < |Longer(ms)|
  {
    if ms != [] {
      LongerThanEach(ms[1..]);
    }
  }

  lemma {:induction false} LastValueShort(ls: Selector, name: string, n: nat)
    requires n > 0 && forall m :: m in ls ==> |m.value| < n
    ensures |LastValue(ls, name)| < n
  {
    if ls != [] {
      assert ls[|ls| - 1] in ls;
      LastValueShort(ls[..|ls| - 1], name, n);
    }
  }

  ghost predicate Negates(ls: Selector, name: string) {
    exists m :: m in ls && m.name == name && !Positive(m)
  }

  /** The series that gives each negated label of a selector an unheard-of value, and every other label what is asked. */
  ghost function Escaping(labels: seq<string>, ls: Selector, other: string): Series {
    map l | l in labels :: if Negates(ls, l) then other else LastValue(ls, l)
  }

  lemma EscapingMatches(labels: seq<string>, ls: Selector, other: string, m: Matcher)
    requires DistinctLabels(ls) && m in ls && m.name in labels && PlainValue(m.value) && |m.value| < |other|
    ensures MatcherMatches(m, Escaping(labels, ls, other))
  {
    var s := Escaping(labels, ls, other);
    PlainMatcher(m, s);
    LastValueOfDistinct(ls, m);
    if Positive(m) {
      assert !Negates(ls, m.name);
    } else {
      assert Val(s, m.name) == other && other != m.value;
    }
  }

  lemma EscapingIsSelected(labels: seq<string>, ls: Selector, other: string)
    requires DistinctLabels(ls)
    requires forall m :: m in ls ==> m.name in labels && PlainValue(m.value) && |m.value| < |other|
    ensures Selects(ls, Escaping(labels, ls, other))
    ensures forall l :: l in labels && !Mentions(ls, l) ==> Val(Escaping(labels, ls, other), l) == ""
  {
    forall m | m in ls
      ensures MatcherMatches(m, Escaping(labels, ls, other))
    {
      EscapingMatches(labels, ls, other, m);
    }
    forall l | l in labels && !Mentions(ls, l)
      ensures Val(Escaping(labels, ls, other), l) == ""
    {
      LastValueUnmentioned(ls, l);
    }
  }

  lemma EscapingIsMeant(matches: seq<Selector>, i: nat)
    requires PlainValues(matches) && i < |matches| && DistinctLabels(matches[i])
    ensures Meant(matches, i, Escaping(Compile(matches).sourceLabels, matches[i], Longer(Flatten(matches))))
  {
    LabelsSeenOnce(Flatten(matches));
    MentionedInFlatten(matches, i);
    LongerThanEach(Flatten(matches));
    EscapingIsSelected(LabelsSeen(Flatten(matches)), matches[i], Longer(Flatten(matches)));
  }

  lemma EscapingIsNotKept(matches: seq<Selector>, i: nat, m: Matcher)
    requires PlainValues(matches) && i < |matches| && m in matches[i] && !Positive(m)
    ensures !Keeps(Compile(matches), Escaping(Compile(matches).sourceLabels, matches[i], Longer(Flatten(matches))))
  {
    var labels, other := Compile(matches).sourceLabels, Longer(Flatten(matches));
    var s := Escaping(labels, matches[i], other);
    CompiledMeaning(matches, s);
    LabelsSeenOnce(Flatten(matches));
    MentionedInFlatten(matches, i);
    LongerThanEach(Flatten(matches));
    assert m.name in labels && Negates(matches[i], m.name);
    forall j | 0 <= j < |matches|
      ensures !AgreesOn(labels, matches[j], s)
    {
      MentionedInFlatten(matches, j);
      LastValueShort(matches[j], m.name, |other|);
      assert Val(s, m.name) == other;
    }
  }

  /**
    When compilation preserves meaning, exactly: selectors whose values are plain and whose labels are
    distinct compile to a rule that keeps precisely the series some selector means if and only if
    there is a selector and no matcher is negated.
   */
  lemma MeaningPreservedExactly(matches: seq<Selector>)
    requires PlainValues(matches)
    requires forall i :: 0 <= i < |matches| ==> DistinctLabels(matches[i])
    ensures PreservesMeaning(matches) <==>
            matches != [] && forall i, m :: 0 <= i < |matches| && m in matches[i] ==> Positive(m)
  {
    if matches == [] {
      CompiledMeaning(matches, map[]);
      assert Keeps(Compile(matches), map[]);
    } else if i, m :| 0 <= i < |matches| && m in matches[i] && !Positive(m) {
      EscapingIsMeant(matches, i);
      EscapingIsNotKept(matches, i, m);
    } else {
      forall i, m | 0 <= i < |matches| && m in matches[i]
        ensures m.value == LastValue(matches[i], m.name)
      {
        LastValueOfDistinct(matches[i], m);
      }
      RelabelPreservesMeaning(matches);
    }
  }

  /** Matcher types are not looked at: a negated matcher compiles to what it excludes. */
  lemma NegationIsIgnored(name: string, value: string)
    requires PlainValue(value) && value != ""
    ensures var matches := [[Matcher(NotEqual, name, value)]];
            var s: Series := map[name := value];
            Keeps(Compile(matches), s) && !Selects(matches[0], s)
  {
    var m := Matcher(NotEqual, name, value);
    var matches := [[m]];
    var s: Series := map[name := value];
    assert matches[..0] == [] && Flatten([]) == [];
    assert Flatten(matches) == [m];
    LabelsSeenNext([], m);
    assert [] + [m] == [m];
    var labels := Compile(matches).sourceLabels;
    assert labels == [name];
    CompiledMeaning(matches, s);
    assert AgreesOn(labels, matches[0], s);
    assert m in matches[0] && !MatcherMatches(m, s);
  }
}
