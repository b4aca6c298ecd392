/**
  The grouped selector as PromQL reads it back: the printed text parses to the label-to-values map
  it came from, does not depend on matcher or map order, and matches whatever the relabel
  configuration compiled from the same list keeps.
 */
module Grouped {
  import opened Results
  import opened Text
  import opened Order
  import opened PromQLGen
  import opened Relabel

  /** One parsed term: label =~ "pattern". */
  datatype RegexTerm = RegexTerm(name: string, pattern: string)

  // ---------- A parser for the fragment of PromQL that is printed ----------

  predicate LabelChar(c: char) {
    'a' <= c <= 'z' || 'A' <= c <= 'Z' || '0' <= c <= '9' || c == '_'
  }

  predicate LabelName(l: string) {
    l != "" && forall c :: c in l ==> LabelChar(c)
  }

  /** A double-quoted PromQL string that stands for itself: no quote, no escape, no line break. */
  predicate Quotable(v: string) {
    '"' !in v && '\\' !in v && '\n' !in v
  }

  function ParseTerms(s: string): Option<seq<RegexTerm>>
    decreases |s|
  {
    var e := IndexOf(s, '"');
    if e == |s| || e < 2 || s[e - 2..e] != "=~" || !LabelName(s[..e - 2]) then None
    else
      var name, rest := s[..e - 2], s[e + 1..];
      var q := IndexOf(rest, '"');
      if q == |rest| || !Quotable(rest[..q]) then None
      else
        var term, tail := RegexTerm(name, rest[..q]), rest[q + 1..];
        if tail == "}" then Some([term])
        else if tail == "" || tail[0] != ',' then None
        else
          match ParseTerms(tail[1..])
          case None => None
          case Some(terms) => Some([term] + terms)
  }

  function ParseSelector(s: string): Option<seq<RegexTerm>> {
    if s == "{}" then Some([])
    else if s == "" || s[0] != '{' then None
    else ParseTerms(s[1..])
  }

  ghost predicate TermsMatch(terms: seq<RegexTerm>, s: Series) {
    forall t :: t in terms ==> RegexMatches(t.pattern, Val(s, t.name))
  }

  /** The selector the text stands for, applied to a series. */
  ghost predicate TextMatches(text: string, s: Series) {
    ParseSelector(text).Some? && TermsMatch(ParseSelector(text).value, s)
  }

  // ---------- Printing and parsing back ----------

  function GroupedTerm(ms: seq<Matcher>, name: string): RegexTerm {
    RegexTerm(name, Pattern(ms, name))
  }

  function GroupedTerms(ms: seq<Matcher>, names: seq<string>): seq<RegexTerm> {
    seq(|names|, i requires 0 <= i < |names| => GroupedTerm(ms, names[i]))
  }

  ghost predicate Printable(ms: seq<Matcher>) {
    forall m :: m in ms ==> LabelName(m.name) && Quotable(m.value)
  }

  /** Reading one term off the front of a text. */
  lemma ParseOneTerm(name: string, pattern: string, tail: string)
    requires LabelName(name) && Quotable(pattern)
    ensures var text := name + "=~\"" + pattern + "\"" + tail;
            ParseTerms(text) ==
            if tail == "}" then Some([RegexTerm(name, pattern)])
            else if tail == "" || tail[0] != ',' || ParseTerms(tail[1..]).None? then None
            else Some([RegexTerm(name, pattern)] + ParseTerms(tail[1..]).value)
  {
    var text := name + "=~\"" + pattern + "\"" + tail;
    var head := name + "=~";
    var rest := pattern + "\"" + tail;
    assert text == head + ['"'] + rest;
    assert '"' !in head by {
      assert !LabelChar('"');
    }
    IndexOfConcat(head, rest, '"');
    assert text[..|name|] == name && text[|name|..|head|] == "=~" && text[|head| + 1..] == rest;
    IndexOfConcat(pattern, tail, '"');
    assert rest == pattern + ['"'] + tail;
    assert rest[..|pattern|] == pattern && rest[|pattern| + 1..] == tail;
  }

  lemma PatternQuotable(ms: seq<Matcher>, name: string)
    requires Printable(ms)
    ensures Quotable(Pattern(ms, name))
  {
    var values := ValuesOf(ms, name);
    ValuesOfMentioned(ms, name);
    assert forall i :: 0 <= i < |values| ==> values[i] in values;
    JoinFree(values, "|", '"');
    JoinFree(values, "|", '\\');
    JoinFree(values, "|", '\n');
  }

  lemma GroupedTermsCons(ms: seq<Matcher>, names: seq<string>)
    requires names != []
    ensures GroupedTerms(ms, names) == [GroupedTerm(ms, names[0])] + GroupedTerms(ms, names[1..])
  {
  }

  lemma JoinedTermsText(ms: seq<Matcher>, names: seq<string>)
    requires |names| > 1
    ensures Join(Terms(ms, names), ",") + "}" ==
            names[0] + "=~\"" + Pattern(ms, names[0]) + "\"" + ("," + (Join(Terms(ms, names[1..]), ",") + "}"))
  {
    assert Terms(ms, names[1..]) == Terms(ms, names)[1..];
  }

  lemma {:induction false} ParseJoinedTerms(ms: seq<Matcher>, names: seq<string>)
    requires Printable(ms) && names != []
    requires forall l :: l in names ==> LabelName(l)
    ensures ParseTerms(Join(Terms(ms, names), ",") + "}") == Some(GroupedTerms(ms, names))
  {
    var terms := Terms(ms, names);
    var name, pattern := names[0], Pattern(ms, names[0]);
    PatternQuotable(ms, name);
    if |names| == 1 {
      assert Join(terms, ",") + "}" == name + "=~\"" + pattern + "\"" + "}";
      ParseOneTerm(name, pattern, "}");
      assert GroupedTerms(ms, names) == [GroupedTerm(ms, name)];
    } else {
      var rest := Join(Terms(ms, names[1..]), ",") + "}";
      ParseJoinedTerms(ms, names[1..]);
      JoinedTermsText(ms, names);
      assert ("," + rest)[1..] == rest;
      ParseOneTerm(name, pattern, "," + rest);
      GroupedTermsCons(ms, names);
    }
  }

  /** The printed selector parses back to one term per label, in strictly increasing label order. */
  lemma PrintedParsesBack(matches: seq<Selector>)
    requires Printable(Flatten(matches))
    ensures ParseSelector(PrintGrouped(matches)) ==
            Some(GroupedTerms(Flatten(matches), SortedLabels(Flatten(matches))))
    ensures StrictlySorted(SortedLabels(Flatten(matches)))
    ensures forall l :: l in SortedLabels(Flatten(matches)) <==> Mentions(Flatten(matches), l)
  {
    var ms := Flatten(matches);
    var names := SortedLabels(ms);
    var text := PrintGrouped(matches);
    SortedLabelsListAll(ms);
    if names == [] {
      assert text == "{}" && GroupedTerms(ms, names) == [];
    } else {
      ParseJoinedTerms(ms, names);
      ParseBraced(Join(Terms(ms, names), ","));
    }
  }

  lemma ParseBraced(joined: string)
    requires ParseTerms(joined + "}").Some?
    ensures ParseSelector("{" + joined + "}") == ParseTerms(joined + "}")
  {
    var text := "{" + joined + "}";
    assert text[1..] == joined + "}";
    BraceIsNoTerm();
    assert joined == "" ==> joined + "}" == "}";
  }

  lemma BraceIsNoTerm()
    ensures ParseTerms("}").None?
  {
  }

  /** Splitting a pattern at its bars recovers the values of its label, and "" after them unless it is the metric name. */
  lemma PatternHoldsValues(ms: seq<Matcher>, name: string)
    requires Mentions(ms, name)
    requires forall m :: m in ms ==> '|' !in m.value
    ensures Split(Pattern(ms, name), '|') == ValuesOf(ms, name) + (if name != "__name__" then [""] else [])
  {
    var values := ValuesOf(ms, name);
    ValuesOfMentioned(ms, name);
    assert forall i :: 0 <= i < |values| ==> values[i] in values;
    if name == METRIC_NAME {
      SplitJoin(values, '|');
      assert Pattern(ms, name) == Join(values, "|");
      assert values + [] == values;
    } else {
      JoinSnoc(values, "", "|");
      assert Pattern(ms, name) == Join(values + [""], "|");
      SplitJoin(values + [""], '|');
    }
  }

  // ---------- Independence from matcher order ----------

  lemma {:induction false} ValuesOfConcat(a: seq<Matcher>, b: seq<Matcher>, name: string)
    ensures ValuesOf(a + b, name) == ValuesOf(a, name) + ValuesOf(b, name)
  {
    if b == [] {
      assert a + b == a;
    } else {
      var n := |b| - 1;
      ValuesOfConcat(a, b[..n], name);
      AppendNext(a, b, n);
      assert b[..n + 1] == b;
      ValuesOfNext(a + b[..n], b[n], name);
    }
  }

  lemma ValuesOfNext(ms: seq<Matcher>, m: Matcher, name: string)
    ensures ValuesOf(ms + [m], name) == if m.name == name then ValuesOf(ms, name) + [m.value] else ValuesOf(ms, name)
  {
  }

  lemma {:induction false} ValuesOfDistinct(ls: Selector, m: Matcher)
    requires DistinctLabels(ls) && m in ls
    ensures ValuesOf(ls, m.name) == [m.value]
  {
    var n := |ls| - 1;
    if ls[n] == m {
      ValuesOfMentioned(ls[..n], m.name);
      assert forall i :: 0 <= i < n ==> ls[..n][i].name != m.name;
    } else {
      var i :| 0 <= i < n && ls[i] == m;
      assert ls[..n][i] == m;
      ValuesOfDistinct(ls[..n], m);
    }
  }

  lemma ValuesOfPermuted(a: Selector, b: Selector, name: string)
    requires multiset(a) == multiset(b) && DistinctLabels(a) && DistinctLabels(b)
    ensures ValuesOf(a, name) == ValuesOf(b, name)
  {
    assert forall m :: m in a <==> m in multiset(a);
    assert forall m :: m in b <==> m in multiset(b);
    ValuesOfMentioned(a, name);
    ValuesOfMentioned(b, name);
    if m :| m in a && m.name == name {
      ValuesOfDistinct(a, m);
      ValuesOfDistinct(b, m);
    }
  }

  ghost predicate Reordered(a: seq<Selector>, b: seq<Selector>) {
    && |a| == |b|
    && forall i :: 0 <= i < |a| ==> multiset(a[i]) == multiset(b[i]) && DistinctLabels(a[i]) && DistinctLabels(b[i])
  }

  lemma {:induction false} ValuesOfReordered(a: seq<Selector>, b: seq<Selector>, name: string)
    requires Reordered(a, b)
    ensures ValuesOf(Flatten(a), name) == ValuesOf(Flatten(b), name)
  {
    if a != [] {
      var n := |a| - 1;
      ValuesOfReordered(a[..n], b[..n], name);
      ValuesOfConcat(Flatten(a[..n]), a[n], name);
      ValuesOfConcat(Flatten(b[..n]), b[n], name);
      ValuesOfPermuted(a[n], b[n], name);
    }
  }

  /** Reordering the matchers inside any selector leaves the printed text unchanged. */
  lemma MatcherOrderIrrelevant(a: seq<Selector>, b: seq<Selector>)
    requires Reordered(a, b)
    ensures PrintGrouped(a) == PrintGrouped(b)
  {
    var ma, mb := Flatten(a), Flatten(b);
    forall l
      ensures ValuesOf(ma, l) == ValuesOf(mb, l)
      ensures Mentions(ma, l) <==> Mentions(mb, l)
    {
      ValuesOfReordered(a, b, l);
      ValuesOfMentioned(ma, l);
      ValuesOfMentioned(mb, l);
    }
    SortedLabelsListAll(ma);
    SortedLabelsListAll(mb);
    StrictOrderUnique(SortedLabels(ma), SortedLabels(mb));
    assert Terms(ma, SortedLabels(ma)) == Terms(mb, SortedLabels(mb));
  }

  // ---------- Containment of the two back ends ----------

  lemma PlainFlatten(matches: seq<Selector>)
    requires PlainValues(matches)
    ensures forall m :: m in Flatten(matches) ==> PlainValue(m.value) && '|' !in m.value
  {
  }

  lemma PatternMeaning(ms: seq<Matcher>, name: string, v: string)
    requires Mentions(ms, name)
    requires forall m :: m in ms ==> PlainValue(m.value) && '|' !in m.value
    ensures RegexMatches(Pattern(ms, name), v) <==>
            v in ValuesOf(ms, name) || (v == "" && name != METRIC_NAME)
  {
    var re := Pattern(ms, name);
    var values := ValuesOf(ms, name);
    PatternHoldsValues(ms, name);
    ValuesOfMentioned(ms, name);
    assert forall i :: 0 <= i < |values| ==> values[i] in values;
    assert Body(re) == re by {
      forall i | 0 <= i < |values|
        ensures '(' !in values[i]
      {
        assert '(' in METACHARACTERS;
      }
      JoinFree(values, "|", '(');
    }
    assert Literal("");
    var alts := Split(re, '|');
    assert forall i :: 0 <= i < |alts| ==> Literal(alts[i]);
    assert Alternatives(re) == Some(alts);
  }

  /** What the printed selector matches, label by label. */
  lemma GroupedMeaning(matches: seq<Selector>, s: Series)
    requires PlainValues(matches) && Printable(Flatten(matches))
    ensures TextMatches(PrintGrouped(matches), s) <==>
            forall l :: Mentions(Flatten(matches), l) ==>
              Val(s, l) in ValuesOf(Flatten(matches), l) || (Val(s, l) == "" && l != "__name__")
  {
    var ms := Flatten(matches);
    var names := SortedLabels(ms);
    var terms := GroupedTerms(ms, names);
    PrintedParsesBack(matches);
    PlainFlatten(matches);
    GroupedTermsListAll(ms, names);
    forall l | Mentions(ms, l)
      ensures RegexMatches(Pattern(ms, l), Val(s, l)) <==>
              Val(s, l) in ValuesOf(ms, l) || (Val(s, l) == "" && l != METRIC_NAME)
    {
      PatternMeaning(ms, l, Val(s, l));
    }
    assert TermsMatch(terms, s) <==> forall l :: Mentions(ms, l) ==> RegexMatches(Pattern(ms, l), Val(s, l));
  }

  lemma GroupedTermsListAll(ms: seq<Matcher>, names: seq<string>)
    ensures forall l :: l in names ==> GroupedTerm(ms, l) in GroupedTerms(ms, names)
    ensures forall t :: t in GroupedTerms(ms, names) ==> t.name in names && t == GroupedTerm(ms, t.name)
  {
    var terms := GroupedTerms(ms, names);
    forall l | l in names
      ensures GroupedTerm(ms, l) in terms
    {
      var i :| 0 <= i < |names| && names[i] == l;
      assert terms[i] == GroupedTerm(ms, l);
    }
  }

  lemma {:induction false} LastValueIsListed(ls: Selector, name: string)
    requires Mentions(ls, name)
    ensures LastValue(ls, name) in ValuesOf(ls, name)
  {
    var n := |ls| - 1;
    if ls[n].name != name {
      var m :| m in ls && m.name == name;
      assert m in ls[..n];
      LastValueIsListed(ls[..n], name);
    }
  }

  lemma SelectorValuesListed(matches: seq<Selector>, i: nat, name: string)
    requires i < |matches|
    ensures forall v :: v in ValuesOf(matches[i], name) ==> v in ValuesOf(Flatten(matches), name)
  {
    ValuesOfMentioned(matches[i], name);
    ValuesOfMentioned(Flatten(matches), name);
    MentionedInFlatten(matches, i);
  }

  /** No selector is silent on the metric name while others give it, always non-empty. */
  ghost predicate NameCovered(matches: seq<Selector>) {
    || !Mentions(Flatten(matches), METRIC_NAME)
    || "" in ValuesOf(Flatten(matches), METRIC_NAME)
    || forall i :: 0 <= i < |matches| ==> Mentions(matches[i], METRIC_NAME)
  }

  lemma KeptIsMatched(matches: seq<Selector>, s: Series)
    requires PlainValues(matches) && Printable(Flatten(matches)) && NameCovered(matches)
    requires Keeps(Compile(matches), s)
    ensures TextMatches(PrintGrouped(matches), s)
  {
    var ms := Flatten(matches);
    CompiledMeaning(matches, s);
    GroupedMeaning(matches, s);
    LabelsSeenOnce(ms);
    if matches != [] {
      var i :| 0 <= i < |matches| && AgreesOn(Compile(matches).sourceLabels, matches[i], s);
      forall l | Mentions(ms, l)
        ensures Val(s, l) in ValuesOf(ms, l) || (Val(s, l) == "" && l != METRIC_NAME)
      {
        assert Val(s, l) == LastValue(matches[i], l);
        if Mentions(matches[i], l) {
          LastValueIsListed(matches[i], l);
          SelectorValuesListed(matches, i, l);
        } else {
          LastValueUnmentioned(matches[i], l);
        }
      }
    }
  }

  /**
    Containment of the two back ends, exactly: every series the relabel configuration keeps is
    matched by the printed selector if and only if no selector is silent on the metric name while
    another gives it, always with a value.
   */
  lemma ContainmentExact(matches: seq<Selector>)
    requires PlainValues(matches) && Printable(Flatten(matches))
    ensures (forall s :: Keeps(Compile(matches), s) ==> TextMatches(PrintGrouped(matches), s)) <==>
            NameCovered(matches)
  {
    if NameCovered(matches) {
      forall s | Keeps(Compile(matches), s)
        ensures TextMatches(PrintGrouped(matches), s)
      {
        KeptIsMatched(matches, s);
      }
    } else {
      var labels := Compile(matches).sourceLabels;
      var i :| 0 <= i < |matches| && !Mentions(matches[i], METRIC_NAME);
      var s := Agreeing(labels, matches[i]);
      assert AgreesOn(labels, matches[i], s);
      CompiledMeaning(matches, s);
      GroupedMeaning(matches, s);
      LabelsSeenOnce(Flatten(matches));
      LastValueUnmentioned(matches[i], METRIC_NAME);
      assert Val(s, METRIC_NAME) == "";
      assert !TextMatches(PrintGrouped(matches), s);
    }
  }
}
