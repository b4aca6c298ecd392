/** Image references (pkg/manifests/image.go) and the -images command line flag (cmd/operator/main.go). */
module Images {
  import opened Results
  import opened Text
  import opened Order

  datatype Image = Image(repo: string, tag: string)

  datatype ImageError = InvalidImage

  function ImageFromString(s: string): Result<Image, ImageError> {
    var parts := Split(s, ':');
    var n := |parts|;
    if n < 2 then Err(InvalidImage)
    else Ok(Image(Join(parts[..n - 1], ":"), parts[n - 1]))
  }

  function ImageString(i: Image): string {
    i.repo + ":" + i.tag
  }

  /** Parsing succeeds exactly on strings with a colon, and printing undoes it. */
  lemma ParseThenPrint(s: string)
    ensures ImageFromString(s).Ok? <==> ':' in s
    ensures ':' in s ==> ImageString(ImageFromString(s).value) == s
  {
    var parts := Split(s, ':');
    SplitFree(s, ':');
    if |parts| >= 2 {
      var n := |parts| - 1;
      JoinSplit(s, ':');
      JoinSnoc(parts[..n], parts[n], ":");
      assert parts == parts[..n] + [parts[n]];
    }
  }

  /** Printing then parsing gives the image back exactly when its tag has no colon. */
  lemma PrintThenParse(i: Image)
    ensures ImageFromString(ImageString(i)) == Ok(i) <==> ':' !in i.tag
  {
    var s := ImageString(i);
    var parts, repoParts, tagParts := Split(s, ':'), Split(i.repo, ':'), Split(i.tag, ':');
    SplitConcat(i.repo, i.tag, ':');
    SplitFree(i.tag, ':');
    SplitPartsFree(s, ':');
    JoinSplit(i.repo, ':');
    if ':' !in i.tag {
      assert parts[..|parts| - 1] == repoParts;
    } else {
      assert ':' !in parts[|parts| - 1];
    }
  }

  // ---------- The -images flag ----------

  datatype FlagState = FlagState(images: map<string, string>, failed: bool)

  /** Inserting pairs one by one, up to the first malformed one. */
  function InsertPairs(m: map<string, string>, pairs: seq<string>): FlagState
    decreases |pairs|
  {
    if pairs == [] then FlagState(m, false)
    else
      var kv := Split(pairs[0], '=');
      if |kv| != 2 then FlagState(m, true) else InsertPairs(m[kv[0] := kv[1]], pairs[1..])
  }

  class ImagesFlag {
    var images: map<string, string>

    constructor ()
      ensures images == map[]
    {
      images := map[];
    }

    /** An error leaves the pairs before the malformed one inserted. */
    method Set(value: string) returns (failed: bool)
      modifies this
      ensures FlagState(images, failed) == InsertPairs(old(images), Split(value, ','))
    {
      var pairs := Split(value, ',');
      for i := 0 to |pairs|
        invariant InsertPairs(images, pairs[i..]) == InsertPairs(old(images), pairs)
      {
        var splitPair := Split(pairs[i], '=');
        assert pairs[i..][0] == pairs[i] && pairs[i..][1..] == pairs[i + 1..];
        if |splitPair| != 2 {
          return true;
        }
        images := images[splitPair[0] := splitPair[1]];
      }
      return false;
    }

    /** The pairs come out in whatever order the map is walked. */
    method AsSlice() returns (pairs: seq<string>)
      ensures PairsOfWalk(pairs, images)
    {
      pairs := [];
      ghost var names: seq<string> := [];
      var rest := images.Keys;
      while rest != {}
        invariant rest <= images.Keys && Distinct(names)
        invariant forall k :: k in names <==> k in images.Keys - rest
        invariant |names| + |rest| == |images|
        invariant pairs == Pairs(names, images)
      {
        var name :| name in rest;
        assert forall i :: 0 <= i < |names| ==> names[i] in names;
        assert Pairs(names + [name], images) == Pairs(names, images) + [name + "=" + images[name]];
        pairs := pairs + [name + "=" + images[name]];
        names := names + [name];
        rest := rest - {name};
      }
    }

    method String() returns (s: string)
      ensures exists pairs :: PairsOfWalk(pairs, images) && s == Join(pairs, ",")
    {
      var slice := AsSlice();
      s := Join(slice, ",");
    }
  }

  /** One walk over a map: every key once, in some order. */
  ghost predicate Walk(names: seq<string>, m: map<string, string>) {
    Distinct(names) && |names| == |m| && forall k :: k in names <==> k in m
  }

  ghost predicate PairsOfWalk(pairs: seq<string>, m: map<string, string>) {
    exists names :: Walk(names, m) && pairs == Pairs(names, m)
  }

  function Pairs(names: seq<string>, m: map<string, string>): seq<string>
    requires forall k :: k in names ==> k in m
  {
    seq(|names|, i requires 0 <= i < |names| => names[i] + "=" + m[names[i]])
  }

  ghost predicate Clean(v: string) {
    '=' !in v && ',' !in v
  }

  ghost predicate CleanMap(m: map<string, string>) {
    forall k :: k in m ==> Clean(k) && Clean(m[k])
  }

  lemma CleanPair(k: string, v: string)
    requires Clean(k) && Clean(v)
    ensures Split(k + "=" + v, '=') == [k, v]
    ensures ',' !in k + "=" + v
  {
    SplitConcat(k, v, '=');
    SplitFree(k, '=');
    SplitFree(v, '=');
  }

  lemma {:induction false} InsertAllPairs(start: map<string, string>, names: seq<string>, m: map<string, string>)
    requires CleanMap(m)
    requires forall k :: k in names ==> k in m
    ensures var r := InsertPairs(start, Pairs(names, m));
            && !r.failed
            && (forall k :: k in r.images <==> k in start || k in names)
            && (forall k :: k in r.images ==> r.images[k] == if k in names then m[k] else start[k])
    decreases |names|
  {
    if names != [] {
      var name := names[0];
      CleanPair(name, m[name]);
      assert Pairs(names, m)[1..] == Pairs(names[1..], m);
      assert forall k :: k in names <==> k == name || k in names[1..];
      InsertAllPairs(start[name := m[name]], names[1..], m);
    }
  }

  lemma {:induction false} InsertedIsClean(start: map<string, string>, pairs: seq<string>)
    requires CleanMap(start) && AllFree(pairs, ',')
    ensures CleanMap(InsertPairs(start, pairs).images)
    decreases |pairs|
  {
    if pairs != [] {
      var kv := Split(pairs[0], '=');
      if |kv| == 2 {
        SplitPartsFree(pairs[0], '=');
        JoinSplit(pairs[0], '=');
        assert Join(kv, "=") == kv[0] + "=" + kv[1];
        InsertedIsClean(start[kv[0] := kv[1]], pairs[1..]);
      }
    }
  }

  /**
    Set of what String printed, on an empty map, succeeds and rebuilds the map exactly when the map
    is not empty and holds no '=' or ',' in any name or tag, whatever order String walked it in.
   */
  lemma FlagRoundTrip(m: map<string, string>, names: seq<string>)
    requires Walk(names, m)
    ensures InsertPairs(map[], Split(Join(Pairs(names, m), ","), ',')) == FlagState(m, false) <==>
            m != map[] && CleanMap(m)
  {
    if m == map[] {
      EmptyFlagFails(m, names);
    } else if CleanMap(m) {
      CleanFlagRebuilds(m, names);
    } else {
      var text := Join(Pairs(names, m), ",");
      SplitPartsFree(text, ',');
      InsertedIsClean(map[], Split(text, ','));
    }
  }

  lemma EmptyFlagFails(m: map<string, string>, names: seq<string>)
    requires Walk(names, m) && m == map[]
    ensures InsertPairs(map[], Split(Join(Pairs(names, m), ","), ',')).failed
  {
    assert Split("", ',') == [""] && Split("", '=') == [""];
  }

  lemma CleanFlagRebuilds(m: map<string, string>, names: seq<string>)
    requires Walk(names, m) && m != map[] && CleanMap(m)
    ensures InsertPairs(map[], Split(Join(Pairs(names, m), ","), ',')) == FlagState(m, false)
  {
    var pairs := Pairs(names, m);
    var k :| k in m;
    assert k in names;
    forall i | 0 <= i < |names|
      ensures ',' !in pairs[i]
    {
      assert names[i] in names;
      CleanPair(names[i], m[names[i]]);
    }
    SplitJoin(pairs, ',');
    InsertAllPairs(map[], names, m);
    assert InsertPairs(map[], pairs).images == m;
  }
}
