/**
  pkg/strings: turning a failure reason into PascalCase, on ASCII text. The number pattern is
  replaced leftmost first and without overlap, as Go's regexp.ReplaceAll does.
 */
module PascalCase {
  import opened Text

  ghost predicate Ascii(s: string) {
    forall c :: c in s ==> c as int < 128
  }

  predicate Lower(c: char) { 'a' <= c <= 'z' }

  predicate Upper(c: char) { 'A' <= c <= 'Z' }

  predicate Letter(c: char) { Lower(c) || Upper(c) }

  predicate Digit(c: char) { '0' <= c <= '9' }

  /** The characters at which words are cut. */
  predicate Cut(c: char) { c == '_' || c == ' ' || c == '-' }

  function ToUpper(c: char): char {
    if Lower(c) then c - 'a' + 'A' else c
  }

  function ToLower(c: char): char {
    if Upper(c) then c - 'A' + 'a' else c
  }

  // ---------- Specification ----------

  function DigitRun(s: string): (n: nat)
    ensures n <= |s|
    ensures forall i :: 0 <= i < n ==> Digit(s[i])
    ensures n < |s| ==> !Digit(s[n])
  {
    if s != "" && Digit(s[0]) then
      var m := DigitRun(s[1..]);
      assert forall i :: 1 <= i < m + 1 ==> s[i] == s[1..][i - 1];
      1 + m
    else 0
  }

  /** Where the digits after a leading letter end; 1 when the text does not start with such a number. */
  function NumberEnd(s: string): (d: nat)
    requires s != ""
    ensures 1 <= d <= |s|
  {
    if Letter(s[0]) then 1 + DigitRun(s[1..]) else 1
  }

  function MatchEnd(s: string, d: nat): (e: nat)
    requires d <= |s|
    ensures d <= e <= |s|
  {
    if d < |s| && Letter(s[d]) then d + 1 else d
  }

  /** A letter, the digits after it and at most one more letter make one match. */
  function AddWordBoundariesToNumbers(s: string): string
    decreases |s|
  {
    if s == "" then ""
    else
      var d := NumberEnd(s);
      if d > 1 then
        var e := MatchEnd(s, d);
        [s[0]] + " " + s[1..d] + " " + s[d..e] + AddWordBoundariesToNumbers(s[e..])
      else [s[0]] + AddWordBoundariesToNumbers(s[1..])
  }

  function TrimLeft(s: string): string {
    if s != "" && s[0] == ' ' then TrimLeft(s[1..]) else s
  }

  function TrimRight(s: string): string {
    if s != "" && s[|s| - 1] == ' ' then TrimRight(s[..|s| - 1]) else s
  }

  /** ASCII word characters; anything else ends a word for strings.Title. */
  predicate InWord(c: char) {
    Letter(c) || Digit(c) || c == '_'
  }

  function TitleAfter(prev: char, s: string): string
    decreases s
  {
    if s == "" then ""
    else [if InWord(prev) then s[0] else ToUpper(s[0])] + TitleAfter(s[0], s[1..])
  }

  function Title(s: string): string {
    TitleAfter(' ', s)
  }

  function TranslateWord(word: string, initCase: bool): string {
    if word == "http" then "HTTP"
    else if word == "url" then "URL"
    else if word == "ip" then "IP"
    else if initCase then Title(word)
    else word
  }

  /** The words of a text: the runs between cut characters, empty ones included. */
  function Bits(s: string): (bits: seq<string>)
    ensures |bits| >= 1
  {
    if s == "" then [""]
    else
      var n := |s| - 1;
      var bits := Bits(s[..n]);
      var last := |bits| - 1;
      if Cut(s[n]) then bits + [""] else bits[..last] + [bits[last] + [s[n]]]
  }

  function Translate(bits: seq<string>): string {
    if bits == [] then ""
    else Translate(bits[..|bits| - 1]) + TranslateWord(bits[|bits| - 1], |bits| != 1)
  }

  function Pascal(s: string): string {
    Title(Translate(Bits(TrimRight(TrimLeft(AddWordBoundariesToNumbers(s))))))
  }

  lemma BitsNext(t: string, k: nat, bits: seq<string>, n: string)
    requires k < |t| && bits + [n] == Bits(t[..k])
    ensures Bits(t[..k + 1]) == if Cut(t[k]) then bits + [n] + [""] else bits + [n + [t[k]]]
  {
    assert t[..k + 1][..k] == t[..k];
    assert (bits + [n])[..|bits|] == bits;
  }

  method Words(t: string) returns (bits: seq<string>)
    ensures bits == Bits(t)
  {
    var n := "";
    bits := [];
    for k := 0 to |t|
      invariant bits + [n] == Bits(t[..k])
    {
      var v := t[k];
      BitsNext(t, k, bits, n);
      if v == '_' || v == ' ' || v == '-' {
        bits := bits + [n];
        n := "";
      } else {
        n := n + [v];
      }
    }
    assert t[..|t|] == t;
    bits := bits + [n];
  }

  method TranslateWords(bits: seq<string>) returns (ret: string)
    ensures ret == Translate(bits)
  {
    ret := "";
    for i := 0 to |bits|
      invariant ret == Translate(bits[..i])
    {
      assert bits[..i + 1][..i] == bits[..i];
      ret := ret + TranslateWord(bits[i], i != 0);
    }
    assert bits[..|bits|] == bits;
  }

  method ToPascalCase(s: string) returns (ret: string)
    requires Ascii(s)
    ensures ret == Pascal(s)
  {
    var bits := Words(TrimRight(TrimLeft(AddWordBoundariesToNumbers(s))));
    ret := TranslateWords(bits);
    ret := Title(ret);
  }

  // ---------- Content is conserved ----------

  /** What is left of a text once separators are dropped and case is folded. */
  function Content(s: string): string {
    if s == "" then ""
    else (if Cut(s[0]) then "" else [ToLower(s[0])]) + Content(s[1..])
  }

  lemma {:induction false} ContentConcat(a: string, b: string)
    ensures Content(a + b) == Content(a) + Content(b)
  {
    if a == "" {
      assert a + b == b;
    } else {
      assert (a + b)[1..] == a[1..] + b;
      ContentConcat(a[1..], b);
    }
  }

  lemma ContentConcat4(a: string, b: string, c: string, d: string)
    ensures Content(a + b + c + d) == Content(a) + Content(b) + Content(c) + Content(d)
  {
    ContentConcat(a + b + c, d);
    ContentConcat(a + b, c);
    ContentConcat(a, b);
  }

  lemma MatchKeepsContent(head: string, digits: string, tail: string, rest: string, space: string)
    requires Content(space) == ""
    ensures Content(head + space + digits + space + tail + rest) ==
            Content(head) + Content(digits) + Content(tail) + Content(rest)
  {
    ContentConcat4(head, space, digits, space);
    ContentConcat(head + space + digits + space + tail, rest);
    ContentConcat(head + space + digits + space, tail);
  }

  lemma CutIntoFour(s: string, d: nat, e: nat)
    requires 1 <= d <= e <= |s|
    ensures Content(s) == Content([s[0]]) + Content(s[1..d]) + Content(s[d..e]) + Content(s[e..])
  {
    FourSlices(s, d, e);
    ContentConcat4([s[0]], s[1..d], s[d..e], s[e..]);
  }

  lemma FourSlices<T>(s: seq<T>, d: nat, e: nat)
    requires 1 <= d <= e <= |s|
    ensures s == [s[0]] + s[1..d] + s[d..e] + s[e..]
  {
  }

  lemma {:induction false} BoundariesKeepContent(s: string)
    ensures Content(AddWordBoundariesToNumbers(s)) == Content(s)
    decreases |s|
  {
    if s != "" {
      var d := NumberEnd(s);
      if d > 1 {
        var e := MatchEnd(s, d);
        BoundariesKeepContent(s[e..]);
        MatchKeepsContent([s[0]], s[1..d], s[d..e], AddWordBoundariesToNumbers(s[e..]), " ");
        CutIntoFour(s, d, e);
      } else {
        BoundariesKeepContent(s[1..]);
        ContentConcat([s[0]], AddWordBoundariesToNumbers(s[1..]));
      }
    }
  }

  lemma {:induction false} TrimLeftKeepsContent(s: string)
    ensures Content(TrimLeft(s)) == Content(s)
  {
    if s != "" && s[0] == ' ' {
      TrimLeftKeepsContent(s[1..]);
    }
  }

  lemma {:induction false} TrimRightKeepsContent(s: string)
    ensures Content(TrimRight(s)) == Content(s)
    decreases |s|
  {
    var n := |s| - 1;
    if s != "" && s[n] == ' ' {
      TrimRightKeepsContent(s[..n]);
      ContentConcat(s[..n], [s[n]]);
      assert s == s[..n] + [s[n]];
    }
  }

  lemma {:induction false} TitleKeepsContent(prev: char, s: string)
    ensures Content(TitleAfter(prev, s)) == Content(s)
    ensures |TitleAfter(prev, s)| == |s|
    ensures forall i :: 0 <= i < |s| ==> Cut(TitleAfter(prev, s)[i]) == Cut(s[i])
    decreases s
  {
    if s != "" {
      TitleKeepsContent(s[0], s[1..]);
      var t := TitleAfter(prev, s);
      assert t[1..] == TitleAfter(s[0], s[1..]);
    }
  }

  ghost predicate NoCut(s: string) {
    forall c :: c in s ==> !Cut(c)
  }

  lemma MappedWordsKeepContent()
    ensures Content("HTTP") == Content("http") && Content("URL") == Content("url") && Content("IP") == Content("ip")
  {
    SameFold("HTTP", "http");
    SameFold("URL", "url");
    SameFold("IP", "ip");
  }

  lemma {:induction false} SameFold(a: string, b: string)
    requires |a| == |b| && forall i :: 0 <= i < |a| ==> ToLower(a[i]) == ToLower(b[i]) && Cut(a[i]) == Cut(b[i])
    ensures Content(a) == Content(b)
  {
    if a != "" {
      SameFold(a[1..], b[1..]);
    }
  }

  lemma TranslateWordKeepsContent(word: string, initCase: bool)
    requires NoCut(word)
    ensures Content(TranslateWord(word, initCase)) == Content(word)
    ensures NoCut(TranslateWord(word, initCase))
  {
    TitleKeepsContent(' ', word);
    MappedWordsKeepContent();
    TitleCutFree(word);
    MappedWordsCutFree();
  }

  lemma TitleCutFree(s: string)
    requires NoCut(s)
    ensures NoCut(Title(s))
  {
    TitleKeepsContent(' ', s);
    assert forall i :: 0 <= i < |s| ==> s[i] in s;
  }

  lemma MappedWordsCutFree()
    ensures NoCut("HTTP") && NoCut("URL") && NoCut("IP")
  {
  }

  lemma {:induction false} BitsAreCutFree(s: string)
    ensures forall i :: 0 <= i < |Bits(s)| ==> NoCut(Bits(s)[i])
  {
    if s != "" {
      BitsAreCutFree(s[..|s| - 1]);
    }
  }

  function ContentOfAll(bits: seq<string>): string {
    if bits == [] then "" else ContentOfAll(bits[..|bits| - 1]) + Content(bits[|bits| - 1])
  }

  lemma BitGrows(bits: seq<string>, c: char)
    requires bits != []
    ensures var last := |bits| - 1;
            ContentOfAll(if Cut(c) then bits + [""] else bits[..last] + [bits[last] + [c]]) ==
            ContentOfAll(bits) + Content([c])
  {
    var last := |bits| - 1;
    if Cut(c) {
      assert (bits + [""])[..|bits|] == bits;
    } else {
      ContentConcat(bits[last], [c]);
      assert (bits[..last] + [bits[last] + [c]])[..last] == bits[..last];
    }
  }

  lemma {:induction false} BitsKeepContent(s: string)
    ensures ContentOfAll(Bits(s)) == Content(s)
  {
    if s != "" {
      var n := |s| - 1;
      BitsKeepContent(s[..n]);
      ContentConcat(s[..n], [s[n]]);
      assert s == s[..n] + [s[n]];
      BitGrows(Bits(s[..n]), s[n]);
    }
  }

  lemma {:induction false} TranslateKeepsContent(bits: seq<string>)
    requires forall i :: 0 <= i < |bits| ==> NoCut(bits[i])
    ensures Content(Translate(bits)) == ContentOfAll(bits)
    ensures NoCut(Translate(bits))
  {
    if bits != [] {
      var n := |bits| - 1;
      TranslateKeepsContent(bits[..n]);
      TranslateWordKeepsContent(bits[n], |bits| != 1);
      ContentConcat(Translate(bits[..n]), TranslateWord(bits[n], |bits| != 1));
    }
  }

  lemma WordsConserveContent(t: string)
    ensures Content(Translate(Bits(t))) == Content(t)
    ensures NoCut(Translate(Bits(t)))
  {
    BitsAreCutFree(t);
    BitsKeepContent(t);
    TranslateKeepsContent(Bits(t));
  }

  lemma TitleStartsUpper(s: string)
    requires NoCut(s)
    ensures Content(Title(s)) == Content(s) && NoCut(Title(s))
    ensures Title(s) != "" ==> !Lower(Title(s)[0])
  {
    TitleKeepsContent(' ', s);
    assert forall i :: 0 <= i < |s| ==> s[i] in s;
  }

  /**
    ToPascalCase loses and invents nothing but separators and case, leaves no separator behind
    and never starts with a lowercase letter.
   */
  lemma PascalConservesContent(s: string)
    requires Ascii(s)
    ensures Content(Pascal(s)) == Content(s)
    ensures NoCut(Pascal(s))
    ensures Pascal(s) != "" ==> !Lower(Pascal(s)[0])
  {
    var bounded := AddWordBoundariesToNumbers(s);
    BoundariesKeepContent(s);
    TrimLeftKeepsContent(bounded);
    TrimRightKeepsContent(TrimLeft(bounded));
    WordsConserveContent(TrimRight(TrimLeft(bounded)));
    TitleStartsUpper(Translate(Bits(TrimRight(TrimLeft(bounded)))));
  }

  // ---------- Where words begin, and how they are cased ----------

  ghost predicate HasNumber(s: string) {
    exists i :: 0 <= i < |s| - 1 && Letter(s[i]) && Digit(s[i + 1])
  }

  /** A text in which no digit follows a letter stays as it is. */
  lemma {:induction false} WithoutNumbers(s: string)
    requires !HasNumber(s)
    ensures AddWordBoundariesToNumbers(s) == s
    decreases |s|
  {
    if s != "" {
      var rest := s[1..];
      forall i | 0 <= i < |rest| - 1
        ensures !(Letter(rest[i]) && Digit(rest[i + 1]))
      {
        assert rest[i] == s[i + 1] && rest[i + 1] == s[i + 2];
      }
      assert Letter(s[0]) && rest != "" ==> !Digit(rest[0]);
      WithoutNumbers(rest);
      assert s == [s[0]] + rest;
    }
  }

  lemma {:induction false} DigitRunIs(d: string, y: string)
    requires (forall c :: c in d ==> Digit(c)) && (y != "" ==> !Digit(y[0]))
    ensures DigitRun(d + y) == |d|
  {
    if d == "" {
      assert d + y == y;
    } else {
      assert (d + y)[1..] == d[1..] + y;
      DigitRunIs(d[1..], y);
    }
  }

  /**
    The first number of a text, with the letter before it, is set apart by spaces. A letter right
    after it belongs to the same match, so that digits following that letter are not looked at.
   */
  lemma FirstNumberSetApart(x: string, l: char, d: string, y: string)
    requires !HasNumber(x + [l]) && Letter(l)
    requires d != "" && (forall c :: c in d ==> Digit(c)) && (y != "" ==> !Digit(y[0]))
    ensures AddWordBoundariesToNumbers(x + ([l] + (d + y))) ==
            x + ([l] + " " + d + " " + (if y != "" && Letter(y[0]) then [y[0]] + AddWordBoundariesToNumbers(y[1..])
                                        else AddWordBoundariesToNumbers(y)))
  {
    NumberAtStart(l, d, y);
    SkipsAhead(x, l, d + y);
  }

  /** What comes before the first number is copied. */
  lemma {:induction false} SkipsAhead(x: string, l: char, rest: string)
    requires !HasNumber(x + [l])
    ensures AddWordBoundariesToNumbers(x + ([l] + rest)) == x + AddWordBoundariesToNumbers([l] + rest)
    decreases |x|
  {
    if x == "" {
      assert x + ([l] + rest) == [l] + rest;
    } else {
      var tail := x[1..] + ([l] + rest);
      HeadOfConcat(x, l, rest);
      NoNumberLater(x, l);
      SkipsAhead(x[1..], l, rest);
      CopiesOne(x + ([l] + rest));
      PutInFront(x, AddWordBoundariesToNumbers([l] + rest));
    }
  }

  lemma HeadOfConcat(x: string, l: char, rest: string)
    requires x != ""
    ensures var s := x + ([l] + rest);
            s[0] == x[0] && s[1..] == x[1..] + ([l] + rest) && s[1] == (x + [l])[1]
  {
  }

  lemma PutInFront(x: string, y: string)
    requires x != ""
    ensures [x[0]] + (x[1..] + y) == x + y
  {
  }

  lemma CopiesOne(s: string)
    requires |s| >= 2 && !(Letter(s[0]) && Digit(s[1]))
    ensures AddWordBoundariesToNumbers(s) == [s[0]] + AddWordBoundariesToNumbers(s[1..])
  {
    assert s[1..][0] == s[1];
  }

  lemma NoNumberLater(x: string, l: char)
    requires x != "" && !HasNumber(x + [l])
    ensures !HasNumber(x[1..] + [l])
    ensures Letter(x[0]) ==> !Digit((x + [l])[1])
  {
    var s, t := x + [l], x[1..] + [l];
    assert forall i :: 0 <= i < |t| ==> t[i] == s[i + 1];
    assert s[0] == x[0];
  }

  lemma NumberAtStart(l: char, d: string, y: string)
    requires Letter(l)
    requires d != "" && (forall c :: c in d ==> Digit(c)) && (y != "" ==> !Digit(y[0]))
    ensures AddWordBoundariesToNumbers([l] + (d + y)) ==
            [l] + " " + d + " " + (if y != "" && Letter(y[0]) then [y[0]] + AddWordBoundariesToNumbers(y[1..])
                                   else AddWordBoundariesToNumbers(y))
  {
    var s := [l] + (d + y);
    assert s[1..] == d + y;
    DigitRunIs(d, y);
    var n := 1 + |d|;
    assert NumberEnd(s) == n;
    assert s[1..n] == d && s[n..] == y;
    if y != "" && Letter(y[0]) {
      assert s[n] == y[0] && MatchEnd(s, n) == n + 1;
      assert s[n..n + 1] == [y[0]] && s[n + 1..] == y[1..];
    } else {
      assert MatchEnd(s, n) == n && s[n..n] == "";
    }
  }

  /** A text without cut characters is one word. */
  lemma {:induction false} OneWord(s: string)
    requires NoCut(s)
    ensures Bits(s) == [s]
  {
    if s != "" {
      OneWord(s[..|s| - 1]);
      assert s == s[..|s| - 1] + [s[|s| - 1]];
    }
  }

  /** A cut character separates the words before it from those after it. */
  lemma {:induction false} WordsAround(x: string, c: char, y: string)
    requires Cut(c)
    ensures Bits(x + [c] + y) == Bits(x) + Bits(y)
  {
    if y == "" {
      assert x + [c] + y == x + [c] && (x + [c])[..|x|] == x;
    } else {
      var n := |y| - 1;
      FrontOfConcat(x, c, y);
      WordsAround(x, c, y[..n]);
      LastBitGrows(Bits(x), Bits(y[..n]), y[n]);
    }
  }

  lemma FrontOfConcat(x: string, c: char, y: string)
    requires y != ""
    ensures var s := x + [c] + y;
            s[..|s| - 1] == x + [c] + y[..|y| - 1] && s[|s| - 1] == y[|y| - 1]
  {
  }

  lemma LastBitGrows(a: seq<string>, b: seq<string>, c: char)
    requires b != []
    ensures var bits := a + b;
            var last := |bits| - 1;
            && bits + [""] == a + (b + [""])
            && bits[..last] + [bits[last] + [c]] == a + (b[..|b| - 1] + [b[|b| - 1] + [c]])
  {
  }

  /** How a word comes out: three of them in full capitals, else a capital where a letter begins. */
  ghost predicate CasedAs(w: string, out: string) {
    if w == "http" then out == "HTTP"
    else if w == "url" then out == "URL"
    else if w == "ip" then out == "IP"
    else Capitalised(w, out)
  }

  /** Lowercase letters that do not follow a letter, digit or underscore become capitals; all else stays. */
  ghost predicate Capitalised(w: string, out: string) {
    && |out| == |w|
    && forall i :: 0 <= i < |w| ==>
         out[i] ==
         if 'a' <= w[i] <= 'z' &&
            (i == 0 || !('a' <= w[i - 1] <= 'z' || 'A' <= w[i - 1] <= 'Z' || '0' <= w[i - 1] <= '9' || w[i - 1] == '_'))
         then w[i] - 'a' + 'A' else w[i]
  }

  lemma {:induction false} TitleAfterAt(prev: char, s: string, i: nat)
    requires i < |s|
    ensures |TitleAfter(prev, s)| == |s|
    ensures TitleAfter(prev, s)[i] == if InWord(if i == 0 then prev else s[i - 1]) then s[i] else ToUpper(s[i])
    decreases s
  {
    TitleKeepsContent(prev, s);
    if i > 0 {
      TitleAfterAt(s[0], s[1..], i - 1);
    }
  }

  lemma TitleIs(s: string)
    ensures Capitalised(s, Title(s))
  {
    TitleKeepsContent(' ', s);
    forall i | 0 <= i < |s|
      ensures Title(s)[i] == if InWord(if i == 0 then ' ' else s[i - 1]) then s[i] else ToUpper(s[i])
    {
      TitleAfterAt(' ', s, i);
    }
  }

  lemma {:induction false} TitleConcat(prev: char, a: string, b: string)
    ensures TitleAfter(prev, a + b) == TitleAfter(prev, a) + TitleAfter(if a == "" then prev else a[|a| - 1], b)
    decreases a
  {
    if a == "" {
      assert a + b == b;
    } else {
      assert (a + b)[1..] == a[1..] + b;
      TitleConcat(a[0], a[1..], b);
      assert a[1..] != "" ==> a[1..][|a[1..]| - 1] == a[|a| - 1];
    }
  }

  /** Capitalising twice is capitalising once, whatever stands before. */
  lemma TitledStays(prev: char, s: string)
    ensures TitleAfter(prev, Title(s)) == Title(s)
  {
    var t := Title(s);
    TitleKeepsContent(' ', s);
    TitleKeepsContent(prev, t);
    forall i | 0 <= i < |t|
      ensures TitleAfter(prev, t)[i] == t[i]
    {
      TitleAfterAt(' ', s, i);
      TitleAfterAt(prev, t, i);
      if i > 0 {
        TitleAfterAt(' ', s, i - 1);
      }
    }
    assert TitleAfter(prev, t) == t;
  }

  lemma MappedStay(prev: char, s: string)
    requires s == "HTTP" || s == "URL" || s == "IP"
    ensures TitleAfter(prev, s) == s
  {
    TitleKeepsContent(prev, s);
    forall i | 0 <= i < |s|
      ensures TitleAfter(prev, s)[i] == s[i]
    {
      TitleAfterAt(prev, s, i);
      assert Upper(s[i]);
    }
    assert TitleAfter(prev, s) == s;
  }

  /** A word as it is after both passes: Title over what translateWord made of it. */
  lemma PieceCased(prev: char, word: string, initCase: bool)
    requires initCase || prev == ' '
    ensures CasedAs(word, TitleAfter(prev, TranslateWord(word, initCase)))
  {
    TitleIs(word);
    if word == "http" || word == "url" || word == "ip" {
      MappedStay(prev, TranslateWord(word, initCase));
    } else if initCase {
      TitledStays(prev, word);
    }
  }

  ghost predicate AllCased(words: seq<string>, pieces: seq<string>) {
    |pieces| == |words| && forall i :: 0 <= i < |words| ==> CasedAs(words[i], pieces[i])
  }

  lemma OneMoreCased(words: seq<string>, pieces: seq<string>, piece: string)
    requires words != [] && AllCased(words[..|words| - 1], pieces) && CasedAs(words[|words| - 1], piece)
    ensures AllCased(words, pieces + [piece])
  {
    var n := |words| - 1;
    forall i | 0 <= i < |words|
      ensures CasedAs(words[i], (pieces + [piece])[i])
    {
      assert i < n ==> words[..n][i] == words[i];
    }
  }

  lemma {:induction false} TranslateCased(bits: seq<string>) returns (pieces: seq<string>)
    ensures AllCased(bits, pieces) && Title(Translate(bits)) == Join(pieces, "")
  {
    pieces := [];
    if bits != [] {
      var n := |bits| - 1;
      var before := TranslateCased(bits[..n]);
      var piece := LastPiece(Translate(bits[..n]), bits[n], n != 0);
      pieces := before + [piece];
      OneMoreCased(bits, before, piece);
      JoinNext(before, piece);
    }
  }

  lemma LastPiece(front: string, bit: string, initCase: bool) returns (piece: string)
    requires initCase || front == ""
    ensures Title(front + TranslateWord(bit, initCase)) == Title(front) + piece
    ensures CasedAs(bit, piece)
  {
    var word := TranslateWord(bit, initCase);
    var prev := if front == "" then ' ' else front[|front| - 1];
    TitleConcat(' ', front, word);
    PieceCased(prev, bit, initCase);
    piece := TitleAfter(prev, word);
  }

  lemma JoinNext(parts: seq<string>, last: string)
    ensures Join(parts + [last], "") == Join(parts, "") + last
  {
    if parts != [] {
      JoinSnoc(parts, last, "");
      assert Join(parts, "") + "" + last == Join(parts, "") + last;
    }
  }

  /**
    ToPascalCase, word by word: of the words left once numbers are set apart, spaces trimmed and the
    text cut, each comes out cased as above, one right after the other.
   */
  lemma PascalOfWords(s: string) returns (pieces: seq<string>)
    ensures var words := Bits(TrimRight(TrimLeft(AddWordBoundariesToNumbers(s))));
            Pascal(s) == Join(pieces, "") && AllCased(words, pieces)
  {
    pieces := TranslateCased(Bits(TrimRight(TrimLeft(AddWordBoundariesToNumbers(s)))));
  }
}
