/** Reading values out of recognised text (services/document_extraction.go): after a label, after a
    tag, and the cleaning of names and addresses. */
module OcrText {
  import opened Text

  // ---------- single-spaced text ----------

  // Every gap is one blank.
  predicate Loose(s: string) {
    forall i :: 0 <= i < |s| && IsSpace(s[i]) ==> s[i] == ' ' && (i + 1 < |s| ==> !IsSpace(s[i + 1]))
  }

  lemma LooseSlice(s: string, a: nat, b: nat)
    requires Loose(s) && a <= b <= |s|
    ensures Loose(s[a..b])
  {
    var t := s[a..b];
    forall i | 0 <= i < |t| && IsSpace(t[i]) ensures t[i] == ' ' && (i + 1 < |t| ==> !IsSpace(t[i + 1])) {
      assert t[i] == s[a + i];
      assert i + 1 < |t| ==> t[i + 1] == s[a + i + 1];
    }
  }

  // Joining the words of a string leaves one blank between them.
  lemma {:induction false} JoinIsLoose(words: seq<string>)
    requires Words(words)
    ensures Loose(Join(words, " ")) && Trimmed(Join(words, " "))
    decreases |words|
  {
    hide Fields, Loose;
    FieldsOfJoin(words);
    if |words| <= 1 {
      LooseWord(words);
    } else {
      JoinIsLoose(words[1..]);
      FieldsOfJoin(words[1..]);
      LooseCons(words[0], Join(words[1..], " "));
    }
  }

  lemma LooseWord(words: seq<string>)
    requires Words(words) && |words| <= 1
    ensures Loose(Join(words, " "))
  {
  }

  lemma LooseCons(w: string, rest: string)
    requires IsWord(w) && Loose(rest) && Trimmed(rest) && rest != ""
    ensures Loose(w + " " + rest)
  {
    var s := w + " " + rest;
    assert forall i :: 0 <= i < |w| ==> s[i] == w[i];
    forall i | |w| <= i < |s| && IsSpace(s[i]) ensures s[i] == ' ' && (i + 1 < |s| ==> !IsSpace(s[i + 1])) {
      if i == |w| {
        assert s[i + 1] == rest[0];
      } else {
        var j := i - |w| - 1;
        assert s[i] == rest[j];
        assert j + 1 < |rest| ==> s[i + 1] == rest[j + 1];
      }
    }
  }

  lemma WordBegins(s: string)
    requires s != "" && !IsSpace(s[0])
    ensures WordLength(s) != 0
  {
  }

  // Trimmed, single-spaced text is a word, or a word, a blank and more of such text.
  lemma WordThenRest(s: string) returns (w: string, rest: string)
    requires Loose(s) && Trimmed(s) && s != ""
    ensures IsWord(w) && |rest| < |s|
    ensures if rest == "" then s == w else s == w + " " + rest && Loose(rest) && Trimmed(rest)
  {
    hide WordLength;
    WordBegins(s);
    var n := WordLength(s);
    w := s[..n];
    assert s == w + s[n..];
    if n == |s| {
      rest := "";
    } else {
      assert s[n] == ' ' && n + 1 < |s|;
      rest := s[n + 1..];
      LooseSlice(s, n + 1, |s|);
      assert rest == s[n + 1..|s|];
      assert s[n..] == " " + rest;
      assert s == w + " " + rest;
    }
  }

  // The words of trimmed, single-spaced text rebuild it.
  lemma {:induction false} FieldsRebuild(s: string)
    requires Loose(s) && Trimmed(s)
    ensures Join(Fields(s), " ") == s
    decreases |s|
  {
    if s != "" {
      var w, rest := WordThenRest(s);
      hide WordLength, TrimLeft, Loose;
      if rest == "" {
        FieldsCons(w, "");
        assert w + "" == w && Fields("") == [];
      } else {
        FieldsOfTwo(w, rest);
        FieldsRebuild(rest);
        hide Fields;
        assert Fields(rest) != [];
        JoinSplits(w, Fields(rest), rest);
      }
    }
  }

  lemma JoinSplits(w: string, words: seq<string>, rest: string)
    requires Join(words, " ") == rest && words != []
    ensures Join([w] + words, " ") == w + " " + rest
  {
    assert ([w] + words)[1..] == words;
  }

  // ---------- strings.Index ----------

  predicate OccursAt(s: string, sub: string, i: int) {
    0 <= i && i + |sub| <= |s| && s[i..i + |sub|] == sub
  }

  predicate Contains(s: string, sub: string) {
    exists i :: 0 <= i <= |s| && OccursAt(s, sub, i)
  }

  // The first occurrence, or -1.
  function Index(s: string, sub: string): (r: int)
    ensures 0 <= r ==> OccursAt(s, sub, r) && r + |sub| <= |s|
    ensures forall i :: i < (if r < 0 then |s| + 1 else r) ==> !OccursAt(s, sub, i)
    ensures -1 <= r
  {
    IndexFrom(s, sub, 0)
  }

  function IndexFrom(s: string, sub: string, from: nat): (r: int)
    requires from <= |s| + 1
    requires forall i :: i < from ==> !OccursAt(s, sub, i)
    ensures 0 <= r ==> OccursAt(s, sub, r)
    ensures forall i :: i < (if r < 0 then |s| + 1 else r) ==> !OccursAt(s, sub, i)
    ensures -1 <= r
    decreases |s| + 1 - from
  {
    if |s| < from then -1
    else if OccursAt(s, sub, from) then from
    else IndexFrom(s, sub, from + 1)
  }

  lemma SliceOfSlice(s: string, a: nat, b: nat, i: nat, j: nat)
    requires a <= b <= |s| && i <= j <= b - a
    ensures s[a..b][i..j] == s[a + i..a + j]
  {
    var t, u := s[a..b][i..j], s[a + i..a + j];
    assert |t| == |u| && forall k :: 0 <= k < |t| ==> t[k] == u[k];
  }

  // A slice holds no more than the whole.
  lemma ContainsSlice(s: string, a: nat, b: nat, sub: string)
    requires a <= b <= |s| && Contains(s[a..b], sub)
    ensures exists i :: a <= i && i + |sub| <= b && OccursAt(s, sub, i)
  {
    var t := s[a..b];
    var i :| 0 <= i <= |t| && OccursAt(t, sub, i);
    SliceOfSlice(s, a, b, i, i + |sub|);
    assert OccursAt(s, sub, a + i);
  }

  // ---------- a value after a label ----------

  function TrimLeftSet(s: string, cutset: string): (r: string)
    ensures |r| <= |s| && r == s[|s| - |r|..]
  {
    if s != "" && s[0] in cutset then TrimLeftSet(s[1..], cutset) else s
  }

  predicate StopOccurs(lowerValue: string, stops: seq<string>, at: int) {
    exists k :: 0 <= k < |stops| && OccursAt(lowerValue, ToLower(stops[k]), at)
  }

  // Where the first of the stop labels begins, or the end of the value.
  function StopAt(lowerValue: string, stops: seq<string>): (end: nat)
    ensures end <= |lowerValue|
    ensures forall i :: StopOccurs(lowerValue, stops, i) ==> end <= i
    ensures end == |lowerValue| || StopOccurs(lowerValue, stops, end)
  {
    if stops == [] then |lowerValue|
    else
      var n := |stops| - 1;
      var end := StopAt(lowerValue, stops[..n]);
      var at := Index(lowerValue, ToLower(stops[n]));
      StopsOfLonger(lowerValue, stops);
      if 0 <= at < end then at else end
  }

  lemma StopsOfLonger(lowerValue: string, stops: seq<string>)
    requires stops != []
    ensures var n := |stops| - 1;
      forall i :: StopOccurs(lowerValue, stops, i) <==>
        StopOccurs(lowerValue, stops[..n], i) || OccursAt(lowerValue, ToLower(stops[n]), i)
  {
    hide OccursAt, ToLower;
    var n := |stops| - 1;
    forall i
      ensures StopOccurs(lowerValue, stops, i) <==>
        StopOccurs(lowerValue, stops[..n], i) || OccursAt(lowerValue, ToLower(stops[n]), i)
    {
      assert stops == stops[..n] + [stops[n]];
    }
  }

  // The words up to the first stop label, at most so many of them.
  function WordsBeforeStop(value: string, stops: seq<string>, maxWords: nat): string {
    var words := Fields(TrimSpace(value[..StopAt(ToLower(value), stops)]));
    Join(if maxWords < |words| then words[..maxWords] else words, " ")
  }

  function ValueFrom(text: string, from: nat): string
    requires from <= |text|
  {
    TrimLeftSet(TrimSpace(text[from..]), ":;- ")
  }

  function TextAfterLabel(text: string, name: string, stops: seq<string>, maxWords: nat): string {
    var index := Index(ToLower(text), ToLower(name));
    if index < 0 then ""
    else WordsBeforeStop(ValueFrom(text, index + |name|), stops, maxWords)
  }

  // Where a standalone label ends is for the pattern matcher to say.
  function TextAfterStandaloneLabel(text: string, location: Option<nat>, stops: seq<string>, maxWords: nat): string
    requires location.Some? ==> location.value <= |text|
  {
    match location
    case None => ""
    case Some(end) => WordsBeforeStop(TrimSpace(text[end..]), stops, maxWords)
  }

  predicate NoStop(value: string, stops: seq<string>) {
    forall k :: 0 <= k < |stops| ==> !Contains(ToLower(value), ToLower(stops[k]))
  }

  lemma JoinNone()
    ensures Join([], " ") == ""
  {
  }

  lemma WordsTake(words: seq<string>, n: nat)
    requires Words(words) && n <= |words|
    ensures Words(words[..n]) && Join(words[..n], " ") <= Join(words, " ")
  {
    hide Join, IsWord;
    if n == 0 {
      JoinNone();
      assert words[..n] == [];
    } else if n < |words| {
      JoinPrefix(words[..n], words[n..]);
      assert words[..n] + words[n..] == words;
    } else {
      assert words[..n] == words;
    }
  }

  lemma JoinPrefix(a: seq<string>, b: seq<string>)
    requires a != [] && b != []
    ensures Join(a, " ") <= Join(a + b, " ")
  {
    hide Join;
    JoinAppend(a, b, " ");
    var x, y := Join(a, " "), Join(b, " ");
    assert x + " " + y == x + (" " + y);
  }

  lemma TrimIsSlice(s: string) returns (a: nat, b: nat)
    ensures a <= b <= |s| && TrimSpace(s) == s[a..b]
  {
    var x, y := TrimParts(s);
    a, b := |x|, |x| + |TrimSpace(s)|;
  }

  lemma LowerSlice(s: string, a: nat, b: nat)
    requires a <= b <= |s|
    ensures ToLower(s[a..b]) == ToLower(s)[a..b]
  {
  }

  // Trimming the front part of single-spaced text gives a slice that its words rebuild.
  lemma CutRebuilds(value: string, end: nat) returns (a: nat, b: nat)
    requires Loose(value) && end <= |value|
    ensures a <= b <= end && TrimSpace(value[..end]) == value[a..b] == Join(Fields(TrimSpace(value[..end])), " ")
    ensures Loose(value[a..b])
  {
    hide Loose, Fields, TrimSpace, Join;
    var cut := value[..end];
    a, b := TrimIsSlice(cut);
    assert cut == value[0..end];
    SliceOfSlice(value, 0, end, a, b);
    LooseSlice(value, a, b);
    FieldsRebuild(TrimSpace(cut));
  }

  lemma SomeWords(words: seq<string>, maxWords: nat) returns (n: nat)
    requires Words(words)
    ensures var r := Join(if maxWords < |words| then words[..maxWords] else words, " ");
      |Fields(r)| <= maxWords && SingleSpaced(r) && n == |r| <= |Join(words, " ")| && r == Join(words, " ")[..n]
  {
    var taken := if maxWords < |words| then words[..maxWords] else words;
    if maxWords < |words| {
      WordsTake(words, maxWords);
    }
    FieldsOfJoin(taken);
    n := |Join(taken, " ")|;
  }

  /** On single-spaced text, what is read before the stop labels has at most the given number of
      words, is single-spaced itself, and contains no stop label in any case. */
  lemma WordsBeforeStopStops(value: string, stops: seq<string>, maxWords: nat)
    requires Loose(value) && forall k :: 0 <= k < |stops| ==> stops[k] != ""
    ensures var r := WordsBeforeStop(value, stops, maxWords);
      |Fields(r)| <= maxWords && SingleSpaced(r) && NoStop(r, stops)
  {
    hide Fields, TrimSpace, StopAt, Loose, NoStop, SingleSpaced, Join;
    var end := StopAt(ToLower(value), stops);
    var a, b := CutRebuilds(value, end);
    var n := SomeWords(Fields(TrimSpace(value[..end])), maxWords);
    assert value[a..b][..n] == value[a..a + n];
    NoStopBefore(value, stops, a, a + n);
  }

  lemma NoStopBefore(value: string, stops: seq<string>, a: nat, b: nat)
    requires a <= b <= StopAt(ToLower(value), stops) && forall k :: 0 <= k < |stops| ==> stops[k] != ""
    ensures NoStop(value[a..b], stops)
  {
    hide StopAt, Contains, OccursAt;
    LowerSlice(value, a, b);
    forall k | 0 <= k < |stops| ensures !Contains(ToLower(value[a..b]), ToLower(stops[k])) {
      if Contains(ToLower(value[a..b]), ToLower(stops[k])) {
        StopInside(ToLower(value), stops, k, a, b);
      }
    }
  }

  lemma StopInside(lowerValue: string, stops: seq<string>, k: nat, a: nat, b: nat)
    requires k < |stops| && stops[k] != "" && a <= b <= |lowerValue| && Contains(lowerValue[a..b], ToLower(stops[k]))
    ensures StopAt(lowerValue, stops) < b
  {
    hide StopAt, Contains, OccursAt;
    ContainsSlice(lowerValue, a, b, ToLower(stops[k]));
    var i :| a <= i && i + |ToLower(stops[k])| <= b && OccursAt(lowerValue, ToLower(stops[k]), i);
    assert StopOccurs(lowerValue, stops, i);
  }

  // Trimming single-spaced text leaves single-spaced text.
  lemma LooseTrimmed(s: string)
    requires Loose(s)
    ensures Loose(TrimSpace(s))
  {
    var a, b := TrimIsSlice(s);
    LooseSlice(s, a, b);
  }

  lemma LooseTail(s: string, n: nat)
    requires Loose(s) && n <= |s|
    ensures Loose(s[n..])
  {
    LooseSlice(s, n, |s|);
    assert s[n..] == s[n..|s|];
  }

  lemma SingleSpacedLoose(s: string)
    requires SingleSpaced(s)
    ensures Loose(s)
  {
    JoinIsLoose(Fields(s));
  }

  lemma LooseValue(text: string, from: nat)
    requires Loose(text) && from <= |text|
    ensures Loose(ValueFrom(text, from))
  {
    hide TrimSpace, TrimLeftSet, Loose;
    LooseTail(text, from);
    LooseTrimmed(text[from..]);
    var trimmed := TrimSpace(text[from..]);
    LooseTail(trimmed, |trimmed| - |TrimLeftSet(trimmed, ":;- ")|);
  }

  lemma TextAfterLabelStops(text: string, name: string, stops: seq<string>, maxWords: nat)
    requires SingleSpaced(text) && forall k :: 0 <= k < |stops| ==> stops[k] != ""
    ensures var r := TextAfterLabel(text, name, stops, maxWords);
      |Fields(r)| <= maxWords && SingleSpaced(r) && NoStop(r, stops)
  {
    hide Fields, ValueFrom, Loose, NoStop, Join, WordsBeforeStop, Index, SingleSpaced, ToLower, OccursAt;
    SingleSpacedLoose(text);
    var index := Index(ToLower(text), ToLower(name));
    if index < 0 {
      NothingStops(stops);
    } else {
      LooseValue(text, index + |name|);
      WordsBeforeStopStops(ValueFrom(text, index + |name|), stops, maxWords);
    }
  }

  lemma NothingStops(stops: seq<string>)
    requires forall k :: 0 <= k < |stops| ==> stops[k] != ""
    ensures NoStop("", stops) && Fields("") == [] && SingleSpaced("")
  {
    forall k | 0 <= k < |stops| ensures !Contains(ToLower(""), ToLower(stops[k])) {
    }
  }

  lemma TextAfterStandaloneLabelStops(text: string, location: Option<nat>, stops: seq<string>, maxWords: nat)
    requires location.Some? ==> location.value <= |text|
    requires SingleSpaced(text) && forall k :: 0 <= k < |stops| ==> stops[k] != ""
    ensures var r := TextAfterStandaloneLabel(text, location, stops, maxWords);
      |Fields(r)| <= maxWords && SingleSpaced(r) && NoStop(r, stops)
  {
    hide Fields, TrimSpace, Loose, NoStop, Join, WordsBeforeStop, SingleSpaced;
    SingleSpacedLoose(text);
    if location.None? {
      NothingStops(stops);
    } else {
      LooseTail(text, location.value);
      LooseTrimmed(text[location.value..]);
      WordsBeforeStopStops(TrimSpace(text[location.value..]), stops, maxWords);
    }
  }

  // ---------- cleaning names and addresses ----------

  predicate IsLetter(c: char) {
    'A' <= c <= 'Z' || 'a' <= c <= 'z'
  }

  predicate IsNameChar(c: char) {
    IsLetter(c) || c == '\'' || c == ' ' || c == '-'
  }

  predicate IsAddressChar(c: char) {
    IsLetter(c) || '0' <= c <= '9' || c == '.' || c == '\'' || c == ' ' || c == '-'
  }

  predicate NamePattern(s: string) {
    3 <= |s| <= 80 && IsLetter(s[0]) && forall i :: 0 <= i < |s| ==> IsNameChar(s[i])
  }

  predicate AddressPattern(s: string) {
    3 <= |s| <= 100 && forall i :: 0 <= i < |s| ==> IsAddressChar(s[i])
  }

  function CleanEnglishName(value: string): string {
    var v := TrimSpace(value);
    if !NamePattern(v) then ""
    else
      var words := Fields(v);
      if |words| < 2 || 5 < |words| then "" else Join(words, " ")
  }

  function Letters(s: string): nat {
    if s == "" then 0 else (if IsLetter(s[0]) then 1 else 0) + Letters(s[1..])
  }

  function CleanEnglishAddress(value: string): string {
    var v := TrimSpace(value);
    if !AddressPattern(v) || Letters(v) < |v| / 2 then "" else Join(Fields(v), " ")
  }

  lemma {:induction false} LettersConcat(a: string, b: string)
    ensures Letters(a + b) == Letters(a) + Letters(b)
    decreases |a|
  {
    if a == "" {
      assert a + b == b;
    } else {
      assert (a + b)[1..] == a[1..] + b;
      LettersConcat(a[1..], b);
    }
  }

  // Joining the words again keeps the characters in their order and drops white space only.
  ghost predicate Squeezes(s: string, t: string) {
    |t| <= |s| && Letters(t) == Letters(s) && forall c :: c in t ==> c == ' ' || c in s
  }

  // White space, a word, and the rest up to the end.
  lemma FirstField(s: string) returns (a: string, w: string, tail: string)
    ensures AllSpace(a) && s == a + w + tail && |tail| <= |s|
    ensures w == "" ==> tail == "" && Fields(s) == []
    ensures w != "" ==> IsWord(w) && Fields(s) == [w] + Fields(tail) && (tail == "" || IsSpace(tail[0]))
  {
    a := TrimLeftParts(s);
    FieldsStep(s);
    hide Fields, TrimLeft, WordLength;
    var t := TrimLeft(s);
    var n := WordLength(t);
    w, tail := t[..n], t[n..];
    assert t == w + tail;
    assert s == a + w + tail;
  }

  lemma FieldsStep(s: string)
    ensures var t := TrimLeft(s);
      var n := WordLength(t);
      (t == "" <==> n == 0) && Fields(s) == if t == "" then [] else [t[..n]] + Fields(t[n..])
  {
  }

  lemma {:induction false} FieldsSqueeze(s: string)
    ensures Squeezes(s, Join(Fields(s), " "))
    decreases |s|
  {
    var a, w, tail := FirstField(s);
    SpacesHaveNoLetters(a);
    LettersConcat(a + w, tail);
    LettersConcat(a, w);
    hide Fields, AllSpace;
    if w == "" {
      assert Letters("") == 0;
    } else {
      FieldsSqueeze(tail);
      assert forall c :: c in w || c in tail ==> c in s;
      SqueezeWord(a, w, tail);
    }
  }

  lemma SqueezeWord(a: string, w: string, tail: string)
    requires IsWord(w) && (tail == "" || IsSpace(tail[0])) && Squeezes(tail, Join(Fields(tail), " "))
    requires Letters(a + w + tail) == Letters(w) + Letters(tail)
    ensures Squeezes(a + w + tail, Join([w] + Fields(tail), " "))
    decreases |tail|
  {
    var words, rest := Fields(tail), Join(Fields(tail), " ");
    FieldsOfJoin(words);
    if words == [] {
      hide Fields;
      assert Join([w] + words, " ") == w;
      assert Letters(rest) == 0;
    } else {
      TailLonger(tail);
      hide Fields;
      JoinSplits(w, words, rest);
      LettersConcat(w + " ", rest);
      LettersConcat(w, " ");
      assert Letters(" ") == 0;
    }
  }

  // The white space before the words of the rest is not part of them.
  lemma {:induction false} TailLonger(tail: string)
    requires tail != "" && IsSpace(tail[0])
    ensures |Join(Fields(tail), " ")| < |tail|
    decreases |tail|
  {
    assert TrimLeft(tail) == TrimLeft(tail[1..]);
    assert Fields(tail) == Fields(tail[1..]);
    JoinNoLonger(tail[1..]);
  }

  lemma {:induction false} JoinNoLonger(s: string)
    ensures |Join(Fields(s), " ")| <= |s|
    decreases |s|
  {
    var a, w, tail := FirstField(s);
    if w != "" {
      hide Fields, AllSpace;
      var words := Fields(tail);
      if words == [] {
        assert Join([w] + words, " ") == w;
      } else {
        if tail != "" { TailLonger(tail); }
        NoWords();
        JoinSplits(w, words, Join(words, " "));
      }
    }
  }

  lemma NoWords()
    ensures Fields("") == []
  {
  }

  lemma {:induction false} SpacesHaveNoLetters(s: string)
    requires AllSpace(s)
    ensures Letters(s) == 0
    decreases |s|
  {
    if s != "" {
      SpacesHaveNoLetters(s[1..]);
    }
  }

  // The first word of trimmed text begins it.
  lemma FirstWord(s: string)
    requires Trimmed(s) && s != ""
    ensures Fields(s) != [] && Join(Fields(s), " ") != "" && Join(Fields(s), " ")[0] == s[0]
  {
    assert TrimLeft(s) == s;
    FieldsOfJoin(Fields(s));
  }

  // At least two words and a blank, or the whole of a single word.
  lemma {:induction false} JoinLength(words: seq<string>)
    requires Words(words)
    ensures 2 <= |words| ==> 3 <= |Join(words, " ")|
  {
    if 2 <= |words| {
      FieldsOfJoin(words[1..]);
    }
  }

  lemma OneWord(s: string)
    requires Trimmed(s) && |Fields(s)| == 1
    ensures Fields(s) == [s]
  {
    var a, w, tail := FirstField(s);
    var b, v, rest := FirstField(tail);
    hide Fields, TrimSpace;
    assert v == "" && tail == b + v + rest == b;
    TrimPadded(a, w, tail);
  }

  /** Cleaning a name gives nothing, or two to five words of it with single blanks between them;
      cleaning the result again changes nothing. */
  lemma CleanNameTwice(value: string)
    ensures var r := CleanEnglishName(value);
      CleanEnglishName(r) == r && SingleSpaced(r) && (r != "" ==> 2 <= |Fields(r)| <= 5 && NamePattern(r))
  {
    var v, r := TrimSpace(value), CleanEnglishName(value);
    if r == "" {
      NothingStops([]);
    } else {
      var words := Fields(v);
      FieldsOfJoin(words);
      FieldsSqueeze(v);
      FirstWord(v);
      JoinLength(words);
      forall i | 0 <= i < |r| ensures IsNameChar(r[i]) {
        assert r[i] in r;
      }
    }
  }

  lemma CleanAddressTwice(value: string)
    ensures var r := CleanEnglishAddress(value);
      CleanEnglishAddress(r) == r && SingleSpaced(r) && (r != "" ==> AddressPattern(r) && 1 <= |Fields(r)|)
  {
    var v, r := TrimSpace(value), CleanEnglishAddress(value);
    if r == "" {
      NothingStops([]);
    } else {
      var words := Fields(v);
      FieldsOfJoin(words);
      FieldsSqueeze(v);
      FirstWord(v);
      JoinLength(words);
      if |words| == 1 { OneWord(v); }
      forall i | 0 <= i < |r| ensures IsAddressChar(r[i]) {
        assert r[i] in r;
      }
    }
  }

  // ---------- the loops ----------

  // Looks for the stop labels one after the other and keeps the earliest place.
  method FindStop(value: string, stops: seq<string>) returns (end: nat)
    ensures end == StopAt(ToLower(value), stops)
  {
    hide Index, OccursAt, ToLower;
    var lowerValue := ToLower(value);
    end := |value|;
    assert stops[..0] == [];
    for k := 0 to |stops|
      invariant end == StopAt(lowerValue, stops[..k])
    {
      assert stops[..k + 1][..k] == stops[..k];
      var stopIndex := Index(lowerValue, ToLower(stops[k]));
      if stopIndex >= 0 && stopIndex < end {
        end := stopIndex;
      }
    }
    assert stops[..|stops|] == stops;
  }

  method ReadBeforeStop(value: string, stops: seq<string>, maxWords: nat) returns (r: string)
    ensures r == WordsBeforeStop(value, stops, maxWords)
  {
    hide ToLower, StopAt, Fields, TrimSpace, Join;
    var end := FindStop(value, stops);
    var words := Fields(TrimSpace(value[..end]));
    if |words| > maxWords {
      words := words[..maxWords];
    }
    r := Join(words, " ");
  }

  method ReadAfterLabel(text: string, name: string, stops: seq<string>, maxWords: nat) returns (r: string)
    ensures r == TextAfterLabel(text, name, stops, maxWords)
  {
    hide Index, OccursAt, ToLower, TrimSpace, TrimLeftSet, WordsBeforeStop;
    var index := Index(ToLower(text), ToLower(name));
    if index < 0 {
      return "";
    }
    var value := TrimSpace(text[index + |name|..]);
    value := TrimLeftSet(value, ":;- ");
    r := ReadBeforeStop(value, stops, maxWords);
  }

  method CleanAddress(value: string) returns (r: string)
    ensures r == CleanEnglishAddress(value)
  {
    hide TrimSpace, AddressPattern, Fields, Join;
    var v := TrimSpace(value);
    if v == "" {
      EmptyAddress();
      return "";
    }
    if !AddressPattern(v) {
      return "";
    }
    var letters := 0;
    for i := 0 to |v|
      invariant letters + Letters(v[i..]) == Letters(v)
    {
      assert v[i..][1..] == v[i + 1..];
      if 'A' <= v[i] <= 'Z' || 'a' <= v[i] <= 'z' {
        letters := letters + 1;
      }
    }
    if letters < |v| / 2 {
      return "";
    }
    r := Join(Fields(v), " ");
  }

  lemma EmptyAddress()
    ensures !AddressPattern("")
  {
  }
}
