/** What a value read out of recognised text is, told from the text: the words after a label, a
    cleaned name or address, and each field of an identity card by where it comes from. */
module OcrReadings {
  import opened Text
  import opened OcrText
  import opened OcrIdentity

  // ---------- words ----------

  lemma FieldsTrimmed(s: string)
    ensures Fields(TrimSpace(s)) == Fields(s)
  {
    var a, b := TrimParts(s);
    var m := TrimSpace(s);
    FieldsAfterSpace(a, m + b);
    assert a + (m + b) == s;
    FieldsBeforeSpace(m, b);
  }

  lemma {:induction false} FieldsAfterSpace(a: string, s: string)
    requires AllSpace(a)
    ensures Fields(a + s) == Fields(s)
    decreases |a|
  {
    if a == "" {
      assert a + s == s;
    } else {
      FieldsAfterSpace(a[1..], s);
      assert (a + s)[1..] == a[1..] + s;
      FieldsSkipOne(a + s);
    }
  }

  lemma FieldsSkipOne(s: string)
    requires s != "" && IsSpace(s[0])
    ensures Fields(s) == Fields(s[1..])
  {
    assert TrimLeft(s) == TrimLeft(s[1..]);
  }

  lemma {:induction false} FieldsBeforeSpace(s: string, b: string)
    requires AllSpace(b)
    ensures Fields(s + b) == Fields(s)
    decreases |s|
  {
    var a, w, tail := FirstField(s);
    hide Fields, AllSpace, WordLength, TrimLeft;
    if w == "" {
      SpacesJoin(a, b);
      FieldsAfterSpace(a + b, "");
      assert s + b == a + b + "";
      NoFields();
    } else {
      FieldsBeforeSpace(tail, b);
      assert s + b == a + (w + (tail + b)) && s == a + (w + tail);
      FieldsAfterSpace(a, w + (tail + b));
      FieldsAfterSpace(a, w + tail);
      SpaceFirst(tail, b);
      FieldsCons(w, tail + b);
      FieldsCons(w, tail);
    }
  }

  lemma SpacesJoin(a: string, b: string)
    requires AllSpace(a) && AllSpace(b)
    ensures AllSpace(a + b)
  {
  }

  lemma SpaceFirst(tail: string, b: string)
    requires AllSpace(b) && (tail == "" || IsSpace(tail[0]))
    ensures tail + b == "" || IsSpace((tail + b)[0])
  {
  }

  lemma NoFields()
    ensures Fields("") == []
  {
  }

  // ---------- a value after a label ----------

  // The first place in the value where one of the stop labels begins, in either case, or its end.
  ghost predicate FirstStop(value: string, stops: seq<string>, end: nat) {
    end <= |value| && (forall i :: 0 <= i < end ==> !StopOccurs(ToLower(value), stops, i)) &&
    (end < |value| ==> StopOccurs(ToLower(value), stops, end))
  }

  function AtMost(words: seq<string>, n: nat): seq<string> {
    if n < |words| then words[..n] else words
  }

  // The words that stand before the first stop label, up to so many.
  lemma WordsBeforeFirstStop(value: string, stops: seq<string>, maxWords: nat, end: nat)
    requires FirstStop(value, stops, end)
    ensures WordsBeforeStop(value, stops, maxWords) == Join(AtMost(Fields(value[..end]), maxWords), " ")
  {
    hide Fields, TrimSpace, ToLower, Join;
    var at := StopAt(ToLower(value), stops);
    StopsWithin(ToLower(value), stops);
    assert at == end;
    FieldsTrimmed(value[..end]);
  }

  lemma StopsWithin(lowerValue: string, stops: seq<string>)
    ensures forall i :: StopOccurs(lowerValue, stops, i) ==> 0 <= i <= |lowerValue|
  {
    hide ToLower;
  }

  // What may stand between a label and its value.
  const MARKS := ":;- "

  predicate IsGap(s: string) {
    forall i :: 0 <= i < |s| ==> s[i] in MARKS
  }

  predicate BeginsValue(value: string) {
    value != "" && Trimmed(value) && value[0] !in MARKS
  }

  // The label first stands behind that much of the text.
  ghost predicate FirstLabel(text: string, before: nat, name: string) {
    OccursAt(ToLower(text), ToLower(name), before) &&
    forall i :: 0 <= i < before ==> !OccursAt(ToLower(text), ToLower(name), i)
  }

  /** The value of a label, wherever the label first stands in the text and however its letters are
      written: the words behind the colon, semicolon, hyphens or blanks after it, up to the first
      stop label and to so many of them. */
  lemma LabelledValue(text: string, before: nat, name: string, gap: string, value: string, stops: seq<string>,
                      maxWords: nat, end: nat)
    requires FirstLabel(text, before, name) && text[before + |name|..] == gap + value
    requires IsGap(gap) && BeginsValue(value) && FirstStop(value, stops, end)
    ensures TextAfterLabel(text, name, stops, maxWords) == Join(AtMost(Fields(value[..end]), maxWords), " ")
  {
    hide Fields, Join, WordsBeforeStop, FirstStop, IsGap, BeginsValue, TrimSpace, TrimLeftSet, OccursAt, ToLower;
    GapTrimmed(gap, value);
    WordsBeforeFirstStop(value, stops, maxWords, end);
    LabelIndex(text, before, name);
    assert ValueFrom(text, before + |name|) == value;
  }

  lemma LabelIndex(text: string, before: nat, name: string)
    requires FirstLabel(text, before, name)
    ensures Index(ToLower(text), ToLower(name)) == before && before + |name| <= |text|
  {
    hide Index;
    var at := Index(ToLower(text), ToLower(name));
    assert OccursAt(ToLower(text), ToLower(name), before);
  }

  // So it is behind a label that the pattern matcher has found.
  lemma StandaloneValue(text: string, location: nat, stops: seq<string>, maxWords: nat, end: nat)
    requires location <= |text| && FirstStop(TrimSpace(text[location..]), stops, end)
    ensures TextAfterStandaloneLabel(text, Some(location), stops, maxWords) ==
      Join(AtMost(Fields(TrimSpace(text[location..])[..end]), maxWords), " ")
  {
    hide Fields, Join, WordsBeforeStop, FirstStop, TrimSpace;
    WordsBeforeFirstStop(TrimSpace(text[location..]), stops, maxWords, end);
  }

  // A text without the label has no value for it.
  lemma NoLabel(text: string, name: string, stops: seq<string>, maxWords: nat)
    requires !Contains(ToLower(text), ToLower(name))
    ensures TextAfterLabel(text, name, stops, maxWords) == ""
  {
    hide WordsBeforeStop;
  }

  lemma {:induction false} GapTrimmed(gap: string, value: string)
    requires IsGap(gap) && BeginsValue(value)
    ensures TrimLeftSet(TrimSpace(gap + value), MARKS) == value
    decreases |gap|
  {
    hide MARKS, TrimLeftSet, TrimSpace;
    if gap == "" {
      assert gap + value == value;
      GapDropped(gap, value);
    } else if IsSpace(gap[0]) {
      GapTrimmed(gap[1..], value);
      assert (gap + value)[1..] == gap[1..] + value;
      TrimSkips(gap + value);
    } else {
      var s := gap + value;
      assert s[0] == gap[0] && s[|s| - 1] == value[|value| - 1];
      assert TrimSpace(s) == s;
      GapDropped(gap, value);
    }
  }

  lemma TrimSkips(s: string)
    requires s != "" && IsSpace(s[0])
    ensures TrimSpace(s) == TrimSpace(s[1..])
  {
  }

  lemma {:induction false} GapDropped(gap: string, value: string)
    requires IsGap(gap) && BeginsValue(value)
    ensures TrimLeftSet(gap + value, MARKS) == value
    decreases |gap|
  {
    hide MARKS, TrimLeftSet, Trimmed;
    if gap == "" {
      assert gap + value == value;
      NoMark(value);
    } else {
      GapDropped(gap[1..], value);
      assert (gap + value)[1..] == gap[1..] + value;
      MarkDropped(gap + value);
    }
  }

  lemma NoMark(s: string)
    requires s != "" && s[0] !in MARKS
    ensures TrimLeftSet(s, MARKS) == s
  {
    hide MARKS;
  }

  lemma MarkDropped(s: string)
    requires s != "" && s[0] in MARKS
    ensures TrimLeftSet(s, MARKS) == TrimLeftSet(s[1..], MARKS)
  {
    hide MARKS;
  }

  // ---------- names and addresses ----------

  /** A name is kept exactly when it has two to five words of letters, apostrophes and hyphens,
      begins with a letter and is not too long; then it is its words with single blanks. */
  lemma NameKeptIff(value: string)
    ensures var v, words := TrimSpace(value), Fields(value);
      var good := 3 <= |v| <= 80 && IsLetter(v[0]) && (forall c :: c in v ==> IsLetter(c) || c in "' -") &&
        2 <= |words| <= 5;
      CleanEnglishName(value) == if good then Join(words, " ") else ""
    ensures CleanEnglishName(value) != "" <==> NamePattern(TrimSpace(value)) && 2 <= |Fields(value)| <= 5
  {
    hide Fields, TrimSpace, Join;
    FieldsTrimmed(value);
    FieldsOfJoin(Fields(value));
    assert NamePattern(TrimSpace(value)) <==>
      3 <= |TrimSpace(value)| <= 80 && IsLetter(TrimSpace(value)[0]) &&
      forall c :: c in TrimSpace(value) ==> IsLetter(c) || c in "' -";
  }

  // How many letters there are.
  ghost function LetterPlaces(s: string): set<nat> {
    set i: nat | i < |s| && IsLetter(s[i])
  }

  lemma {:induction false} LettersCount(s: string)
    ensures Letters(s) == |LetterPlaces(s)|
    decreases |s|
  {
    hide IsLetter;
    if s == "" {
      assert LetterPlaces(s) == {};
    } else {
      var n := |s| - 1;
      LettersConcat(s[..n], [s[n]]);
      assert s[..n] + [s[n]] == s;
      LettersCount(s[..n]);
      OneLetter([s[n]]);
      PlacesSnoc(s);
      hide Letters, LetterPlaces;
    }
  }

  lemma OneLetter(s: string)
    requires |s| == 1
    ensures Letters(s) == if IsLetter(s[0]) then 1 else 0
  {
    assert s[1..] == "";
  }

  lemma PlacesSnoc(s: string)
    requires s != ""
    ensures var n := |s| - 1;
      |LetterPlaces(s)| == |LetterPlaces(s[..n])| + (if IsLetter(s[n]) then 1 else 0)
  {
    hide IsLetter;
    var n: nat := |s| - 1;
    if IsLetter(s[n]) {
      assert LetterPlaces(s) == LetterPlaces(s[..n]) + {n};
    } else {
      assert LetterPlaces(s) == LetterPlaces(s[..n]);
    }
  }

  /** An address is kept exactly when it has 3 to 100 characters of the allowed kinds, at least half
      of them letters, rounding down; then it is its words with single blanks. */
  lemma AddressKeptIff(value: string)
    ensures var v := TrimSpace(value);
      var good := 3 <= |v| <= 100 && (forall c :: c in v ==> IsLetter(c) || IsDigit(c) || c in ".' -") &&
        |v| <= 2 * |LetterPlaces(v)| + 1;
      CleanEnglishAddress(value) == if good then Join(Fields(value), " ") else ""
  {
    hide Fields, TrimSpace, Join, Letters;
    FieldsTrimmed(value);
    LettersCount(TrimSpace(value));
    assert AddressPattern(TrimSpace(value)) <==>
      3 <= |TrimSpace(value)| <= 100 && forall c :: c in TrimSpace(value) ==> IsLetter(c) || IsDigit(c) || c in ".' -";
  }

  // ---------- the fields by their sources ----------

  // A match in capitals and without blanks.
  function Condensed(m: string): string {
    ToUpper(Join(Split(m, ' '), ""))
  }

  // The text names something that is on the back of a card.
  ghost predicate ShowsBack(text: string) {
    exists i: nat, name :: name in {"common name", "blood group", "expires on"} && OccursAt(ToLower(text), name, i)
  }

  // A tagged region wins; without a match in it the whole text is searched.
  predicate NationalIdRead(p: Patterns, tagged: string, text: string, id: string) {
    if tagged != "" && p.nationalId(tagged).Some? then id == Condensed(p.nationalId(tagged).value)
    else if p.nationalId(text).Some? then id == Condensed(p.nationalId(text).value)
    else id == ""
  }

  predicate IsDate(date: string, m: DateMatch) {
    date == m.year + "-" + (if |m.month| == 1 then "0" else "") + m.month +
      "-" + (if |m.day| == 1 then "0" else "") + m.day
  }

  predicate HasDate(p: Patterns, tagged: string) {
    tagged != "" && p.dates(tagged) != []
  }

  // Without a tagged one, the date of birth is the first date of a text that shows no back.
  ghost predicate BirthRead(p: Patterns, tagged: string, text: string, date: string) {
    var dates := p.dates(text);
    (HasDate(p, tagged) ==> IsDate(date, p.dates(tagged)[0])) &&
    (!HasDate(p, tagged) && dates != [] && !ShowsBack(text) ==> IsDate(date, dates[0])) &&
    (!HasDate(p, tagged) && (dates == [] || ShowsBack(text)) ==> date == "")
  }

  // The date of expiry is the second, or the only one of a text that shows the back.
  ghost predicate ExpiryRead(p: Patterns, tagged: string, text: string, date: string) {
    var dates := p.dates(text);
    (HasDate(p, tagged) ==> IsDate(date, p.dates(tagged)[0])) &&
    (!HasDate(p, tagged) && 2 <= |dates| ==> IsDate(date, dates[1])) &&
    (!HasDate(p, tagged) && |dates| == 1 && ShowsBack(text) ==> IsDate(date, dates[0])) &&
    (!HasDate(p, tagged) && |dates| <= 1 && (dates == [] || !ShowsBack(text)) ==> date == "")
  }

  // "F" is looked for first, in the tagged value and then beside the label.
  predicate SexRead(p: Patterns, tagged: string, text: string, sex: string) {
    var isF := p.taggedF(ToUpper(tagged)) || p.labelledF(ToUpper(text));
    var isM := p.taggedM(ToUpper(tagged)) || p.labelledM(ToUpper(text));
    (sex == "F" <==> isF) && (sex == "M" <==> !isF && isM) && (sex == "" <==> !isF && !isM)
  }

  // The name behind its label on the front of a card.
  function LabelledName(p: Patterns, text: string): string
    requires Sound(p)
  {
    CleanEnglishName(TextAfterStandaloneLabel(text, p.nameLabel(text), ["Sex", "Date of Birth", "Address"], 5))
  }

  // The name on the front, tagged or behind its label, and otherwise the common name.
  ghost predicate NameRead(p: Patterns, tagged: string, text: string, commonName: string, name: string)
    requires Sound(p)
  {
    var front := if CleanEnglishName(tagged) != "" then CleanEnglishName(tagged) else LabelledName(p, text);
    if ShowsBack(text) || front == "" then name == commonName else name == front
  }

  predicate CommonNameRead(tagged: string, text: string, name: string) {
    if CleanEnglishName(tagged) != "" then name == CleanEnglishName(tagged)
    else
      name == CleanEnglishName(TextAfterLabel(text, "Common Name", ["Blood Group", "Expires on", "Expiry Date"], 5))
  }

  predicate FirstMatchRead(found: Option<string>, value: string) {
    if found.Some? then value == Condensed(found.value) else value == ""
  }

  // House and island are the two halves of the words, and one word is the house.
  predicate AddressRead(tagged: string, text: string, house: string, island: string) {
    var labelled := TextAfterLabel(text, "Address", ["Blood Group", "Expiry Date", "Common Name"], 8);
    var address := CleanEnglishAddress(if tagged != "" then tagged else labelled);
    if |Fields(address)| <= 1 then house == address && island == ""
    else island != "" && house + " " + island == address && |Fields(house)| == |Fields(address)| / 2
  }

  // ---------- dropping blanks ----------

  lemma JoinFromEmpty(parts: seq<string>)
    requires parts != []
    ensures Join([""] + parts, "") == Join(parts, "")
  {
    assert ([""] + parts)[1..] == parts;
  }

  lemma ShowsBackIff(text: string)
    ensures ShowsBack(text) <==>
      Contains(ToLower(text), "common name") || Contains(ToLower(text), "blood group") ||
      Contains(ToLower(text), "expires on")
  {
    hide ToLower, OccursAt;
    var lower := ToLower(text);
    forall i: nat, name | OccursAt(lower, name, i) ensures Contains(lower, name) {
      OccursWithin(lower, name, i);
    }
  }

  lemma OccursWithin(s: string, sub: string, i: nat)
    requires OccursAt(s, sub, i)
    ensures i <= |s|
  {
  }
}
