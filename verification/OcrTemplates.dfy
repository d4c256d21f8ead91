/** A card that is read by its template: the text that the recognised regions are put together into
    gives every region's value in the field of that region. */
module OcrTemplates {
  import opened Text
  import opened OcrText
  import opened OcrIdentity
  import opened OcrReadings
  import opened OcrFields

  type Entries = seq<(string, string)>

  ghost predicate ProperEntries(entries: Entries) {
    (forall j :: 0 <= j < |entries| ==> IsTag(entries[j].0) && IsValue(entries[j].1)) &&
    forall i, j :: 0 <= i < j < |entries| ==> entries[i].0 != entries[j].0
  }

  // The text of a document with the lines of a template among others.
  function TextOf(before: seq<string>, entries: Entries, after: seq<string>): string {
    Join(before + LinesOf(entries) + after, "\n")
  }

  predicate Lines(lines: seq<string>) {
    forall j :: 0 <= j < |lines| ==> '\n' !in lines[j]
  }

  // No line begins with the tag.
  predicate Untagged(lines: seq<string>, tag: string) {
    forall j :: 0 <= j < |lines| ==> !HasPrefix(ToLower(TrimSpace(lines[j])), tag + ":")
  }

  // A match in a text that a blank follows is the first match of the longer text.
  ghost predicate MatchesFirst(p: Patterns) {
    (forall v, t :: p.blood(v).Some? ==> p.blood(v + " " + t) == p.blood(v)) &&
    (forall v, t :: p.serial(v).Some? ==> p.serial(v + " " + t) == p.serial(v))
  }

  // What a region's value makes of the region's field, whatever the other regions say.
  ghost predicate Shown(p: Patterns, tag: string, value: string, text: string, x: Extraction) {
    match tag
    case "national_id" => p.nationalId(value).Some? ==> x.nationalId == Condensed(p.nationalId(value).value)
    case "date_of_birth" => p.dates(value) != [] ==> IsDate(x.dateOfBirth, p.dates(value)[0])
    case "expiry_date" => p.dates(value) != [] ==> IsDate(x.expiryDate, p.dates(value)[0])
    case "sex" =>
      (p.taggedF(ToUpper(value)) ==> x.sex == "F") &&
      (p.taggedM(ToUpper(value)) && !p.taggedF(ToUpper(value)) && !p.labelledF(ToUpper(text)) ==> x.sex == "M")
    case "name_english" =>
      CleanEnglishName(value) != "" && !ShowsBack(text) ==> x.nameEnglish == CleanEnglishName(value)
    case "common_name_english" => CleanEnglishName(value) != "" ==> x.commonName == CleanEnglishName(value)
    case "blood_group" => p.blood(value).Some? ==> x.bloodGroup == Condensed(p.blood(value).value)
    case "serial_number" => p.serial(value).Some? ==> x.serialNumber == Condensed(p.serial(value).value)
    case "address_english" =>
      var address := CleanEnglishAddress(value);
      if x.islandEnglish == "" then x.houseEnglish == address
      else x.houseEnglish + " " + x.islandEnglish == address
    case _ => true
  }

  lemma ReadIsShown(p: Patterns, raw: string, x: Extraction, tag: string, value: string)
    requires Sound(p) && MatchesFirst(p) && ReadFrom(p, raw, x) && TaggedValue(raw, tag) == value != ""
    ensures Shown(p, tag, value, Join(Fields(raw), " "), x)
  {
    hide Sound, TaggedValue, Join, ShowsBack, CleanEnglishName, CleanEnglishAddress, Condensed, LabelledName,
      TextAfterLabel, OcrReadings.IsDate, Fields, ToUpper, MatchesFirst, SexRead, BirthRead, ExpiryRead, AddressRead;
    var text := Join(Fields(raw), " ");
    MatchesKept(p, value, text);
    match tag
    case "date_of_birth" => if p.dates(value) != [] { DatesShown(p, value, text, x); }
    case "expiry_date" => if p.dates(value) != [] { DatesShown(p, value, text, x); }
    case "sex" => SexShown(p, value, text, x);
    case "address_english" => AddressShown(value, text, x);
    case _ =>
  }

  lemma MatchesKept(p: Patterns, value: string, text: string)
    requires MatchesFirst(p)
    ensures p.blood(value).Some? ==> p.blood(value + " " + text) == p.blood(value)
    ensures p.serial(value).Some? ==> p.serial(value + " " + text) == p.serial(value)
  {
  }

  lemma DatesShown(p: Patterns, value: string, text: string, x: Extraction)
    requires value != "" && p.dates(value) != []
    ensures BirthRead(p, value, text, x.dateOfBirth) ==> IsDate(x.dateOfBirth, p.dates(value)[0])
    ensures ExpiryRead(p, value, text, x.expiryDate) ==> IsDate(x.expiryDate, p.dates(value)[0])
  {
    hide ShowsBack, OcrReadings.IsDate;
  }

  lemma SexShown(p: Patterns, value: string, text: string, x: Extraction)
    requires SexRead(p, value, text, x.sex)
    ensures p.taggedF(ToUpper(value)) ==> x.sex == "F"
    ensures p.taggedM(ToUpper(value)) && !p.taggedF(ToUpper(value)) && !p.labelledF(ToUpper(text)) ==> x.sex == "M"
  {
    hide ToUpper;
  }

  lemma AddressShown(value: string, text: string, x: Extraction)
    requires value != "" && AddressRead(value, text, x.houseEnglish, x.islandEnglish)
    ensures CleanEnglishAddress(value) ==
      if x.islandEnglish == "" then x.houseEnglish else x.houseEnglish + " " + x.islandEnglish
  {
    hide CleanEnglishAddress, TextAfterLabel, Fields;
  }

  lemma {:induction false} TaggedAfter(before: seq<string>, lines: seq<string>, tag: string)
    requires Untagged(before, tag)
    ensures TaggedIn(before + lines, tag) == TaggedIn(lines, tag)
    decreases |before|
  {
    hide TrimSpace, ToLower, HasPrefix;
    if before == [] {
      assert before + lines == lines;
    } else {
      TaggedAfter(before[1..], lines, tag);
      assert (before + lines)[1..] == before[1..] + lines;
    }
  }

  lemma {:induction false} TaggedBefore(lines: seq<string>, after: seq<string>, tag: string)
    requires TaggedIn(lines, tag) != ""
    ensures TaggedIn(lines + after, tag) == TaggedIn(lines, tag)
    decreases |lines|
  {
    hide TrimSpace, ToLower, HasPrefix;
    assert (lines + after)[1..] == lines[1..] + after;
    if !HasPrefix(ToLower(TrimSpace(lines[0])), tag + ":") {
      TaggedBefore(lines[1..], after, tag);
    }
  }

  lemma SplitText(before: seq<string>, entries: Entries, after: seq<string>)
    requires ProperEntries(entries) && entries != [] && Lines(before) && Lines(after)
    ensures Split(TextOf(before, entries, after), '\n') == before + LinesOf(entries) + after
  {
    hide IsTag, IsValue, LineOf;
    forall j | 0 <= j < |entries| ensures '\n' !in LinesOf(entries)[j] {
      LineHasTag(entries[j].0, entries[j].1, entries[j].0);
    }
    SplitOfJoin(before + LinesOf(entries) + after, '\n');
  }

  lemma TaggedInText(before: seq<string>, entries: Entries, after: seq<string>, k: nat)
    requires ProperEntries(entries) && k < |entries| && Lines(before) && Lines(after)
    requires Untagged(before, entries[k].0)
    ensures TaggedValue(TextOf(before, entries, after), entries[k].0) == entries[k].1 != ""
  {
    hide IsTag, LinesOf, TaggedIn, Untagged, Lines, TextOf;
    SplitText(before, entries, after);
    TaggedInLines(entries, k);
    TaggedBefore(LinesOf(entries), after, entries[k].0);
    TaggedAfter(before, LinesOf(entries) + after, entries[k].0);
    assert before + LinesOf(entries) + after == before + (LinesOf(entries) + after);
  }

  /** However the regions are ordered and however many there are, each one's value is the value of
      its field, unless an earlier line of the text is tagged like it: no region is read into
      another's field. */
  lemma TemplateFields(p: Patterns, before: seq<string>, entries: Entries, after: seq<string>, x: Extraction, k: nat)
    requires Sound(p) && MatchesFirst(p) && ProperEntries(entries) && k < |entries| && Lines(before) && Lines(after)
    requires Untagged(before, entries[k].0) && ReadFrom(p, TextOf(before, entries, after), x)
    ensures Shown(p, entries[k].0, entries[k].1, Join(Fields(TextOf(before, entries, after)), " "), x)
  {
    hide Fields, Join, ProperEntries, TextOf, ReadFrom, Shown, Sound, MatchesFirst, Untagged, Lines;
    TaggedInText(before, entries, after, k);
    ReadIsShown(p, TextOf(before, entries, after), x, entries[k].0, entries[k].1);
  }

  lemma {:induction false} TaggedInNone(lines: seq<string>, tag: string)
    requires Untagged(lines, tag)
    ensures TaggedIn(lines, tag) == ""
    decreases |lines|
  {
    hide TrimSpace, ToLower, HasPrefix;
    if lines != [] {
      TaggedInNone(lines[1..], tag);
    }
  }

  // A region that was not read has no value, and its field is left to the text as a whole.
  lemma MissingRegion(before: seq<string>, entries: Entries, after: seq<string>, tag: string)
    requires ProperEntries(entries) && entries != [] && IsTag(tag) && Lines(before) && Lines(after)
    requires Untagged(before, tag) && Untagged(after, tag) && forall j :: 0 <= j < |entries| ==> entries[j].0 != tag
    ensures TaggedValue(TextOf(before, entries, after), tag) == ""
  {
    hide IsTag, IsValue, LineOf, TaggedIn, TextOf, TrimSpace, ToLower, HasPrefix;
    SplitText(before, entries, after);
    forall j | 0 <= j < |entries| ensures !HasPrefix(ToLower(TrimSpace(LinesOf(entries)[j])), tag + ":") {
      LineHasTag(entries[j].0, entries[j].1, tag);
    }
    TaggedInNone(before + LinesOf(entries) + after, tag);
  }

  // ---------- reading the regions ----------

  // A region's name, and how sure the service can be of what it reads there.
  datatype Named = Named(name: string, confidence: real)

  const FRONT: seq<Named> := [
    Named("national_id", 0.95), Named("name_english", 0.85), Named("sex", 0.9), Named("date_of_birth", 0.9),
    Named("address_english", 0.75)]

  const BACK: seq<Named> := [
    Named("serial_number", 0.9), Named("common_name_english", 0.9), Named("blood_group", 0.95),
    Named("expiry_date", 0.95)]

  // What the recogniser says of a region: its text and how sure it is, or a failure.
  type Readings = seq<Option<(string, real)>>

  // The regions that were read, in order, with their texts.
  function EntriesOf(regions: seq<Named>, readings: Readings): Entries
    requires |regions| == |readings|
    decreases |regions|
  {
    if regions == [] then []
    else
      var n := |regions| - 1;
      EntriesOf(regions[..n], readings[..n]) +
      (if readings[n].Some? && !AllSpace(readings[n].value.0)
       then [(regions[n].name, TrimSpace(readings[n].value.0))] else [])
  }

  lemma EntriesNext(regions: seq<Named>, readings: Readings, i: nat)
    requires |regions| == |readings| && i < |regions|
    ensures EntriesOf(regions[..i + 1], readings[..i + 1]) ==
      EntriesOf(regions[..i], readings[..i]) +
      (if readings[i].Some? && !AllSpace(readings[i].value.0)
       then [(regions[i].name, TrimSpace(readings[i].value.0))] else [])
  {
    hide AllSpace, TrimSpace;
    assert regions[..i + 1][..i] == regions[..i] && readings[..i + 1][..i] == readings[..i];
  }

  lemma LinesAppend(entries: Entries, e: (string, string))
    ensures LinesOf(entries + [e]) == LinesOf(entries) + [LineOf(e.0, e.1)]
  {
  }

  // A region that cannot be read, or reads as nothing, is passed over.
  method ReadTemplate(regions: seq<Named>, readings: Readings) returns (text: string)
    requires |regions| == |readings|
    ensures text == TextOf([], EntriesOf(regions, readings), [])
  {
    hide AllSpace, TrimSpace, LinesOf, EntriesOf, Join;
    var lines: seq<string> := [];
    ghost var entries: Entries := [];
    NoEntries(regions, readings);
    for i := 0 to |regions|
      invariant entries == EntriesOf(regions[..i], readings[..i]) && lines == LinesOf(entries)
    {
      EntriesNext(regions, readings, i);
      if readings[i].None? {
        continue;
      }
      BlankIffAllSpace(readings[i].value.0);
      if TrimSpace(readings[i].value.0) == "" {
        continue;
      }
      LinesAppend(entries, (regions[i].name, TrimSpace(readings[i].value.0)));
      lines := lines + [regions[i].name + ": " + TrimSpace(readings[i].value.0)];
      entries := entries + [(regions[i].name, TrimSpace(readings[i].value.0))];
    }
    assert regions[..|regions|] == regions && readings[..|readings|] == readings;
    assert [] + lines + [] == lines;
    text := Join(lines, "\n");
  }

  lemma NoEntries(regions: seq<Named>, readings: Readings)
    requires |regions| == |readings|
    ensures EntriesOf(regions[..0], readings[..0]) == [] && LinesOf([]) == []
  {
  }

  predicate DistinctTags(regions: seq<Named>) {
    (forall j :: 0 <= j < |regions| ==> IsTag(regions[j].name)) &&
    forall i, j :: 0 <= i < j < |regions| ==> regions[i].name != regions[j].name
  }

  lemma TemplatesDistinct()
    ensures DistinctTags(FRONT) && DistinctTags(BACK)
  {
    FrontTags();
    BackTags();
    hide IsTag;
    assert FRONT[0].name[2] == 't' && FRONT[1].name[2] == 'm';
    assert |FRONT[0].name| == 11 && |FRONT[1].name| == 12 && |FRONT[2].name| == 3 && |FRONT[3].name| == 13;
    assert |FRONT[4].name| == 15 && |BACK[0].name| == 13 && |BACK[1].name| == 19;
    assert BACK[2].name[0] == 'b' && BACK[3].name[0] == 'e' && |BACK[2].name| == |BACK[3].name| == 11;
  }

  lemma FrontTags()
    ensures forall j :: 0 <= j < |FRONT| ==> IsTag(FRONT[j].name)
  {
    assert IsTag("national_id") && IsTag("name_english") && IsTag("sex") && IsTag("date_of_birth");
    assert IsTag("address_english");
  }

  lemma LongTags()
    ensures IsTag("common_name_english") && IsTag("serial_number")
  {
  }

  lemma BackTags()
    ensures forall j :: 0 <= j < |BACK| ==> IsTag(BACK[j].name)
  {
    assert IsTag("blood_group") && IsTag("expiry_date");
    LongTags();
    hide IsTag;
  }

  predicate NamedIn(regions: seq<Named>, name: string) {
    exists j :: 0 <= j < |regions| && regions[j].name == name
  }

  lemma NamedInFront(regions: seq<Named>, n: nat, name: string)
    requires n <= |regions| && NamedIn(regions[..n], name)
    ensures NamedIn(regions, name)
  {
    var j :| 0 <= j < n && regions[..n][j].name == name;
    assert regions[j].name == name;
  }

  // What the regions of a card are read as can be told apart.
  lemma {:induction false} ReadingsProper(regions: seq<Named>, readings: Readings)
    requires |regions| == |readings| && DistinctTags(regions)
    requires forall j :: 0 <= j < |readings| && readings[j].Some? ==> '\n' !in readings[j].value.0
    ensures var entries := EntriesOf(regions, readings);
      ProperEntries(entries) && forall k :: 0 <= k < |entries| ==> NamedIn(regions, entries[k].0)
    decreases |regions|
  {
    hide IsTag, AllSpace, TrimSpace, IsValue, NamedIn;
    if regions != [] {
      var n := |regions| - 1;
      ReadingsProper(regions[..n], readings[..n]);
      var front := EntriesOf(regions[..n], readings[..n]);
      forall k | 0 <= k < |front| ensures NamedIn(regions, front[k].0) && front[k].0 != regions[n].name {
        NameApart(regions, n, front[k].0);
        NamedInFront(regions, n, front[k].0);
      }
      LastNamed(regions);
      if readings[n].Some? && !AllSpace(readings[n].value.0) {
        TrimmedValue(readings[n].value.0);
      }
    }
  }

  lemma LastNamed(regions: seq<Named>)
    requires regions != []
    ensures NamedIn(regions, regions[|regions| - 1].name)
  {
  }

  lemma NameApart(regions: seq<Named>, n: nat, name: string)
    requires n < |regions| && DistinctTags(regions) && NamedIn(regions[..n], name)
    ensures name != regions[n].name
  {
    hide IsTag;
  }

  lemma TrimmedValue(s: string)
    requires !AllSpace(s) && '\n' !in s
    ensures IsValue(TrimSpace(s))
  {
    BlankIffAllSpace(s);
    var a, b := TrimParts(s);
  }
}
