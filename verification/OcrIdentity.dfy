/** From recognised words to the fields of an identity card (services/document_extraction.go). */
module OcrIdentity {
  import opened Text
  import opened OcrText
  import Documents = IdentityDocuments

  // ---------- the word table ----------

  // A line of the table that holds a word: its text, and how sure the recogniser is of it.
  function WordOf(line: string, parse: string -> Option<real>): Option<(string, real)> {
    var columns := Split(line, '\t');
    if |columns| < 12 then None
    else
      var word, confidence := TrimSpace(columns[11]), parse(columns[10]);
      if word == "" || confidence.None? || confidence.value < 0.0 then None else Some((word, confidence.value))
  }

  // The words of the table, without its heading.
  function WordsOf(lines: seq<string>, parse: string -> Option<real>): seq<(string, real)> {
    if |lines| <= 1 then []
    else
      var n := |lines| - 1;
      WordsOf(lines[..n], parse) + (match WordOf(lines[n], parse) case None => [] case Some(w) => [w])
  }

  function Texts(words: seq<(string, real)>): (texts: seq<string>)
    ensures |texts| == |words| && forall k :: 0 <= k < |words| ==> texts[k] == words[k].0
  {
    seq(|words|, k requires 0 <= k < |words| => words[k].0)
  }

  function Sum(words: seq<(string, real)>): real {
    if words == [] then 0.0 else Sum(words[..|words| - 1]) + words[|words| - 1].1 / 100.0
  }

  // ---------- the lines that the scanner reads ----------

  function Utf8Size(c: char): nat {
    if c < '\U{0080}' then 1 else if c < '\U{0800}' then 2 else if c < '\U{10000}' then 3 else 4
  }

  function Utf8Length(s: string): nat {
    if s == "" then 0 else Utf8Size(s[0]) + Utf8Length(s[1..])
  }

  // Nothing after the last line feed is no line.
  function RawLines(output: string): seq<string> {
    var parts := Split(output, '\n');
    if parts[|parts| - 1] == "" then parts[..|parts| - 1] else parts
  }

  function DropCR(line: string): string {
    if line != "" && line[|line| - 1] == '\r' then line[..|line| - 1] else line
  }

  function ScanLines(output: string): (lines: seq<string>)
    ensures |lines| == |RawLines(output)|
  {
    var raw := RawLines(output);
    seq(|raw|, k requires 0 <= k < |raw| => DropCR(raw[k]))
  }

  // The scanner gives up at a line of 64 KiB, the carriage return included.
  const MAX_LINE := 65536

  predicate Scannable(output: string) {
    forall k :: 0 <= k < |RawLines(output)| ==> Utf8Length(RawLines(output)[k]) < MAX_LINE
  }

  lemma {:induction false} Utf8OfAscii(s: string)
    requires forall i :: 0 <= i < |s| ==> s[i] < '\U{0080}'
    ensures Utf8Length(s) == |s|
    decreases |s|
  {
    if s != "" {
      Utf8OfAscii(s[1..]);
    }
  }

  // An ASCII table is read exactly when every line is shorter than 65536 characters.
  lemma ScannableIff(output: string)
    requires forall i :: 0 <= i < |output| ==> output[i] < '\U{0080}'
    ensures Scannable(output) <==> forall k :: 0 <= k < |RawLines(output)| ==> |RawLines(output)[k]| < 65536
  {
    var raw := RawLines(output);
    forall k | 0 <= k < |raw| ensures Utf8Length(raw[k]) == |raw[k]| {
      PartsWithin(output, '\n', k);
      forall i | 0 <= i < |raw[k]| ensures raw[k][i] < '\U{0080}' {
        assert raw[k][i] in raw[k];
      }
      Utf8OfAscii(raw[k]);
    }
  }

  lemma {:induction false} PartsWithin(s: string, sep: char, k: nat)
    requires k < |Split(s, sep)|
    ensures forall c :: c in Split(s, sep)[k] ==> c in s
    decreases |s|
  {
    if s != "" {
      var rest := Split(s[1..], sep);
      if s[0] == sep {
        if k != 0 {
          PartsWithin(s[1..], sep, k - 1);
        }
      } else {
        PartsWithin(s[1..], sep, k);
      }
    }
  }

  function Terminated(lines: seq<string>, end: string): string {
    if lines == [] then "" else lines[0] + end + Terminated(lines[1..], end)
  }

  lemma RawLinesCons(line: string, rest: string)
    requires '\n' !in line
    ensures RawLines(line + "\n" + rest) == [line] + RawLines(rest)
  {
    SplitCons(line, rest, '\n');
  }

  predicate PlainLine(line: string) {
    '\n' !in line && (line == "" || line[|line| - 1] != '\r')
  }

  /** Lines written out one after the other, each ended by a line feed or by a carriage return and a
      line feed, are the lines that the scanner reads. */
  lemma {:induction false} LinesRoundTrip(lines: seq<string>, end: string)
    requires forall k :: 0 <= k < |lines| ==> PlainLine(lines[k])
    requires end == "\n" || end == "\r\n"
    ensures ScanLines(Terminated(lines, end)) == lines
    decreases |lines|
  {
    hide ScanLines, PlainLine;
    if lines == [] {
      NoLines();
    } else {
      LinesRoundTrip(lines[1..], end);
      ScanLinesCons(lines[0], end, Terminated(lines[1..], end));
    }
  }

  lemma NoLines()
    ensures ScanLines("") == []
  {
  }

  lemma ScanLinesCons(line: string, end: string, rest: string)
    requires PlainLine(line) && (end == "\n" || end == "\r\n")
    ensures ScanLines(line + end + rest) == [line] + ScanLines(rest)
  {
    hide RawLines, ScanLines, DropCR, PlainLine;
    var raw := EndedLine(line, end, rest);
    RawLinesCons(raw, rest);
    ScanLinesOf(raw + "\n" + rest, raw, rest);
  }

  lemma EndedLine(line: string, end: string, rest: string) returns (raw: string)
    requires PlainLine(line) && (end == "\n" || end == "\r\n")
    ensures '\n' !in raw && DropCR(raw) == line && line + end + rest == raw + "\n" + rest
  {
    if end == "\n" {
      raw := line;
    } else {
      raw := line + "\r";
      assert line + end == raw + "\n" && raw[..|line|] == line;
    }
  }

  lemma ScanLinesOf(output: string, raw: string, rest: string)
    requires RawLines(output) == [raw] + RawLines(rest)
    ensures ScanLines(output) == [DropCR(raw)] + ScanLines(rest)
  {
    hide RawLines, DropCR;
  }

  /** Collects the words line by line, adding up what the recogniser says of them. A line that is
      too long for the scanner fails the whole table. */
  method ParseTSVWords(output: string, parse: string -> Option<real>)
    returns (r: Result<(seq<string>, real, nat)>)
    ensures r.Ok? <==> Scannable(output)
    ensures r.Ok? ==>
      var words := WordsOf(ScanLines(output), parse);
      r.value == (Texts(words), Sum(words), |words|)
  {
    hide WordOf, WordsOf, Sum, RawLines, ScanLines, Utf8Length, DropCR, Texts;
    var raw := RawLines(output);
    ghost var lines := ScanLines(output);
    NoWords(lines, parse);
    ScannedAt(output);
    var words: seq<string> := [];
    var confidenceTotal, confidenceCount := 0.0, 0;
    var first := true;
    ghost var found: seq<(string, real)> := [];
    for i := 0 to |raw|
      invariant first <==> i == 0
      invariant forall k :: 0 <= k < i ==> Utf8Length(raw[k]) < MAX_LINE
      invariant found == WordsOf(lines[..i], parse)
      invariant words == Texts(found) && confidenceTotal == Sum(found) && confidenceCount == |found|
    {
      WordsOfNext(lines, i, parse);
      if Utf8Length(raw[i]) >= MAX_LINE {
        return Err("services: read OCR output");
      }
      if first {
        first := false;
        continue;
      }
      var word := WordOf(DropCR(raw[i]), parse);
      if word.None? {
        continue;
      }
      SumNext(found, word.value);
      found := found + [word.value];
      words := words + [word.value.0];
      confidenceTotal := confidenceTotal + word.value.1 / 100.0;
      confidenceCount := confidenceCount + 1;
    }
    assert lines[..|lines|] == lines;
    r := Ok((words, confidenceTotal, confidenceCount));
  }

  lemma ScannedAt(output: string)
    ensures forall k :: 0 <= k < |RawLines(output)| ==> ScanLines(output)[k] == DropCR(RawLines(output)[k])
  {
    hide RawLines, DropCR;
  }

  lemma NoWords(lines: seq<string>, parse: string -> Option<real>)
    ensures WordsOf(lines[..0], parse) == [] && Sum([]) == 0.0 && Texts([]) == []
  {
  }

  lemma WordsOfNext(lines: seq<string>, i: nat, parse: string -> Option<real>)
    requires i < |lines|
    ensures var before, after := WordsOf(lines[..i], parse), WordsOf(lines[..i + 1], parse);
      after == if i == 0 || WordOf(lines[i], parse).None? then before else before + [WordOf(lines[i], parse).value]
  {
    assert lines[..i + 1][..i] == lines[..i];
  }

  lemma SumNext(words: seq<(string, real)>, w: (string, real))
    ensures Sum(words + [w]) == Sum(words) + w.1 / 100.0
    ensures Texts(words + [w]) == Texts(words) + [w.0]
  {
    assert (words + [w])[..|words|] == words;
  }

  function AverageWithCount(total: real, count: nat): real {
    if count == 0 then 0.0 else total / count as real
  }

  lemma {:induction false} SumWithin(words: seq<(string, real)>)
    requires forall k :: 0 <= k < |words| ==> 0.0 <= words[k].1 <= 100.0
    ensures 0.0 <= Sum(words) <= |words| as real
    decreases |words|
  {
    if words != [] {
      SumWithin(words[..|words| - 1]);
    }
  }

  // The words all come from lines below the heading, with a confidence that is not negative.
  lemma {:induction false} WordsPositive(lines: seq<string>, parse: string -> Option<real>)
    ensures forall k :: 0 <= k < |WordsOf(lines, parse)| ==>
      WordsOf(lines, parse)[k].0 != "" && 0.0 <= WordsOf(lines, parse)[k].1
    decreases |lines|
  {
    if 1 < |lines| {
      WordsPositive(lines[..|lines| - 1], parse);
    }
  }

  /** A table in per cent gives a base confidence between 0 and 1, and no word that is counted is
      blank. */
  lemma AverageWithin(lines: seq<string>, parse: string -> Option<real>)
    requires forall k :: 0 <= k < |WordsOf(lines, parse)| ==> WordsOf(lines, parse)[k].1 <= 100.0
    ensures var words := WordsOf(lines, parse);
      0.0 <= AverageWithCount(Sum(words), |words|) <= 1.0 && "" !in Texts(words)
  {
    var words := WordsOf(lines, parse);
    WordsPositive(lines, parse);
    SumWithin(words);
    if 0 < |words| {
      Quotient(Sum(words), |words| as real);
    }
  }

  lemma Quotient(a: real, b: real)
    requires 0.0 <= a <= b && 0.0 < b
    ensures 0.0 <= a / b <= 1.0
  {
  }

  // ---------- tagged lines ----------

  function TaggedIn(lines: seq<string>, tag: string): string {
    if lines == [] then ""
    else
      var line := TrimSpace(lines[0]);
      if HasPrefix(ToLower(line), tag + ":") then TrimSpace(line[|tag| + 1..]) else TaggedIn(lines[1..], tag)
  }

  function TaggedValue(text: string, tag: string): string {
    TaggedIn(Split(text, '\n'), tag)
  }

  method FindTagged(text: string, tag: string) returns (value: string)
    ensures value == TaggedValue(text, tag)
  {
    hide TrimSpace, ToLower, HasPrefix;
    var prefix := tag + ":";
    var lines := Split(text, '\n');
    for i := 0 to |lines|
      invariant TaggedIn(lines, tag) == TaggedIn(lines[i..], tag)
    {
      assert lines[i..][1..] == lines[i + 1..];
      var line := TrimSpace(lines[i]);
      if HasPrefix(ToLower(line), prefix) {
        PrefixShorter(ToLower(line), prefix);
        return TrimSpace(line[|prefix|..]);
      }
    }
    assert lines[|lines|..] == [];
    value := "";
  }

  lemma PrefixShorter(s: string, prefix: string)
    requires HasPrefix(s, prefix)
    ensures |prefix| <= |s|
  {
  }

  // What the template regions are called.
  predicate IsTag(tag: string) {
    tag != "" && forall i :: 0 <= i < |tag| ==> 'a' <= tag[i] <= 'z' || tag[i] == '_'
  }

  // What a region's recognised text may be.
  predicate IsValue(value: string) {
    value != "" && Trimmed(value) && '\n' !in value
  }

  function LineOf(tag: string, value: string): string {
    tag + ": " + value
  }

  function LinesOf(entries: seq<(string, string)>): (lines: seq<string>)
    ensures |lines| == |entries|
    ensures forall k :: 0 <= k < |entries| ==> lines[k] == LineOf(entries[k].0, entries[k].1)
  {
    seq(|entries|, k requires 0 <= k < |entries| => LineOf(entries[k].0, entries[k].1))
  }

  lemma {:induction false} SplitOfJoin(lines: seq<string>, sep: char)
    requires lines != [] && forall k :: 0 <= k < |lines| ==> sep !in lines[k]
    ensures Split(Join(lines, [sep]), sep) == lines
    decreases |lines|
  {
    var first, rest := lines[0], lines[1..];
    if rest == [] {
      SplitAlone(first, sep);
      assert lines == [first];
    } else {
      SplitOfJoin(rest, sep);
      SplitCons(first, Join(rest, [sep]), sep);
      assert lines == [first] + rest;
    }
  }

  lemma SplitAlone(s: string, sep: char)
    requires sep !in s
    ensures Split(s, sep) == [s]
  {
    var parts := Split(s, sep);
    assert |parts| == 1 && parts[0] == s;
  }

  // A line begins with its own tag and a colon, and with no other tag's.
  lemma LineHasTag(tag: string, value: string, other: string)
    requires IsTag(tag) && IsValue(value) && IsTag(other)
    ensures var line := LineOf(tag, value);
      TrimSpace(line) == line && (HasPrefix(ToLower(line), other + ":") <==> tag == other) &&
      TrimSpace(line[|tag| + 1..]) == value && '\n' !in line
  {
    hide TrimSpace, ToLower, HasPrefix, IsTag, IsValue, LineOf;
    LineTrimmed(tag, value);
    LineValue(tag, value);
    OneLine(tag, value);
    LowerLine(tag, value);
    TagOfLower(ToLower(LineOf(tag, value)), tag, other);
  }

  lemma LineTrimmed(tag: string, value: string)
    requires IsTag(tag) && IsValue(value)
    ensures TrimSpace(LineOf(tag, value)) == LineOf(tag, value)
  {
    var line := LineOf(tag, value);
    assert line[0] == tag[0] && line[|line| - 1] == value[|value| - 1];
    hide TrimSpace;
  }

  lemma TagOfLower(lower: string, tag: string, other: string)
    requires IsTag(tag) && IsTag(other) && |tag| < |lower| && lower[..|tag|] == tag && lower[|tag|] == ':'
    ensures HasPrefix(lower, other + ":") <==> tag == other
  {
    hide HasPrefix, IsTag;
    var rest := lower[|tag| + 1..];
    assert lower == tag + ":" + rest;
    TagPrefix(tag, rest, other);
  }

  lemma LowerLine(tag: string, value: string)
    requires IsTag(tag)
    ensures var lower := ToLower(LineOf(tag, value));
      |tag| < |lower| && lower[..|tag|] == tag && lower[|tag|] == ':'
  {
    var line := LineOf(tag, value);
    var lower := ToLower(line);
    forall i | 0 <= i < |tag| ensures lower[i] == tag[i] {
      assert line[i] == tag[i];
    }
    assert line[|tag|] == ':';
  }

  lemma TagPrefix(tag: string, rest: string, other: string)
    requires IsTag(tag) && IsTag(other)
    ensures HasPrefix(tag + ":" + rest, other + ":") <==> tag == other
  {
    var s, prefix := tag + ":" + rest, other + ":";
    assert forall i :: 0 <= i < |tag| ==> s[i] == tag[i];
    assert s[|tag|] == ':';
    if HasPrefix(s, prefix) {
      assert forall i :: 0 <= i < |prefix| ==> s[i] == prefix[i];
      assert forall i :: 0 <= i < |other| ==> s[i] == other[i] && s[i] != ':';
      assert s[|other|] == prefix[|other|] == ':';
      assert |tag| == |other|;
      assert forall i :: 0 <= i < |tag| ==> tag[i] == other[i];
    }
    if tag == other {
      assert s[..|prefix|] == prefix;
    }
  }

  lemma OneLine(tag: string, value: string)
    requires IsTag(tag) && IsValue(value)
    ensures '\n' !in LineOf(tag, value)
  {
    assert '\n' !in tag && '\n' !in ": " && '\n' !in value;
  }

  lemma LineValue(tag: string, value: string)
    requires IsValue(value)
    ensures TrimSpace(LineOf(tag, value)[|tag| + 1..]) == value
  {
    assert LineOf(tag, value)[|tag| + 1..] == " " + value + "";
    TrimPadded(" ", value, "");
  }

  lemma {:induction false} TaggedInLines(entries: seq<(string, string)>, k: nat)
    requires k < |entries|
    requires forall j :: 0 <= j < |entries| ==> IsTag(entries[j].0) && IsValue(entries[j].1)
    requires forall j :: 0 <= j < k ==> entries[j].0 != entries[k].0
    ensures TaggedIn(LinesOf(entries), entries[k].0) == entries[k].1
    decreases |entries|
  {
    hide IsTag, IsValue, LineOf, TrimSpace, ToLower, HasPrefix;
    LineHasTag(entries[0].0, entries[0].1, entries[k].0);
    if k != 0 {
      assert LinesOf(entries)[1..] == LinesOf(entries[1..]);
      TaggedInLines(entries[1..], k - 1);
    }
  }

  /** The text that the template regions are put together into gives every region's value back
      under its tag. */
  lemma TaggedRoundTrip(entries: seq<(string, string)>, k: nat)
    requires k < |entries|
    requires forall j :: 0 <= j < |entries| ==> IsTag(entries[j].0) && IsValue(entries[j].1)
    requires forall i, j :: 0 <= i < j < |entries| ==> entries[i].0 != entries[j].0
    ensures TaggedValue(Join(LinesOf(entries), "\n"), entries[k].0) == entries[k].1
  {
    hide IsTag, IsValue, LineOf, TaggedIn;
    forall j | 0 <= j < |entries| ensures '\n' !in LinesOf(entries)[j] {
      LineHasTag(entries[j].0, entries[j].1, entries[j].0);
    }
    SplitOfJoin(LinesOf(entries), '\n');
    TaggedInLines(entries, k);
  }

  // ---------- the columns of a row ----------

  /** A row of the table counts as a word exactly when it has twelve columns or more, the twelfth is
      not blank and the eleventh reads as a confidence that is not negative. */
  lemma RowRead(columns: seq<string>, parse: string -> Option<real>)
    requires columns != [] && forall k :: 0 <= k < |columns| ==> '\t' !in columns[k]
    ensures var word := WordOf(Join(columns, "\t"), parse);
      (word.Some? <==>
        12 <= |columns| && !AllSpace(columns[11]) && parse(columns[10]).Some? && 0.0 <= parse(columns[10]).value) &&
      (word.Some? ==> word.value == (TrimSpace(columns[11]), parse(columns[10]).value))
  {
    hide Split, Join, TrimSpace, AllSpace;
    SplitOfJoin(columns, '\t');
    if 12 <= |columns| {
      BlankIffAllSpace(columns[11]);
    }
  }

  // The table is read row by row, and its heading is passed over.
  lemma {:induction false} TableRead(heading: string, rows: seq<string>, row: string, parse: string -> Option<real>)
    ensures WordsOf([heading], parse) == []
    ensures WordsOf([heading] + rows + [row], parse) ==
      WordsOf([heading] + rows, parse) + (if WordOf(row, parse).Some? then [WordOf(row, parse).value] else [])
  {
    hide WordOf;
    assert ([heading] + rows + [row])[..|rows| + 1] == [heading] + rows;
  }

  lemma {:induction false} SumUniform(words: seq<(string, real)>, c: real)
    requires forall k :: 0 <= k < |words| ==> words[k].1 == c
    ensures Sum(words) == |words| as real * (c / 100.0)
    decreases |words|
  {
    if words != [] {
      SumUniform(words[..|words| - 1], c);
      assert |words| as real == (|words| - 1) as real + 1.0;
    }
  }

  lemma MeanOfEqual(total: real, n: nat, c: real)
    requires n != 0 && total == n as real * c
    ensures AverageWithCount(total, n) == c
  {
  }

  // The base confidence is a mean: words that are all equally sure make the text as sure as they are.
  lemma AverageUniform(words: seq<(string, real)>, c: real)
    requires words != [] && forall k :: 0 <= k < |words| ==> words[k].1 == c
    ensures AverageWithCount(Sum(words), |words|) == c / 100.0
  {
    hide Sum, AverageWithCount;
    SumUniform(words, c);
    MeanOfEqual(Sum(words), |words|, c / 100.0);
  }

  // ---------- matched patterns ----------

  // Day, month and year of a date, as they are written.
  datatype DateMatch = DateMatch(day: string, month: string, year: string)

  /** The regular expressions, each as the function that it computes on a text: the matched text,
      the matched dates in order, or where a match ends. */
  datatype Patterns = Patterns(
    nationalId: string -> Option<string>, dates: string -> seq<DateMatch>,
    taggedF: string -> bool, labelledF: string -> bool, taggedM: string -> bool, labelledM: string -> bool,
    nameLabel: string -> Option<nat>, blood: string -> Option<string>, serial: string -> Option<string>)

  predicate Digits(s: string) {
    forall i :: 0 <= i < |s| ==> IsDigit(s[i])
  }

  predicate ProperDate(m: DateMatch) {
    1 <= |m.day| <= 2 && Digits(m.day) && 1 <= |m.month| <= 2 && Digits(m.month) && |m.year| == 4 && Digits(m.year)
  }

  predicate NotBlank(s: string) {
    exists i :: 0 <= i < |s| && s[i] != ' '
  }

  // What the expressions promise of a match.
  ghost predicate Sound(p: Patterns) {
    (forall s :: p.nationalId(s).Some? ==> NotBlank(p.nationalId(s).value)) &&
    (forall s, m :: m in p.dates(s) ==> ProperDate(m)) &&
    (forall s :: p.nameLabel(s).Some? ==> p.nameLabel(s).value <= |s|) &&
    (forall s :: p.blood(s).Some? ==> NotBlank(p.blood(s).value)) &&
    (forall s :: p.serial(s).Some? ==> NotBlank(p.serial(s).value))
  }

  // ---------- dates ----------

  // fmt.Sprintf("%02d") of one or two digits.
  function TwoDigits(s: string): string {
    if |s| == 1 then "0" + s else s
  }

  function IsoDate(m: DateMatch): string {
    m.year + "-" + TwoDigits(m.month) + "-" + TwoDigits(m.day)
  }

  lemma NumberOfTwo(s: string)
    requires 1 <= |s| <= 2 && Digits(s)
    ensures |TwoDigits(s)| == 2 && Digits(TwoDigits(s)) && Documents.Number(TwoDigits(s)) == Documents.Number(s)
  {
    if |s| == 1 {
      var t := "0" + s;
      assert t[..1] == "0" && s[..0] == "" && "0"[..0] == "";
      assert t[1] == s[0];
    }
  }

  /** The written date has the documented form but need not be a day of the calendar: saving accepts
      it exactly when the month and the day exist. */
  lemma IsoDateValidIff(m: DateMatch)
    requires ProperDate(m)
    ensures var month, day := Documents.Number(m.month), Documents.Number(m.day);
      Documents.ValidIsoDate(IsoDate(m)) <==>
      1 <= month <= 12 && 1 <= day <= Documents.DaysIn(month, Documents.Number(m.year))
  {
    NumberOfTwo(m.month);
    NumberOfTwo(m.day);
    hide TwoDigits, Documents.Number, Documents.DaysIn;
    var s, month, day := IsoDate(m), TwoDigits(m.month), TwoDigits(m.day);
    assert s[..4] == m.year && s[5..7] == month && s[8..] == day && s[4] == '-' && s[7] == '-';
    forall i | 0 <= i < 10 && i != 4 && i != 7 ensures IsDigit(s[i]) {
      assert s[i] == if i < 4 then m.year[i] else if i < 7 then month[i - 5] else day[i - 8];
    }
  }
}
