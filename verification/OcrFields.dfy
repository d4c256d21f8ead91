/** Filling in the fields of an identity card from its recognised text: parseIdentityText in
    services/document_extraction.go. */
module OcrFields {
  import opened Text
  import opened OcrText
  import opened OcrIdentity
  import opened OcrReadings

  // The keys of the confidence map; Address stands for the house and the island together.
  datatype Field =
    | NationalId | DateOfBirth | ExpiryDate | Sex | NameEnglish | CommonName | BloodGroup | SerialNumber | Address

  datatype Extraction = Extraction(
    rawText: string, nationalId: string, dateOfBirth: string, expiryDate: string, sex: string,
    nameEnglish: string, commonName: string, bloodGroup: string, serialNumber: string,
    houseEnglish: string, islandEnglish: string,
    confidence: map<Field, real>, warnings: seq<string>)

  function Value(x: Extraction, f: Field): string {
    match f
    case NationalId => x.nationalId
    case DateOfBirth => x.dateOfBirth
    case ExpiryDate => x.expiryDate
    case Sex => x.sex
    case NameEnglish => x.nameEnglish
    case CommonName => x.commonName
    case BloodGroup => x.bloodGroup
    case SerialNumber => x.serialNumber
    case Address => x.houseEnglish
  }

  // A field has a confidence exactly when it has been found.
  ghost predicate Agrees(x: Extraction) {
    forall f :: f in x.confidence <==> Value(x, f) != ""
  }

  ghost predicate InRange(x: Extraction, base: real) {
    forall f :: f in x.confidence ==> 0.0 <= x.confidence[f] <= base
  }

  predicate Untouched(x: Extraction) {
    x.nationalId == "" && x.dateOfBirth == "" && x.expiryDate == "" && x.sex == "" && x.nameEnglish == "" &&
    x.commonName == "" && x.bloodGroup == "" && x.serialNumber == "" && x.houseEnglish == "" && x.islandEnglish == "" &&
    x.confidence == map[]
  }

  function MinReal(a: real, b: real): real {
    if b < a then b else a
  }

  // ---------- what each field is ----------

  function Normalized(raw: string): string {
    Join(Fields(raw), " ")
  }

  // Drops the blanks.
  function Squash(s: string): string {
    if s == "" then "" else (if s[0] == ' ' then "" else [s[0]]) + Squash(s[1..])
  }

  lemma {:induction false} SquashKeeps(s: string)
    requires NotBlank(s)
    ensures ToUpper(Squash(s)) != "" && Squash(ToUpper(s)) != ""
    decreases |s|
  {
    assert ToUpper(s)[1..] == ToUpper(s[1..]);
    if s[0] == ' ' {
      var i :| 0 <= i < |s| && s[i] != ' ';
      assert s[1..][i - 1] == s[i];
      SquashKeeps(s[1..]);
    }
  }

  function NationalIdOf(p: Patterns, raw: string): string {
    var tagged := p.nationalId(TaggedValue(raw, "national_id"));
    var anywhere := p.nationalId(Normalized(raw));
    if TaggedValue(raw, "national_id") != "" && tagged.Some? then ToUpper(Squash(tagged.value))
    else if anywhere.Some? then ToUpper(Squash(anywhere.value))
    else ""
  }

  predicate IsBack(normalized: string) {
    Contains(ToLower(normalized), "common name") || Contains(ToLower(normalized), "blood group") ||
    Contains(ToLower(normalized), "expires on")
  }

  // The date on a tagged line.
  function TaggedDate(p: Patterns, raw: string, tag: string): Option<DateMatch> {
    var value := TaggedValue(raw, tag);
    if value != "" && p.dates(value) != [] then Some(p.dates(value)[0]) else None
  }

  // FindAllStringSubmatch with a limit of two.
  function FirstTwo(dates: seq<DateMatch>): seq<DateMatch> {
    if |dates| <= 2 then dates else dates[..2]
  }

  function BirthOf(p: Patterns, raw: string): Option<DateMatch> {
    var tagged, dates := TaggedDate(p, raw, "date_of_birth"), FirstTwo(p.dates(Normalized(raw)));
    if tagged.Some? then tagged
    else if dates != [] && !IsBack(Normalized(raw)) then Some(dates[0])
    else None
  }

  function ExpiryOf(p: Patterns, raw: string): Option<DateMatch> {
    var tagged, dates := TaggedDate(p, raw, "expiry_date"), FirstTwo(p.dates(Normalized(raw)));
    if tagged.Some? then tagged
    else if 1 < |dates| || (dates != [] && IsBack(Normalized(raw))) then Some(dates[|dates| - 1])
    else None
  }

  function Iso(m: Option<DateMatch>): string {
    match m
    case None => ""
    case Some(d) => IsoDate(d)
  }

  function SexOf(p: Patterns, raw: string): string {
    var tagged, upper := ToUpper(TaggedValue(raw, "sex")), ToUpper(Normalized(raw));
    if p.taggedF(tagged) || p.labelledF(upper) then "F"
    else if p.taggedM(tagged) || p.labelledM(upper) then "M"
    else ""
  }

  // The labels that a name, a common name and an address stop before.
  function NameStops(): seq<string> {
    ["Sex", "Date of Birth", "Address"]
  }

  function CommonNameStops(): seq<string> {
    ["Blood Group", "Expires on", "Expiry Date"]
  }

  function AddressStops(): seq<string> {
    ["Blood Group", "Expiry Date", "Common Name"]
  }

  // The name as the front of the card has it.
  function FrontName(p: Patterns, raw: string): string
    requires Sound(p)
  {
    var tagged, text := CleanEnglishName(TaggedValue(raw, "name_english")), Normalized(raw);
    if IsBack(text) then ""
    else
      CleanEnglishName(
        if tagged != "" then tagged else TextAfterStandaloneLabel(text, p.nameLabel(text), NameStops(), 5))
  }

  function CommonNameOf(raw: string): string {
    var tagged := CleanEnglishName(TaggedValue(raw, "common_name_english"));
    CleanEnglishName(
      if tagged != "" then tagged else TextAfterLabel(Normalized(raw), "Common Name", CommonNameStops(), 5))
  }

  function BloodGroupOf(p: Patterns, raw: string): string {
    match p.blood(TaggedValue(raw, "blood_group") + " " + Normalized(raw))
    case None => ""
    case Some(m) => Squash(ToUpper(m))
  }

  function SerialNumberOf(p: Patterns, raw: string): string {
    match p.serial(TaggedValue(raw, "serial_number") + " " + Normalized(raw))
    case None => ""
    case Some(m) => ToUpper(Squash(m))
  }

  function AddressOf(raw: string): string {
    var tagged := TaggedValue(raw, "address_english");
    CleanEnglishAddress(if tagged != "" then tagged else TextAfterLabel(Normalized(raw), "Address", AddressStops(), 8))
  }

  // House and island put together again.
  function Rejoined(x: Extraction): string {
    if x.islandEnglish == "" then x.houseEnglish else x.houseEnglish + " " + x.islandEnglish
  }

  // ---------- one field after the other ----------

  // How sure the service is of a field, should it find one.
  function Rate(p: Patterns, raw: string, base: real, f: Field): real
    requires Sound(p)
  {
    match f
    case NationalId =>
      var tagged := TaggedValue(raw, "national_id");
      if tagged != "" && p.nationalId(tagged).Some? then MinReal(0.95, base) else base
    case DateOfBirth => if TaggedDate(p, raw, "date_of_birth").Some? then MinReal(0.9, base) else base
    case ExpiryDate => if TaggedDate(p, raw, "expiry_date").Some? then MinReal(0.95, base) else base
    case NameEnglish => if FrontName(p, raw) != "" then base * 0.85 else base * 0.75
    case CommonName => base * 0.85
    case Address => base * 0.65
    case Sex => base
    case BloodGroup => base
    case SerialNumber => base
  }

  // None above the base confidence, which is what the recogniser says of the text as a whole.
  lemma RateWithin(p: Patterns, raw: string, base: real, f: Field)
    requires Sound(p) && 0.0 <= base
    ensures 0.0 <= Rate(p, raw, base, f) <= base
  {
    hide TaggedValue, TaggedDate, FrontName, Sound;
  }

  // A step notes a field, or leaves everything as it is when it has found nothing.
  ghost predicate Noted(before: Extraction, after: Extraction, f: Field, rate: real) {
    (forall g :: g != f ==> Value(after, g) == Value(before, g) &&
                            (g in after.confidence <==> g in before.confidence) &&
                            (g in before.confidence ==> after.confidence[g] == before.confidence[g])) &&
    (f in after.confidence <==> Value(after, f) != "") &&
    (f in after.confidence ==> after.confidence[f] == rate)
  }

  // The extraction with one field and the confidences replaced.
  function With(x: Extraction, f: Field, value: string, confidence: map<Field, real>): Extraction {
    var y := x.(confidence := confidence);
    match f
    case NationalId => y.(nationalId := value)
    case DateOfBirth => y.(dateOfBirth := value)
    case ExpiryDate => y.(expiryDate := value)
    case Sex => y.(sex := value)
    case NameEnglish => y.(nameEnglish := value)
    case CommonName => y.(commonName := value)
    case BloodGroup => y.(bloodGroup := value)
    case SerialNumber => y.(serialNumber := value)
    case Address => y.(houseEnglish := value)
  }

  function Noting(x: Extraction, f: Field, value: string, rate: real): Extraction {
    With(x, f, value, if value != "" then x.confidence[f := rate] else x.confidence)
  }

  lemma NotingNotes(x: Extraction, f: Field, value: string, rate: real)
    requires Value(x, f) == "" && f !in x.confidence
    ensures Noted(x, Noting(x, f, value, rate), f, rate)
  {
  }

  lemma IslandApart(x: Extraction, r: Extraction, f: Field, rate: real, island: string)
    requires Noted(x, r, f, rate)
    ensures Noted(x, r.(islandEnglish := island), f, rate)
  {
    assert forall g :: Value(r.(islandEnglish := island), g) == Value(r, g);
    hide Value;
  }

  method NoteNationalId(p: Patterns, raw: string, base: real, x: Extraction) returns (r: Extraction)
    requires Sound(p) && x.nationalId == "" && NationalId !in x.confidence
    ensures r == x.(nationalId := NationalIdOf(p, raw), confidence := r.confidence) &&
      Noted(x, r, NationalId, Rate(p, raw, base, NationalId))
  {
    hide TaggedValue, Normalized, ToUpper, Squash, Noted;
    NotingNotes(x, NationalId, NationalIdOf(p, raw), Rate(p, raw, base, NationalId));
    r := x;
    var normalized := Normalized(raw);
    var value := FindTagged(raw, "national_id");
    if value != "" {
      var found := p.nationalId(value);
      if found.Some? {
        SquashKeeps(found.value);
        r := r.(nationalId := ToUpper(Squash(found.value)),
                confidence := r.confidence[NationalId := MinReal(0.95, base)]);
      }
    }
    var found := p.nationalId(normalized);
    if found.Some? && r.nationalId == "" {
      SquashKeeps(found.value);
      r := r.(nationalId := ToUpper(Squash(found.value)), confidence := r.confidence[NationalId := base]);
    }
  }

  lemma IsoNotEmpty(m: DateMatch)
    ensures IsoDate(m) != ""
  {
  }

  method NoteDateOfBirth(p: Patterns, raw: string, base: real, x: Extraction) returns (r: Extraction)
    requires Sound(p) && x.dateOfBirth == "" && DateOfBirth !in x.confidence
    ensures r == x.(dateOfBirth := Iso(BirthOf(p, raw)), confidence := r.confidence) &&
      Noted(x, r, DateOfBirth, Rate(p, raw, base, DateOfBirth))
  {
    hide TaggedValue, Normalized, IsBack, IsoDate, Sound, Noted;
    NotingNotes(x, DateOfBirth, Iso(BirthOf(p, raw)), Rate(p, raw, base, DateOfBirth));
    r := x;
    var normalized := Normalized(raw);
    var value := FindTagged(raw, "date_of_birth");
    if value != "" {
      var matches := p.dates(value);
      if |matches| > 0 {
        IsoNotEmpty(matches[0]);
        r := r.(dateOfBirth := IsoDate(matches[0]), confidence := r.confidence[DateOfBirth := MinReal(0.9, base)]);
      }
    }
    var dates := FirstTwo(p.dates(normalized));
    if |dates| > 0 && !IsBack(normalized) && r.dateOfBirth == "" {
      IsoNotEmpty(dates[0]);
      r := r.(dateOfBirth := IsoDate(dates[0]), confidence := r.confidence[DateOfBirth := base]);
    }
  }

  method NoteExpiryDate(p: Patterns, raw: string, base: real, x: Extraction) returns (r: Extraction)
    requires Sound(p) && x.expiryDate == "" && ExpiryDate !in x.confidence
    ensures r == x.(expiryDate := Iso(ExpiryOf(p, raw)), confidence := r.confidence) &&
      Noted(x, r, ExpiryDate, Rate(p, raw, base, ExpiryDate))
  {
    hide TaggedValue, Normalized, IsBack, IsoDate, Sound, Noted;
    NotingNotes(x, ExpiryDate, Iso(ExpiryOf(p, raw)), Rate(p, raw, base, ExpiryDate));
    r := x;
    var normalized := Normalized(raw);
    var value := FindTagged(raw, "expiry_date");
    if value != "" {
      var matches := p.dates(value);
      if |matches| > 0 {
        IsoNotEmpty(matches[0]);
        r := r.(expiryDate := IsoDate(matches[0]), confidence := r.confidence[ExpiryDate := MinReal(0.95, base)]);
      }
    }
    var dates := FirstTwo(p.dates(normalized));
    if r.expiryDate == "" && (|dates| > 1 || (|dates| > 0 && IsBack(normalized))) {
      IsoNotEmpty(dates[|dates| - 1]);
      r := r.(expiryDate := IsoDate(dates[|dates| - 1]), confidence := r.confidence[ExpiryDate := base]);
    }
  }

  method NoteSex(p: Patterns, raw: string, base: real, x: Extraction) returns (r: Extraction)
    requires Sound(p) && x.sex == "" && Sex !in x.confidence
    ensures r == x.(sex := SexOf(p, raw), confidence := r.confidence) && Noted(x, r, Sex, Rate(p, raw, base, Sex))
  {
    hide TaggedValue, Normalized, ToUpper, Noted, Sound;
    NotingNotes(x, Sex, SexOf(p, raw), Rate(p, raw, base, Sex));
    r := x;
    var value := FindTagged(raw, "sex");
    var taggedSex, upper := ToUpper(value), ToUpper(Normalized(raw));
    if p.taggedF(taggedSex) || p.labelledF(upper) {
      r := r.(sex := "F", confidence := r.confidence[Sex := base]);
    } else if p.taggedM(taggedSex) || p.labelledM(upper) {
      r := r.(sex := "M", confidence := r.confidence[Sex := base]);
    }
  }

  lemma LabelEnds(p: Patterns, s: string)
    requires Sound(p)
    ensures p.nameLabel(s).Some? ==> p.nameLabel(s).value <= |s|
  {
  }

  method NoteFrontName(p: Patterns, raw: string, base: real, x: Extraction) returns (r: Extraction)
    requires Sound(p) && x.nameEnglish == "" && NameEnglish !in x.confidence
    ensures r == x.(nameEnglish := FrontName(p, raw), confidence := r.confidence) &&
      Noted(x, r, NameEnglish, Rate(p, raw, base, NameEnglish))
  {
    hide TaggedValue, Normalized, IsBack, CleanEnglishName, TextAfterStandaloneLabel, Sound, NameStops, Noted;
    NotingNotes(x, NameEnglish, FrontName(p, raw), Rate(p, raw, base, NameEnglish));
    r := x;
    var normalized := Normalized(raw);
    LabelEnds(p, normalized);
    if !IsBack(normalized) {
      var value := FindTagged(raw, "name_english");
      var name := CleanEnglishName(value);
      if name == "" {
        name := TextAfterStandaloneLabel(normalized, p.nameLabel(normalized), NameStops(), 5);
      }
      name := CleanEnglishName(name);
      r := r.(nameEnglish := name);
      if name != "" {
        r := r.(confidence := r.confidence[NameEnglish := base * 0.85]);
      }
    }
  }

  method NoteCommonName(p: Patterns, raw: string, base: real, x: Extraction) returns (r: Extraction)
    requires Sound(p) && x.commonName == "" && CommonName !in x.confidence
    ensures r == x.(commonName := CommonNameOf(raw), confidence := r.confidence) &&
      Noted(x, r, CommonName, Rate(p, raw, base, CommonName))
  {
    hide TaggedValue, Normalized, CleanEnglishName, TextAfterLabel, CommonNameStops, Noted, Sound;
    NotingNotes(x, CommonName, CommonNameOf(raw), Rate(p, raw, base, CommonName));
    var value := FindTagged(raw, "common_name_english");
    var name := CleanEnglishName(value);
    if name == "" {
      name := ReadAfterLabel(Normalized(raw), "Common Name", CommonNameStops(), 5);
    }
    name := CleanEnglishName(name);
    r := x.(commonName := name);
    if name != "" {
      r := r.(confidence := r.confidence[CommonName := base * 0.85]);
    }
  }

  // The back of a card has no name of its own: the common name stands in for it.
  method NoteNameFallback(p: Patterns, raw: string, base: real, x: Extraction) returns (r: Extraction)
    requires Sound(p) && x.nameEnglish == FrontName(p, raw)
    requires NameEnglish in x.confidence <==> x.nameEnglish != ""
    requires x.nameEnglish != "" ==> x.confidence[NameEnglish] == Rate(p, raw, base, NameEnglish)
    ensures r == x.(nameEnglish := if x.nameEnglish == "" then x.commonName else x.nameEnglish,
                    confidence := r.confidence)
    ensures Noted(x, r, NameEnglish, Rate(p, raw, base, NameEnglish))
  {
    hide FrontName, Sound;
    r := x;
    if x.commonName != "" && x.nameEnglish == "" {
      r := r.(nameEnglish := x.commonName, confidence := r.confidence[NameEnglish := base * 0.75]);
    }
  }

  method NoteBloodGroup(p: Patterns, raw: string, base: real, x: Extraction) returns (r: Extraction)
    requires Sound(p) && x.bloodGroup == "" && BloodGroup !in x.confidence
    ensures r == x.(bloodGroup := BloodGroupOf(p, raw), confidence := r.confidence) &&
      Noted(x, r, BloodGroup, Rate(p, raw, base, BloodGroup))
  {
    hide TaggedValue, Normalized, ToUpper, Squash, Noted;
    NotingNotes(x, BloodGroup, BloodGroupOf(p, raw), Rate(p, raw, base, BloodGroup));
    r := x;
    var tagged := FindTagged(raw, "blood_group");
    var found := p.blood(tagged + " " + Normalized(raw));
    if found.Some? {
      SquashKeeps(found.value);
      r := r.(bloodGroup := Squash(ToUpper(found.value)), confidence := r.confidence[BloodGroup := base]);
    }
  }

  method NoteSerialNumber(p: Patterns, raw: string, base: real, x: Extraction) returns (r: Extraction)
    requires Sound(p) && x.serialNumber == "" && SerialNumber !in x.confidence
    ensures r == x.(serialNumber := SerialNumberOf(p, raw), confidence := r.confidence) &&
      Noted(x, r, SerialNumber, Rate(p, raw, base, SerialNumber))
  {
    hide TaggedValue, Normalized, ToUpper, Squash, Noted;
    NotingNotes(x, SerialNumber, SerialNumberOf(p, raw), Rate(p, raw, base, SerialNumber));
    r := x;
    var tagged := FindTagged(raw, "serial_number");
    var found := p.serial(tagged + " " + Normalized(raw));
    if found.Some? {
      SquashKeeps(found.value);
      r := r.(serialNumber := ToUpper(Squash(found.value)), confidence := r.confidence[SerialNumber := base]);
    }
  }

  method FindAddress(raw: string) returns (address: string)
    ensures address == AddressOf(raw)
  {
    hide TaggedValue, Normalized, CleanEnglishAddress, TextAfterLabel, AddressStops;
    address := FindTagged(raw, "address_english");
    if address == "" {
      address := ReadAfterLabel(Normalized(raw), "Address", AddressStops(), 8);
    }
    NoAddress();
    if address != "" {
      address := CleanAddress(address);
    }
  }

  // The first half of the words is the house, the second the island.
  method NoteAddress(p: Patterns, raw: string, base: real, x: Extraction) returns (r: Extraction)
    requires Sound(p) && x.houseEnglish == "" && x.islandEnglish == "" && Address !in x.confidence
    ensures r == x.(houseEnglish := r.houseEnglish, islandEnglish := r.islandEnglish, confidence := r.confidence)
    ensures Rejoined(r) == AddressOf(raw) && Noted(x, r, Address, Rate(p, raw, base, Address))
    ensures r.islandEnglish != "" <==> 1 < |Fields(AddressOf(raw))|
    ensures 1 < |Fields(AddressOf(raw))| ==>
      0 <= |Fields(r.islandEnglish)| - |Fields(r.houseEnglish)| <= 1 &&
      |Fields(r.houseEnglish)| == |Fields(AddressOf(raw))| / 2
  {
    hide AddressOf, Fields, Join, Noted, Sound;
    var address := FindAddress(raw);
    var house, island := "", "";
    AddressWords(raw);
    if address != "" {
      var parts := Fields(address);
      if |parts| > 1 {
        var split := |parts| / 2;
        HalvesRejoin(parts, split);
        house, island := Join(parts[..split], " "), Join(parts[split..], " ");
      } else {
        house := address;
      }
    }
    r := x.(houseEnglish := house);
    if address != "" {
      r := r.(confidence := r.confidence[Address := base * 0.65]);
    }
    NotingNotes(x, Address, house, base * 0.65);
    IslandApart(x, r, Address, base * 0.65, island);
    r := r.(islandEnglish := island);
  }

  lemma NoAddress()
    ensures CleanEnglishAddress("") == "" && Fields("") == []
  {
  }

  lemma AddressWords(raw: string)
    ensures Join(Fields(AddressOf(raw)), " ") == AddressOf(raw) &&
      (AddressOf(raw) == "" ==> Fields(AddressOf(raw)) == [])
  {
    NoAddress();
    var tagged := TaggedValue(raw, "address_english");
    CleanAddressTwice(if tagged != "" then tagged else TextAfterLabel(Normalized(raw), "Address", AddressStops(), 8));
  }

  lemma HalvesRejoin(parts: seq<string>, split: nat)
    requires Words(parts) && 0 < split < |parts|
    ensures var a, b := Join(parts[..split], " "), Join(parts[split..], " ");
      a != "" && b != "" && a + " " + b == Join(parts, " ") && Fields(a) == parts[..split] &&
      Fields(b) == parts[split..]
  {
    hide Fields, Join;
    FieldsOfJoin(parts[..split]);
    FieldsOfJoin(parts[split..]);
    JoinAppend(parts[..split], parts[split..], " ");
    assert parts[..split] + parts[split..] == parts;
  }

  // The fields agree with their confidences, and every confidence is the field's rate.
  ghost predicate Fine(p: Patterns, raw: string, base: real, x: Extraction)
    requires Sound(p)
  {
    Agrees(x) && forall f :: f in x.confidence ==> x.confidence[f] == Rate(p, raw, base, f)
  }

  lemma NextFine(p: Patterns, raw: string, base: real, before: Extraction, after: Extraction, f: Field, next: Field)
    requires Sound(p) && Noted(before, after, f, Rate(p, raw, base, f)) && Fine(p, raw, base, before)
    ensures Fine(p, raw, base, after) && (next in after.confidence <==> Value(after, next) != "")
  {
    hide Value, Rate, Sound;
    forall g
      ensures g in after.confidence <==> Value(after, g) != ""
      ensures g in after.confidence ==> after.confidence[g] == Rate(p, raw, base, g)
    {
      assert g in before.confidence <==> Value(before, g) != "";
    }
  }

  lemma UntouchedFine(p: Patterns, raw: string, base: real, x: Extraction)
    requires Sound(p) && Untouched(x)
    ensures Fine(p, raw, base, x)
  {
    hide Rate, Sound;
  }

  lemma FineAt(p: Patterns, raw: string, base: real, x: Extraction, f: Field)
    requires Sound(p) && Fine(p, raw, base, x)
    ensures f in x.confidence <==> Value(x, f) != ""
    ensures f in x.confidence ==> x.confidence[f] == Rate(p, raw, base, f)
  {
    hide Value, Rate, Sound;
  }

  lemma FineInRange(p: Patterns, raw: string, base: real, x: Extraction)
    requires Sound(p) && Fine(p, raw, base, x) && 0.0 <= base
    ensures Agrees(x) && InRange(x, base)
  {
    hide Value, Rate, Sound;
    forall f | f in x.confidence ensures 0.0 <= x.confidence[f] <= base {
      RateWithin(p, raw, base, f);
    }
  }

  method FindNumbers(p: Patterns, raw: string, base: real, x: Extraction) returns (r: Extraction)
    requires Sound(p) && Untouched(x)
    ensures Fine(p, raw, base, r) && r == x.(nationalId := NationalIdOf(p, raw), dateOfBirth := Iso(BirthOf(p, raw)),
      expiryDate := Iso(ExpiryOf(p, raw)), sex := SexOf(p, raw), confidence := r.confidence)
  {
    hide NationalIdOf, BirthOf, ExpiryOf, SexOf, Noted, Sound, Iso, Fine, Rate;
    UntouchedFine(p, raw, base, x);
    var a := NoteNationalId(p, raw, base, x);
    NextFine(p, raw, base, x, a, NationalId, DateOfBirth);
    var b := NoteDateOfBirth(p, raw, base, a);
    NextFine(p, raw, base, a, b, DateOfBirth, ExpiryDate);
    var c := NoteExpiryDate(p, raw, base, b);
    NextFine(p, raw, base, b, c, ExpiryDate, Sex);
    r := NoteSex(p, raw, base, c);
    NextFine(p, raw, base, c, r, Sex, NameEnglish);
  }

  method FindNames(p: Patterns, raw: string, base: real, x: Extraction) returns (r: Extraction)
    requires Sound(p) && Fine(p, raw, base, x) && x.nameEnglish == "" && x.commonName == ""
    ensures Fine(p, raw, base, r) && r == x.(commonName := CommonNameOf(raw), confidence := r.confidence,
      nameEnglish := if FrontName(p, raw) != "" then FrontName(p, raw) else CommonNameOf(raw))
  {
    hide FrontName, CommonNameOf, Noted, Sound, Fine, Rate;
    FineAt(p, raw, base, x, NameEnglish);
    var a := NoteFrontName(p, raw, base, x);
    NextFine(p, raw, base, x, a, NameEnglish, CommonName);
    var b := NoteCommonName(p, raw, base, a);
    NextFine(p, raw, base, a, b, CommonName, NameEnglish);
    FineAt(p, raw, base, b, NameEnglish);
    r := NoteNameFallback(p, raw, base, b);
    NextFine(p, raw, base, b, r, NameEnglish, BloodGroup);
  }

  method FindRest(p: Patterns, raw: string, base: real, x: Extraction) returns (r: Extraction)
    requires Sound(p) && Fine(p, raw, base, x)
    requires x.bloodGroup == "" && x.serialNumber == "" && x.houseEnglish == "" && x.islandEnglish == ""
    ensures Fine(p, raw, base, r) && r == x.(bloodGroup := BloodGroupOf(p, raw), serialNumber := SerialNumberOf(p, raw),
      houseEnglish := r.houseEnglish, islandEnglish := r.islandEnglish, confidence := r.confidence)
    ensures Rejoined(r) == AddressOf(raw) && (r.islandEnglish != "" <==> 1 < |Fields(AddressOf(raw))|)
    ensures r.islandEnglish != "" ==> |Fields(r.houseEnglish)| == |Fields(AddressOf(raw))| / 2
  {
    hide BloodGroupOf, SerialNumberOf, AddressOf, Noted, Sound, Fine, Fields, Rejoined, Rate;
    FineAt(p, raw, base, x, BloodGroup);
    var a := NoteBloodGroup(p, raw, base, x);
    NextFine(p, raw, base, x, a, BloodGroup, SerialNumber);
    var b := NoteSerialNumber(p, raw, base, a);
    NextFine(p, raw, base, a, b, SerialNumber, Address);
    r := NoteAddress(p, raw, base, b);
    NextFine(p, raw, base, b, r, Address, Address);
  }

  lemma WarningsApart(p: Patterns, raw: string, base: real, x: Extraction, warnings: seq<string>)
    requires Sound(p) && Fine(p, raw, base, x)
    ensures Fine(p, raw, base, x.(warnings := warnings)) && Rejoined(x.(warnings := warnings)) == Rejoined(x)
  {
    hide Rate, Sound;
    assert forall f :: Value(x.(warnings := warnings), f) == Value(x, f);
    hide Value;
  }

  // ---------- where each field comes from ----------

  lemma {:induction false} SquashIsJoin(s: string)
    ensures Squash(s) == Join(Split(s, ' '), "")
    decreases |s|
  {
    if s == "" {
    } else {
      var rest := Split(s[1..], ' ');
      SquashIsJoin(s[1..]);
      if s[0] == ' ' {
        JoinFromEmpty(rest);
      } else {
        JoinGlue(s[0], rest[0], rest[1..], "");
        assert [rest[0]] + rest[1..] == rest;
      }
    }
  }

  lemma {:induction false} SquashUpper(s: string)
    ensures Squash(ToUpper(s)) == ToUpper(Squash(s))
    decreases |s|
  {
    if s == "" {
    } else {
      assert ToUpper(s)[1..] == ToUpper(s[1..]);
      assert UpperChar(s[0]) == ' ' <==> s[0] == ' ';
      SquashUpper(s[1..]);
    }
  }

  lemma Condenses(s: string)
    ensures ToUpper(Squash(s)) == Squash(ToUpper(s)) == Condensed(s)
  {
    hide Squash, Split, Join;
    SquashUpper(s);
    SquashIsJoin(s);
  }

  /** Each field by its source: a tagged region wins over the text as a whole, and what is not found
      is left empty. */
  ghost predicate ReadFrom(p: Patterns, raw: string, x: Extraction)
    requires Sound(p)
  {
    var text, tagged := Join(Fields(raw), " "), (tag: string) => TaggedValue(raw, tag);
    NationalIdRead(p, tagged("national_id"), text, x.nationalId) &&
    BirthRead(p, tagged("date_of_birth"), text, x.dateOfBirth) &&
    ExpiryRead(p, tagged("expiry_date"), text, x.expiryDate) &&
    SexRead(p, tagged("sex"), text, x.sex) &&
    NameRead(p, tagged("name_english"), text, x.commonName, x.nameEnglish) &&
    CommonNameRead(tagged("common_name_english"), text, x.commonName) &&
    FirstMatchRead(p.blood(tagged("blood_group") + " " + text), x.bloodGroup) &&
    FirstMatchRead(p.serial(tagged("serial_number") + " " + text), x.serialNumber) &&
    AddressRead(tagged("address_english"), text, x.houseEnglish, x.islandEnglish)
  }

  lemma NormalizedIs(raw: string)
    ensures Normalized(raw) == Join(Fields(raw), " ")
  {
  }

  lemma NationalIdIsRead(p: Patterns, raw: string)
    ensures NationalIdRead(p, TaggedValue(raw, "national_id"), Normalized(raw), NationalIdOf(p, raw))
  {
    hide TaggedValue, Normalized, ToUpper, Squash, Condensed;
    var tagged, text := p.nationalId(TaggedValue(raw, "national_id")), p.nationalId(Normalized(raw));
    if tagged.Some? { Condenses(tagged.value); }
    if text.Some? { Condenses(text.value); }
  }

  lemma BloodIsRead(p: Patterns, raw: string)
    ensures FirstMatchRead(p.blood(TaggedValue(raw, "blood_group") + " " + Normalized(raw)), BloodGroupOf(p, raw))
  {
    hide TaggedValue, Normalized, ToUpper, Squash, Condensed;
    var found := p.blood(TaggedValue(raw, "blood_group") + " " + Normalized(raw));
    if found.Some? { Condenses(found.value); }
  }

  lemma SerialIsRead(p: Patterns, raw: string)
    ensures FirstMatchRead(p.serial(TaggedValue(raw, "serial_number") + " " + Normalized(raw)), SerialNumberOf(p, raw))
  {
    hide TaggedValue, Normalized, ToUpper, Squash, Condensed;
    var found := p.serial(TaggedValue(raw, "serial_number") + " " + Normalized(raw));
    if found.Some? { Condenses(found.value); }
  }

  lemma BirthIsRead(p: Patterns, raw: string)
    requires Sound(p)
    ensures BirthRead(p, TaggedValue(raw, "date_of_birth"), Normalized(raw), Iso(BirthOf(p, raw)))
  {
    hide TaggedValue, Normalized, ToLower, Contains, ShowsBack, IsoDate, OcrReadings.IsDate, Sound;
    ShowsBackIff(Normalized(raw));
    MatchesWritten(p, TaggedValue(raw, "date_of_birth"));
    MatchesWritten(p, Normalized(raw));
  }

  lemma ExpiryIsRead(p: Patterns, raw: string)
    requires Sound(p)
    ensures ExpiryRead(p, TaggedValue(raw, "expiry_date"), Normalized(raw), Iso(ExpiryOf(p, raw)))
  {
    hide TaggedValue, Normalized, ToLower, Contains, ShowsBack, IsoDate, OcrReadings.IsDate, Sound;
    ShowsBackIff(Normalized(raw));
    MatchesWritten(p, TaggedValue(raw, "expiry_date"));
    MatchesWritten(p, Normalized(raw));
  }

  lemma MatchesWritten(p: Patterns, s: string)
    requires Sound(p)
    ensures forall k :: 0 <= k < |p.dates(s)| ==> IsDate(IsoDate(p.dates(s)[k]), p.dates(s)[k])
  {
    hide IsoDate, OcrReadings.IsDate;
    forall k | 0 <= k < |p.dates(s)| ensures IsDate(IsoDate(p.dates(s)[k]), p.dates(s)[k]) {
      assert p.dates(s)[k] in p.dates(s);
      DateWritten(p.dates(s)[k]);
    }
  }

  lemma DateWritten(m: DateMatch)
    requires ProperDate(m)
    ensures IsDate(IsoDate(m), m)
  {
  }

  lemma SexIsRead(p: Patterns, raw: string)
    ensures SexRead(p, TaggedValue(raw, "sex"), Normalized(raw), SexOf(p, raw))
  {
    hide TaggedValue, Normalized, ToUpper;
  }

  // The name on the front, as the field is computed and as it is told.
  lemma FrontNameIs(p: Patterns, raw: string)
    requires Sound(p)
    ensures var tagged, text := CleanEnglishName(TaggedValue(raw, "name_english")), Normalized(raw);
      FrontName(p, raw) ==
      if ShowsBack(text) then "" else if tagged != "" then tagged else LabelledName(p, text)
  {
    ShowsBackIff(Normalized(raw));
    LabelEnds(p, Normalized(raw));
    CleanNameTwice(TaggedValue(raw, "name_english"));
    hide TaggedValue, Normalized, ToLower, Contains, ShowsBack, CleanEnglishName, TextAfterStandaloneLabel, Sound;
  }

  lemma NameIsRead(p: Patterns, raw: string)
    requires Sound(p)
    ensures NameRead(p, TaggedValue(raw, "name_english"), Normalized(raw), CommonNameOf(raw),
                     if FrontName(p, raw) != "" then FrontName(p, raw) else CommonNameOf(raw))
  {
    hide TaggedValue, Normalized, ShowsBack, CleanEnglishName, FrontName, LabelledName, CommonNameOf, Sound;
    FrontNameIs(p, raw);
  }

  lemma CommonNameIsRead(raw: string)
    ensures CommonNameRead(TaggedValue(raw, "common_name_english"), Normalized(raw), CommonNameOf(raw))
  {
    CleanNameTwice(TaggedValue(raw, "common_name_english"));
    hide TaggedValue, Normalized, CleanEnglishName, TextAfterLabel;
  }

  lemma AddressIsRead(raw: string, house: string, island: string)
    requires (island == "" ==> house == AddressOf(raw)) && (island != "" ==> house + " " + island == AddressOf(raw))
    requires island != "" <==> 1 < |Fields(AddressOf(raw))|
    requires island != "" ==> |Fields(house)| == |Fields(AddressOf(raw))| / 2
    ensures AddressRead(TaggedValue(raw, "address_english"), Normalized(raw), house, island)
  {
    hide TaggedValue, Normalized, CleanEnglishAddress, TextAfterLabel, Fields;
  }

  lemma ExtractionRead(p: Patterns, raw: string, x: Extraction)
    requires Sound(p) && x.nationalId == NationalIdOf(p, raw) && x.sex == SexOf(p, raw)
    requires x.dateOfBirth == Iso(BirthOf(p, raw)) && x.expiryDate == Iso(ExpiryOf(p, raw))
    requires x.commonName == CommonNameOf(raw) &&
      x.nameEnglish == if FrontName(p, raw) != "" then FrontName(p, raw) else CommonNameOf(raw)
    requires x.bloodGroup == BloodGroupOf(p, raw) && x.serialNumber == SerialNumberOf(p, raw)
    requires Rejoined(x) == AddressOf(raw) && (x.islandEnglish != "" <==> 1 < |Fields(AddressOf(raw))|)
    requires x.islandEnglish != "" ==> |Fields(x.houseEnglish)| == |Fields(AddressOf(raw))| / 2
    ensures ReadFrom(p, raw, x)
  {
    hide TaggedValue, Normalized, NationalIdRead, BirthRead, ExpiryRead, SexRead, NameRead, CommonNameRead,
      FirstMatchRead, AddressRead, NationalIdOf, SexOf, Iso, BirthOf, ExpiryOf, CommonNameOf, FrontName, BloodGroupOf,
      SerialNumberOf, AddressOf, Fields, Join, Sound;
    NormalizedIs(raw);
    NationalIdIsRead(p, raw);
    BloodIsRead(p, raw);
    SerialIsRead(p, raw);
    BirthIsRead(p, raw);
    ExpiryIsRead(p, raw);
    SexIsRead(p, raw);
    NameIsRead(p, raw);
    CommonNameIsRead(raw);
    AddressIsRead(raw, x.houseEnglish, x.islandEnglish);
  }

  // How sure the service is of a field that it has found.
  ghost predicate Rated(p: Patterns, raw: string, base: real, f: Field, rate: real)
    requires Sound(p)
  {
    match f
    case NationalId =>
      var tagged := TaggedValue(raw, "national_id");
      rate == if tagged != "" && p.nationalId(tagged).Some? && 0.95 < base then 0.95 else base
    case DateOfBirth => rate == if HasDate(p, TaggedValue(raw, "date_of_birth")) && 0.9 < base then 0.9 else base
    case ExpiryDate => rate == if HasDate(p, TaggedValue(raw, "expiry_date")) && 0.95 < base then 0.95 else base
    case NameEnglish =>
      var text := Join(Fields(raw), " ");
      var onFront := CleanEnglishName(TaggedValue(raw, "name_english")) != "" || LabelledName(p, text) != "";
      rate == if !ShowsBack(text) && onFront then base * 0.85 else base * 0.75
    case CommonName => rate == base * 0.85
    case Address => rate == base * 0.65
    case Sex => rate == base
    case BloodGroup => rate == base
    case SerialNumber => rate == base
  }

  lemma RateIsRated(p: Patterns, raw: string, base: real, f: Field)
    requires Sound(p)
    ensures Rated(p, raw, base, f, Rate(p, raw, base, f))
  {
    hide TaggedValue, FrontName, Sound, Value, LabelledName, ShowsBack, CleanEnglishName, Normalized, Fields, Join;
    NormalizedIs(raw);
    FrontNameIs(p, raw);
  }

  const NO_NATIONAL_ID := "National ID was not detected automatically."
  const NO_NAME := "English name was not detected automatically."
  const REVIEW := "Review every field against the original document before saving."

  /** Reads every field out of the text. A field has a confidence exactly when it has been found,
      none above the base confidence; house and island rejoin to the cleaned address; and a card
      without a national ID or a name says so. */
  method ParseIdentityText(p: Patterns, raw: string, base: real) returns (x: Extraction)
    requires Sound(p)
    ensures Agrees(x) && (0.0 <= base ==> InRange(x, base))
    ensures forall f :: f in x.confidence ==> x.confidence[f] == Rate(p, raw, base, f)
    ensures x.rawText == TrimSpace(raw) && x.nationalId == NationalIdOf(p, raw) && x.sex == SexOf(p, raw)
    ensures x.dateOfBirth == Iso(BirthOf(p, raw)) && x.expiryDate == Iso(ExpiryOf(p, raw))
    ensures x.commonName == CommonNameOf(raw) &&
      x.nameEnglish == if FrontName(p, raw) != "" then FrontName(p, raw) else CommonNameOf(raw)
    ensures x.bloodGroup == BloodGroupOf(p, raw) && x.serialNumber == SerialNumberOf(p, raw)
    ensures Rejoined(x) == AddressOf(raw) && (x.islandEnglish != "" <==> 1 < |Fields(AddressOf(raw))|)
    ensures ReadFrom(p, raw, x) && forall f :: f in x.confidence ==> Rated(p, raw, base, f, x.confidence[f])
    ensures x.warnings ==
      (if x.nationalId == "" then [NO_NATIONAL_ID] else []) + (if x.nameEnglish == "" then [NO_NAME] else []) + [REVIEW]
  {
    hide NationalIdOf, BirthOf, ExpiryOf, SexOf, FrontName, CommonNameOf, BloodGroupOf, SerialNumberOf, AddressOf,
      Fine, TrimSpace, Sound, Fields, Iso, Rejoined, Rate, Agrees, InRange, ReadFrom, Rated;
    x := Extraction(TrimSpace(raw), "", "", "", "", "", "", "", "", "", "", map[], []);
    x := FindNumbers(p, raw, base, x);
    x := FindNames(p, raw, base, x);
    x := FindRest(p, raw, base, x);
    var warnings: seq<string> := [];
    if x.nationalId == "" {
      warnings := warnings + [NO_NATIONAL_ID];
    }
    if x.nameEnglish == "" {
      warnings := warnings + [NO_NAME];
    }
    warnings := warnings + [REVIEW];
    WarningsApart(p, raw, base, x, warnings);
    x := x.(warnings := warnings);
    FineMeans(p, raw, base, x);
    forall f | f in x.confidence ensures Rated(p, raw, base, f, x.confidence[f]) {
      RateIsRated(p, raw, base, f);
    }
    ExtractionRead(p, raw, x);
  }

  lemma FineMeans(p: Patterns, raw: string, base: real, x: Extraction)
    requires Sound(p) && Fine(p, raw, base, x)
    ensures Agrees(x) && (0.0 <= base ==> InRange(x, base))
    ensures forall f :: f in x.confidence ==> x.confidence[f] == Rate(p, raw, base, f)
  {
    hide Rate, Sound, Agrees, InRange;
    if 0.0 <= base {
      FineInRange(p, raw, base, x);
    }
  }
}
