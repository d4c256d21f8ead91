/** Ingesting a batch of asset records (services/asset.go). */
module AssetIngest {
  import opened Text
  import opened AssetNumbers
  import opened Assets
  import opened AssetStore
  import AssetAllocator
  import Lifecycle = AssetLifecycle

  // A moment, and the calendar year it is written with. Moment 0 is Go's zero time.
  datatype Time = Time(moment: int, year: int)

  datatype Record = Record(
    office: string, categoryNo: string, typeNumber: string, description1: string, location: string,
    quantity: int, acquired: Time, originalValue: real, currency: string, depreciationMethod: string)

  // The messages of the service, by what they complain of.
  datatype Complaint =
    | Required | UnknownCategory | NotPositive | InFuture
    | NotGenerated(cause: string) | NotCreated(cause: string)

  // The field that an error names; AssetNumber and WholeAsset are those of an asset not created.
  datatype Field =
    | Office | CategoryNo | TypeNumber | Description1 | Location | OriginalValue | AcquisitionDate
    | AssetNumber | WholeAsset

  datatype IngestError = IngestError(recordIndex: nat, field: Field, message: Complaint)

  datatype IngestResult = IngestResult(created: nat, assetNumbers: seq<string>, errors: seq<IngestError>)

  // ---------- validating a record ----------

  const VALID_CATEGORIES: set<string> := {"01", "02", "03", "04", "05", "06", "07", "08", "09", "290"}

  predicate KnownCategory(categoryNo: string) {
    categoryNo in VALID_CATEGORIES
  }

  // What the design asks of a record.
  predicate ValidRecord(rec: Record, now: int) {
    rec.office != "" && KnownCategory(rec.categoryNo) && rec.typeNumber != "" && rec.description1 != "" &&
    rec.location != "" && 0.0 < rec.originalValue && rec.acquired.moment != 0 && rec.acquired.moment <= now
  }

  // A broken field, and what is wrong with it.
  datatype Fault = Fault(field: Field, message: Complaint)

  function FaultIf(broken: bool, field: Field, message: Complaint): (faults: seq<Fault>)
    ensures forall f :: f in faults ==> f.field == field
  {
    if broken then [Fault(field, message)] else []
  }

  function CategoryComplaint(rec: Record): Complaint {
    if rec.categoryNo == "" then Required else UnknownCategory
  }

  function DateComplaint(rec: Record): Complaint {
    if rec.acquired.moment == 0 then Required else InFuture
  }

  // What breaks the codes of a record.
  function CodeFaults(rec: Record): seq<Fault> {
    FaultIf(rec.office == "", Office, Required) +
    FaultIf(!KnownCategory(rec.categoryNo), CategoryNo, CategoryComplaint(rec)) +
    FaultIf(rec.typeNumber == "", TypeNumber, Required)
  }

  // What breaks it, in the order in which it is reported.
  function Faults(rec: Record, now: int): seq<Fault> {
    CodeFaults(rec) +
    FaultIf(rec.description1 == "", Description1, Required) +
    FaultIf(rec.location == "", Location, Required) +
    FaultIf(rec.originalValue <= 0.0, OriginalValue, NotPositive) +
    FaultIf(rec.acquired.moment == 0 || now < rec.acquired.moment, AcquisitionDate, DateComplaint(rec))
  }

  lemma CodeFaultIff(rec: Record, f: Fault)
    ensures f in CodeFaults(rec) <==>
      (f == Fault(Office, Required) && rec.office == "") ||
      (f == Fault(CategoryNo, CategoryComplaint(rec)) && !KnownCategory(rec.categoryNo)) ||
      (f == Fault(TypeNumber, Required) && rec.typeNumber == "")
  {
    hide KnownCategory, CategoryComplaint;
  }

  // Exactly these faults are reported.
  lemma FaultIff(rec: Record, now: int, f: Fault)
    ensures f in Faults(rec, now) <==>
      (f == Fault(Office, Required) && rec.office == "") ||
      (f == Fault(CategoryNo, Required) && rec.categoryNo == "") ||
      (f == Fault(CategoryNo, UnknownCategory) && rec.categoryNo != "" &&
        rec.categoryNo !in {"01", "02", "03", "04", "05", "06", "07", "08", "09", "290"}) ||
      (f == Fault(TypeNumber, Required) && rec.typeNumber == "") ||
      (f == Fault(Description1, Required) && rec.description1 == "") ||
      (f == Fault(Location, Required) && rec.location == "") ||
      (f == Fault(OriginalValue, NotPositive) && rec.originalValue <= 0.0) ||
      (f == Fault(AcquisitionDate, Required) && rec.acquired.moment == 0) ||
      (f == Fault(AcquisitionDate, InFuture) && rec.acquired.moment != 0 && now < rec.acquired.moment)
  {
    CodeFaultIff(rec, f);
    CategoryFault(rec);
    hide CodeFaults, KnownCategory, CategoryComplaint;
  }

  lemma CategoryFault(rec: Record)
    ensures rec.categoryNo == "" ==> !KnownCategory(rec.categoryNo) && CategoryComplaint(rec) == Required
    ensures rec.categoryNo != "" ==> CategoryComplaint(rec) == UnknownCategory
    ensures KnownCategory(rec.categoryNo) <==>
      rec.categoryNo in {"01", "02", "03", "04", "05", "06", "07", "08", "09", "290"}
  {
  }

  function FaultsOf(errors: seq<IngestError>): (faults: seq<Fault>)
    ensures |faults| == |errors| && forall k :: 0 <= k < |errors| ==>
      faults[k] == Fault(errors[k].field, errors[k].message)
  {
    seq(|errors|, k requires 0 <= k < |errors| => Fault(errors[k].field, errors[k].message))
  }

  function WithDefaults(rec: Record): Record {
    rec.(currency := if rec.currency == "" then "MVR" else rec.currency,
         depreciationMethod := if rec.depreciationMethod == "" then "straight-line" else rec.depreciationMethod)
  }

  // The errors so far are the earlier ones, and one for each of these faults of the record.
  ghost predicate Reported(before: seq<IngestError>, all: seq<IngestError>, index: nat, faults: seq<Fault>) {
    |before| <= |all| && all[..|before|] == before && FaultsOf(all[|before|..]) == faults &&
    forall k :: |before| <= k < |all| ==> all[k].recordIndex == index
  }

  lemma ReportIf(before: seq<IngestError>, all: seq<IngestError>, index: nat, faults: seq<Fault>, broken: bool,
                 field: Field, message: Complaint)
    requires Reported(before, all, index, faults)
    ensures Reported(before, if broken then all + [IngestError(index, field, message)] else all, index,
                     faults + FaultIf(broken, field, message))
    ensures [] + FaultIf(broken, field, message) == FaultIf(broken, field, message)
  {
    if broken {
      assert FaultsOf((all + [IngestError(index, field, message)])[|before|..]) ==
        FaultsOf(all[|before|..]) + [Fault(field, message)];
    } else {
      assert faults + [] == faults;
    }
  }

  lemma ReportedNothing(errors: seq<IngestError>, all: seq<IngestError>, index: nat, rec: Record, now: int)
    requires Reported(errors, all, index, Faults(rec, now))
    ensures ValidRecord(rec, now) <==> all == errors
  {
    assert Faults(rec, now) == [] ==> all[..|errors|] == all;
    assert ValidRecord(rec, now) <==> Faults(rec, now) == [];
  }

  lemma NothingReported(errors: seq<IngestError>, index: nat)
    ensures Reported(errors, errors, index, [])
  {
  }

  lemma NoCategory()
    ensures !KnownCategory("")
  {
  }

  // The office, category and type of a record, which its number is printed from.
  method ValidateCodes(rec: Record, index: nat, errors: seq<IngestError>)
    returns (all: seq<IngestError>, valid: bool)
    ensures Reported(errors, all, index, CodeFaults(rec))
    ensures valid <==> rec.office != "" && KnownCategory(rec.categoryNo) && rec.typeNumber != ""
  {
    hide Reported, FaultIf, KnownCategory;
    NoCategory();
    all, valid := errors, true;
    NothingReported(errors, index);
    ghost var faults := FaultIf(rec.office == "", Office, Required);
    ReportIf(errors, all, index, [], rec.office == "", Office, Required);
    if rec.office == "" {
      all, valid := all + [IngestError(index, Office, Required)], false;
    }
    ReportIf(errors, all, index, faults, !KnownCategory(rec.categoryNo), CategoryNo, CategoryComplaint(rec));
    faults := faults + FaultIf(!KnownCategory(rec.categoryNo), CategoryNo, CategoryComplaint(rec));
    if rec.categoryNo == "" {
      all, valid := all + [IngestError(index, CategoryNo, Required)], false;
    } else if !KnownCategory(rec.categoryNo) {
      all, valid := all + [IngestError(index, CategoryNo, UnknownCategory)], false;
    }
    ReportIf(errors, all, index, faults, rec.typeNumber == "", TypeNumber, Required);
    if rec.typeNumber == "" {
      all, valid := all + [IngestError(index, TypeNumber, Required)], false;
    }
  }

  /** Reports every broken field, once and in order, and fills in the defaults. The record passes
      exactly when it is valid. */
  method ValidateAssetRecord(rec: Record, index: nat, errors: seq<IngestError>, now: int)
    returns (out: Record, all: seq<IngestError>, valid: bool)
    ensures out == WithDefaults(rec) && (valid <==> ValidRecord(rec, now))
    ensures Reported(errors, all, index, Faults(rec, now))
    ensures valid <==> all == errors
  {
    hide Reported, FaultIf, KnownCategory, CodeFaults;
    out := rec;
    all, valid := ValidateCodes(rec, index, errors);
    ghost var faults := CodeFaults(rec);
    ReportIf(errors, all, index, faults, rec.description1 == "", Description1, Required);
    faults := faults + FaultIf(rec.description1 == "", Description1, Required);
    if rec.description1 == "" {
      all, valid := all + [IngestError(index, Description1, Required)], false;
    }
    ReportIf(errors, all, index, faults, rec.location == "", Location, Required);
    faults := faults + FaultIf(rec.location == "", Location, Required);
    if rec.location == "" {
      all, valid := all + [IngestError(index, Location, Required)], false;
    }
    ReportIf(errors, all, index, faults, rec.originalValue <= 0.0, OriginalValue, NotPositive);
    faults := faults + FaultIf(rec.originalValue <= 0.0, OriginalValue, NotPositive);
    if rec.originalValue <= 0.0 {
      all, valid := all + [IngestError(index, OriginalValue, NotPositive)], false;
    }
    ReportIf(errors, all, index, faults, rec.acquired.moment == 0 || now < rec.acquired.moment,
             AcquisitionDate, DateComplaint(rec));
    if rec.acquired.moment == 0 {
      all, valid := all + [IngestError(index, AcquisitionDate, Required)], false;
    } else if rec.acquired.moment > now {
      all, valid := all + [IngestError(index, AcquisitionDate, InFuture)], false;
    }
    if rec.currency == "" {
      out := out.(currency := "MVR");
    }
    if rec.depreciationMethod == "" {
      out := out.(depreciationMethod := "straight-line");
    }
    ReportedNothing(errors, all, index, rec, now);
  }

  // ---------- what a batch asks for ----------

  // One thing that the ingest of a batch has to do: report a field, or create an asset.
  datatype Slot =
    | Report(index: nat, fault: Fault)
    | Make(index: nat, rec: Record, group: Group)

  datatype Outcome = Failed(error: IngestError) | Made(asset: Asset)

  function YearOf(rec: Record, currentYear: int): int {
    if rec.acquired.year == 1 || rec.acquired.year == 0 then currentYear else rec.acquired.year
  }

  function GroupOf(rec: Record, currentYear: int): Group {
    Group(rec.office, YearOf(rec, currentYear), rec.categoryNo, rec.typeNumber)
  }

  // How many assets a valid record stands for.
  function Wanted(rec: Record): nat {
    if rec.quantity < 1 then 1 else rec.quantity
  }

  function Reports(index: nat, faults: seq<Fault>): (slots: seq<Slot>)
    ensures |slots| == |faults| && forall k :: 0 <= k < |slots| ==> slots[k] == Report(index, faults[k])
  {
    seq(|faults|, k requires 0 <= k < |faults| => Report(index, faults[k]))
  }

  function Copies(slot: Slot, n: nat): (slots: seq<Slot>)
    ensures |slots| == n && forall k :: 0 <= k < n ==> slots[k] == slot
  {
    seq(n, _ => slot)
  }

  // `now` says what the clock shows when a record is validated.
  function SlotsOf(rec: Record, index: nat, currentYear: int, now: nat -> int): seq<Slot> {
    if ValidRecord(rec, now(index))
    then Copies(Make(index, WithDefaults(rec), GroupOf(rec, currentYear)), Wanted(rec))
    else Reports(index, Faults(rec, now(index)))
  }

  function Plan(records: seq<Record>, currentYear: int, now: nat -> int): seq<Slot> {
    if records == [] then []
    else
      var n := |records| - 1;
      Plan(records[..n], currentYear, now) + SlotsOf(records[n], n, currentYear, now)
  }

  // Who asks, and from where.
  datatype Request = Request(tenantId: string, sourceSlug: string, createdBy: string)

  function NewAsset(req: Request, slot: Slot, assetNo: string): Asset
    requires slot.Make? && 4 <= |assetNo|
  {
    AssetAllocator.NewAsset(assetNo, req.tenantId, slot.group, slot.rec.location,
      Details(slot.rec.description1, 1, slot.rec.originalValue, slot.rec.currency, slot.rec.depreciationMethod,
              "BC-" + assetNo, req.createdBy))
  }

  function NewLink(req: Request, slot: Slot, assetNo: string): AssetLink
    requires slot.Make?
  {
    AssetLink(assetNo, req.tenantId, req.sourceSlug, slot.rec.office + "-" + Decimal(slot.index))
  }

  function Notes(req: Request): string {
    "Asset created from " + req.sourceSlug + " import"
  }

  // What the allocator says for a slot, in the collection as it is.
  ghost predicate Allocates(assets: seq<Asset>, tenantId: string, g: Group, r: Result<string>) {
    exists last :: FindLast(assets, tenantId, g, last) && GenerateAssetNumber(assets, g, last) == r
  }

  /** How a slot may turn out, in the collection left by the slots before it. On a store that
      answers every call, creating an asset fails only where the allocator refuses. */
  ghost predicate Follows(req: Request, healthy: bool, assets: seq<Asset>, slot: Slot, out: Outcome) {
    match slot
    case Report(index, fault) => out == Failed(IngestError(index, fault.field, fault.message))
    case Make(index, rec, group) =>
      match out
      case Made(a) => Allocates(assets, req.tenantId, group, Ok(a.assetNo)) && 4 <= |a.assetNo| &&
        a == NewAsset(req, slot, a.assetNo)
      case Failed(e) =>
        e.recordIndex == index && e.field in {AssetNumber, WholeAsset} &&
        (healthy ==> exists m :: Allocates(assets, req.tenantId, group, Err(m)))
  }

  function AssetsIn(outs: seq<Outcome>): seq<Asset> {
    if outs == [] then []
    else
      var n := |outs| - 1;
      AssetsIn(outs[..n]) + (if outs[n].Made? then [outs[n].asset] else [])
  }

  function ErrorsIn(outs: seq<Outcome>): seq<IngestError> {
    if outs == [] then []
    else
      var n := |outs| - 1;
      ErrorsIn(outs[..n]) + (if outs[n].Failed? then [outs[n].error] else [])
  }

  function NumbersOf(assets: seq<Asset>): (numbers: seq<string>)
    ensures |numbers| == |assets| && forall k :: 0 <= k < |assets| ==> numbers[k] == assets[k].assetNo
  {
    seq(|assets|, k requires 0 <= k < |assets| => assets[k].assetNo)
  }

  // The links of the assets made.
  function LinksIn(req: Request, slots: seq<Slot>, outs: seq<Outcome>): seq<AssetLink>
    requires |slots| == |outs|
    decreases |outs|
  {
    if outs == [] then []
    else
      var n := |outs| - 1;
      LinksIn(req, slots[..n], outs[..n]) +
      (if outs[n].Made? && slots[n].Make? then [NewLink(req, slots[n], outs[n].asset.assetNo)] else [])
  }

  // Every slot has its outcome, in order.
  ghost predicate Carried(req: Request, healthy: bool, before: seq<Asset>, slots: seq<Slot>, outs: seq<Outcome>) {
    |outs| == |slots| &&
    forall k :: 0 <= k < |slots| ==> Follows(req, healthy, before + AssetsIn(outs[..k]), slots[k], outs[k])
  }

  function CreatedEvents(req: Request, assets: seq<Asset>): (events: seq<AssetHistory>)
    ensures |events| == |assets|
    ensures forall k :: 0 <= k < |assets| ==> events[k] == Lifecycle.CreatedEvent(assets[k], req.createdBy, Notes(req))
  {
    seq(|assets|, k requires 0 <= k < |assets| => Lifecycle.CreatedEvent(assets[k], req.createdBy, Notes(req)))
  }

  // ---------- where an asset comes from ----------

  /** An asset says what its record says. It is one piece, whatever the quantity, and its year is
      that of the acquisition, or the current one for an acquisition that was given none. */
  predicate MadeFrom(a: Asset, req: Request, rec: Record, currentYear: int) {
    a.tenantId == req.tenantId && a.status == "active" && a.location == rec.location &&
    a.group.office == rec.office && a.group.categoryNo == rec.categoryNo && a.group.typeNumber == rec.typeNumber &&
    (rec.acquired.year !in {0, 1} ==> a.group.year == rec.acquired.year) &&
    (rec.acquired.year in {0, 1} ==> a.group.year == currentYear) &&
    4 <= |a.assetNo| && a.serialIncrement == a.assetNo[|a.assetNo| - 4..] &&
    var d := a.details;
    d.description1 == rec.description1 && d.quantity == 1 && d.originalValue == rec.originalValue &&
    (if rec.currency != "" then d.currency == rec.currency else d.currency == "MVR") &&
    (if rec.depreciationMethod != "" then d.depreciationMethod == rec.depreciationMethod
     else d.depreciationMethod == "straight-line") &&
    d.barcodeId == "BC-" + a.assetNo && d.createdBy == req.createdBy
  }

  // The positions of the records that the assets were made of.
  function Origins(slots: seq<Slot>, outs: seq<Outcome>): seq<nat>
    requires |slots| == |outs|
    decreases |outs|
  {
    if outs == [] then []
    else
      var n := |outs| - 1;
      Origins(slots[..n], outs[..n]) + (if outs[n].Made? then [slots[n].index] else [])
  }

  ghost predicate HasOrigins(req: Request, records: seq<Record>, currentYear: int, now: nat -> int, made: seq<Asset>,
                             origins: seq<nat>) {
    |origins| == |made| &&
    forall k :: 0 <= k < |made| ==>
      origins[k] < |records| && ValidRecord(records[origins[k]], now(origins[k])) &&
      MadeFrom(made[k], req, records[origins[k]], currentYear)
  }

  // The link names the record by its office and its position in the batch.
  predicate LinkFrom(l: AssetLink, req: Request, a: Asset, i: nat) {
    l.assetNo == a.assetNo && l.tenantId == req.tenantId && l.source == req.sourceSlug &&
    l.externalId == a.group.office + "-" + Decimal(i)
  }

  predicate EventFrom(h: AssetHistory, req: Request, a: Asset) {
    h.assetNo == a.assetNo && h.tenantId == req.tenantId && h.eventType == "created" &&
    h.fromLocation == h.toLocation == "" && h.performedBy == req.createdBy &&
    h.notes == "Asset created from " + req.sourceSlug + " import"
  }

  // Every asset has its one link and its one event, in the same order.
  ghost predicate Traced(req: Request, made: seq<Asset>, origins: seq<nat>, links: seq<AssetLink>,
                         events: seq<AssetHistory>) {
    |made| == |origins| == |links| == |events| &&
    forall k :: 0 <= k < |made| ==> LinkFrom(links[k], req, made[k], origins[k]) && EventFrom(events[k], req, made[k])
  }

  // What the plan asks to be made of a record.
  predicate Asks(slot: Slot, rec: Record, currentYear: int) {
    slot.Make? && slot.group.office == rec.office && slot.group.categoryNo == rec.categoryNo &&
    slot.group.typeNumber == rec.typeNumber && slot.rec.office == rec.office &&
    slot.group.year == (if rec.acquired.year in {0, 1} then currentYear else rec.acquired.year) &&
    slot.rec.location == rec.location && slot.rec.description1 == rec.description1 &&
    slot.rec.originalValue == rec.originalValue &&
    slot.rec.currency == (if rec.currency != "" then rec.currency else "MVR") &&
    slot.rec.depreciationMethod == (if rec.depreciationMethod != "" then rec.depreciationMethod else "straight-line")
  }

  ghost predicate Planned(slots: seq<Slot>, records: seq<Record>, currentYear: int, now: nat -> int) {
    forall j :: 0 <= j < |slots| && slots[j].Make? ==>
      var i := slots[j].index;
      i < |records| && ValidRecord(records[i], now(i)) && Asks(slots[j], records[i], currentYear)
  }

  lemma SlotsAsk(rec: Record, index: nat, currentYear: int, now: nat -> int)
    ensures var slots := SlotsOf(rec, index, currentYear, now);
      forall j :: 0 <= j < |slots| && slots[j].Make? ==>
        slots[j].index == index && ValidRecord(rec, now(index)) && Asks(slots[j], rec, currentYear)
  {
    hide ValidRecord, Faults;
  }

  lemma {:induction false} PlanAsks(records: seq<Record>, currentYear: int, now: nat -> int)
    ensures Planned(Plan(records, currentYear, now), records, currentYear, now)
    decreases |records|
  {
    hide ValidRecord, SlotsOf, Asks;
    if records != [] {
      var n := |records| - 1;
      PlanAsks(records[..n], currentYear, now);
      SlotsAsk(records[n], n, currentYear, now);
    }
  }

  lemma MadeOfSlot(req: Request, healthy: bool, assets: seq<Asset>, slot: Slot, out: Outcome, rec: Record,
                   currentYear: int)
    requires Follows(req, healthy, assets, slot, out) && out.Made? && (slot.Make? ==> Asks(slot, rec, currentYear))
    ensures slot.Make? && MadeFrom(out.asset, req, rec, currentYear)
    ensures LinkFrom(NewLink(req, slot, out.asset.assetNo), req, out.asset, slot.index)
    ensures EventFrom(Lifecycle.CreatedEvent(out.asset, req.createdBy, Notes(req)), req, out.asset)
  {
    hide Allocates, Decimal;
  }

  // Every asset made comes from a valid record, and says what that record says.
  lemma {:induction false} MadeOfRecords(req: Request, healthy: bool, before: seq<Asset>, slots: seq<Slot>,
      outs: seq<Outcome>, records: seq<Record>, currentYear: int, now: nat -> int)
    requires Carried(req, healthy, before, slots, outs) && Planned(slots, records, currentYear, now)
    ensures |slots| == |outs| && HasOrigins(req, records, currentYear, now, AssetsIn(outs), Origins(slots, outs))
    ensures Traced(req, AssetsIn(outs), Origins(slots, outs), LinksIn(req, slots, outs),
                   CreatedEvents(req, AssetsIn(outs)))
    decreases |slots|
  {
    hide Follows, Carried, ValidRecord, MadeFrom, Asks, LinkFrom, EventFrom, NewLink;
    SameLength(req, healthy, before, slots, outs);
    if slots != [] {
      var n := |slots| - 1;
      CarriedFront(req, healthy, before, slots, outs);
      MadeOfRecords(req, healthy, before, slots[..n], outs[..n], records, currentYear, now);
      if outs[n].Made? {
        var i := if slots[n].index < |records| then slots[n].index else 0;
        OnlyMadeOfMakes(req, healthy, before + AssetsIn(outs[..n]), slots[n], outs[n]);
        MadeOfSlot(req, healthy, before + AssetsIn(outs[..n]), slots[n], outs[n], records[i], currentYear);
      }
    }
  }

  lemma OnlyMadeOfMakes(req: Request, healthy: bool, assets: seq<Asset>, slot: Slot, out: Outcome)
    requires Follows(req, healthy, assets, slot, out) && out.Made?
    ensures slot.Make?
  {
  }

  // ---------- one more outcome ----------

  lemma OutcomesAppend(outs: seq<Outcome>, out: Outcome)
    ensures AssetsIn(outs + [out]) == AssetsIn(outs) + (if out.Made? then [out.asset] else [])
    ensures ErrorsIn(outs + [out]) == ErrorsIn(outs) + (if out.Failed? then [out.error] else [])
    ensures out.Failed? ==> AssetsIn(outs + [out]) == AssetsIn(outs)
    ensures out.Made? ==> ErrorsIn(outs + [out]) == ErrorsIn(outs)
  {
    assert (outs + [out])[..|outs|] == outs;
  }

  lemma LinksAppend(req: Request, slots: seq<Slot>, outs: seq<Outcome>, slot: Slot, out: Outcome)
    requires |slots| == |outs|
    ensures LinksIn(req, [], []) == []
    ensures out.Failed? ==> LinksIn(req, slots + [slot], outs + [out]) == LinksIn(req, slots, outs)
    ensures out.Made? && slot.Make? ==>
      LinksIn(req, slots + [slot], outs + [out]) == LinksIn(req, slots, outs) + [NewLink(req, slot, out.asset.assetNo)]
  {
    assert (slots + [slot])[..|slots|] == slots && (outs + [out])[..|outs|] == outs;
  }

  lemma CarriedAppend(req: Request, healthy: bool, before: seq<Asset>, slots: seq<Slot>, outs: seq<Outcome>,
      slot: Slot, out: Outcome)
    requires Carried(req, healthy, before, slots, outs) && Follows(req, healthy, before + AssetsIn(outs), slot, out)
    ensures Carried(req, healthy, before, slots + [slot], outs + [out])
  {
    hide Follows, AssetsIn;
    var s, o := slots + [slot], outs + [out];
    forall k | 0 <= k < |s| ensures Follows(req, healthy, before + AssetsIn(o[..k]), s[k], o[k]) {
      assert k < |outs| ==> o[..k] == outs[..k];
      assert k == |outs| ==> o[..k] == outs;
    }
  }

  lemma CarriedFront(req: Request, healthy: bool, before: seq<Asset>, slots: seq<Slot>, outs: seq<Outcome>)
    requires Carried(req, healthy, before, slots, outs) && slots != []
    ensures var n := |slots| - 1;
      Carried(req, healthy, before, slots[..n], outs[..n]) &&
      Follows(req, healthy, before + AssetsIn(outs[..n]), slots[n], outs[n])
  {
    hide Follows, AssetsIn;
    var n := |slots| - 1;
    forall k | 0 <= k < n ensures Follows(req, healthy, before + AssetsIn(outs[..n][..k]), slots[k], outs[k]) {
      assert outs[..n][..k] == outs[..k];
    }
  }

  lemma PlanNext(records: seq<Record>, i: nat, currentYear: int, now: nat -> int)
    requires i < |records|
    ensures Plan(records[..i + 1], currentYear, now) ==
      Plan(records[..i], currentYear, now) + SlotsOf(records[i], i, currentYear, now)
  {
    assert records[..i + 1][..i] == records[..i];
  }

  // The validation errors of a record, as outcomes.
  lemma {:induction false} CarriedReports(
      req: Request, healthy: bool, before: seq<Asset>, slots: seq<Slot>, outs: seq<Outcome>,
                         index: nat, faults: seq<Fault>, errors: seq<IngestError>) returns (after: seq<Outcome>)
    requires Carried(req, healthy, before, slots, outs)
    requires FaultsOf(errors) == faults && forall k :: 0 <= k < |errors| ==> errors[k].recordIndex == index
    ensures Carried(req, healthy, before, slots + Reports(index, faults), after)
    ensures AssetsIn(after) == AssetsIn(outs) && ErrorsIn(after) == ErrorsIn(outs) + errors
    ensures |outs| == |slots| && |after| == |slots| + |faults| &&
      LinksIn(req, slots + Reports(index, faults), after) == LinksIn(req, slots, outs)
    decreases |errors|
  {
    hide AssetsIn, ErrorsIn, Carried, LinksIn;
    SameLength(req, healthy, before, slots, outs);
    if errors == [] {
      after := outs;
      assert slots + Reports(index, faults) == slots;
    } else {
      var n := |errors| - 1;
      after := CarriedReports(req, healthy, before, slots, outs, index, faults[..n], errors[..n]);
      CarriedAppend(req, healthy, before, slots + Reports(index, faults[..n]), after,
                    Report(index, faults[n]), Failed(errors[n]));
      OutcomesAppend(after, Failed(errors[n]));
      LinksAppend(req, slots + Reports(index, faults[..n]), after, Report(index, faults[n]), Failed(errors[n]));
      after := after + [Failed(errors[n])];
      assert slots + Reports(index, faults[..n]) + [Report(index, faults[n])] == slots + Reports(index, faults);
      assert ErrorsIn(outs) + errors[..n] + [errors[n]] == ErrorsIn(outs) + errors;
    }
  }

  lemma SameLength(req: Request, healthy: bool, before: seq<Asset>, slots: seq<Slot>, outs: seq<Outcome>)
    requires Carried(req, healthy, before, slots, outs)
    ensures |slots| == |outs|
  {
  }

  // ---------- ingesting ----------

  // A printed number is never shorter than its serial.
  lemma PrintLong(g: Group, serial: int)
    ensures 4 <= |Print(g, serial)|
  {
    PadLong(Decimal(if g.year < 0 then -g.year else g.year));
  }

  lemma PadLong(s: string)
    requires s != ""
    ensures 4 <= |PadTo(s, 4)| && 3 <= |PadTo(s, 3)|
  {
    PadSteps(s);
    assert |s| == 1 ==> PadTo(s, 3) == PadTo("0" + s, 3) == PadTo("00" + s, 3) == "00" + s by {
      assert "0" + ("0" + s) == "00" + s;
    }
    assert |s| == 2 ==> PadTo(s, 3) == PadTo("0" + s, 3) == "0" + s;
  }

  /** One asset: number, document, link to the source and history event. Link and event are tried
      once each, and an asset that has been stored counts as created without them. */
  method CreateOne(store: MongoStore, req: Request, slot: Slot) returns (out: Outcome)
    requires slot.Make?
    modifies store.conn`calls, store`assets, store`links, store`history
    ensures Follows(req, store.conn.Healthy(), old(store.assets), slot, out)
    ensures store.assets == old(store.assets) + AssetsIn([out])
    ensures old(store.links) <= store.links && old(store.history) <= store.history
    ensures out.Failed? ==> store.links == old(store.links) && store.history == old(store.history)
    ensures out.Made? && store.conn.Healthy() ==>
      store.links == old(store.links) + [NewLink(req, slot, out.asset.assetNo)] &&
      store.history == old(store.history) + [Lifecycle.CreatedEvent(out.asset, req.createdBy, Notes(req))]
  {
    hide Print, FindLast, Taken;
    OutcomesAppend([], Failed(IngestError(slot.index, WholeAsset, Required)));
    var generated := store.GenerateAssetNumber(req.tenantId, slot.group);
    ghost var last := LastInGroup(store.assets, req.tenantId, slot.group);
    if generated.Err? {
      out := Failed(IngestError(slot.index, AssetNumber, NotGenerated(generated.message)));
      FailedFollows(req, store.conn.Healthy(), store.assets, slot, last, out.error);
      OutcomesAppend([], out);
      return;
    }
    var assetNo := generated.value;
    GeneratedLong(store.assets, slot.group, last, assetNo);
    var serialIncrement := assetNo[|assetNo| - 4..];
    var asset := Asset(assetNo, req.tenantId, slot.group, serialIncrement, slot.rec.location, "active",
      Details(slot.rec.description1, 1, slot.rec.originalValue, slot.rec.currency, slot.rec.depreciationMethod,
              "BC-" + assetNo, req.createdBy));
    var created := store.CreateAsset(asset);
    if created.Err? {
      out := Failed(IngestError(slot.index, WholeAsset, NotCreated(created.message)));
      OutcomesAppend([], out);
      return;
    }
    out := Made(asset);
    OutcomesAppend([], out);
    var _ := store.CreateAssetLink(
      AssetLink(assetNo, req.tenantId, req.sourceSlug, slot.rec.office + "-" + Decimal(slot.index)));
    var _ := store.CreateAssetHistory(
      AssetHistory(assetNo, req.tenantId, "created", "", "", req.createdBy,
                   "Asset created from " + req.sourceSlug + " import"));
  }

  lemma GeneratedLong(assets: seq<Asset>, g: Group, last: Option<Asset>, assetNo: string)
    requires GenerateAssetNumber(assets, g, last) == Ok(assetNo)
    ensures 4 <= |assetNo| && !Taken(assets, assetNo)
  {
    PrintLong(g, NextSerial(last).value);
  }

  lemma FailedFollows(req: Request, healthy: bool, assets: seq<Asset>, slot: Slot, last: Option<Asset>, e: IngestError)
    requires slot.Make? && FindLast(assets, req.tenantId, slot.group, last)
    requires e.recordIndex == slot.index && e.field == AssetNumber
    requires healthy ==> GenerateAssetNumber(assets, slot.group, last).Err?
    ensures Follows(req, healthy, assets, slot, Failed(e))
  {
    hide FindLast;
    var r := GenerateAssetNumber(assets, slot.group, last);
    assert r.Err? ==> Allocates(assets, req.tenantId, slot.group, Err(r.message));
  }

  // What the loops have done so far.
  ghost predicate Ingested(req: Request, healthy: bool, before: seq<Asset>, now: seq<Asset>, slots: seq<Slot>,
                           outs: seq<Outcome>, result: IngestResult) {
    Carried(req, healthy, before, slots, outs) && now == before + AssetsIn(outs) &&
    result == IngestResult(|AssetsIn(outs)|, NumbersOf(AssetsIn(outs)), ErrorsIn(outs))
  }

  lemma IngestedAppend(req: Request, healthy: bool, before: seq<Asset>, now: seq<Asset>, slots: seq<Slot>,
                       outs: seq<Outcome>, result: IngestResult, slot: Slot, out: Outcome)
    requires Ingested(req, healthy, before, now, slots, outs, result) && Follows(req, healthy, now, slot, out)
    ensures Ingested(req, healthy, before, now + AssetsIn([out]), slots + [slot], outs + [out],
      if out.Made? then IngestResult(result.created + 1, result.assetNumbers + [out.asset.assetNo], result.errors)
      else result.(errors := result.errors + [out.error]))
  {
    hide Carried, Follows, AssetsIn, ErrorsIn;
    CarriedAppend(req, healthy, before, slots, outs, slot, out);
    OutcomesAppend(outs, out);
    OutcomesAppend([], out);
    assert [] + [out] == [out];
    EmptyOutcomes();
    assert out.Made? ==> NumbersOf(AssetsIn(outs) + [out.asset]) == NumbersOf(AssetsIn(outs)) + [out.asset.assetNo];
  }

  lemma EmptyOutcomes()
    ensures AssetsIn([]) == [] && ErrorsIn([]) == []
  {
  }

  // History and links on a store that answers every call.
  ghost predicate Logged(req: Request, log: seq<AssetHistory>, history: seq<AssetHistory>, from: seq<AssetLink>,
                         links: seq<AssetLink>, slots: seq<Slot>, outs: seq<Outcome>) {
    |slots| == |outs| && history == log + CreatedEvents(req, AssetsIn(outs)) &&
    links == from + LinksIn(req, slots, outs)
  }

  lemma LoggedAppend(req: Request, log: seq<AssetHistory>, history: seq<AssetHistory>, from: seq<AssetLink>,
                     links: seq<AssetLink>, slots: seq<Slot>, outs: seq<Outcome>, slot: Slot, out: Outcome)
    requires Logged(req, log, history, from, links, slots, outs) && slot.Make?
    ensures out.Failed? ==> Logged(req, log, history, from, links, slots + [slot], outs + [out])
    ensures out.Made? ==>
      Logged(req, log, history + [Lifecycle.CreatedEvent(out.asset, req.createdBy, Notes(req))],
             from, links + [NewLink(req, slot, out.asset.assetNo)], slots + [slot], outs + [out])
  {
    hide AssetsIn, LinksIn, NewLink;
    OutcomesAppend(outs, out);
    LinksAppend(req, slots, outs, slot, out);
    if out.Made? {
      assert CreatedEvents(req, AssetsIn(outs) + [out.asset]) ==
        CreatedEvents(req, AssetsIn(outs)) + [Lifecycle.CreatedEvent(out.asset, req.createdBy, Notes(req))];
    }
  }

  /** Works through the records in order. The outcomes say what became of each slot of the plan; the
      result lists the errors and the numbers among them, and the assets among them are what was
      added to the collection. */
  method IngestAssets(store: MongoStore, req: Request, records: seq<Record>, currentYear: int, now: nat -> int)
    returns (result: IngestResult, ghost outs: seq<Outcome>)
    modifies store.conn`calls, store`assets, store`links, store`history
    ensures Ingested(req, store.conn.Healthy(), old(store.assets), store.assets, Plan(records, currentYear, now),
                     outs, result)
    ensures store.conn.Healthy() ==>
      Logged(req, old(store.history), store.history, old(store.links), store.links, Plan(records, currentYear, now),
             outs)
    ensures var made, origins := store.assets[|old(store.assets)|..], Origins(Plan(records, currentYear, now), outs);
      old(store.assets) <= store.assets && HasOrigins(req, records, currentYear, now, made, origins) &&
      (store.conn.Healthy() ==>
        Traced(req, made, origins, store.links[|old(store.links)|..], store.history[|old(store.history)|..]))
    ensures old(store.links) <= store.links && old(store.history) <= store.history
  {
    hide Follows, Carried, Logged, SlotsOf, AssetsIn, ErrorsIn, ValidRecord, Plan, Reported, NewLink, HasOrigins,
      Traced, Origins;
    ghost var before, log, from, ok := store.assets, store.history, store.links, store.conn.Healthy();
    result, outs := IngestResult(0, [], []), [];
    NothingIngested(req, ok, before, log, from, records, currentYear, now);
    ghost var slots: seq<Slot> := [];
    for i := 0 to |records|
      invariant slots == Plan(records[..i], currentYear, now)
      invariant Ingested(req, ok, before, store.assets, slots, outs, result)
      invariant ok ==> Logged(req, log, store.history, from, store.links, slots, outs)
      invariant old(store.links) <= store.links && log <= store.history
    {
      PlanNext(records, i, currentYear, now);
      var rec, errors, valid := ValidateAssetRecord(records[i], i, result.errors, now(i));
      if !valid {
        outs := ReportAll(req, ok, before, store.assets, slots, outs, result, records[i], i, currentYear, now, errors,
                          log, store.history, from, store.links);
        result := result.(errors := errors);
        slots := slots + SlotsOf(records[i], i, currentYear, now);
        continue;
      }
      var year := rec.acquired.year;
      if year == 1 || year == 0 {
        year := currentYear;
      }
      var quantity := rec.quantity;
      if quantity < 1 {
        quantity := 1;
      }
      var slot := Make(i, rec, Group(rec.office, year, rec.categoryNo, rec.typeNumber));
      ghost var first := slots;
      CopiesNext(slot, 0);
      assert slots == first + Copies(slot, 0);
      for q := 0 to quantity
        invariant slots == first + Copies(slot, q)
        invariant Ingested(req, ok, before, store.assets, slots, outs, result)
        invariant ok ==> Logged(req, log, store.history, from, store.links, slots, outs)
        invariant old(store.links) <= store.links && log <= store.history
      {
        ghost var was, events, links := store.assets, store.history, store.links;
        var out := CreateOne(store, req, slot);
        if ok { LoggedAppend(req, log, events, from, links, slots, outs, slot, out); }
        IngestedAppend(req, ok, before, was, slots, outs, result, slot, out);
        CopiesNext(slot, q);
        slots, outs := slots + [slot], outs + [out];
        if out.Made? {
          result := IngestResult(result.created + 1, result.assetNumbers + [out.asset.assetNo], result.errors);
        } else {
          result := result.(errors := result.errors + [out.error]);
        }
      }
      ValidSlots(records[i], i, currentYear, now);
    }
    assert records[..|records|] == records;
    IngestedOrigins(req, ok, before, store.assets, slots, outs, result, records, currentYear, now);
  }

  lemma IngestedOrigins(req: Request, healthy: bool, before: seq<Asset>, after: seq<Asset>, slots: seq<Slot>,
                        outs: seq<Outcome>, result: IngestResult, records: seq<Record>, currentYear: int,
                        now: nat -> int)
    requires Ingested(req, healthy, before, after, slots, outs, result) && slots == Plan(records, currentYear, now)
    ensures |slots| == |outs| && before <= after
    ensures HasOrigins(req, records, currentYear, now, after[|before|..], Origins(slots, outs))
    ensures forall log, history, from, links :: Logged(req, log, history, from, links, slots, outs) ==>
      log <= history && from <= links &&
      Traced(req, after[|before|..], Origins(slots, outs), links[|from|..], history[|log|..])
  {
    hide Carried, Plan, AssetsIn, Origins, LinksIn, HasOrigins, Traced;
    PlanAsks(records, currentYear, now);
    MadeOfRecords(req, healthy, before, slots, outs, records, currentYear, now);
    assert after[|before|..] == AssetsIn(outs);
  }

  lemma CopiesNext(slot: Slot, n: nat)
    ensures Copies(slot, 0) == [] && Copies(slot, n + 1) == Copies(slot, n) + [slot]
  {
  }

  lemma ValidSlots(rec: Record, index: nat, currentYear: int, now: nat -> int)
    requires ValidRecord(rec, now(index))
    ensures SlotsOf(rec, index, currentYear, now) ==
      Copies(Make(index, WithDefaults(rec), GroupOf(rec, currentYear)), Wanted(rec))
  {
  }

  lemma NothingIngested(req: Request, healthy: bool, before: seq<Asset>, log: seq<AssetHistory>, links: seq<AssetLink>,
                        records: seq<Record>, currentYear: int, now: nat -> int)
    ensures Ingested(req, healthy, before, before, [], [], IngestResult(0, [], []))
    ensures Logged(req, log, log, links, links, [], [])
    ensures Plan(records[..0], currentYear, now) == []
  {
    assert CreatedEvents(req, []) == [];
  }

  lemma InvalidSlots(rec: Record, index: nat, currentYear: int, now: nat -> int)
    requires !ValidRecord(rec, now(index))
    ensures SlotsOf(rec, index, currentYear, now) == Reports(index, Faults(rec, now(index)))
  {
  }

  lemma ReportAll(
      req: Request, healthy: bool, before: seq<Asset>, assets: seq<Asset>, slots: seq<Slot>, outs: seq<Outcome>,
      result: IngestResult, rec: Record, index: nat, currentYear: int, now: nat -> int, errors: seq<IngestError>,
                  log: seq<AssetHistory>, events: seq<AssetHistory>, from: seq<AssetLink>, links: seq<AssetLink>)
    returns (after: seq<Outcome>)
    requires Ingested(req, healthy, before, assets, slots, outs, result) && !ValidRecord(rec, now(index))
    requires healthy ==> Logged(req, log, events, from, links, slots, outs)
    requires Reported(result.errors, errors, index, Faults(rec, now(index)))
    ensures Ingested(req, healthy, before, assets, slots + SlotsOf(rec, index, currentYear, now), after,
                     result.(errors := errors))
    ensures healthy ==> Logged(req, log, events, from, links, slots + SlotsOf(rec, index, currentYear, now), after)
  {
    hide Carried, AssetsIn, ErrorsIn, ValidRecord, Faults, SlotsOf, NumbersOf, CreatedEvents, LinksIn;
    InvalidSlots(rec, index, currentYear, now);
    var reported := errors[|result.errors|..];
    after := CarriedReports(req, healthy, before, slots, outs, index, Faults(rec, now(index)), reported);
    assert result.errors + reported == errors;
  }
}
