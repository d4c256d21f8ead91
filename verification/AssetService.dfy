/** What an ingest adds up to, and the service calls that change or read one asset
    (services/asset.go). */
module AssetService {
  import opened Text
  import opened AssetNumbers
  import opened Assets
  import opened AssetStore
  import opened AssetIngest
  import Allocator = AssetAllocator
  import Money
  import Lifecycle = AssetLifecycle

  // ---------- an ingest, counted ----------

  // How many assets the valid records among those picked stand for.
  function Total(records: seq<Record>, now: nat -> int, picks: nat -> bool): nat {
    if records == [] then 0
    else
      var n := |records| - 1;
      Total(records[..n], now, picks) +
      (if !picks(n) || !ValidRecord(records[n], now(n)) then 0
       else if records[n].quantity <= 1 then 1 else records[n].quantity)
  }

  predicate CreationError(e: IngestError) {
    e.field in {AssetNumber, WholeAsset}
  }

  function CreationErrors(errors: seq<IngestError>, picks: nat -> bool): nat {
    if errors == [] then 0
    else
      var n := |errors| - 1;
      CreationErrors(errors[..n], picks) + (if CreationError(errors[n]) && picks(errors[n].recordIndex) then 1 else 0)
  }

  function Makes(slots: seq<Slot>, picks: nat -> bool): nat {
    if slots == [] then 0
    else
      var n := |slots| - 1;
      Makes(slots[..n], picks) + (if slots[n].Make? && picks(slots[n].index) then 1 else 0)
  }

  // How many of the positions are picked.
  function Picked(origins: seq<nat>, picks: nat -> bool): nat {
    if origins == [] then 0
    else
      var n := |origins| - 1;
      Picked(origins[..n], picks) + (if picks(origins[n]) then 1 else 0)
  }

  lemma {:induction false} MakesConcat(a: seq<Slot>, b: seq<Slot>, picks: nat -> bool)
    ensures Makes(a + b, picks) == Makes(a, picks) + Makes(b, picks)
    decreases |b|
  {
    if b == [] {
      assert a + b == a;
    } else {
      var n := |b| - 1;
      MakesConcat(a, b[..n], picks);
      assert (a + b)[..|a| + n] == a + b[..n];
    }
  }

  lemma {:induction false} MakesOfCopies(slot: Slot, n: nat, picks: nat -> bool)
    ensures Makes(Copies(slot, n), picks) == if slot.Make? && picks(slot.index) then n else 0
  {
    if n != 0 {
      MakesOfCopies(slot, n - 1, picks);
      assert Copies(slot, n)[..n - 1] == Copies(slot, n - 1);
    }
  }

  lemma {:induction false} MakesOfReports(index: nat, faults: seq<Fault>, picks: nat -> bool)
    ensures Makes(Reports(index, faults), picks) == 0
    decreases |faults|
  {
    if faults != [] {
      var n := |faults| - 1;
      MakesOfReports(index, faults[..n], picks);
      assert Reports(index, faults)[..n] == Reports(index, faults[..n]);
    }
  }

  lemma {:induction false} MakesOfPlan(records: seq<Record>, currentYear: int, now: nat -> int, picks: nat -> bool)
    ensures Makes(Plan(records, currentYear, now), picks) == Total(records, now, picks)
    decreases |records|
  {
    if records != [] {
      var n := |records| - 1;
      MakesOfPlan(records[..n], currentYear, now, picks);
      MakesConcat(Plan(records[..n], currentYear, now), SlotsOf(records[n], n, currentYear, now), picks);
      if ValidRecord(records[n], now(n)) {
        MakesOfCopies(Make(n, WithDefaults(records[n]), GroupOf(records[n], currentYear)), Wanted(records[n]), picks);
      } else {
        MakesOfReports(n, Faults(records[n], now(n)), picks);
      }
    }
  }

  // No validation error carries a field of a creation error.
  ghost predicate FieldsApart(slots: seq<Slot>) {
    forall k :: 0 <= k < |slots| && slots[k].Report? ==> slots[k].fault.field !in {AssetNumber, WholeAsset}
  }

  lemma FaultsApart(rec: Record, now: int)
    ensures forall f :: f in Faults(rec, now) ==> f.field !in {AssetNumber, WholeAsset}
  {
    hide FaultIf, KnownCategory;
  }

  lemma {:induction false} PlanApart(records: seq<Record>, currentYear: int, now: nat -> int)
    ensures FieldsApart(Plan(records, currentYear, now))
    decreases |records|
  {
    hide Faults, ValidRecord;
    if records != [] {
      var n := |records| - 1;
      PlanApart(records[..n], currentYear, now);
      FaultsApart(records[n], now(n));
      var faults := Faults(records[n], now(n));
      assert forall k :: 0 <= k < |faults| ==> faults[k] in faults;
    }
  }

  lemma {:induction false} CountedOutcomes(req: Request, healthy: bool, before: seq<Asset>, slots: seq<Slot>,
      outs: seq<Outcome>, picks: nat -> bool)
    requires Carried(req, healthy, before, slots, outs) && FieldsApart(slots)
    ensures |outs| == |slots|
    ensures Makes(slots, picks) == Picked(Origins(slots, outs), picks) + CreationErrors(ErrorsIn(outs), picks)
    decreases |slots|
  {
    hide Follows, Carried, CreationErrors, CreationError, Picked, Origins, ErrorsIn, AssetsIn;
    NothingCounted();
    NoSlots(req, healthy, before, slots, outs);
    CountsNext([], 0, [], IngestError(0, WholeAsset, Required), picks);
    if slots != [] {
      var n := |slots| - 1;
      CarriedFront(req, healthy, before, slots, outs);
      CountedOutcomes(req, healthy, before, slots[..n], outs[..n], picks);
      CountedOutcome(req, healthy, before + AssetsIn(outs[..n]), slots[n], outs[n]);
      OutcomesAppend(outs[..n], outs[n]);
      assert outs[..n] + [outs[n]] == outs;
      var e := if outs[n].Failed? then outs[n].error else IngestError(0, WholeAsset, Required);
      OriginsLast(slots, outs);
      CountsNext(Origins(slots[..n], outs[..n]), slots[n].index, ErrorsIn(outs[..n]), e, picks);
    }
  }

  lemma NothingCounted()
    ensures Origins([], []) == [] && ErrorsIn([]) == []
  {
  }

  lemma OriginsLast(slots: seq<Slot>, outs: seq<Outcome>)
    requires |slots| == |outs| && slots != []
    ensures var n := |slots| - 1;
      Origins(slots, outs) == Origins(slots[..n], outs[..n]) + (if outs[n].Made? then [slots[n].index] else [])
    ensures outs[|slots| - 1].Failed? ==> Origins(slots, outs) == Origins(slots[..|slots| - 1], outs[..|slots| - 1])
  {
  }

  lemma NoSlots(req: Request, healthy: bool, before: seq<Asset>, slots: seq<Slot>, outs: seq<Outcome>)
    requires Carried(req, healthy, before, slots, outs)
    ensures |outs| == |slots|
  {
  }

  lemma CountsNext(origins: seq<nat>, i: nat, errors: seq<IngestError>, e: IngestError, picks: nat -> bool)
    ensures CreationErrors([], picks) == Picked([], picks) == 0
    ensures Picked(origins + [i], picks) == Picked(origins, picks) + (if picks(i) then 1 else 0)
    ensures CreationErrors(errors + [e], picks) ==
      CreationErrors(errors, picks) + (if CreationError(e) && picks(e.recordIndex) then 1 else 0)
  {
    assert (errors + [e])[..|errors|] == errors && (origins + [i])[..|origins|] == origins;
  }

  lemma CountedOutcome(req: Request, healthy: bool, assets: seq<Asset>, slot: Slot, out: Outcome)
    requires Follows(req, healthy, assets, slot, out)
    requires slot.Report? ==> slot.fault.field !in {AssetNumber, WholeAsset}
    ensures out.Made? ==> slot.Make?
    ensures out.Failed? ==> (CreationError(out.error) <==> slot.Make?) && out.error.recordIndex == slot.index
  {
  }

  /** Whichever records one picks out of the batch: the assets that the valid ones among them ask
      for, a quantity below 1 counting as 1, are the assets created of them plus their creation
      errors. */
  lemma IngestConserves(req: Request, healthy: bool, before: seq<Asset>, after: seq<Asset>, records: seq<Record>,
                        currentYear: int, now: nat -> int, outs: seq<Outcome>, result: IngestResult,
                        picks: nat -> bool)
    requires Ingested(req, healthy, before, after, Plan(records, currentYear, now), outs, result)
    ensures |outs| == |Plan(records, currentYear, now)|
    ensures Total(records, now, picks) ==
      Picked(Origins(Plan(records, currentYear, now), outs), picks) + CreationErrors(result.errors, picks)
    ensures result.created == |result.assetNumbers| == |after| - |before|
    ensures forall k :: 0 <= k < result.created ==> after[|before| + k].assetNo == result.assetNumbers[k]
  {
    hide Carried, Plan;
    MakesOfPlan(records, currentYear, now, picks);
    PlanApart(records, currentYear, now);
    CountedOutcomes(req, healthy, before, Plan(records, currentYear, now), outs, picks);
  }

  // ---------- an ingest and its records ----------

  // The categories that ingest knows are the ones that the pattern of a number allows.
  lemma KnownIffPattern(categoryNo: string)
    ensures KnownCategory(categoryNo) <==> IsCategory(categoryNo)
  {
    if IsCategory(categoryNo) && categoryNo != "290" {
      var c := categoryNo[1];
      assert categoryNo == ['0', c];
      assert c in "123456789";
    }
  }

  lemma NumberParts(g: Group, serial: nat)
    requires WellFormed(g) && serial <= 10000
    ensures var parts := Split(Print(g, serial), '-');
      |parts| == 5 && parts[0] == g.office && Atoi(parts[1]) == Some(g.year) && parts[2] == g.categoryNo &&
      parts[3] == g.typeNumber && parts[4] == Pad4(serial)
  {
    hide Pad4, Split, Dashed, Atoi, Four, IsOffice, IsCategory, DigitsOfLength, Print;
    FourDigitsIff(g.year);
    FourDigitsIff(serial);
    Pad4IsFour(g.year);
    AtoiFour(g.year);
    PrintIsDashed(g, serial);
    PartsHaveNoDash(g.office, Pad4(g.year), g.categoryNo, g.typeNumber, "0000");
    SplitDashed(g.office, Pad4(g.year), g.categoryNo, g.typeNumber, Pad4(serial));
  }

  /** The number of an asset names its record: where office, type and year have the documented form,
      cutting the number at the hyphens gives the record's office, year, category and type. */
  lemma NumberNamesRecord(req: Request, assets: seq<Asset>, a: Asset, rec: Record, currentYear: int, now: int)
    requires Allocator.AssetsInv(assets) && a in assets && ValidRecord(rec, now) && MadeFrom(a, req, rec, currentYear)
    requires IsOffice(rec.office) && DigitsOfLength(rec.typeNumber, 3) && 0 <= a.group.year <= 9999
    ensures var parts := Split(a.assetNo, '-');
      |parts| == 5 && parts[0] == rec.office &&
      Atoi(parts[1]) == Some(if rec.acquired.year in {0, 1} then currentYear else rec.acquired.year) &&
      parts[2] == rec.categoryNo && parts[3] == rec.typeNumber
  {
    hide Numbers, Print, Split, Atoi, KnownCategory, IsOffice, IsCategory, DigitsOfLength, Allocator.AssetsInv;
    KnownIffPattern(rec.categoryNo);
    var i :| 0 <= i < |assets| && assets[i] == a;
    GroupDense(assets, a.tenantId, a.group);
    var k := NumberAt(assets, a.tenantId, a.group, i);
    NumberParts(a.group, k + 1);
  }

  // The slots report a record, and ask for no asset of it.
  ghost predicate OnlyReported(slots: seq<Slot>, i: nat) {
    (exists k :: 0 <= k < |slots| && slots[k].Report? && slots[k].index == i) &&
    forall k :: 0 <= k < |slots| && slots[k].index == i ==> slots[k].Report?
  }

  lemma {:induction false} PlanOfInvalid(records: seq<Record>, currentYear: int, now: nat -> int, i: nat)
    requires i < |records| && !ValidRecord(records[i], now(i))
    ensures OnlyReported(Plan(records, currentYear, now), i)
    decreases |records|
  {
    hide SlotsOf, ValidRecord;
    var n := |records| - 1;
    var slots, front, back :=
      Plan(records, currentYear, now), Plan(records[..n], currentYear, now), SlotsOf(records[n], n, currentYear, now);
    SlotsIndices(records[n], n, currentYear, now);
    PlanIndices(records[..n], currentYear, now);
    assert forall k :: 0 <= k < |slots| ==> slots[k] == if k < |front| then front[k] else back[k - |front|];
    if i < n {
      PlanOfInvalid(records[..n], currentYear, now, i);
      var k :| 0 <= k < |front| && front[k].Report? && front[k].index == i;
      assert 0 <= k < |slots| && slots[k].Report? && slots[k].index == i;
    } else {
      assert back[0].Report? && back[0].index == n;
      var k := |front|;
      assert 0 <= k < |slots| && slots[k].Report? && slots[k].index == i;
    }
  }

  lemma SlotsIndices(rec: Record, index: nat, currentYear: int, now: nat -> int)
    ensures forall k :: 0 <= k < |SlotsOf(rec, index, currentYear, now)| ==>
      SlotsOf(rec, index, currentYear, now)[k].index == index
    ensures !ValidRecord(rec, now(index)) ==>
      SlotsOf(rec, index, currentYear, now) != [] &&
      forall k :: 0 <= k < |SlotsOf(rec, index, currentYear, now)| ==> SlotsOf(rec, index, currentYear, now)[k].Report?
  {
    if ValidRecord(rec, now(index)) {
      ValidSlots(rec, index, currentYear, now);
    } else {
      SomeFault(rec, now(index));
      InvalidSlots(rec, index, currentYear, now);
    }
    hide Faults, ValidRecord, SlotsOf;
    if !ValidRecord(rec, now(index)) {
      var faults, slots := Faults(rec, now(index)), SlotsOf(rec, index, currentYear, now);
      assert slots == Reports(index, faults) && |slots| == |faults|;
    }
  }

  lemma SomeFault(rec: Record, now: int)
    requires !ValidRecord(rec, now)
    ensures Faults(rec, now) != []
  {
  }

  lemma {:induction false} PlanIndices(records: seq<Record>, currentYear: int, now: nat -> int)
    ensures forall k :: 0 <= k < |Plan(records, currentYear, now)| ==>
      Plan(records, currentYear, now)[k].index < |records|
    decreases |records|
  {
    hide Faults, ValidRecord;
    if records != [] {
      PlanIndices(records[..|records| - 1], currentYear, now);
    }
  }

  lemma {:induction false} ErrorListed(outs: seq<Outcome>, k: nat)
    requires k < |outs| && outs[k].Failed?
    ensures outs[k].error in ErrorsIn(outs)
    decreases |outs|
  {
    if k < |outs| - 1 {
      ErrorListed(outs[..|outs| - 1], k);
    }
  }

  // A record that is not valid is reported, and no slot of the plan makes an asset of it.
  lemma InvalidRecordReported(req: Request, healthy: bool, before: seq<Asset>, after: seq<Asset>, records: seq<Record>,
                              currentYear: int, now: nat -> int, outs: seq<Outcome>, result: IngestResult, i: nat)
    requires Ingested(req, healthy, before, after, Plan(records, currentYear, now), outs, result)
    requires i < |records| && !ValidRecord(records[i], now(i))
    ensures exists e :: e in result.errors && e.recordIndex == i
    ensures forall k :: 0 <= k < |outs| && Plan(records, currentYear, now)[k].index == i ==> outs[k].Failed?
  {
    hide Plan, ValidRecord, ErrorsIn, AssetsIn;
    var slots := Plan(records, currentYear, now);
    PlanOfInvalid(records, currentYear, now, i);
    var k :| 0 <= k < |slots| && slots[k].Report? && slots[k].index == i;
    assert Follows(req, healthy, before + AssetsIn(outs[..k]), slots[k], outs[k]);
    ErrorListed(outs, k);
    forall j | 0 <= j < |outs| && slots[j].index == i ensures outs[j].Failed? {
      assert Follows(req, healthy, before + AssetsIn(outs[..j]), slots[j], outs[j]);
    }
  }

  // ---------- an ingest and the serials ----------

  lemma AllocatesNext(assets: seq<Asset>, tenantId: string, g: Group, r: Result<string>)
    requires Dense(assets, tenantId, g) && Allocates(assets, tenantId, g, r)
    ensures var n := |Numbers(assets, tenantId, g)|;
      (r.Ok? ==> n <= 9999 && r.value == Print(g, n + 1) && !Taken(assets, r.value)) &&
      (r.Err? ==> n == 10000 || Taken(assets, Print(g, n + 1)))
  {
    hide Numbers, Print, FindLast, Taken;
    var last :| FindLast(assets, tenantId, g, last) && GenerateAssetNumber(assets, g, last) == r;
    GenerateProposesNext(assets, tenantId, g, last);
    hide Dense;
    GeneratedFree(assets, g, last);
  }

  lemma GeneratedFree(assets: seq<Asset>, g: Group, last: Option<Asset>)
    ensures var r := GenerateAssetNumber(assets, g, last);
      r.Ok? ==> !Taken(assets, r.value)
  {
  }

  /** What becomes of one asset to create, in a collection whose groups are dense. It gets the next
      serial of its group, which GetAsset accepts when the group is well-formed and the serial has
      four digits; on a store that answers every call, it is refused only if the group is full or
      the number is held under another group or tenant. */
  lemma SlotOutcome(req: Request, healthy: bool, assets: seq<Asset>, slot: Slot, out: Outcome)
    requires Allocator.AssetsInv(assets) && slot.Make? && Follows(req, healthy, assets, slot, out)
    ensures var n := |Numbers(assets, req.tenantId, slot.group)|;
      out.Made? ==>
        n < 10000 && out.asset.assetNo == Print(slot.group, n + 1) && !Taken(assets, out.asset.assetNo) &&
        (AcceptsAssetNo(out.asset.assetNo) <==> WellFormed(slot.group) && n < 9999)
    ensures var n := |Numbers(assets, req.tenantId, slot.group)|;
      healthy ==> (out.Made? <==> n < 10000 && !Taken(assets, Print(slot.group, n + 1)))
  {
    hide Numbers, Print, Taken, Allocates, Dense, WellFormed, AcceptsAssetNo, Allocator.AssetsInv;
    GroupDense(assets, req.tenantId, slot.group);
    var n := |Numbers(assets, req.tenantId, slot.group)|;
    if out.Made? {
      AllocatesNext(assets, req.tenantId, slot.group, Ok(out.asset.assetNo));
      NumberAccepted(slot.group, n + 1);
    } else if healthy {
      var m :| Allocates(assets, req.tenantId, slot.group, Err(m));
      AllocatesNext(assets, req.tenantId, slot.group, Err(m));
    }
  }

  lemma GroupDense(assets: seq<Asset>, tenantId: string, g: Group)
    requires Allocator.AssetsInv(assets)
    ensures Dense(assets, tenantId, g)
  {
  }

  lemma NumberAccepted(g: Group, serial: nat)
    ensures AcceptsAssetNo(Print(g, serial)) <==> WellFormed(g) && serial <= 9999
  {
    hide Print, WellFormed, AcceptsAssetNo, AssetNoMatches;
    PrintMatchesIff(g, serial);
    AcceptsIffMatches(Print(g, serial));
  }

  lemma MadeKeepsInv(req: Request, healthy: bool, assets: seq<Asset>, slot: Slot, out: Outcome)
    requires Allocator.AssetsInv(assets) && slot.Make? && out.Made? && Follows(req, healthy, assets, slot, out)
    ensures Allocator.AssetsInv(assets + [out.asset])
  {
    var a := out.asset;
    SlotOutcome(req, healthy, assets, slot, out);
    hide Numbers, Print, FindLast, Taken, Allocates, Dense, LastFour;
    assert Dense(assets, req.tenantId, slot.group);
    DenseBound(assets, req.tenantId, slot.group);
    assert Allocator.Proposed(assets, a.tenantId, a.group, a.assetNo);
    Allocator.InsertGood(assets, a);
  }

  lemma DenseBound(assets: seq<Asset>, tenantId: string, g: Group)
    requires Dense(assets, tenantId, g)
    ensures |Numbers(assets, tenantId, g)| <= 10000
  {
  }

  /** However an ingest turns out, every group of every tenant keeps the serials 1 to n, and no two
      assets have the same number. */
  lemma {:induction false} IngestKeepsSerials(req: Request, healthy: bool, before: seq<Asset>, slots: seq<Slot>,
      outs: seq<Outcome>)
    requires Allocator.AssetsInv(before) && Carried(req, healthy, before, slots, outs)
    ensures Allocator.AssetsInv(before + AssetsIn(outs))
    decreases |slots|
  {
    hide Allocator.AssetsInv, Follows;
    if slots == [] {
      assert before + AssetsIn(outs) == before;
    } else {
      var n := |slots| - 1;
      CarriedFront(req, healthy, before, slots, outs);
      IngestKeepsSerials(req, healthy, before, slots[..n], outs[..n]);
      var so := before + AssetsIn(outs[..n]);
      OnlyMakesMake(req, healthy, so, slots[n], outs[n]);
      if outs[n].Made? {
        MadeKeepsInv(req, healthy, so, slots[n], outs[n]);
        assert before + AssetsIn(outs) == so + [outs[n].asset];
      } else {
        assert before + AssetsIn(outs) == so;
      }
    }
  }

  lemma OnlyMakesMake(req: Request, healthy: bool, assets: seq<Asset>, slot: Slot, out: Outcome)
    requires Follows(req, healthy, assets, slot, out)
    ensures out.Made? ==> slot.Make?
  {
  }

  // So the numbers that an ingest returns are distinct, and were nobody's before.
  lemma ReturnedNumbersFresh(req: Request, healthy: bool, before: seq<Asset>, after: seq<Asset>, slots: seq<Slot>,
                             outs: seq<Outcome>, result: IngestResult, j: nat, k: nat)
    requires Allocator.AssetsInv(before) && Ingested(req, healthy, before, after, slots, outs, result)
    requires k < |result.assetNumbers|
    ensures !Taken(before, result.assetNumbers[k])
    ensures j < k ==> result.assetNumbers[j] != result.assetNumbers[k]
  {
    hide Carried, Dense;
    IngestKeepsSerials(req, healthy, before, slots, outs);
    assert NumbersUnique(after);
    assert after[|before| + k].assetNo == result.assetNumbers[k];
    if j < k {
      assert after[|before| + j].assetNo == result.assetNumbers[j];
    }
    forall a | a in before ensures a.assetNo != result.assetNumbers[k] {
      var i :| 0 <= i < |before| && before[i] == a;
      assert after[i] == a;
    }
  }

  // ---------- an ingest and the ledger ----------

  function IngestOps(req: Request, assets: seq<Asset>): (ops: seq<Lifecycle.Operation>)
    ensures |ops| == |assets|
    ensures forall k :: 0 <= k < |assets| ==> ops[k] == Lifecycle.Ingest(assets[k], req.createdBy, Notes(req))
  {
    seq(|assets|, k requires 0 <= k < |assets| => Lifecycle.Ingest(assets[k], req.createdBy, Notes(req)))
  }

  /** An ingest on a store that answers every call is a run of the ledger's ingest operations, so
      what is proved of the ledger's runs holds of it. */
  lemma {:induction false} IngestIsRun(req: Request, l: Lifecycle.Ledger, made: seq<Asset>)
    requires NumbersUnique(l.assets + made)
    ensures var after := Lifecycle.RunAll(l, IngestOps(req, made));
      after.assets == l.assets + made && after.history == l.history + CreatedEvents(req, made)
    decreases |made|
  {
    if made == [] {
      assert l.assets + made == l.assets && l.history + CreatedEvents(req, made) == l.history;
    } else {
      var a, rest := made[0], made[1..];
      var ops := IngestOps(req, made);
      FirstFree(l.assets, made);
      var next := Lifecycle.Step(l, ops[0]);
      assert next == Lifecycle.Ledger(l.assets + [a],
                                      l.history + [Lifecycle.CreatedEvent(a, req.createdBy, Notes(req))],
                                      l.ingestedAt[a.assetNo := a.location]);
      hide Lifecycle.Step, Taken;
      assert next.assets + rest == l.assets + made;
      IngestIsRun(req, next, rest);
      assert ops[1..] == IngestOps(req, rest);
      assert next.history + CreatedEvents(req, rest) == l.history + CreatedEvents(req, made);
    }
  }

  lemma FirstFree(assets: seq<Asset>, made: seq<Asset>)
    requires NumbersUnique(assets + made) && made != []
    ensures !Taken(assets, made[0].assetNo)
  {
    var all := assets + made;
    forall a | a in assets ensures a.assetNo != made[0].assetNo {
      var i :| 0 <= i < |assets| && assets[i] == a;
      assert all[i].assetNo != all[|assets|].assetNo;
    }
  }

  // ---------- one asset ----------

  // The collections as a ledger; which location an asset was ingested at does not matter to a step.
  ghost function LedgerOf(assets: seq<Asset>, history: seq<AssetHistory>): Lifecycle.Ledger {
    Lifecycle.Ledger(assets, history, map[])
  }

  predicate IsAsset(a: Asset, tenantId: string, assetNo: string) {
    a.tenantId == tenantId && a.assetNo == assetNo
  }

  /** Loads the asset, changes its location and writes it back, then logs the move. An error leaves
      the asset as it was; a log entry that cannot be written is passed over. */
  method TransferAsset(store: MongoStore, tenantId: string, assetNo: string, toLocation: string, performedBy: string,
      notes: string)
    returns (err: Option<string>)
    modifies store.conn`calls, store`assets, store`history
    ensures err.Some? ==> store.assets == old(store.assets) && store.history == old(store.history)
    ensures var op := Lifecycle.Transfer(tenantId, assetNo, toLocation, performedBy, notes);
      var after := Lifecycle.Step(LedgerOf(old(store.assets), old(store.history)), op);
      (err.None? ==>
        store.assets == after.assets &&
        (store.history == after.history || store.history == old(store.history))) &&
      (store.conn.Healthy() ==>
        LedgerOf(store.assets, store.history) == after &&
        (err.None? <==> 0 <= AssetAt(old(store.assets), tenantId, assetNo)))
    ensures err.None? ==>
      exists i :: 0 <= i < |old(store.assets)| && IsAsset(old(store.assets)[i], tenantId, assetNo) &&
        store.assets == old(store.assets)[i := old(store.assets)[i].(location := toLocation)] &&
        (store.conn.Healthy() ==>
          store.history == old(store.history) +
            [AssetHistory(assetNo, tenantId, "transfer", old(store.assets)[i].location, toLocation, performedBy,
                          notes)])
  {
    ghost var i := AssetAt(store.assets, tenantId, assetNo);
    assert 0 <= i ==> IsAsset(store.assets[i], tenantId, assetNo);
    var got := store.GetAssetByNumber(tenantId, assetNo);
    if got.Err? {
      return Some("get asset: " + got.message);
    }
    if got.value.None? {
      return Some("asset not found");
    }
    var asset := got.value.value;
    var fromLocation := asset.location;
    asset := asset.(location := toLocation);
    var updated := store.UpdateAsset(asset);
    if updated.Err? {
      return Some("update asset: " + updated.message);
    }
    var _ := store.CreateAssetHistory(
      AssetHistory(assetNo, tenantId, "transfer", fromLocation, toLocation, performedBy, notes));
    err := None;
  }

  // The notes of a disposal: a sale value is given to the cent.
  function DisposalNotes(reason: string, saleValue: real, notes: string): string {
    "Reason: " + reason + (if 0.0 < saleValue then " | Sale Value: " + Money.TwoPlaces(saleValue) else "") +
    (if notes != "" then " | " + notes else "")
  }

  // The notes give the reason, then the sale value of a sale, then the caller's own notes, if any.
  lemma DisposalNotesSay(reason: string, saleValue: real, notes: string)
    ensures var text, rest := DisposalNotes(reason, saleValue, notes), if notes == "" then "" else " | " + notes;
      if 0.0 < saleValue then text == "Reason: " + reason + (" | Sale Value: " + Money.TwoPlaces(saleValue) + rest)
      else text == "Reason: " + reason + rest
  {
    hide Money.TwoPlaces;
  }

  method WriteDisposalNotes(reason: string, saleValue: real, notes: string) returns (text: string)
    ensures text == DisposalNotes(reason, saleValue, notes)
  {
    hide Money.TwoPlaces;
    text := "Reason: " + reason;
    if saleValue > 0.0 {
      text := text + " | Sale Value: " + Money.TwoPlaces(saleValue);
    }
    if notes != "" {
      text := text + " | " + notes;
    }
  }

  method DisposeAsset(store: MongoStore, tenantId: string, assetNo: string, reason: string, performedBy: string,
                      saleValue: real, notes: string) returns (err: Option<string>)
    modifies store.conn`calls, store`assets, store`history
    ensures err.Some? ==> store.assets == old(store.assets) && store.history == old(store.history)
    ensures var op := Lifecycle.Disposal(tenantId, assetNo, performedBy, DisposalNotes(reason, saleValue, notes));
      var after := Lifecycle.Step(LedgerOf(old(store.assets), old(store.history)), op);
      (err.None? ==>
        store.assets == after.assets &&
        (store.history == after.history || store.history == old(store.history))) &&
      (store.conn.Healthy() ==>
        LedgerOf(store.assets, store.history) == after &&
        (err.None? <==> 0 <= AssetAt(old(store.assets), tenantId, assetNo)))
    ensures err.None? ==>
      exists i :: 0 <= i < |old(store.assets)| && IsAsset(old(store.assets)[i], tenantId, assetNo) &&
        store.assets == old(store.assets)[i := old(store.assets)[i].(status := "disposed")] &&
        (store.conn.Healthy() ==>
          store.history == old(store.history) +
            [AssetHistory(assetNo, tenantId, "dispose", "", "", performedBy, DisposalNotes(reason, saleValue, notes))])
  {
    hide DisposalNotes;
    ghost var i := AssetAt(store.assets, tenantId, assetNo);
    assert 0 <= i ==> IsAsset(store.assets[i], tenantId, assetNo);
    var got := store.GetAssetByNumber(tenantId, assetNo);
    if got.Err? {
      return Some("get asset: " + got.message);
    }
    if got.value.None? {
      return Some("asset not found");
    }
    var asset := got.value.value;
    asset := asset.(status := "disposed");
    var updated := store.UpdateAsset(asset);
    if updated.Err? {
      return Some("update asset: " + updated.message);
    }
    var historyNotes := WriteDisposalNotes(reason, saleValue, notes);
    var _ := store.CreateAssetHistory(AssetHistory(assetNo, tenantId, "dispose", "", "", performedBy, historyNotes));
    err := None;
  }

  /** Finds an asset by a number of the documented form, with its links; a number of any other form
      is refused, even when an asset has it. */
  method GetAsset(store: MongoStore, tenantId: string, assetNo: string)
    returns (r: Result<Option<(Asset, seq<AssetLink>)>>)
    modifies store.conn`calls
    ensures r.Ok? ==> AssetNoMatches(assetNo)
    ensures r.Ok? && r.value.None? ==> AssetAt(store.assets, tenantId, assetNo) < 0
    ensures r.Ok? && r.value.Some? ==>
      r.value.value.0 in store.assets && r.value.value.0.tenantId == tenantId && r.value.value.0.assetNo == assetNo &&
      forall l :: l in r.value.value.1 <==> l in store.links && l.tenantId == tenantId && l.assetNo == assetNo
    ensures store.conn.Healthy() ==> (r.Ok? <==> AssetNoMatches(assetNo))
  {
    AcceptsIffMatches(assetNo);
    hide AssetNoMatches, AcceptsAssetNo;
    if !AcceptsAssetNo(assetNo) {
      return Err("invalid asset number format: " + assetNo);
    }
    var got := store.GetAssetByNumber(tenantId, assetNo);
    if got.Err? {
      return Err("get asset: " + got.message);
    }
    if got.value.None? {
      return Ok(None);
    }
    var links := store.GetAssetLinks(tenantId, assetNo);
    if links.Err? {
      return Err("get asset links: " + links.message);
    }
    r := Ok(Some((got.value.value, links.value)));
  }
}
