/** Asset ingest, transfer and disposal as a protocol. Finding the last asset of a group, counting
    the assets that have the number after it, and inserting the asset are separate store calls, and
    so are loading an asset and writing it back: any number of requests interleave them. */
module AssetAllocator {
  import opened Text
  import opened AssetNumbers
  import opened Assets

  // A request between its store calls.
  datatype Request =
    | Checking(tenantId: string, group: Group, assetNo: string)
    | Inserting(tenantId: string, group: Group, assetNo: string)
    | Writing(asset: Asset)

  datatype System = System(assets: seq<Asset>, requests: map<nat, Request>)

  datatype Change = Move(toLocation: string) | Dispose

  datatype Event =
    | Generate(w: nat, tenantId: string, group: Group, last: Option<Asset>)
    | Check(w: nat)
    | Insert(w: nat, location: string, details: Details)
    | Load(w: nat, tenantId: string, assetNo: string, change: Change)
    | Write(w: nat)
    | Crash(w: nat)

  function Changed(a: Asset, change: Change): Asset {
    match change
    case Move(to) => a.(location := to)
    case Dispose => a.(status := "disposed")
  }

  function NewAsset(assetNo: string, tenantId: string, g: Group, location: string, details: Details): Asset
    requires 4 <= |assetNo|
  {
    Asset(assetNo, tenantId, g, LastFour(assetNo), location, "active", details)
  }

  ghost predicate Enabled(s: System, e: Event) {
    match e
    case Generate(w, tenantId, g, last) => w !in s.requests && FindLast(s.assets, tenantId, g, last)
    case Check(w) => w in s.requests && s.requests[w].Checking?
    case Insert(w, _, _) => w in s.requests && s.requests[w].Inserting? && 4 <= |s.requests[w].assetNo|
    case Load(w, _, _, _) => w !in s.requests
    case Write(w) => w in s.requests && s.requests[w].Writing?
    case Crash(w) => w in s.requests
  }

  function Finish(s: System, w: nat): System {
    s.(requests := s.requests - {w})
  }

  ghost function Apply(s: System, e: Event): System
    requires Enabled(s, e)
  {
    match e
    case Generate(w, tenantId, g, last) =>
      (match NextSerial(last)
       case Some(serial) => s.(requests := s.requests[w := Checking(tenantId, g, Print(g, serial))])
       case None => s)
    case Check(w) =>
      var r := s.requests[w];
      if Taken(s.assets, r.assetNo) then Finish(s, w)
      else s.(requests := s.requests[w := Inserting(r.tenantId, r.group, r.assetNo)])
    case Insert(w, location, details) =>
      var r := s.requests[w];
      (match CreateAsset(s.assets, NewAsset(r.assetNo, r.tenantId, r.group, location, details))
       case Ok(assets) => Finish(s, w).(assets := assets)
       case Err(_) => Finish(s, w))
    case Load(w, tenantId, assetNo, change) =>
      var i := AssetAt(s.assets, tenantId, assetNo);
      if i < 0 then s else s.(requests := s.requests[w := Writing(Changed(s.assets[i], change))])
    case Write(w) =>
      (match UpdateAsset(s.assets, s.requests[w].asset)
       case Ok(assets) => Finish(s, w).(assets := assets)
       case Err(_) => Finish(s, w))
    case Crash(w) => Finish(s, w)
  }

  ghost predicate CanRun(s: System, events: seq<Event>)
    decreases |events|
  {
    events == [] || (Enabled(s, events[0]) && CanRun(Apply(s, events[0]), events[1..]))
  }

  ghost function Run(s: System, events: seq<Event>): System
    requires CanRun(s, events)
    decreases |events|
  {
    if events == [] then s else Run(Apply(s, events[0]), events[1..])
  }

  const Empty: System := System([], map[])

  // ---------- the invariant ----------

  // Two documents that agree on everything the allocator reads.
  predicate SameNumber(a: Asset, b: Asset) {
    a.assetNo == b.assetNo && a.tenantId == b.tenantId && a.group == b.group && a.serialIncrement == b.serialIncrement
  }

  // A generated number is one that the group has already used, or the next one.
  ghost predicate Proposed(assets: seq<Asset>, tenantId: string, g: Group, assetNo: string) {
    exists m :: 1 <= m <= |Numbers(assets, tenantId, g)| + 1 && m <= 10000 && assetNo == Print(g, m)
  }

  ghost predicate RequestInv(r: Request, assets: seq<Asset>) {
    match r
    case Checking(tenantId, g, assetNo) => Proposed(assets, tenantId, g, assetNo)
    case Inserting(tenantId, g, assetNo) => Proposed(assets, tenantId, g, assetNo)
    case Writing(a) => exists i :: 0 <= i < |assets| && SameNumber(assets[i], a)
  }

  ghost predicate AssetsInv(assets: seq<Asset>) {
    NumbersUnique(assets) && forall t, g :: Dense(assets, t, g)
  }

  ghost predicate Inv(s: System) {
    AssetsInv(s.assets) && forall w :: w in s.requests ==> RequestInv(s.requests[w], s.assets)
  }

  // Assets stay where they are and keep their numbers; the collection only grows.
  ghost predicate Extends(a: seq<Asset>, b: seq<Asset>) {
    |a| <= |b| && forall i :: 0 <= i < |a| ==> SameNumber(b[i], a[i])
  }

  // ---------- inserting ----------

  // A number that is free can only be the group's next one.
  lemma FreeIsNext(assets: seq<Asset>, tenantId: string, g: Group, assetNo: string)
    requires Dense(assets, tenantId, g) && Proposed(assets, tenantId, g, assetNo) && !Taken(assets, assetNo)
    ensures var n := |Numbers(assets, tenantId, g)|;
      n < 10000 && assetNo == Print(g, n + 1)
  {
    hide Print, Numbers, Taken;
    var n := |Numbers(assets, tenantId, g)|;
    var m :| 1 <= m <= n + 1 && m <= 10000 && assetNo == Print(g, m);
    if m <= n {
      TakenByGroup(assets, tenantId, g, m);
    }
  }

  lemma InsertKeepsDense(assets: seq<Asset>, a: Asset, tenantId: string, g: Group)
    requires Dense(assets, tenantId, g)
    requires Dense(assets, a.tenantId, a.group) && !Taken(assets, a.assetNo)
    requires Proposed(assets, a.tenantId, a.group, a.assetNo) && 4 <= |a.assetNo| &&
      a.serialIncrement == LastFour(a.assetNo)
    ensures Dense(assets + [a], tenantId, g)
    ensures |Numbers(assets, tenantId, g)| <= |Numbers(assets + [a], tenantId, g)|
  {
    hide Numbers, Print, Proposed, Taken, SerialText, LastFour;
    NumbersAppend(assets, a, tenantId, g);
    if InGroup(a, tenantId, g) {
      var n := |Numbers(assets, tenantId, g)|;
      FreeIsNext(assets, tenantId, g, a.assetNo);
      SerialOfPrint(g, n + 1);
    }
  }

  lemma InsertGood(assets: seq<Asset>, a: Asset)
    requires AssetsInv(assets) && !Taken(assets, a.assetNo)
    requires Proposed(assets, a.tenantId, a.group, a.assetNo) && 4 <= |a.assetNo| &&
      a.serialIncrement == LastFour(a.assetNo)
    ensures AssetsInv(assets + [a])
    ensures forall t, g :: |Numbers(assets, t, g)| <= |Numbers(assets + [a], t, g)|
  {
    forall i | 0 <= i < |assets| ensures assets[i].assetNo != a.assetNo {
      assert assets[i] in assets;
    }
    hide Dense, Numbers, Proposed, LastFour, Taken;
    forall t, g
      ensures Dense(assets + [a], t, g)
      ensures |Numbers(assets, t, g)| <= |Numbers(assets + [a], t, g)|
    {
      InsertKeepsDense(assets, a, t, g);
    }
  }

  // ---------- writing back ----------

  lemma WriteGood(assets: seq<Asset>, i: nat, a: Asset)
    requires AssetsInv(assets) && i < |assets| && SameNumber(assets[i], a)
    ensures AssetsInv(assets[i := a])
    ensures forall t, g :: Numbers(assets[i := a], t, g) == Numbers(assets, t, g)
  {
    forall t, g ensures Numbers(assets[i := a], t, g) == Numbers(assets, t, g) {
      NumbersUpdate(assets, i, a, t, g);
    }
    hide Numbers, Print, SerialText;
    var after := assets[i := a];
    forall t, g ensures Dense(after, t, g) {
      assert Dense(assets, t, g);
    }
  }

  // ---------- one event ----------

  lemma RequestSurvives(r: Request, a: seq<Asset>, b: seq<Asset>)
    requires RequestInv(r, a) && Extends(a, b)
    requires forall t, g :: |Numbers(a, t, g)| <= |Numbers(b, t, g)|
    ensures RequestInv(r, b)
  {
    hide Numbers, Print;
    match r {
      case Checking(tenantId, g, assetNo) => ProposedSurvives(a, b, tenantId, g, assetNo);
      case Inserting(tenantId, g, assetNo) => ProposedSurvives(a, b, tenantId, g, assetNo);
      case Writing(asset) =>
        var i :| 0 <= i < |a| && SameNumber(a[i], asset);
        assert SameNumber(b[i], asset);
    }
  }

  lemma ProposedSurvives(a: seq<Asset>, b: seq<Asset>, tenantId: string, g: Group, assetNo: string)
    requires Proposed(a, tenantId, g, assetNo) && |Numbers(a, tenantId, g)| <= |Numbers(b, tenantId, g)|
    ensures Proposed(b, tenantId, g, assetNo)
  {
    hide Numbers, Print;
    var m :| 1 <= m <= |Numbers(a, tenantId, g)| + 1 && m <= 10000 && assetNo == Print(g, m);
    assert 1 <= m <= |Numbers(b, tenantId, g)| + 1 && m <= 10000 && assetNo == Print(g, m);
  }

  // What an event does to the collection, and the request it leaves behind.
  ghost predicate Good(s: System, t: System) {
    Inv(t) && Extends(s.assets, t.assets)
  }

  lemma Survive(s: System, t: System)
    requires Inv(s) && AssetsInv(t.assets) && Extends(s.assets, t.assets)
    requires forall u, g :: |Numbers(s.assets, u, g)| <= |Numbers(t.assets, u, g)|
    requires forall w :: w in t.requests ==>
      RequestInv(t.requests[w], t.assets) || (w in s.requests && t.requests[w] == s.requests[w])
    ensures Good(s, t)
  {
    hide RequestInv, Numbers, AssetsInv;
    forall w | w in t.requests ensures RequestInv(t.requests[w], t.assets) {
      if w in s.requests && t.requests[w] == s.requests[w] {
        RequestSurvives(s.requests[w], s.assets, t.assets);
      }
    }
  }

  lemma GenerateGood(s: System, w: nat, tenantId: string, g: Group, last: Option<Asset>)
    requires Inv(s) && Enabled(s, Generate(w, tenantId, g, last))
    ensures Good(s, Apply(s, Generate(w, tenantId, g, last)))
  {
    var t := Apply(s, Generate(w, tenantId, g, last));
    assert Dense(s.assets, tenantId, g);
    NextOfDense(s.assets, tenantId, g, last);
    hide Numbers, Print, Dense;
    var m := NextSerial(last).value;
    assert 1 <= m <= |Numbers(s.assets, tenantId, g)| + 1 && m <= 10000 && t.requests[w].assetNo == Print(g, m);
    Survive(s, t);
  }

  lemma CheckGood(s: System, w: nat)
    requires Inv(s) && Enabled(s, Check(w))
    ensures Good(s, Apply(s, Check(w)))
  {
    hide Numbers, Print, Taken, Dense, Proposed;
    assert RequestInv(s.requests[w], s.assets);
    Survive(s, Apply(s, Check(w)));
  }

  lemma InsertEventGood(s: System, w: nat, location: string, details: Details)
    requires Inv(s) && Enabled(s, Insert(w, location, details))
    ensures Good(s, Apply(s, Insert(w, location, details)))
  {
    var r := s.requests[w];
    var a := NewAsset(r.assetNo, r.tenantId, r.group, location, details);
    var t := Apply(s, Insert(w, location, details));
    assert RequestInv(r, s.assets);
    hide Numbers, Print, Taken, Dense, LastFour, Proposed;
    if !Taken(s.assets, a.assetNo) {
      InsertGood(s.assets, a);
    }
    Survive(s, t);
  }

  lemma WriteEventGood(s: System, w: nat)
    requires Inv(s) && Enabled(s, Write(w))
    ensures Good(s, Apply(s, Write(w)))
  {
    var a := s.requests[w].asset;
    var t := Apply(s, Write(w));
    assert RequestInv(s.requests[w], s.assets);
    WriteTarget(s.assets, a);
    WriteGood(s.assets, AssetAt(s.assets, a.tenantId, a.assetNo), a);
    hide Numbers, Dense;
    Survive(s, t);
  }

  lemma WriteTarget(assets: seq<Asset>, a: Asset)
    requires NumbersUnique(assets) && RequestInv(Writing(a), assets)
    ensures var i := AssetAt(assets, a.tenantId, a.assetNo);
      0 <= i && SameNumber(assets[i], a)
  {
    var i :| 0 <= i < |assets| && SameNumber(assets[i], a);
    var j := AssetAt(assets, a.tenantId, a.assetNo);
    assert i == j;
  }

  lemma EventGood(s: System, e: Event)
    requires Inv(s) && Enabled(s, e)
    ensures Good(s, Apply(s, e))
  {
    hide Numbers, Dense;
    match e {
      case Generate(w, tenantId, g, last) => GenerateGood(s, w, tenantId, g, last);
      case Check(w) => CheckGood(s, w);
      case Insert(w, location, details) => InsertEventGood(s, w, location, details);
      case Load(w, tenantId, assetNo, change) =>
        var t := Apply(s, e);
        if w in t.requests {
          var i := AssetAt(s.assets, tenantId, assetNo);
          assert SameNumber(s.assets[i], t.requests[w].asset);
        }
        Survive(s, t);
      case Write(w) => WriteEventGood(s, w);
      case Crash(w) => Survive(s, Apply(s, e));
    }
  }

  // ---------- every run ----------

  lemma {:induction false} RunIsSafe(s: System, events: seq<Event>)
    requires Inv(s) && CanRun(s, events)
    ensures Inv(Run(s, events)) && Extends(s.assets, Run(s, events).assets)
    decreases |events|
  {
    hide AssetsInv;
    if events != [] {
      EventGood(s, events[0]);
      RunIsSafe(Apply(s, events[0]), events[1..]);
    }
  }

  lemma EmptyInv()
    ensures Inv(Empty)
  {
  }

  /** However generate and insert steps interleave, the n assets of a tenant's group carry the
      serials 1 to n in the order of their creation, with no gap and no repeat, the ten-thousandth
      being stored as "0000"; and there are never more. */
  lemma SerialsAreDense(events: seq<Event>, tenantId: string, g: Group)
    requires CanRun(Empty, events)
    ensures var numbers := Numbers(Run(Empty, events).assets, tenantId, g);
      |numbers| <= 10000 &&
      forall k :: 0 <= k < |numbers| ==> numbers[k] == (Print(g, k + 1), if k < 9999 then Four(k + 1) else "0000")
  {
    EmptyInv();
    RunIsSafe(Empty, events);
    assert Dense(Run(Empty, events).assets, tenantId, g);
    hide Numbers, Print;
  }

  lemma FirstOfGroup(assets: seq<Asset>, a: Asset) returns (i: nat)
    requires a in assets && Dense(assets, a.tenantId, a.group)
    ensures i < |assets| && InGroup(assets[i], a.tenantId, a.group) && assets[i].assetNo == Print(a.group, 1)
  {
    hide Print, SerialText;
    var j :| 0 <= j < |assets| && assets[j] == a;
    var _ := NumberAt(assets, a.tenantId, a.group, j);
    i := AssetOfNumber(assets, a.tenantId, a.group, 0);
  }

  // A group is never held by two tenants.
  lemma GroupHasOneTenant(events: seq<Event>, a: Asset, b: Asset)
    requires CanRun(Empty, events)
    requires a in Run(Empty, events).assets && b in Run(Empty, events).assets && a.group == b.group
    ensures a.tenantId == b.tenantId
  {
    EmptyInv();
    RunIsSafe(Empty, events);
    var assets := Run(Empty, events).assets;
    hide Dense, Print, Run;
    assert Dense(assets, a.tenantId, a.group) && Dense(assets, b.tenantId, b.group);
    var i := FirstOfGroup(assets, a);
    var j := FirstOfGroup(assets, b);
    assert i == j;
  }

  // A request that nothing comes between generates what one call of GenerateAssetNumber does.
  lemma UndisturbedGenerates(s: System, w: nat, tenantId: string, g: Group, last: Option<Asset>)
    requires Enabled(s, Generate(w, tenantId, g, last)) && NextSerial(last).Some?
    ensures var t := Apply(s, Generate(w, tenantId, g, last));
      Enabled(t, Check(w)) && Apply(t, Check(w)).assets == s.assets &&
      var requests := Apply(t, Check(w)).requests;
      match GenerateAssetNumber(s.assets, g, last)
      case Ok(assetNo) => w in requests && requests[w] == Inserting(tenantId, g, assetNo)
      case Err(_) => w !in requests
  {
    hide Taken, Print, FindLast;
  }

  // A number that has passed the check always has the four characters that ingest cuts the serial from.
  lemma InsertCanCutSerial(events: seq<Event>, w: nat)
    requires CanRun(Empty, events) && w in Run(Empty, events).requests && Run(Empty, events).requests[w].Inserting?
    ensures 4 <= |Run(Empty, events).requests[w].assetNo|
  {
    EmptyInv();
    RunIsSafe(Empty, events);
    var r := Run(Empty, events).requests[w];
    assert RequestInv(r, Run(Empty, events).assets);
    hide Numbers, Print, Run;
    var m :| 1 <= m <= 10000 && r.assetNo == Print(r.group, m);
    SerialOfPrint(r.group, m);
  }

  // A number stays with the asset that got it, and no later asset gets it again.
  lemma NeverReissued(before: seq<Event>, after: seq<Event>, i: nat, j: nat)
    requires CanRun(Empty, before) && CanRun(Run(Empty, before), after)
    requires i < |Run(Empty, before).assets| && j < |Run(Run(Empty, before), after).assets|
    ensures Run(Run(Empty, before), after).assets[j].assetNo == Run(Empty, before).assets[i].assetNo <==> i == j
  {
    EmptyInv();
    RunIsSafe(Empty, before);
    var s := Run(Empty, before);
    RunIsSafe(s, after);
    var t := Run(s, after);
    hide Run, CanRun, Dense;
    assert SameNumber(t.assets[i], s.assets[i]);
  }

  // ---------- the ten-thousandth asset ----------

  ghost predicate Full(s: System, tenantId: string, g: Group) {
    |Numbers(s.assets, tenantId, g)| == 10000
  }

  // The request is for a number of this group.
  predicate ForGroup(r: Request, tenantId: string, g: Group) {
    !r.Writing? && r.tenantId == tenantId && r.group == g
  }

  /** Once a group holds 10000 assets, no number of it passes the check, a number that passed it
      before is refused by the insert, and the group stays as it is for good. */
  lemma FullGroupRefuses(s: System, tenantId: string, g: Group, e: Event)
    requires Inv(s) && Full(s, tenantId, g) && Enabled(s, e)
    ensures (e.Check? || e.Insert?) && ForGroup(s.requests[e.w], tenantId, g) ==> Apply(s, e) == Finish(s, e.w)
    ensures Full(Apply(s, e), tenantId, g)
  {
    assert Dense(s.assets, tenantId, g);
    EventGood(s, e);
    NumbersOnlyGrow(s, e, tenantId, g);
    assert Dense(Apply(s, e).assets, tenantId, g);
    hide Numbers, Print, SerialText, Taken;
    if (e.Check? || e.Insert?) && ForGroup(s.requests[e.w], tenantId, g) {
      assert RequestInv(s.requests[e.w], s.assets);
      if !Taken(s.assets, s.requests[e.w].assetNo) {
        FreeIsNext(s.assets, tenantId, g, s.requests[e.w].assetNo);
      }
    }
  }

  lemma NumbersOnlyGrow(s: System, e: Event, tenantId: string, g: Group)
    requires Inv(s) && Enabled(s, e)
    ensures |Numbers(s.assets, tenantId, g)| <= |Numbers(Apply(s, e).assets, tenantId, g)|
  {
    if e.Insert? {
      var r := s.requests[e.w];
      NumbersAppend(s.assets, NewAsset(r.assetNo, r.tenantId, r.group, e.location, e.details), tenantId, g);
    } else if e.Write? {
      var a := s.requests[e.w].asset;
      assert RequestInv(s.requests[e.w], s.assets);
      WriteTarget(s.assets, a);
      NumbersUpdate(s.assets, AssetAt(s.assets, a.tenantId, a.assetNo), a, tenantId, g);
    }
    hide Numbers, Dense;
  }

  // ---------- disposal ----------

  predicate Disposed(s: System, i: nat)
    requires i < |s.assets|
  {
    s.assets[i].status == "disposed"
  }

  /** The one event that takes an asset out of "disposed" is writing back a document that was loaded
      while the asset was not disposed: whether that happens can be told from the request. */
  lemma DisposalUndoneIff(s: System, i: nat, e: Event)
    requires Inv(s) && Enabled(s, e) && i < |s.assets| && Disposed(s, i)
    ensures i < |Apply(s, e).assets|
    ensures !Disposed(Apply(s, e), i) <==>
      e.Write? && s.requests[e.w].asset.assetNo == s.assets[i].assetNo && s.requests[e.w].asset.status != "disposed"
  {
    EventGood(s, e);
    if e.Write? {
      var a := s.requests[e.w].asset;
      assert RequestInv(s.requests[e.w], s.assets);
      WriteTarget(s.assets, a);
    }
    hide Dense, Print, Taken;
  }

  // It does happen: a transfer that loads the asset before a disposal writes it back active.
  lemma StaleTransferUndoesDisposal(s: System, i: nat, v: nat, w: nat, to: string)
    requires NumbersUnique(s.assets) && i < |s.assets| && s.assets[i].status == "active"
    requires v != w && v !in s.requests && w !in s.requests
    ensures var a := s.assets[i];
      var s1 := Apply(s, Load(v, a.tenantId, a.assetNo, Move(to)));
      var s2 := Apply(s1, Load(w, a.tenantId, a.assetNo, Dispose));
      Enabled(s2, Write(w)) &&
      var s3 := Apply(s2, Write(w));
      i < |s3.assets| && Disposed(s3, i) && Enabled(s3, Write(v)) &&
      var s4 := Apply(s3, Write(v));
      i < |s4.assets| && !Disposed(s4, i)
  {
    var a := s.assets[i];
    LoadsIt(s.assets, i);
    var s3assets := s.assets[i := Changed(a, Dispose)];
    LoadsIt(s3assets, i);
  }

  // A document of a disposed asset, loaded while it was not disposed, is about to be written back.
  predicate Undoes(s: System, e: Event) {
    e.Write? && e.w in s.requests && s.requests[e.w].Writing? && s.requests[e.w].asset.status != "disposed" &&
    exists i :: 0 <= i < |s.assets| && s.assets[i].assetNo == s.requests[e.w].asset.assetNo && Disposed(s, i)
  }

  // What is disposed stays disposed.
  ghost predicate KeepsDisposed(s: System, t: System) {
    |s.assets| <= |t.assets| && forall i :: 0 <= i < |s.assets| && Disposed(s, i) ==> Disposed(t, i)
  }

  lemma EventKeepsDisposedIff(s: System, e: Event)
    requires Inv(s) && Enabled(s, e)
    ensures KeepsDisposed(s, Apply(s, e)) <==> !Undoes(s, e)
  {
    EventGood(s, e);
    hide Inv, Apply, Enabled;
    forall i | 0 <= i < |s.assets| && Disposed(s, i)
      ensures !Disposed(Apply(s, e), i) <==> UndoesAt(s, e, i)
    {
      DisposalUndoneIff(s, i, e);
    }
    UndoesSomewhere(s, e);
  }

  predicate UndoesAt(s: System, e: Event, i: int)
    requires Enabled(s, e) && 0 <= i < |s.assets|
  {
    e.Write? && s.requests[e.w].asset.assetNo == s.assets[i].assetNo && s.requests[e.w].asset.status != "disposed"
  }

  lemma UndoesSomewhere(s: System, e: Event)
    requires Enabled(s, e)
    ensures Undoes(s, e) <==> exists i :: 0 <= i < |s.assets| && Disposed(s, i) && UndoesAt(s, e, i)
  {
    hide FindLast;
    if i :| 0 <= i < |s.assets| && Disposed(s, i) && UndoesAt(s, e, i) {
      assert s.assets[i].assetNo == s.requests[e.w].asset.assetNo && Disposed(s, i);
    }
    if Undoes(s, e) {
      var i :| 0 <= i < |s.assets| && s.assets[i].assetNo == s.requests[e.w].asset.assetNo && Disposed(s, i);
      assert UndoesAt(s, e, i);
    }
  }

  // In every step of the run.
  ghost predicate DisposalsLast(s: System, events: seq<Event>)
    requires CanRun(s, events)
    decreases |events|
  {
    events == [] || (KeepsDisposed(s, Apply(s, events[0])) && DisposalsLast(Apply(s, events[0]), events[1..]))
  }

  ghost predicate NeverUndone(s: System, events: seq<Event>)
    requires CanRun(s, events)
    decreases |events|
  {
    events == [] || (!Undoes(s, events[0]) && NeverUndone(Apply(s, events[0]), events[1..]))
  }

  /** However requests interleave, every step of a run leaves the disposed assets disposed if and only
      if no event of the run is such a write. */
  lemma {:induction false} RunKeepsDisposedIff(s: System, events: seq<Event>)
    requires Inv(s) && CanRun(s, events)
    ensures DisposalsLast(s, events) <==> NeverUndone(s, events)
    decreases |events|
  {
    hide Inv, Apply, Enabled, KeepsDisposed, Undoes;
    if events != [] {
      EventGood(s, events[0]);
      EventKeepsDisposedIff(s, events[0]);
      RunKeepsDisposedIff(Apply(s, events[0]), events[1..]);
    }
  }

  lemma DisposalsLastIff(events: seq<Event>)
    requires CanRun(Empty, events)
    ensures DisposalsLast(Empty, events) <==> NeverUndone(Empty, events)
  {
    hide Inv, CanRun, DisposalsLast, NeverUndone;
    EmptyInv();
    RunKeepsDisposedIff(Empty, events);
  }

  // ---------- and from the empty store ----------

  ghost predicate Leads(s: System, events: seq<Event>, t: System) {
    CanRun(s, events) && Run(s, events) == t
  }

  lemma {:induction false} LeadsOn(s: System, a: seq<Event>, t: System, b: seq<Event>, u: System)
    requires Leads(s, a, t) && Leads(t, b, u)
    ensures Leads(s, a + b, u)
    decreases |a|
  {
    hide Enabled, Apply;
    if a == [] {
      assert a + b == b;
    } else {
      LeadsOn(Apply(s, a[0]), a[1..], t, b, u);
      assert (a + b)[1..] == a[1..] + b;
    }
  }

  lemma LeadsByOne(s: System, e: Event)
    requires Enabled(s, e)
    ensures Leads(s, [e], Apply(s, e))
  {
    assert [e][0] == e && [e][1..] == [];
    hide FindLast, Taken, Print, NextSerial, AssetAt;
    assert CanRun(Apply(s, e), []) && Run(Apply(s, e), []) == Apply(s, e);
  }

  // A request that nothing comes between creates the first asset.
  lemma FirstAsset(tenantId: string, g: Group, location: string, details: Details) returns (s: System)
    ensures Leads(Empty, [Generate(0, tenantId, g, None), Check(0), Insert(0, location, details)], s)
    ensures |s.assets| == 1 && s.requests == map[] && s.assets[0].status == "active"
    ensures s.assets[0].tenantId == tenantId && s.assets[0].assetNo == Print(g, 1)
  {
    hide Print, Leads, LastFour;
    SerialOfPrint(g, 1);
    var e1, e2, e3 := Generate(0, tenantId, g, None), Check(0), Insert(0, location, details);
    var s1 := System([], map[0 := Checking(tenantId, g, Print(g, 1))]);
    assert Apply(Empty, e1) == s1;
    LeadsByOne(Empty, e1);
    var s2 := System([], map[0 := Inserting(tenantId, g, Print(g, 1))]);
    assert Apply(s1, e2) == s2;
    LeadsByOne(s1, e2);
    s := System([NewAsset(Print(g, 1), tenantId, g, location, details)], map[]);
    assert [] + s.assets == s.assets;
    assert Apply(s2, e3) == s;
    LeadsByOne(s2, e3);
    LeadsOn(Empty, [e1], s1, [e2], s2);
    LeadsOn(Empty, [e1] + [e2], s2, [e3], s);
    assert [e1] + [e2] + [e3] == [e1, e2, e3];
  }

  // A transfer and a disposal load the first asset, and the disposal is written.
  function StaleTransfer(tenantId: string, g: Group, location: string, details: Details, to: string): seq<Event> {
    [Generate(0, tenantId, g, None), Check(0), Insert(0, location, details)] +
    [Load(0, tenantId, Print(g, 1), Move(to)), Load(1, tenantId, Print(g, 1), Dispose), Write(1)]
  }

  /** From the empty collection, a single asset is enough: a run after which it is disposed, and the
      transfer is about to undo it. */
  lemma StaleTransferIsReached(tenantId: string, g: Group, location: string, details: Details, to: string)
    ensures CanRun(Empty, StaleTransfer(tenantId, g, location, details, to))
    ensures var s := Run(Empty, StaleTransfer(tenantId, g, location, details, to));
      |s.assets| == 1 && Disposed(s, 0) && Enabled(s, Write(0)) && Undoes(s, Write(0)) &&
      |Apply(s, Write(0)).assets| == 1 && !Disposed(Apply(s, Write(0)), 0)
  {
    hide Print, Leads, CanRun, Run, AssetAt;
    var before := [Generate(0, tenantId, g, None), Check(0), Insert(0, location, details)];
    var after := [Load(0, tenantId, Print(g, 1), Move(to)), Load(1, tenantId, Print(g, 1), Dispose), Write(1)];
    var s := FirstAsset(tenantId, g, location, details);
    var t := TransferOverlaps(s, tenantId, Print(g, 1), to);
    LeadsOn(Empty, before, s, after, t);
    LeadsTells(Empty, before + after, t);
    LoadsIt(t.assets, 0);
    assert t.assets[0].assetNo == t.requests[0].asset.assetNo && Disposed(t, 0);
  }

  lemma TransferOverlaps(s: System, tenantId: string, assetNo: string, to: string) returns (t: System)
    requires |s.assets| == 1 && s.requests == map[] && s.assets[0].status == "active"
    requires s.assets[0].tenantId == tenantId && s.assets[0].assetNo == assetNo
    ensures Leads(s, [Load(0, tenantId, assetNo, Move(to)), Load(1, tenantId, assetNo, Dispose), Write(1)], t)
    ensures t == System([Changed(s.assets[0], Dispose)], map[0 := Writing(Changed(s.assets[0], Move(to)))])
  {
    hide Leads, AssetAt;
    var a := s.assets[0];
    var load, other := Load(0, tenantId, assetNo, Move(to)), Load(1, tenantId, assetNo, Dispose);
    LoadsIt(s.assets, 0);
    var s1 := System(s.assets, map[0 := Writing(Changed(a, Move(to)))]);
    assert Apply(s, load) == s1;
    LeadsByOne(s, load);
    var s2 := System(s.assets, map[0 := Writing(Changed(a, Move(to))), 1 := Writing(Changed(a, Dispose))]);
    assert Apply(s1, other) == s2;
    LeadsByOne(s1, other);
    t := System([Changed(a, Dispose)], map[0 := Writing(Changed(a, Move(to)))]);
    assert s2.requests - {1} == t.requests && s2.assets[0 := Changed(a, Dispose)] == t.assets;
    assert Apply(s2, Write(1)) == t;
    LeadsByOne(s2, Write(1));
    LeadsOn(s, [load], s1, [other], s2);
    LeadsOn(s, [load] + [other], s2, [Write(1)], t);
    assert [load] + [other] + [Write(1)] == [load, other, Write(1)];
  }

  lemma LeadsTells(s: System, events: seq<Event>, t: System)
    requires Leads(s, events, t)
    ensures CanRun(s, events) && Run(s, events) == t
  {
  }

  lemma LoadsIt(assets: seq<Asset>, i: nat)
    requires NumbersUnique(assets) && i < |assets|
    ensures AssetAt(assets, assets[i].tenantId, assets[i].assetNo) == i
  {
  }
}
