/** An asset's history against the asset itself: ingests, transfers and disposals one after the
    other, with every history event stored. */
module AssetLifecycle {
  import opened Text
  import opened AssetNumbers
  import opened Assets

  /** ingestedAt remembers where each asset was ingested; the "created" event does not say it. */
  datatype Ledger = Ledger(assets: seq<Asset>, history: seq<AssetHistory>, ingestedAt: map<string, string>)

  datatype Operation =
    | Ingest(asset: Asset, actor: string, notes: string)
    | Transfer(tenantId: string, assetNo: string, to: string, actor: string, notes: string)
    | Disposal(tenantId: string, assetNo: string, actor: string, notes: string)

  function CreatedEvent(a: Asset, actor: string, notes: string): AssetHistory {
    AssetHistory(a.assetNo, a.tenantId, "created", "", "", actor, notes)
  }

  function TransferEvent(a: Asset, to: string, actor: string, notes: string): AssetHistory {
    AssetHistory(a.assetNo, a.tenantId, "transfer", a.location, to, actor, notes)
  }

  function DisposeEvent(a: Asset, actor: string, notes: string): AssetHistory {
    AssetHistory(a.assetNo, a.tenantId, "dispose", "", "", actor, notes)
  }

  function Overwrite(l: Ledger, i: nat, a: Asset, h: AssetHistory): Ledger
    requires i < |l.assets|
  {
    l.(assets := l.assets[i := a], history := l.history + [h])
  }

  // An operation on an asset that is not there, or on a number that is taken, changes nothing.
  function Step(l: Ledger, op: Operation): Ledger {
    match op
    case Ingest(a, actor, notes) =>
      if Taken(l.assets, a.assetNo) then l
      else Ledger(l.assets + [a], l.history + [CreatedEvent(a, actor, notes)], l.ingestedAt[a.assetNo := a.location])
    case Transfer(tenantId, assetNo, to, actor, notes) =>
      var i := AssetAt(l.assets, tenantId, assetNo);
      if i < 0 then l
      else Overwrite(l, i, l.assets[i].(location := to), TransferEvent(l.assets[i], to, actor, notes))
    case Disposal(tenantId, assetNo, actor, notes) =>
      var i := AssetAt(l.assets, tenantId, assetNo);
      if i < 0 then l
      else Overwrite(l, i, l.assets[i].(status := "disposed"), DisposeEvent(l.assets[i], actor, notes))
  }

  // An ingested asset starts out active; what else it carries is of no concern here.
  ghost predicate Proper(ops: seq<Operation>) {
    forall k :: 0 <= k < |ops| && ops[k].Ingest? ==> ops[k].asset.status == "active"
  }

  function RunAll(l: Ledger, ops: seq<Operation>): Ledger
    decreases |ops|
  {
    if ops == [] then l else RunAll(Step(l, ops[0]), ops[1..])
  }

  const Empty: Ledger := Ledger([], [], map[])

  // ---------- replaying a history ----------

  datatype Whereabouts = Whereabouts(location: string, status: string)

  function Replay(start: string, events: seq<AssetHistory>): Whereabouts {
    if events == [] then Whereabouts(start, "active")
    else
      var n := |events| - 1;
      var w := Replay(start, events[..n]);
      if events[n].eventType == "transfer" then w.(location := events[n].toLocation)
      else if events[n].eventType == "dispose" then w.(status := "disposed")
      else w
  }

  // Each transfer starts where the events before it left the asset.
  ghost predicate Chained(start: string, events: seq<AssetHistory>) {
    forall k :: 0 <= k < |events| && events[k].eventType == "transfer" ==>
      events[k].fromLocation == Replay(start, events[..k]).location
  }

  function HistoryOf(history: seq<AssetHistory>, tenantId: string, assetNo: string): seq<AssetHistory> {
    if history == [] then []
    else
      var n := |history| - 1;
      HistoryOf(history[..n], tenantId, assetNo) +
      (if history[n].tenantId == tenantId && history[n].assetNo == assetNo then [history[n]] else [])
  }

  // The asset is where its history says, from where it was ingested.
  ghost predicate Accounted(l: Ledger, a: Asset) {
    a.assetNo in l.ingestedAt &&
    var events := HistoryOf(l.history, a.tenantId, a.assetNo);
    events != [] && events[0].eventType == "created" &&
    Replay(l.ingestedAt[a.assetNo], events) == Whereabouts(a.location, a.status) &&
    Chained(l.ingestedAt[a.assetNo], events)
  }

  ghost predicate Inv(l: Ledger) {
    NumbersUnique(l.assets) &&
    (forall i :: 0 <= i < |l.assets| ==> Accounted(l, l.assets[i])) &&
    (forall k :: 0 <= k < |l.history| ==> Taken(l.assets, l.history[k].assetNo))
  }

  // ---------- one more event ----------

  lemma HistoryAppend(history: seq<AssetHistory>, h: AssetHistory, tenantId: string, assetNo: string)
    ensures HistoryOf(history + [h], tenantId, assetNo) ==
      HistoryOf(history, tenantId, assetNo) + (if h.tenantId == tenantId && h.assetNo == assetNo then [h] else [])
  {
    assert (history + [h])[..|history|] == history;
  }

  lemma ReplayAppend(start: string, events: seq<AssetHistory>, h: AssetHistory)
    ensures Replay(start, events + [h]) ==
      var w := Replay(start, events);
      if h.eventType == "transfer" then w.(location := h.toLocation)
      else if h.eventType == "dispose" then w.(status := "disposed")
      else w
  {
    assert (events + [h])[..|events|] == events;
  }

  lemma ChainedAppend(start: string, events: seq<AssetHistory>, h: AssetHistory)
    requires Chained(start, events)
    requires h.eventType == "transfer" ==> h.fromLocation == Replay(start, events).location
    ensures Chained(start, events + [h])
  {
    var all := events + [h];
    forall k | 0 <= k < |all| && all[k].eventType == "transfer"
      ensures all[k].fromLocation == Replay(start, all[..k]).location
    {
      if k < |events| {
        assert all[..k] == events[..k];
      } else {
        assert all[..k] == events;
      }
    }
  }

  lemma AccountedAfter(l: Ledger, a: Asset, a': Asset, h: AssetHistory, assets: seq<Asset>)
    requires Accounted(l, a) && h.tenantId == a.tenantId == a'.tenantId && h.assetNo == a.assetNo == a'.assetNo
    requires h.eventType == "transfer" ==> h.fromLocation == a.location
    requires Whereabouts(a'.location, a'.status) ==
      if h.eventType == "transfer" then Whereabouts(h.toLocation, a.status)
      else if h.eventType == "dispose" then Whereabouts(a.location, "disposed")
      else Whereabouts(a.location, a.status)
    ensures Accounted(l.(assets := assets, history := l.history + [h]), a')
  {
    hide HistoryOf, Replay, Chained;
    var start, events := l.ingestedAt[a.assetNo], HistoryOf(l.history, a.tenantId, a.assetNo);
    HistoryAppend(l.history, h, a.tenantId, a.assetNo);
    ReplayAppend(start, events, h);
    ChainedAppend(start, events, h);
    assert (events + [h])[0] == events[0];
  }

  // Another asset's event leaves an asset's account as it is.
  lemma AccountedApart(l: Ledger, a: Asset, h: AssetHistory, assets: seq<Asset>)
    requires Accounted(l, a) && h.assetNo != a.assetNo
    ensures Accounted(l.(assets := assets, history := l.history + [h]), a)
  {
    hide HistoryOf, Replay, Chained;
    HistoryAppend(l.history, h, a.tenantId, a.assetNo);
    assert HistoryOf(l.history, a.tenantId, a.assetNo) + [] == HistoryOf(l.history, a.tenantId, a.assetNo);
  }

  lemma OverwriteKeepsInv(l: Ledger, i: nat, a: Asset, h: AssetHistory)
    requires Inv(l) && i < |l.assets| && a.tenantId == l.assets[i].tenantId && a.assetNo == l.assets[i].assetNo
    requires h.tenantId == a.tenantId && h.assetNo == a.assetNo
    requires h.eventType == "transfer" ==> h.fromLocation == l.assets[i].location
    requires Whereabouts(a.location, a.status) ==
      if h.eventType == "transfer" then Whereabouts(h.toLocation, l.assets[i].status)
      else if h.eventType == "dispose" then Whereabouts(l.assets[i].location, "disposed")
      else Whereabouts(l.assets[i].location, l.assets[i].status)
    ensures Inv(Overwrite(l, i, a, h))
  {
    hide Accounted;
    var l' := Overwrite(l, i, a, h);
    forall j | 0 <= j < |l'.assets| ensures Accounted(l', l'.assets[j]) {
      if j == i {
        AccountedAfter(l, l.assets[i], a, h, l'.assets);
      } else {
        AccountedApart(l, l.assets[j], h, l'.assets);
      }
    }
    forall k | 0 <= k < |l'.history| ensures Taken(l'.assets, l'.history[k].assetNo) {
      if k < |l.history| {
        TakenAfterOverwrite(l.assets, i, a, l.history[k].assetNo);
      } else {
        assert l'.assets[i] in l'.assets;
      }
    }
  }

  lemma TakenAfterOverwrite(assets: seq<Asset>, i: nat, a: Asset, assetNo: string)
    requires i < |assets| && a.assetNo == assets[i].assetNo && Taken(assets, assetNo)
    ensures Taken(assets[i := a], assetNo)
  {
    var b :| b in assets && b.assetNo == assetNo;
    var j :| 0 <= j < |assets| && assets[j] == b;
    assert assets[i := a][j] in assets[i := a];
  }

  lemma {:induction false} NoHistory(history: seq<AssetHistory>, tenantId: string, assetNo: string)
    requires forall k :: 0 <= k < |history| ==> history[k].assetNo != assetNo
    ensures HistoryOf(history, tenantId, assetNo) == []
    decreases |history|
  {
    if history != [] {
      NoHistory(history[..|history| - 1], tenantId, assetNo);
    }
  }

  lemma IngestKeepsInv(l: Ledger, a: Asset, actor: string, notes: string)
    requires Inv(l) && !Taken(l.assets, a.assetNo) && a.status == "active"
    ensures Inv(Step(l, Ingest(a, actor, notes)))
  {
    var h := CreatedEvent(a, actor, notes);
    var l' := Step(l, Ingest(a, actor, notes));
    forall k | 0 <= k < |l'.history| ensures Taken(l'.assets, l'.history[k].assetNo) {
      if k < |l.history| {
        assert Taken(l.assets, l.history[k].assetNo);
        var b :| b in l.assets && b.assetNo == l.history[k].assetNo;
        assert b in l'.assets;
      } else {
        assert a in l'.assets;
      }
    }
    forall j | 0 <= j < |l'.assets|
      ensures Accounted(l', l'.assets[j]) && (j < |l.assets| ==> l.assets[j].assetNo != a.assetNo)
    {
      if j < |l.assets| {
        assert l.assets[j] in l.assets;
        IngestApart(l, l.assets[j], a, h);
      } else {
        IngestAccounted(l, a, h);
      }
    }
  }

  lemma IngestApart(l: Ledger, b: Asset, a: Asset, h: AssetHistory)
    requires Accounted(l, b) && b.assetNo != a.assetNo == h.assetNo
    ensures Accounted(Ledger(l.assets + [a], l.history + [h], l.ingestedAt[a.assetNo := a.location]), b)
  {
    AccountedApart(l, b, h, l.assets + [a]);
    hide HistoryOf, Replay, Chained;
  }

  lemma IngestAccounted(l: Ledger, a: Asset, h: AssetHistory)
    requires Inv(l) && !Taken(l.assets, a.assetNo) && a.status == "active"
    requires h.assetNo == a.assetNo && h.tenantId == a.tenantId && h.eventType == "created"
    ensures Accounted(Ledger(l.assets + [a], l.history + [h], l.ingestedAt[a.assetNo := a.location]), a)
  {
    hide HistoryOf, Chained, Replay, Accounted, NumbersUnique;
    forall k | 0 <= k < |l.history| ensures l.history[k].assetNo != a.assetNo {
      assert Taken(l.assets, l.history[k].assetNo);
    }
    NoHistory(l.history, a.tenantId, a.assetNo);
    HistoryAppend(l.history, h, a.tenantId, a.assetNo);
    assert [] + [h] == [h];
    CreatedReplays(a.location, h);
    FirstAccounted(Ledger(l.assets + [a], l.history + [h], l.ingestedAt[a.assetNo := a.location]), a, h);
  }

  lemma CreatedReplays(start: string, h: AssetHistory)
    requires h.eventType == "created"
    ensures Replay(start, [h]) == Whereabouts(start, "active") && Chained(start, [h])
  {
    assert [h][..0] == [];
  }

  lemma FirstAccounted(l: Ledger, a: Asset, h: AssetHistory)
    requires a.assetNo in l.ingestedAt && HistoryOf(l.history, a.tenantId, a.assetNo) == [h] && h.eventType == "created"
    requires Replay(l.ingestedAt[a.assetNo], [h]) == Whereabouts(a.location, a.status) &&
      Chained(l.ingestedAt[a.assetNo], [h])
    ensures Accounted(l, a)
  {
    hide HistoryOf, Chained, Replay;
  }

  lemma StepKeepsInv(l: Ledger, op: Operation)
    requires Inv(l) && (op.Ingest? ==> op.asset.status == "active")
    ensures Inv(Step(l, op))
  {
    hide Inv;
    match op {
      case Ingest(a, actor, notes) =>
        if !Taken(l.assets, a.assetNo) { IngestKeepsInv(l, a, actor, notes); }
      case Transfer(tenantId, assetNo, to, actor, notes) =>
        var i := AssetAt(l.assets, tenantId, assetNo);
        if 0 <= i {
          OverwriteKeepsInv(l, i, l.assets[i].(location := to), TransferEvent(l.assets[i], to, actor, notes));
        }
      case Disposal(tenantId, assetNo, actor, notes) =>
        var i := AssetAt(l.assets, tenantId, assetNo);
        if 0 <= i {
          OverwriteKeepsInv(l, i, l.assets[i].(status := "disposed"), DisposeEvent(l.assets[i], actor, notes));
        }
    }
  }

  // Disposal is final: no operation on its own takes an asset out of it.
  predicate KeepsDisposed(a: seq<Asset>, b: seq<Asset>) {
    |a| <= |b| && forall i :: 0 <= i < |a| && a[i].status == "disposed" ==> b[i].status == "disposed"
  }

  lemma {:induction false} RunKeepsInv(l: Ledger, ops: seq<Operation>)
    requires Inv(l) && Proper(ops)
    ensures Inv(RunAll(l, ops)) && KeepsDisposed(l.assets, RunAll(l, ops).assets)
    decreases |ops|
  {
    hide Inv;
    if ops != [] {
      StepKeepsInv(l, ops[0]);
      assert KeepsDisposed(l.assets, Step(l, ops[0]).assets);
      RunKeepsInv(Step(l, ops[0]), ops[1..]);
    }
  }

  /** Over every sequence of operations, replaying an asset's history from where it was ingested
      gives its location and its status, and every transfer in it starts where the one before
      ended. */
  lemma HistoryExplainsAssets(ops: seq<Operation>, i: nat)
    requires Proper(ops) && i < |RunAll(Empty, ops).assets|
    ensures var l := RunAll(Empty, ops);
      var a := l.assets[i];
      a.assetNo in l.ingestedAt &&
      var events := HistoryOf(l.history, a.tenantId, a.assetNo);
      Replay(l.ingestedAt[a.assetNo], events) == Whereabouts(a.location, a.status) &&
      Chained(l.ingestedAt[a.assetNo], events) &&
      events != [] && events[0].eventType == "created"
  {
    RunKeepsInv(Empty, ops);
    assert Accounted(RunAll(Empty, ops), RunAll(Empty, ops).assets[i]);
  }

  lemma DisposalIsFinal(before: seq<Operation>, after: seq<Operation>, i: nat)
    requires Proper(before) && Proper(after)
    requires i < |RunAll(Empty, before).assets| && RunAll(Empty, before).assets[i].status == "disposed"
    ensures var l := RunAll(RunAll(Empty, before), after);
      i < |l.assets| && l.assets[i].assetNo == RunAll(Empty, before).assets[i].assetNo &&
      l.assets[i].status == "disposed"
  {
    RunKeepsInv(Empty, before);
    RunKeepsInv(RunAll(Empty, before), after);
    RunKeepsNumbers(RunAll(Empty, before), after);
  }

  lemma {:induction false} RunKeepsNumbers(l: Ledger, ops: seq<Operation>)
    ensures |l.assets| <= |RunAll(l, ops).assets|
    ensures forall i :: 0 <= i < |l.assets| ==> RunAll(l, ops).assets[i].assetNo == l.assets[i].assetNo
    decreases |ops|
  {
    if ops != [] {
      RunKeepsNumbers(Step(l, ops[0]), ops[1..]);
    }
  }
}
