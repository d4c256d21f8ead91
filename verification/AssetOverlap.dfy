/** An asset's history against the asset itself while requests overlap and history events are lost:
    exactly which steps leave an asset that its history does not explain. */
module AssetOverlap {
  import opened Text
  import opened AssetNumbers
  import opened Assets
  import A = AssetAllocator
  import L = AssetLifecycle

  // ---------- requests in progress ----------

  // What a transfer or disposal will write over the asset, and then log.
  datatype Draft = Draft(asset: Asset, event: AssetHistory)

  /** unlogged has the events of requests that have written their asset and not yet logged it, in the
      order of the writes. */
  datatype System = System(
    assets: seq<Asset>, history: seq<AssetHistory>, ingestedAt: map<string, string>,
    drafts: map<nat, Draft>, unlogged: seq<AssetHistory>)

  datatype Event =
    | Create(asset: Asset, actor: string, notes: string)
    | Load(w: nat, tenantId: string, assetNo: string, change: A.Change, actor: string, notes: string)
    | Write(w: nat)
    | Crash(w: nat)
    | Log(p: nat)
    | Lose(p: nat)

  function EventFor(a: Asset, change: A.Change, actor: string, notes: string): AssetHistory {
    match change
    case Move(to) => L.TransferEvent(a, to, actor, notes)
    case Dispose => L.DisposeEvent(a, actor, notes)
  }

  ghost predicate Enabled(s: System, e: Event) {
    match e
    case Create(a, _, _) => a.status == "active"
    case Load(w, _, _, _, _, _) => w !in s.drafts
    case Write(w) => w in s.drafts
    case Crash(w) => w in s.drafts
    case Log(p) => p < |s.unlogged|
    case Lose(p) => p < |s.unlogged|
  }

  function Without(events: seq<AssetHistory>, p: nat): seq<AssetHistory>
    requires p < |events|
  {
    events[..p] + events[p + 1..]
  }

  ghost function Apply(s: System, e: Event): System
    requires Enabled(s, e)
  {
    match e
    case Create(a, actor, notes) =>
      if Taken(s.assets, a.assetNo) then s
      else s.(assets := s.assets + [a], ingestedAt := s.ingestedAt[a.assetNo := a.location],
              unlogged := s.unlogged + [L.CreatedEvent(a, actor, notes)])
    case Load(w, tenantId, assetNo, change, actor, notes) =>
      var i := AssetAt(s.assets, tenantId, assetNo);
      if i < 0 then s
      else
        var draft := Draft(A.Changed(s.assets[i], change), EventFor(s.assets[i], change, actor, notes));
        s.(drafts := s.drafts[w := draft])
    case Write(w) =>
      var d := s.drafts[w];
      var i := AssetAt(s.assets, d.asset.tenantId, d.asset.assetNo);
      if i < 0 then s.(drafts := s.drafts - {w})
      else s.(assets := s.assets[i := d.asset], drafts := s.drafts - {w}, unlogged := s.unlogged + [d.event])
    case Crash(w) => s.(drafts := s.drafts - {w})
    case Log(p) => s.(history := s.history + [s.unlogged[p]], unlogged := Without(s.unlogged, p))
    case Lose(p) => s.(unlogged := Without(s.unlogged, p))
  }

  ghost predicate CanRun(s: System, events: seq<Event>)
    decreases |events|
  {
    events == [] || (Enabled(s, events[0]) && CanRun(Apply(s, events[0]), events[1..]))
  }

  ghost function Run(s: System, events: seq<Event>): System
    requires CanRun(s, events)
    decreases |events|
  {
    if events == [] then s else Run(Apply(s, events[0]), events[1..])
  }

  const Empty: System := System([], [], map[], map[], [])

  // ---------- one asset's events ----------

  predicate IsTransfer(h: AssetHistory) {
    h.eventType == "transfer"
  }

  predicate IsDisposal(h: AssetHistory) {
    h.eventType == "dispose"
  }

  predicate SomeTransfer(events: seq<AssetHistory>) {
    exists k :: 0 <= k < |events| && IsTransfer(events[k])
  }

  predicate SomeDisposal(events: seq<AssetHistory>) {
    exists k :: 0 <= k < |events| && IsDisposal(events[k])
  }

  function Place(start: string, events: seq<AssetHistory>): string {
    L.Replay(start, events).location
  }

  // The events tell where the asset is and whether it is disposed, each transfer from where the last ended.
  ghost predicate Told(start: string, events: seq<AssetHistory>, a: Asset) {
    L.Replay(start, events) == L.Whereabouts(a.location, a.status) && L.Chained(start, events)
  }

  lemma {:induction false} ReplayTells(start: string, events: seq<AssetHistory>)
    ensures L.Replay(start, events).status == if SomeDisposal(events) then "disposed" else "active"
    ensures !SomeTransfer(events) ==> Place(start, events) == start
    decreases |events|
  {
    if events != [] {
      var n := |events| - 1;
      ReplayTells(start, events[..n]);
      assert events == events[..n] + [events[n]];
      SomeSnoc(events[..n], events[n]);
    }
  }

  lemma SomeSnoc(events: seq<AssetHistory>, h: AssetHistory)
    ensures SomeTransfer(events + [h]) <==> SomeTransfer(events) || IsTransfer(h)
    ensures SomeDisposal(events + [h]) <==> SomeDisposal(events) || IsDisposal(h)
  {
    var all := events + [h];
    assert all[|events|] == h;
    assert forall k :: 0 <= k < |events| ==> all[k] == events[k];
  }

  lemma SomeConcat(a: seq<AssetHistory>, b: seq<AssetHistory>)
    ensures SomeTransfer(a + b) <==> SomeTransfer(a) || SomeTransfer(b)
    ensures SomeDisposal(a + b) <==> SomeDisposal(a) || SomeDisposal(b)
  {
    var all := a + b;
    assert forall k :: 0 <= k < |a| ==> all[k] == a[k];
    assert forall k :: 0 <= k < |b| ==> all[|a| + k] == b[k];
    assert forall k :: |a| <= k < |all| ==> all[k] == b[k - |a|];
  }

  lemma ChainedSnoc(start: string, events: seq<AssetHistory>, h: AssetHistory)
    ensures L.Chained(start, events + [h]) <==>
      L.Chained(start, events) && (IsTransfer(h) ==> h.fromLocation == Place(start, events))
  {
    var all, n := events + [h], |events|;
    hide L.Replay;
    assert all[..n] == events && all[n] == h;
    forall k | 0 <= k < n ensures all[k] == events[k] && all[..k] == events[..k] {
    }
    if L.Chained(start, all) {
      forall k | 0 <= k < n && IsTransfer(events[k]) ensures events[k].fromLocation == Place(start, events[..k]) {
        assert all[k].fromLocation == L.Replay(start, all[..k]).location;
      }
    }
  }

  // A history can be cut anywhere: the second part goes on from where the first one ends.
  lemma {:induction false} ChainedConcat(start: string, a: seq<AssetHistory>, b: seq<AssetHistory>)
    ensures Place(start, a + b) == Place(Place(start, a), b)
    ensures L.Chained(start, a + b) <==> L.Chained(start, a) && L.Chained(Place(start, a), b)
    decreases |b|
  {
    if b == [] {
      assert a + b == a;
    } else {
      var n := |b| - 1;
      ChainedConcat(start, a, b[..n]);
      assert a + b == a + b[..n] + [b[n]] && b == b[..n] + [b[n]];
      ChainedSnoc(start, a + b[..n], b[n]);
      ChainedSnoc(Place(start, a), b[..n], b[n]);
      L.ReplayAppend(start, a + b[..n], b[n]);
      L.ReplayAppend(Place(start, a), b[..n], b[n]);
    }
  }

  // Events with a transfer among them start at one place and end at one place.
  lemma {:induction false} ChainedFromOnePlace(x: string, y: string, events: seq<AssetHistory>)
    requires L.Chained(x, events) && SomeTransfer(events)
    ensures L.Chained(y, events) <==> y == x
    ensures Place(y, events) == Place(x, events)
    decreases |events|
  {
    var n := |events| - 1;
    var front, h := events[..n], events[n];
    assert events == front + [h];
    SomeSnoc(front, h);
    ChainedSnoc(x, front, h);
    ChainedSnoc(y, front, h);
    L.ReplayAppend(x, front, h);
    L.ReplayAppend(y, front, h);
    if SomeTransfer(front) {
      ChainedFromOnePlace(x, y, front);
    } else {
      ReplayTells(x, front);
      ReplayTells(y, front);
      ChainedWithoutTransfer(y, front);
    }
  }

  lemma ChainedWithoutTransfer(start: string, events: seq<AssetHistory>)
    requires !SomeTransfer(events)
    ensures L.Chained(start, events) && Place(start, events) == start
  {
    ReplayTells(start, events);
    hide L.Replay;
    assert forall k :: 0 <= k < |events| ==> !IsTransfer(events[k]);
  }

  // Told, in its three parts.
  lemma ToldIs(start: string, events: seq<AssetHistory>, a: Asset)
    ensures Told(start, events, a) <==>
      Place(start, events) == a.location && L.Chained(start, events) &&
      a.status == (if SomeDisposal(events) then "disposed" else "active")
  {
    ReplayTells(start, events);
    hide L.Replay, L.Chained;
  }

  lemma OneEvent(start: string, h: AssetHistory)
    ensures Place(start, [h]) == if IsTransfer(h) then h.toLocation else start
    ensures L.Chained(start, [h]) <==> (IsTransfer(h) ==> h.fromLocation == start)
    ensures SomeTransfer([h]) == IsTransfer(h) && SomeDisposal([h]) == IsDisposal(h)
  {
    SomeSnoc([], h);
    ChainedSnoc(start, [], h);
    L.ReplayAppend(start, [], h);
    assert [] + [h] == [h];
  }

  // One more event, of a document written over the asset.
  lemma WriteTold(start: string, events: seq<AssetHistory>, live: Asset, a: Asset, h: AssetHistory)
    requires Told(start, events, live)
    requires if IsTransfer(h) then h.toLocation == a.location else IsDisposal(h) && a.status == "disposed"
    ensures Told(start, events + [h], a) <==>
      if IsTransfer(h) then h.fromLocation == live.location && a.status == live.status else a.location == live.location
  {
    hide L.Chained, Told, SomeDisposal, Place;
    ToldIs(start, events, live);
    ToldIs(start, events + [h], a);
    ChainedConcat(start, events, [h]);
    OneEvent(Place(start, events), h);
    SomeConcat(events, [h]);
  }

  // One event less.
  lemma LoseTold(start: string, front: seq<AssetHistory>, h: AssetHistory, rest: seq<AssetHistory>, a: Asset)
    requires Told(start, front + [h] + rest, a)
    ensures Told(start, front + rest, a) <==>
      (IsTransfer(h) ==> h.fromLocation == h.toLocation) && (IsDisposal(h) ==> SomeDisposal(front + rest))
  {
    hide L.Chained, Told, SomeDisposal, SomeTransfer, Place;
    ToldIs(start, front + [h] + rest, a);
    ToldIs(start, front + rest, a);
    ChainedConcat(start, front + [h], rest);
    ChainedConcat(start, front, [h]);
    ChainedConcat(start, front, rest);
    SomeConcat(front + [h], rest);
    SomeConcat(front, [h]);
    SomeConcat(front, rest);
    var x := Place(start, front);
    OneEvent(x, h);
    if IsTransfer(h) && h.toLocation != x {
      if SomeTransfer(rest) {
        ChainedFromOnePlace(h.toLocation, x, rest);
      } else {
        ChainedWithoutTransfer(h.toLocation, rest);
        ChainedWithoutTransfer(x, rest);
      }
    }
  }

  // An event moved in front of others.
  lemma LogTold(start: string, front: seq<AssetHistory>, passed: seq<AssetHistory>, h: AssetHistory,
      rest: seq<AssetHistory>, a: Asset)
    requires Told(start, front + passed + [h] + rest, a)
    ensures Told(start, front + [h] + passed + rest, a) <==>
      (IsTransfer(h) && SomeTransfer(passed) ==> h.fromLocation == h.toLocation == Place(start, front))
  {
    hide L.Chained, Told, SomeDisposal, SomeTransfer, Place;
    ToldIs(start, front + passed + [h] + rest, a);
    ToldIs(start, front + [h] + passed + rest, a);
    SomeConcat(front + passed + [h], rest);
    SomeConcat(front + passed, [h]);
    SomeConcat(front, passed);
    SomeConcat(front + [h] + passed, rest);
    SomeConcat(front + [h], passed);
    SomeConcat(front, [h]);
    MoveChained(start, front, passed, h, rest);
  }

  ghost predicate SamePath(start: string, events: seq<AssetHistory>, others: seq<AssetHistory>) {
    L.Chained(start, others) && Place(start, others) == Place(start, events)
  }

  lemma MoveChained(start: string, front: seq<AssetHistory>, passed: seq<AssetHistory>, h: AssetHistory,
      rest: seq<AssetHistory>)
    requires L.Chained(start, front + passed + [h] + rest)
    ensures SamePath(start, front + passed + [h] + rest, front + [h] + passed + rest) <==>
      (IsTransfer(h) && SomeTransfer(passed) ==> h.fromLocation == h.toLocation == Place(start, front))
  {
    hide L.Chained, SomeTransfer, Place;
    ChainedConcat(start, front + passed + [h], rest);
    ChainedConcat(start, front + passed, [h]);
    ChainedConcat(start, front, passed);
    ChainedConcat(start, front + [h] + passed, rest);
    ChainedConcat(start, front + [h], passed);
    ChainedConcat(start, front, [h]);
    var x := Place(start, front);
    var y := Place(x, passed);
    OneEvent(x, h);
    OneEvent(y, h);
    if SomeTransfer(passed) {
      ChainedFromOnePlace(x, Place(x, [h]), passed);
    } else {
      ChainedWithoutTransfer(x, passed);
      ChainedWithoutTransfer(Place(x, [h]), passed);
    }
  }

  // ---------- every asset ----------

  function EventsOf(s: System, a: Asset): seq<AssetHistory> {
    L.HistoryOf(s.history + s.unlogged, a.tenantId, a.assetNo)
  }

  ghost predicate ExplainedAt(s: System, i: nat)
    requires i < |s.assets|
  {
    var a := s.assets[i];
    a.assetNo in s.ingestedAt && Told(s.ingestedAt[a.assetNo], EventsOf(s, a), a)
  }

  /** What is logged and about to be logged of each asset, in the order of the writes, explains where
      the asset is and whether it is disposed. */
  ghost predicate Explained(s: System) {
    forall i :: 0 <= i < |s.assets| ==> ExplainedAt(s, i)
  }

  predicate IsOf(h: AssetHistory, a: Asset) {
    h.tenantId == a.tenantId && h.assetNo == a.assetNo
  }

  ghost predicate EventInv(h: AssetHistory, assets: seq<Asset>) {
    exists i :: 0 <= i < |assets| && IsOf(h, assets[i])
  }

  ghost predicate DraftInv(d: Draft, assets: seq<Asset>) {
    IsOf(d.event, d.asset) && EventInv(d.event, assets) &&
    if IsTransfer(d.event) then d.event.toLocation == d.asset.location
    else IsDisposal(d.event) && d.asset.status == "disposed"
  }

  ghost predicate Inv(s: System) {
    NumbersUnique(s.assets) &&
    (forall k :: 0 <= k < |s.history| ==> EventInv(s.history[k], s.assets)) &&
    (forall k :: 0 <= k < |s.unlogged| ==> EventInv(s.unlogged[k], s.assets)) &&
    forall w :: w in s.drafts ==> DraftInv(s.drafts[w], s.assets)
  }

  // Assets stay where they are and keep their numbers.
  ghost predicate Keeps(a: seq<Asset>, b: seq<Asset>) {
    |a| <= |b| && forall i :: 0 <= i < |a| ==> b[i].tenantId == a[i].tenantId && b[i].assetNo == a[i].assetNo
  }

  lemma EventSurvives(h: AssetHistory, a: seq<Asset>, b: seq<Asset>)
    requires EventInv(h, a) && Keeps(a, b)
    ensures EventInv(h, b)
  {
    var i :| 0 <= i < |a| && IsOf(h, a[i]);
    assert IsOf(h, b[i]);
  }

  lemma Survive(s: System, t: System)
    requires Inv(s) && NumbersUnique(t.assets) && Keeps(s.assets, t.assets)
    requires forall k :: 0 <= k < |t.history| ==>
      t.history[k] in s.history + s.unlogged || EventInv(t.history[k], t.assets)
    requires forall k :: 0 <= k < |t.unlogged| ==> t.unlogged[k] in s.unlogged || EventInv(t.unlogged[k], t.assets)
    requires forall w :: w in t.drafts ==>
      DraftInv(t.drafts[w], t.assets) || (w in s.drafts && t.drafts[w] == s.drafts[w])
    ensures Inv(t)
  {
    hide EventInv, NumbersUnique, Keeps;
    forall h | h in s.history + s.unlogged ensures EventInv(h, t.assets) {
      var k :| 0 <= k < |s.history + s.unlogged| && (s.history + s.unlogged)[k] == h;
      EventSurvives(h, s.assets, t.assets);
    }
    forall w | w in t.drafts ensures DraftInv(t.drafts[w], t.assets) {
      if w in s.drafts && t.drafts[w] == s.drafts[w] {
        EventSurvives(s.drafts[w].event, s.assets, t.assets);
      }
    }
  }

  // The position of a draft's asset.
  lemma DraftTarget(s: System, w: nat)
    requires Inv(s) && w in s.drafts
    ensures var i := AssetAt(s.assets, s.drafts[w].asset.tenantId, s.drafts[w].asset.assetNo);
      0 <= i && IsOf(s.drafts[w].event, s.assets[i])
  {
    assert DraftInv(s.drafts[w], s.assets);
    var i :| 0 <= i < |s.assets| && IsOf(s.drafts[w].event, s.assets[i]);
  }

  lemma LoadInv(s: System, e: Event)
    requires Inv(s) && Enabled(s, e) && e.Load?
    ensures Inv(Apply(s, e))
  {
    var t, i := Apply(s, e), AssetAt(s.assets, e.tenantId, e.assetNo);
    if 0 <= i {
      assert IsOf(t.drafts[e.w].event, s.assets[i]);
      assert DraftInv(t.drafts[e.w], t.assets);
    }
    hide DraftInv, EventInv, NumbersUnique, AssetAt;
    Survive(s, t);
  }

  lemma CreateInv(s: System, e: Event)
    requires Inv(s) && Enabled(s, e) && e.Create?
    ensures Inv(Apply(s, e))
  {
    var t := Apply(s, e);
    if !Taken(s.assets, e.asset.assetNo) {
      FreshNumber(s.assets, e.asset.assetNo);
      assert IsOf(t.unlogged[|s.unlogged|], t.assets[|s.assets|]);
    }
    hide DraftInv, Taken;
    Survive(s, t);
  }

  lemma FreshNumber(assets: seq<Asset>, assetNo: string)
    requires !Taken(assets, assetNo)
    ensures forall i :: 0 <= i < |assets| ==> assets[i].assetNo != assetNo
  {
    forall i | 0 <= i < |assets| ensures assets[i].assetNo != assetNo {
      assert assets[i] in assets;
    }
  }

  lemma WriteInv(s: System, e: Event)
    requires Inv(s) && Enabled(s, e) && e.Write?
    ensures Inv(Apply(s, e))
  {
    var t, d := Apply(s, e), s.drafts[e.w];
    DraftTarget(s, e.w);
    assert DraftInv(d, s.assets);
    assert IsOf(d.event, t.assets[AssetAt(s.assets, d.asset.tenantId, d.asset.assetNo)]);
    hide DraftInv, AssetAt;
    Survive(s, t);
  }

  lemma EventKeepsInv(s: System, e: Event)
    requires Inv(s) && Enabled(s, e)
    ensures Inv(Apply(s, e))
  {
    match e {
      case Create(_, _, _) => CreateInv(s, e);
      case Load(_, _, _, _, _, _) => LoadInv(s, e);
      case Write(_) => WriteInv(s, e);
      case Crash(_) => hide DraftInv, EventInv, NumbersUnique; Survive(s, Apply(s, e));
      case Log(p) =>
        hide DraftInv, EventInv, NumbersUnique;
        WithoutMembers(s.unlogged, p);
        Survive(s, Apply(s, e));
      case Lose(p) =>
        hide DraftInv, EventInv, NumbersUnique;
        WithoutMembers(s.unlogged, p);
        Survive(s, Apply(s, e));
    }
  }

  lemma WithoutMembers(events: seq<AssetHistory>, p: nat)
    requires p < |events|
    ensures events[p] in events && forall k :: 0 <= k < |Without(events, p)| ==> Without(events, p)[k] in events
  {
  }

  // ---------- exactly when an event misleads ----------

  // The asset is not any more as it was when the draft was made from it.
  predicate Stale(d: Draft, live: Asset) {
    if IsTransfer(d.event) then d.event.fromLocation != live.location || d.asset.status != live.status
    else d.asset.location != live.location
  }

  /** A request writes over an asset that has been moved or disposed of since it loaded it; or logs a
      transfer before an earlier one of the asset is logged, other than one that leaves it where the
      log has it; or a transfer that moved the asset, or its only disposal, is lost. */
  predicate Misleads(s: System, e: Event) {
    match e
    case Write(w) =>
      w in s.drafts &&
      var i := AssetAt(s.assets, s.drafts[w].asset.tenantId, s.drafts[w].asset.assetNo);
      0 <= i && Stale(s.drafts[w], s.assets[i])
    case Log(p) =>
      p < |s.unlogged| &&
      var h := s.unlogged[p];
      IsTransfer(h) && SomeTransfer(L.HistoryOf(s.unlogged[..p], h.tenantId, h.assetNo)) &&
      !(h.assetNo in s.ingestedAt &&
        h.fromLocation == h.toLocation == Place(s.ingestedAt[h.assetNo], L.HistoryOf(s.history, h.tenantId, h.assetNo)))
    case Lose(p) =>
      p < |s.unlogged| &&
      var h := s.unlogged[p];
      (IsTransfer(h) && h.fromLocation != h.toLocation) ||
      (IsDisposal(h) && !SomeDisposal(L.HistoryOf(s.history + Without(s.unlogged, p), h.tenantId, h.assetNo)))
    case Create(_, _, _) => false
    case Load(_, _, _, _, _, _) => false
    case Crash(_) => false
  }

  lemma {:induction false} HistoryConcat(a: seq<AssetHistory>, b: seq<AssetHistory>, tenantId: string, assetNo: string)
    ensures L.HistoryOf(a + b, tenantId, assetNo) ==
      L.HistoryOf(a, tenantId, assetNo) + L.HistoryOf(b, tenantId, assetNo)
    decreases |b|
  {
    if b == [] {
      assert a + b == a;
    } else {
      var n := |b| - 1;
      assert (a + b)[..|a| + n] == a + b[..n];
      HistoryConcat(a, b[..n], tenantId, assetNo);
    }
  }

  lemma HistoryOfOne(h: AssetHistory, a: Asset)
    ensures L.HistoryOf([h], a.tenantId, a.assetNo) == if IsOf(h, a) then [h] else []
  {
    assert [h][..0] == [];
  }

  // The events of an asset, cut around one that is not logged yet.
  lemma EventsAround(s: System, p: nat, a: Asset)
    requires p < |s.unlogged|
    ensures var h, t, n := s.unlogged[p], a.tenantId, a.assetNo;
      var one := if IsOf(h, a) then [h] else [];
      var front, passed, rest :=
        L.HistoryOf(s.history, t, n), L.HistoryOf(s.unlogged[..p], t, n), L.HistoryOf(s.unlogged[p + 1..], t, n);
      EventsOf(s, a) == front + passed + one + rest &&
      L.HistoryOf(s.history + Without(s.unlogged, p), t, n) == front + passed + rest &&
      L.HistoryOf(s.history + [h] + Without(s.unlogged, p), t, n) == front + one + passed + rest
  {
    hide L.HistoryOf;
    var h, t, n := s.unlogged[p], a.tenantId, a.assetNo;
    var before, after := s.unlogged[..p], s.unlogged[p + 1..];
    assert s.history + s.unlogged == s.history + before + [h] + after;
    assert s.history + Without(s.unlogged, p) == s.history + before + after;
    assert s.history + [h] + Without(s.unlogged, p) == s.history + [h] + before + after;
    HistoryOfOne(h, a);
    HistoryConcat(s.history + before + [h], after, t, n);
    HistoryConcat(s.history + before, [h], t, n);
    HistoryConcat(s.history, before, t, n);
    HistoryConcat(s.history + before, after, t, n);
    HistoryConcat(s.history + [h] + before, after, t, n);
    HistoryConcat(s.history + [h], before, t, n);
    HistoryConcat(s.history, [h], t, n);
  }

  lemma LogAt(s: System, p: nat, i: nat)
    requires p < |s.unlogged| && i < |s.assets| && ExplainedAt(s, i)
    ensures ExplainedAt(Apply(s, Log(p)), i) <==> !(IsOf(s.unlogged[p], s.assets[i]) && Misleads(s, Log(p)))
  {
    hide Told, L.HistoryOf, Place, SomeTransfer;
    var a, h := s.assets[i], s.unlogged[p];
    var front, passed := L.HistoryOf(s.history, a.tenantId, a.assetNo),
      L.HistoryOf(s.unlogged[..p], a.tenantId, a.assetNo);
    var rest := L.HistoryOf(s.unlogged[p + 1..], a.tenantId, a.assetNo);
    EventsAround(s, p, a);
    if IsOf(h, a) {
      LogTold(s.ingestedAt[a.assetNo], front, passed, h, rest, a);
    } else {
      assert front + passed + [] + rest == front + [] + passed + rest;
    }
  }

  lemma LoseAt(s: System, p: nat, i: nat)
    requires p < |s.unlogged| && i < |s.assets| && ExplainedAt(s, i)
    ensures ExplainedAt(Apply(s, Lose(p)), i) <==> !(IsOf(s.unlogged[p], s.assets[i]) && Misleads(s, Lose(p)))
  {
    hide Told, L.HistoryOf, SomeDisposal;
    var a, h := s.assets[i], s.unlogged[p];
    var front, passed := L.HistoryOf(s.history, a.tenantId, a.assetNo),
      L.HistoryOf(s.unlogged[..p], a.tenantId, a.assetNo);
    var rest := L.HistoryOf(s.unlogged[p + 1..], a.tenantId, a.assetNo);
    EventsAround(s, p, a);
    if IsOf(h, a) {
      LoseTold(s.ingestedAt[a.assetNo], front + passed, h, rest, a);
    } else {
      assert front + passed + [] + rest == front + passed + rest;
    }
  }

  lemma EventsAppend(s: System, h: AssetHistory, a: Asset)
    ensures L.HistoryOf(s.history + (s.unlogged + [h]), a.tenantId, a.assetNo) ==
      EventsOf(s, a) + (if IsOf(h, a) then [h] else [])
  {
    assert s.history + (s.unlogged + [h]) == s.history + s.unlogged + [h];
    L.HistoryAppend(s.history + s.unlogged, h, a.tenantId, a.assetNo);
  }

  lemma WriteAt(s: System, w: nat, i: nat)
    requires Inv(s) && w in s.drafts && i < |s.assets| && ExplainedAt(s, i)
    ensures |Apply(s, Write(w)).assets| == |s.assets|
    ensures ExplainedAt(Apply(s, Write(w)), i) <==>
      !(i == AssetAt(s.assets, s.drafts[w].asset.tenantId, s.drafts[w].asset.assetNo) &&
        Stale(s.drafts[w], s.assets[i]))
  {
    hide Told, L.HistoryOf, AssetAt, EventInv, EventsOf;
    var d, a, t := s.drafts[w], s.assets[i], Apply(s, Write(w));
    DraftTarget(s, w);
    assert DraftInv(d, s.assets);
    var j := AssetAt(s.assets, d.asset.tenantId, d.asset.assetNo);
    EventsAppend(s, d.event, t.assets[i]);
    SameEvents(s, a, t.assets[i]);
    WrittenEvents(s, t, d.event, t.assets[i]);
    if i == j {
      WriteTold(s.ingestedAt[a.assetNo], EventsOf(s, a), a, d.asset, d.event);
    } else {
      assert a.assetNo != s.assets[j].assetNo;
      assert EventsOf(s, a) + [] == EventsOf(s, a);
    }
  }

  lemma SameEvents(s: System, a: Asset, b: Asset)
    requires a.tenantId == b.tenantId && a.assetNo == b.assetNo
    ensures EventsOf(s, a) == EventsOf(s, b)
  {
  }

  lemma WrittenEvents(s: System, t: System, h: AssetHistory, a: Asset)
    requires t.history == s.history && t.unlogged == s.unlogged + [h]
    ensures EventsOf(t, a) == L.HistoryOf(s.history + (s.unlogged + [h]), a.tenantId, a.assetNo)
  {
  }

  lemma CreateExplained(s: System, e: Event)
    requires Inv(s) && Enabled(s, e) && e.Create? && Explained(s)
    ensures Explained(Apply(s, e))
  {
    hide Told, L.HistoryOf, EventsOf;
    var t, a := Apply(s, e), e.asset;
    if !Taken(s.assets, a.assetNo) {
      var h := L.CreatedEvent(a, e.actor, e.notes);
      FreshNumber(s.assets, a.assetNo);
      forall i | 0 <= i < |t.assets| ensures ExplainedAt(t, i) {
        EventsAppend(s, h, t.assets[i]);
        WrittenEvents(s, t, h, t.assets[i]);
        if i < |s.assets| {
          assert ExplainedAt(s, i);
          assert EventsOf(s, s.assets[i]) + [] == EventsOf(s, s.assets[i]);
        } else {
          NothingOf(s, a);
          assert [] + [h] == [h];
          FirstTold(a, h);
        }
      }
    }
  }

  lemma NothingOf(s: System, a: Asset)
    requires Inv(s) && forall i :: 0 <= i < |s.assets| ==> s.assets[i].assetNo != a.assetNo
    ensures EventsOf(s, a) == []
  {
    var all := s.history + s.unlogged;
    forall k | 0 <= k < |all| ensures all[k].assetNo != a.assetNo {
      assert EventInv(all[k], s.assets);
    }
    L.NoHistory(all, a.tenantId, a.assetNo);
  }

  lemma FirstTold(a: Asset, h: AssetHistory)
    requires h.eventType == "created" && a.status == "active"
    ensures Told(a.location, [h], a)
  {
    hide L.Chained, Told, SomeDisposal, Place;
    ToldIs(a.location, [h], a);
    OneEvent(a.location, h);
  }

  lemma QuietKeepsExplained(s: System, e: Event)
    requires Enabled(s, e) && (e.Load? || e.Crash?)
    ensures Explained(Apply(s, e)) <==> Explained(s)
  {
    var t := Apply(s, e);
    assert t.assets == s.assets && t.history == s.history && t.unlogged == s.unlogged && t.ingestedAt == s.ingestedAt;
    hide Told, L.HistoryOf, AssetAt, Apply;
    assert forall i :: 0 <= i < |s.assets| ==> (ExplainedAt(t, i) <==> ExplainedAt(s, i));
  }

  lemma LoggedTarget(s: System, p: nat) returns (i: nat)
    requires Inv(s) && p < |s.unlogged|
    ensures i < |s.assets| && IsOf(s.unlogged[p], s.assets[i])
  {
    assert EventInv(s.unlogged[p], s.assets);
    i :| 0 <= i < |s.assets| && IsOf(s.unlogged[p], s.assets[i]);
  }

  /** From assets that what is logged and about to be logged explains, an event leaves them explained
      if and only if it is none of those. */
  lemma EventKeepsExplainedIff(s: System, e: Event)
    requires Inv(s) && Enabled(s, e) && Explained(s)
    ensures Explained(Apply(s, e)) <==> !Misleads(s, e)
  {
    hide Inv, ExplainedAt, Misleads, Apply, IsOf, AssetAt, Stale;
    match e {
      case Create(_, _, _) =>
        CreateExplained(s, e);
        QuietNeverMisleads(s, e);
      case Load(_, _, _, _, _, _) =>
        QuietKeepsExplained(s, e);
        QuietNeverMisleads(s, e);
      case Crash(_) =>
        QuietKeepsExplained(s, e);
        QuietNeverMisleads(s, e);
      case Write(w) => WriteKeepsExplainedIff(s, w);
      case Log(p) =>
        AssetsStay(s, e);
        var i := LoggedTarget(s, p);
        forall j | 0 <= j < |s.assets|
          ensures ExplainedAt(Apply(s, e), j) <==> !(IsOf(s.unlogged[p], s.assets[j]) && Misleads(s, e))
        {
          LogAt(s, p, j);
        }
      case Lose(p) =>
        AssetsStay(s, e);
        var i := LoggedTarget(s, p);
        forall j | 0 <= j < |s.assets|
          ensures ExplainedAt(Apply(s, e), j) <==> !(IsOf(s.unlogged[p], s.assets[j]) && Misleads(s, e))
        {
          LoseAt(s, p, j);
        }
    }
  }

  lemma QuietNeverMisleads(s: System, e: Event)
    requires e.Create? || e.Load? || e.Crash?
    ensures !Misleads(s, e)
  {
  }

  lemma AssetsStay(s: System, e: Event)
    requires Enabled(s, e) && (e.Log? || e.Lose?)
    ensures Apply(s, e).assets == s.assets
  {
  }

  lemma WriteKeepsExplainedIff(s: System, w: nat)
    requires Inv(s) && w in s.drafts && Explained(s)
    ensures Explained(Apply(s, Write(w))) <==> !Misleads(s, Write(w))
  {
    hide Inv, ExplainedAt, Apply, Stale;
    DraftTarget(s, w);
    var i := AssetAt(s.assets, s.drafts[w].asset.tenantId, s.drafts[w].asset.assetNo);
    WriteAt(s, w, i);
    forall j | 0 <= j < |s.assets|
      ensures ExplainedAt(Apply(s, Write(w)), j) <==> !(j == i && Stale(s.drafts[w], s.assets[j]))
    {
      WriteAt(s, w, j);
    }
  }

  // ---------- every run ----------

  ghost predicate AlwaysExplained(s: System, events: seq<Event>)
    requires CanRun(s, events)
    decreases |events|
  {
    Explained(s) && (events == [] || AlwaysExplained(Apply(s, events[0]), events[1..]))
  }

  ghost predicate NeverMisled(s: System, events: seq<Event>)
    requires CanRun(s, events)
    decreases |events|
  {
    events == [] || (!Misleads(s, events[0]) && NeverMisled(Apply(s, events[0]), events[1..]))
  }

  /** However requests overlap and whichever events are lost: every asset is explained in every state
      of a run if and only if no event of the run misleads. */
  lemma {:induction false} RunKeepsExplainedIff(s: System, events: seq<Event>)
    requires Inv(s) && Explained(s) && CanRun(s, events)
    ensures AlwaysExplained(s, events) <==> NeverMisled(s, events)
    decreases |events|
  {
    hide Inv, Explained, Misleads, Apply, Enabled;
    if events != [] {
      EventKeepsInv(s, events[0]);
      EventKeepsExplainedIff(s, events[0]);
      if Explained(Apply(s, events[0])) {
        RunKeepsExplainedIff(Apply(s, events[0]), events[1..]);
      }
    }
  }

  lemma ExplainedIffNeverMisled(events: seq<Event>)
    requires CanRun(Empty, events)
    ensures AlwaysExplained(Empty, events) <==> NeverMisled(Empty, events)
  {
    hide CanRun, AlwaysExplained, NeverMisled;
    RunKeepsExplainedIff(Empty, events);
  }

  // ---------- requests one after the other ----------

  function LedgerOf(s: System): L.Ledger {
    L.Ledger(s.assets, s.history, s.ingestedAt)
  }

  function OperationOf(e: Event): L.Operation
    requires e.Load?
  {
    match e.change
    case Move(to) => L.Transfer(e.tenantId, e.assetNo, to, e.actor, e.notes)
    case Dispose => L.Disposal(e.tenantId, e.assetNo, e.actor, e.notes)
  }

  // A transfer or disposal that nothing comes between is the operation of the sequential ledger.
  lemma UndisturbedIsStep(s: System, e: Event)
    requires e.Load? && Enabled(s, e) && s.unlogged == [] && 0 <= AssetAt(s.assets, e.tenantId, e.assetNo)
    ensures var s1 := Apply(s, e);
      Enabled(s1, Write(e.w)) &&
      var s2 := Apply(s1, Write(e.w));
      Enabled(s2, Log(0)) &&
      var s3 := Apply(s2, Log(0));
      s3.unlogged == [] && s3.drafts == s.drafts - {e.w} && LedgerOf(s3) == L.Step(LedgerOf(s), OperationOf(e))
  {
    hide Taken;
    var s1 := Apply(s, e);
    var s2 := Apply(s1, Write(e.w));
    assert s2.unlogged == s.unlogged + [s1.drafts[e.w].event];
  }

  // ---------- each of the three happens ----------

  lemma {:induction false} RunSnoc(s: System, events: seq<Event>, e: Event)
    requires CanRun(s, events) && Enabled(Run(s, events), e)
    ensures CanRun(s, events + [e]) && Run(s, events + [e]) == Apply(Run(s, events), e)
    ensures NeverMisled(s, events + [e]) <==> NeverMisled(s, events) && !Misleads(Run(s, events), e)
    decreases |events|
  {
    hide Apply, Enabled, Misleads;
    var all := events + [e];
    if events == [] {
      assert all == [e] && all[1..] == [];
      RunNothing(Apply(s, e));
    } else {
      assert all[0] == events[0] && all[1..] == events[1..] + [e];
      RunSnoc(Apply(s, events[0]), events[1..], e);
    }
  }

  lemma RunNothing(s: System)
    ensures CanRun(s, []) && Run(s, []) == s && NeverMisled(s, [])
  {
  }

  // A run from the empty store that misleads nobody, and the state it ends in.
  ghost predicate Reaches(events: seq<Event>, t: System) {
    CanRun(Empty, events) && NeverMisled(Empty, events) && Run(Empty, events) == t
  }

  lemma ReachesOn(events: seq<Event>, s: System, e: Event, t: System)
    requires Reaches(events, s) && Enabled(s, e) && !Misleads(s, e) && Apply(s, e) == t
    ensures Reaches(events + [e], t)
  {
    hide Enabled, Apply, Misleads, CanRun, Run, NeverMisled;
    RunSnoc(Empty, events, e);
  }

  function Moving(w: nat, a: Asset, to: string): Event {
    Load(w, a.tenantId, a.assetNo, A.Move(to), "", "")
  }

  function MovedTo(a: Asset, to: string): Asset {
    a.(location := to)
  }

  function OneAsset(a: Asset): System {
    System([a], [], map[a.assetNo := a.location], map[], [L.CreatedEvent(a, "", "")])
  }

  lemma OneAssetReached(a: Asset)
    requires a.status == "active"
    ensures Reaches([Create(a, "", "")], OneAsset(a))
  {
    RunNothing(Empty);
    assert Apply(Empty, Create(a, "", "")) == OneAsset(a);
    hide CanRun, Run, NeverMisled;
    ReachesOn([], Empty, Create(a, "", ""), OneAsset(a));
    assert [] + [Create(a, "", "")] == [Create(a, "", "")];
  }

  lemma LoadsIt(a: Asset)
    ensures AssetAt([a], a.tenantId, a.assetNo) == 0
  {
  }

  // One transfer is written and not logged.
  function OneMove(a: Asset, to: string): System {
    System([MovedTo(a, to)], [], map[a.assetNo := a.location], map[],
           [L.CreatedEvent(a, "", ""), L.TransferEvent(a, to, "", "")])
  }

  lemma MoveReached(a: Asset, to: string)
    requires a.status == "active"
    ensures Reaches([Create(a, "", "")] + [Moving(0, a, to)] + [Write(0)], OneMove(a, to))
  {
    hide Reaches, AssetAt;
    OneAssetReached(a);
    LoadsIt(a);
    var s1 := OneAsset(a);
    var s2 := s1.(drafts := map[0 := Draft(MovedTo(a, to), L.TransferEvent(a, to, "", ""))]);
    assert Apply(s1, Moving(0, a, to)) == s2;
    ReachesOn([Create(a, "", "")], s1, Moving(0, a, to), s2);
    assert s2.drafts - {0} == map[] && s1.assets[0 := MovedTo(a, to)] == [MovedTo(a, to)];
    assert s1.unlogged + [s2.drafts[0].event] == OneMove(a, to).unlogged;
    ReachesOn([Create(a, "", "")] + [Moving(0, a, to)], s2, Write(0), OneMove(a, to));
  }

  /** A transfer that is written and then lost leaves the asset elsewhere than its history says. */
  lemma LostTransferMisleads(a: Asset, to: string)
    requires a.status == "active" && to != a.location
    ensures Reaches([Create(a, "", "")] + [Moving(0, a, to)] + [Write(0)], OneMove(a, to))
    ensures Enabled(OneMove(a, to), Lose(1)) && Misleads(OneMove(a, to), Lose(1))
  {
    MoveReached(a, to);
  }

  // A second transfer has loaded the asset before the first is written.
  function TwoLoads(a: Asset, to: string, other: string): System {
    OneMove(a, to).(drafts := map[1 := Draft(MovedTo(a, other), L.TransferEvent(a, other, "", ""))])
  }

  /** Two transfers that load an asset before either writes it. */
  lemma OverlapMisleads(a: Asset, to: string, other: string)
    requires a.status == "active" && to != a.location
    ensures Reaches([Create(a, "", "")] + [Moving(0, a, to)] + [Moving(1, a, other)] + [Write(0)],
                    TwoLoads(a, to, other))
    ensures Enabled(TwoLoads(a, to, other), Write(1)) && Misleads(TwoLoads(a, to, other), Write(1))
  {
    hide Reaches, AssetAt;
    OneAssetReached(a);
    LoadsIt(a);
    LoadsIt(MovedTo(a, to));
    var s1 := OneAsset(a);
    var mine, theirs := Draft(MovedTo(a, to), L.TransferEvent(a, to, "", "")),
      Draft(MovedTo(a, other), L.TransferEvent(a, other, "", ""));
    var s2 := s1.(drafts := map[0 := mine]);
    var s3 := s1.(drafts := map[0 := mine, 1 := theirs]);
    assert Apply(s1, Moving(0, a, to)) == s2;
    ReachesOn([Create(a, "", "")], s1, Moving(0, a, to), s2);
    assert Apply(s2, Moving(1, a, other)) == s3;
    ReachesOn([Create(a, "", "")] + [Moving(0, a, to)], s2, Moving(1, a, other), s3);
    assert s3.drafts - {0} == map[1 := theirs] && s1.assets[0 := MovedTo(a, to)] == [MovedTo(a, to)];
    assert s1.unlogged + [mine.event] == OneMove(a, to).unlogged;
    ReachesOn([Create(a, "", "")] + [Moving(0, a, to)] + [Moving(1, a, other)], s3, Write(0), TwoLoads(a, to, other));
  }

  // A second transfer is written after the first, and neither is logged.
  function TwoMoves(a: Asset, to: string, other: string): System {
    System([MovedTo(a, other)], [], map[a.assetNo := a.location], map[],
           OneMove(a, to).unlogged + [L.TransferEvent(MovedTo(a, to), other, "", "")])
  }

  /** Two transfers, one after the other, of which the second is logged first. */
  lemma LateLogMisleads(a: Asset, to: string, other: string)
    requires a.status == "active" && to != a.location
    ensures Reaches([Create(a, "", "")] + [Moving(0, a, to)] + [Write(0)] +
                    [Moving(0, MovedTo(a, to), other)] + [Write(0)], TwoMoves(a, to, other))
    ensures Enabled(TwoMoves(a, to, other), Log(2)) && Misleads(TwoMoves(a, to, other), Log(2))
  {
    hide Reaches, AssetAt;
    MoveReached(a, to);
    LoadsIt(MovedTo(a, to));
    var s1, b := OneMove(a, to), MovedTo(a, to);
    var s2 := s1.(drafts := map[0 := Draft(MovedTo(a, other), L.TransferEvent(b, other, "", ""))]);
    assert Apply(s1, Moving(0, b, other)) == s2;
    ReachesOn([Create(a, "", "")] + [Moving(0, a, to)] + [Write(0)], s1, Moving(0, b, other), s2);
    assert s2.drafts - {0} == map[] && s1.assets[0 := MovedTo(a, other)] == [MovedTo(a, other)];
    ReachesOn([Create(a, "", "")] + [Moving(0, a, to)] + [Write(0)] + [Moving(0, b, other)], s2,
              Write(0), TwoMoves(a, to, other));
    EarlierTransfer(a, to, other);
  }

  lemma EarlierTransfer(a: Asset, to: string, other: string)
    requires to != a.location
    ensures Misleads(TwoMoves(a, to, other), Log(2))
  {
    var s := TwoMoves(a, to, other);
    var c, h := L.CreatedEvent(a, "", ""), L.TransferEvent(a, to, "", "");
    assert s.unlogged[..2] == [c] + [h];
    L.HistoryAppend([c], h, a.tenantId, a.assetNo);
    L.HistoryAppend([], c, a.tenantId, a.assetNo);
    assert [] + [c] == [c];
    assert [c, h][1] == h && IsTransfer(h);
    assert L.HistoryOf(s.unlogged[..2], a.tenantId, a.assetNo) == [c, h];
  }
}
