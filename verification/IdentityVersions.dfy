/** The versions of identity documents while saves overlap: exactly which events lose a version,
    repeat one, or put a live document behind what is logged of it. */
module IdentityVersions {
  import opened Text
  import opened IdentityDocuments
  import opened IdentityProtocol
  import Protocol = ResolveProtocol

  // ---------- versions logged and about to be logged ----------

  predicate OfDoc(h: Snapshot, d: Document) {
    h.tenantId == d.tenantId && h.documentId == d.documentId
  }

  // What the versions of a state depend on; pending has the snapshot that a saver is about to log.
  datatype Versions = Versions(docs: seq<Document>, history: seq<Snapshot>, pending: map<nat, Snapshot>)

  function PendingOf(savers: map<nat, Saver>): map<nat, Snapshot> {
    map w | w in savers && savers[w].stage.Append? :: savers[w].stage.event
  }

  function VersionsOf(s: System): Versions {
    Versions(s.store.docs, s.store.history, PendingOf(s.savers))
  }

  predicate Logged(history: seq<Snapshot>, d: Document, v: int) {
    exists k :: 0 <= k < |history| && OfDoc(history[k], d) && history[k].version == v
  }

  predicate AboutToBeLogged(pending: map<nat, Snapshot>, d: Document, v: int) {
    exists w :: w in pending && OfDoc(pending[w], d) && pending[w].version == v
  }

  predicate Has(x: Versions, d: Document, v: int) {
    Logged(x.history, d, v) || AboutToBeLogged(x.pending, d, v)
  }

  // No snapshot about to be logged has the version of another, or of one that is logged.
  ghost predicate Apart(x: Versions) {
    (forall w :: w in x.pending ==> !VersionTaken(x.history, x.pending[w])) &&
    (forall u, w :: u in x.pending && w in x.pending && u != w ==> !SameVersion(x.pending[u], x.pending[w]))
  }

  /** Every document has each of its versions, 1 to the live one, logged or about to be logged, once. */
  ghost predicate Dense(x: Versions) {
    Apart(x) && forall i, v :: 0 <= i < |x.docs| ==> (Has(x, x.docs[i], v) <==> 1 <= v <= x.docs[i].version)
  }

  // ---------- one more pending snapshot, or one less ----------

  lemma PendingAdded(x: Versions, w: nat, h: Snapshot, d: Document, v: int)
    requires w !in x.pending
    ensures Has(x.(pending := x.pending[w := h]), d, v) <==> Has(x, d, v) || (OfDoc(h, d) && h.version == v)
  {
    hide OfDoc;
    var p := x.pending[w := h];
    if AboutToBeLogged(x.pending, d, v) {
      var u :| u in x.pending && OfDoc(x.pending[u], d) && x.pending[u].version == v;
      assert u in p && OfDoc(p[u], d) && p[u].version == v;
    }
    if OfDoc(h, d) && h.version == v {
      assert w in p && OfDoc(p[w], d) && p[w].version == v;
    }
    if AboutToBeLogged(p, d, v) {
      var u :| u in p && OfDoc(p[u], d) && p[u].version == v;
      assert u != w ==> u in x.pending && x.pending[u] == p[u];
    }
  }

  // A snapshot whose version is there already cannot be kept apart from it.
  lemma AddedApartIff(x: Versions, w: nat, h: Snapshot, d: Document)
    requires Apart(x) && w !in x.pending && OfDoc(h, d)
    ensures Apart(x.(pending := x.pending[w := h])) <==> !Has(x, d, h.version)
  {
    var p := x.pending[w := h];
    assert VersionTaken(x.history, h) <==> Logged(x.history, d, h.version) by {
      if VersionTaken(x.history, h) {
        var k :| 0 <= k < |x.history| && SameVersion(x.history[k], h);
        assert OfDoc(x.history[k], d);
      }
      if Logged(x.history, d, h.version) {
        var k :| 0 <= k < |x.history| && OfDoc(x.history[k], d) && x.history[k].version == h.version;
        assert SameVersion(x.history[k], h);
      }
    }
    hide VersionTaken, Logged;
    if AboutToBeLogged(x.pending, d, h.version) {
      var u :| u in x.pending && OfDoc(x.pending[u], d) && x.pending[u].version == h.version;
      assert p[u] == x.pending[u] && p[w] == h && SameVersion(p[u], p[w]);
    }
    assert w in p && p[w] == h;
    if !VersionTaken(x.history, h) && !AboutToBeLogged(x.pending, d, h.version) {
      forall u, y | u in p && y in p && u != y ensures !SameVersion(p[u], p[y]) {
        assert u != w ==> p[u] == x.pending[u];
        assert y != w ==> p[y] == x.pending[y];
      }
    }
  }

  // Logging a pending snapshot moves its version from one side to the other.
  lemma LoggedMoves(x: Versions, w: nat, d: Document, v: int)
    requires w in x.pending
    ensures Has(x.(history := x.history + [x.pending[w]], pending := x.pending - {w}), d, v) <==> Has(x, d, v)
  {
    hide OfDoc;
    var y := x.(history := x.history + [x.pending[w]], pending := x.pending - {w});
    var n := |x.history|;
    if Logged(x.history, d, v) {
      var k :| 0 <= k < n && OfDoc(x.history[k], d) && x.history[k].version == v;
      assert y.history[k] == x.history[k];
    }
    if AboutToBeLogged(x.pending, d, v) {
      var u :| u in x.pending && OfDoc(x.pending[u], d) && x.pending[u].version == v;
      assert u != w ==> u in y.pending && y.pending[u] == x.pending[u];
      assert u == w ==> y.history[n] == x.pending[u];
    }
    if Logged(y.history, d, v) {
      var k :| 0 <= k <= n && OfDoc(y.history[k], d) && y.history[k].version == v;
      assert k < n ==> x.history[k] == y.history[k];
    }
    if AboutToBeLogged(y.pending, d, v) {
      var u :| u in y.pending && OfDoc(y.pending[u], d) && y.pending[u].version == v;
      assert u in x.pending && x.pending[u] == y.pending[u];
    }
  }

  lemma LoggedKeepsDense(x: Versions, w: nat)
    requires Dense(x) && w in x.pending
    ensures Dense(x.(history := x.history + [x.pending[w]], pending := x.pending - {w}))
  {
    hide Has, SameVersion;
    var y := x.(history := x.history + [x.pending[w]], pending := x.pending - {w});
    forall u | u in y.pending ensures !VersionTaken(y.history, y.pending[u]) {
      assert y.pending[u] == x.pending[u] && !VersionTaken(x.history, x.pending[u]);
      VersionSymmetric(x.pending[u], x.pending[w]);
      forall k | 0 <= k < |y.history| ensures !SameVersion(y.history[k], y.pending[u]) {
        assert k < |x.history| ==> y.history[k] == x.history[k];
      }
    }
    forall i, v | 0 <= i < |y.docs| ensures Has(y, y.docs[i], v) <==> 1 <= v <= y.docs[i].version {
      LoggedMoves(x, w, x.docs[i], v);
    }
  }

  lemma VersionSymmetric(g: Snapshot, h: Snapshot)
    ensures SameVersion(g, h) <==> SameVersion(h, g)
  {
  }

  // A pending snapshot that is dropped takes its version with it.
  lemma DroppedBreaksDense(x: Versions, w: nat, i: nat)
    requires Dense(x) && w in x.pending && i < |x.docs| && OfDoc(x.pending[w], x.docs[i])
    ensures !Dense(x.(pending := x.pending - {w}))
  {
    var h, d, y := x.pending[w], x.docs[i], x.(pending := x.pending - {w});
    assert AboutToBeLogged(x.pending, d, h.version);
    assert Has(x, d, h.version);
    assert !VersionTaken(x.history, h);
    forall k | 0 <= k < |y.history| ensures !(OfDoc(y.history[k], d) && y.history[k].version == h.version) {
      assert !SameVersion(x.history[k], h);
    }
    forall u | u in y.pending ensures !(OfDoc(y.pending[u], d) && y.pending[u].version == h.version) {
      assert !SameVersion(x.pending[u], x.pending[w]);
    }
    assert !Has(y, y.docs[i], h.version);
  }

  // ---------- writing a document ----------

  lemma KeysApart(docs: seq<Document>, i: nat, j: nat, h: Snapshot)
    requires KeysUnique(docs) && i < |docs| && j < |docs| && OfDoc(h, docs[i]) && OfDoc(h, docs[j])
    ensures i == j
  {
  }

  /** Writing over document i and about to log the version written: dense if and only if it is the
      live version plus one. */
  lemma RewriteDenseIff(x: Versions, w: nat, h: Snapshot, i: nat, d: Document)
    requires Dense(x) && KeysUnique(x.docs) && w !in x.pending && i < |x.docs| && 1 <= x.docs[i].version &&
      1 <= d.version
    requires OfDoc(h, x.docs[i]) && OfDoc(h, d) && h.version == d.version
    ensures Dense(x.(docs := x.docs[i := d], pending := x.pending[w := h])) <==> d.version == x.docs[i].version + 1
  {
    hide Has, OfDoc, KeysUnique, Apart;
    var live := x.docs[i].version;
    var mid := x.(pending := x.pending[w := h]);
    var y := mid.(docs := x.docs[i := d]);
    AddedApartIff(x, w, h, x.docs[i]);
    ApartSameDocs(mid, y);
    assert Has(x, x.docs[i], d.version) <==> d.version <= live;
    forall v ensures Has(y, d, v) <==> 1 <= v <= live || v == d.version {
      PendingAdded(x, w, h, x.docs[i], v);
      SameDocHas(mid, y, x.docs[i], d, v, h);
    }
    if d.version == live + 1 {
      forall j, v | 0 <= j < |y.docs| ensures Has(y, y.docs[j], v) <==> 1 <= v <= y.docs[j].version {
        if j != i {
          PendingAdded(x, w, h, x.docs[j], v);
          if OfDoc(h, x.docs[j]) { KeysApart(x.docs, i, j, h); }
          HasSameDocs(mid, y, x.docs[j], v);
        }
      }
    } else if live + 1 < d.version {
      assert !Has(y, y.docs[i], live + 1);
    }
  }

  lemma ApartSameDocs(x: Versions, y: Versions)
    requires x.history == y.history && x.pending == y.pending
    ensures Apart(x) <==> Apart(y)
  {
  }

  lemma HasSameDocs(x: Versions, y: Versions, d: Document, v: int)
    requires x.history == y.history && x.pending == y.pending
    ensures Has(x, d, v) <==> Has(y, d, v)
  {
  }

  lemma SameDocHas(x: Versions, y: Versions, d: Document, e: Document, v: int, h: Snapshot)
    requires x.history == y.history && x.pending == y.pending && OfDoc(h, d) && OfDoc(h, e)
    ensures Has(x, d, v) <==> Has(y, e, v)
  {
    assert forall g :: OfDoc(g, d) <==> OfDoc(g, e);
    hide OfDoc;
  }

  // A new document, whose first version nobody has logged or is about to.
  lemma FirstKeepsDense(x: Versions, w: nat, h: Snapshot, d: Document)
    requires Dense(x) && w !in x.pending && OfDoc(h, d) && h.version == d.version == 1
    requires forall i :: 0 <= i < |x.docs| ==> !OfDoc(h, x.docs[i])
    requires forall v :: !Has(x, d, v)
    ensures Dense(x.(docs := x.docs + [d], pending := x.pending[w := h]))
  {
    hide Has, OfDoc, Apart;
    var mid := x.(pending := x.pending[w := h]);
    var y := mid.(docs := x.docs + [d]);
    AddedApartIff(x, w, h, d);
    ApartSameDocs(mid, y);
    forall j, v | 0 <= j < |y.docs| ensures Has(y, y.docs[j], v) <==> 1 <= v <= y.docs[j].version {
      PendingAdded(x, w, h, y.docs[j], v);
      HasSameDocs(mid, y, y.docs[j], v);
      assert j < |x.docs| ==> y.docs[j] == x.docs[j];
    }
  }

  // ---------- one event ----------

  /** A saver stops before it has logged what it wrote, or writes over a document whose live version
      is no longer the one that it loaded. */
  predicate Spoils(s: System, e: Event) {
    match e
    case People(_) => false
    case Begin(_, _, _) => false
    case Crash(w) => w in s.savers && s.savers[w].stage.Append?
    case Advance(w, _) =>
      w in s.savers && s.savers[w].stage.Write? && !s.savers[w].stage.isNew &&
      var d := s.savers[w].stage.document;
      var i := DocAt(s.store.docs, d.tenantId, d.documentId);
      0 <= i && d.version != s.store.docs[i].version + 1
  }

  lemma PendingTells(savers: map<nat, Saver>, w: nat, k: Saver)
    ensures PendingOf(savers[w := k]) ==
      if k.stage.Append? then PendingOf(savers)[w := k.stage.event] else PendingOf(savers) - {w}
    ensures PendingOf(savers - {w}) == PendingOf(savers) - {w}
    ensures w !in savers || !savers[w].stage.Append? ==>
      w !in PendingOf(savers) && PendingOf(savers) - {w} == PendingOf(savers)
  {
  }

  // What a saver knows of the document that it is about to write.
  lemma WriterKnows(s: System, w: nat)
    requires IdentityProtocol.Inv(s) && w in s.savers && s.savers[w].stage.Write?
    ensures KeysUnique(s.store.docs) && forall i :: 0 <= i < |s.store.docs| ==> 1 <= s.store.docs[i].version
    ensures var d := s.savers[w].stage.document;
      var i := DocAt(s.store.docs, d.tenantId, d.documentId);
      1 <= d.version && (if s.savers[w].stage.isNew then d.version == 1 else 0 <= i && SameDocument(s.store.docs[i], d))
  {
    assert SaverInv(s.savers[w], s.store, s.people.db.people);
    hide Protocol.Inv, Protocol.PersonKeys, SnapshotOk;
    if !s.savers[w].stage.isNew {
      DocAtMatches(s.store.docs, s.savers[w].stage.document);
    }
  }

  // Nobody has a snapshot of a document that is not stored.
  lemma NothingOfUnstored(s: System, d: Document, v: int)
    requires IdentityProtocol.Inv(s) && !KeyTaken(s.store.docs, d)
    ensures !Has(VersionsOf(s), d, v)
  {
    hide Protocol.Inv, Protocol.PersonKeys, PersonKnown, VersionsUnique, KeysUnique;
    var x := VersionsOf(s);
    forall k | 0 <= k < |x.history| ensures !OfDoc(x.history[k], d) {
      assert SnapshotOk(s.store.docs, s.people.db.people, s.store.history[k]);
      UnstoredApart(s.store.docs, d, x.history[k]);
    }
    forall w | w in x.pending ensures !OfDoc(x.pending[w], d) {
      assert SaverInv(s.savers[w], s.store, s.people.db.people);
      UnstoredApart(s.store.docs, d, x.pending[w]);
    }
  }

  lemma UnstoredApart(docs: seq<Document>, d: Document, h: Snapshot)
    requires !KeyTaken(docs, d) && IsStored(docs, h.document) && h.tenantId == h.document.tenantId &&
      h.documentId == h.document.documentId
    ensures !OfDoc(h, d)
  {
    var i :| 0 <= i < |docs| && SameDocument(docs[i], h.document);
    assert !(docs[i].tenantId == d.tenantId && docs[i].documentId == d.documentId);
  }

  lemma WriteKeepsDenseIff(s: System, w: nat, now: int)
    requires IdentityProtocol.Inv(s) && Dense(VersionsOf(s)) && w in s.savers && s.savers[w].stage.Write?
    ensures Dense(VersionsOf(AdvanceSaver(s, w, now))) <==> !Spoils(s, Advance(w, now))
  {
    hide IdentityProtocol.Inv, Dense, Has, KeysUnique, PendingOf, Protocol.PersonKeys, VersionTaken, TrimSpace;
    var d, isNew, t := s.savers[w].stage.document, s.savers[w].stage.isNew, AdvanceSaver(s, w, now);
    var x, h := VersionsOf(s), EventOf(d, isNew, s.savers[w].actor);
    WriterKnows(s, w);
    PendingTells(s.savers, w, s.savers[w].(stage := Append(h)));
    if isNew && KeyTaken(s.store.docs, d) {
    } else if isNew {
      forall v ensures !Has(x, d, v) {
        NothingOfUnstored(s, d, v);
      }
      FirstKeepsDense(x, w, h, d);
    } else {
      RewriteDenseIff(x, w, h, DocAt(s.store.docs, d.tenantId, d.documentId), d);
    }
  }

  lemma AppendKeepsDense(s: System, w: nat, now: int)
    requires Dense(VersionsOf(s)) && w in s.savers && s.savers[w].stage.Append?
    ensures Dense(VersionsOf(AdvanceSaver(s, w, now)))
  {
    hide Has, SameVersion, PendingOf, VersionTaken;
    PendingTells(s.savers, w, s.savers[w]);
    var x := VersionsOf(s);
    PendingHas(s, w);
    assert !VersionTaken(x.history, x.pending[w]);
    LoggedKeepsDense(x, w);
  }

  lemma PendingHas(s: System, w: nat)
    requires w in s.savers && s.savers[w].stage.Append?
    ensures w in PendingOf(s.savers) && PendingOf(s.savers)[w] == s.savers[w].stage.event
  {
  }

  lemma CrashKeepsDenseIff(s: System, w: nat)
    requires IdentityProtocol.Inv(s) && Dense(VersionsOf(s)) && w in s.savers
    ensures Dense(VersionsOf(Finish(s, w, s.store))) <==> !s.savers[w].stage.Append?
  {
    hide Dense, PendingOf, Has, Protocol.PersonKeys, Protocol.Inv, PersonKnown, StoreInv;
    PendingTells(s.savers, w, s.savers[w]);
    if s.savers[w].stage.Append? {
      PendingHas(s, w);
      var h := s.savers[w].stage.event;
      assert SaverInv(s.savers[w], s.store, s.people.db.people);
      var i :| 0 <= i < |s.store.docs| && SameDocument(s.store.docs[i], h.document);
      DroppedBreaksDense(VersionsOf(s), w, i);
    }
  }

  lemma QuietKeepsVersions(s: System, e: Event)
    requires Enabled(s, e) && !e.Crash?
    requires e.Advance? ==> !s.savers[e.w].stage.Write? && !s.savers[e.w].stage.Append?
    ensures VersionsOf(Apply(s, e)) == VersionsOf(s)
  {
    hide PendingOf, Normalise, Acceptable, Protocol.Apply, Protocol.Enabled, PersonKnown, DocumentId, TrimSpace;
    var t := Apply(s, e);
    if e.Begin? {
      PendingTells(s.savers, e.w, t.savers[e.w]);
    } else if e.Advance? {
      PendingTells(s.savers, e.w, if e.w in t.savers then t.savers[e.w] else s.savers[e.w]);
    }
  }

  /** From dense versions, an event keeps them dense if and only if it is neither the crash of a save
      that has written and not logged, nor the write of a save that loaded another version. */
  lemma EventKeepsDenseIff(s: System, e: Event)
    requires IdentityProtocol.Inv(s) && Enabled(s, e) && Dense(VersionsOf(s))
    ensures Dense(VersionsOf(Apply(s, e))) <==> !Spoils(s, e)
  {
    hide IdentityProtocol.Inv, Dense, VersionsOf, AdvanceSaver, Finish, Protocol.Enabled, Protocol.Apply, Normalise,
      Acceptable;
    if e.Crash? {
      CrashKeepsDenseIff(s, e.w);
    } else if e.Advance? && s.savers[e.w].stage.Write? {
      WriteKeepsDenseIff(s, e.w, e.now);
    } else if e.Advance? && s.savers[e.w].stage.Append? {
      AppendKeepsDense(s, e.w, e.now);
    } else {
      QuietKeepsVersions(s, e);
    }
  }

  // ---------- every run ----------

  ghost predicate AlwaysDense(s: System, events: seq<Event>)
    requires CanRun(s, events)
    decreases |events|
  {
    Dense(VersionsOf(s)) && (events == [] || AlwaysDense(Apply(s, events[0]), events[1..]))
  }

  ghost predicate NeverSpoilt(s: System, events: seq<Event>)
    requires CanRun(s, events)
    decreases |events|
  {
    events == [] || (!Spoils(s, events[0]) && NeverSpoilt(Apply(s, events[0]), events[1..]))
  }

  /** However saves overlap, every document has each of its versions once in every state of a run if
      and only if no event of the run is of those two kinds. */
  lemma {:induction false} RunKeepsDenseIff(s: System, events: seq<Event>)
    requires IdentityProtocol.Inv(s) && Dense(VersionsOf(s)) && CanRun(s, events)
    ensures AlwaysDense(s, events) <==> NeverSpoilt(s, events)
    decreases |events|
  {
    hide IdentityProtocol.Inv, Dense, VersionsOf, Spoils, Apply, Enabled;
    if events != [] {
      EventGood(s, events[0]);
      EventKeepsDenseIff(s, events[0]);
      if Dense(VersionsOf(Apply(s, events[0]))) {
        RunKeepsDenseIff(Apply(s, events[0]), events[1..]);
      }
    }
  }

  lemma DenseIffNeverSpoilt(events: seq<Event>)
    requires CanRun(Start, events)
    ensures AlwaysDense(Start, events) <==> NeverSpoilt(Start, events)
  {
    hide IdentityProtocol.Inv, CanRun, AlwaysDense, NeverSpoilt;
    StartInv();
    StartDense();
    RunKeepsDenseIff(Start, events);
  }

  lemma StartDense()
    ensures Dense(VersionsOf(Start))
  {
  }

  // ---------- the live version ----------

  // The event writes over document i.
  predicate WritesOver(s: System, e: Event, i: int) {
    e.Advance? && e.w in s.savers && s.savers[e.w].stage.Write? && !s.savers[e.w].stage.isNew &&
    i == DocAt(s.store.docs, s.savers[e.w].stage.document.tenantId, s.savers[e.w].stage.document.documentId)
  }

  /** A live version is moved by nothing but a save that writes over the document. It rises by one
      exactly when the save loaded it, falls exactly when the save loaded a version before the one
      before it, and jumps by two or more exactly when the save loaded a later version, which another
      has put back since. */
  lemma LiveVersionMoves(s: System, e: Event, i: nat)
    requires IdentityProtocol.Inv(s) && Enabled(s, e) && i < |s.store.docs|
    ensures i < |Apply(s, e).store.docs|
    ensures var was, is_ := s.store.docs[i].version, Apply(s, e).store.docs[i].version;
      (is_ == was + 1 <==> WritesOver(s, e, i) && s.savers[e.w].stage.document.version == was + 1) &&
      (was + 1 < is_ <==> WritesOver(s, e, i) && was + 1 < s.savers[e.w].stage.document.version) &&
      (is_ < was <==> WritesOver(s, e, i) && s.savers[e.w].stage.document.version < was) &&
      (is_ != was ==> WritesOver(s, e, i))
  {
    hide IdentityProtocol.Inv, Normalise, Acceptable, Protocol.Apply, Protocol.Enabled, AdvanceSaver, DocAt;
    if e.Advance? {
      AdvanceMoves(s, e.w, e.now, i);
    }
  }

  lemma AdvanceMoves(s: System, w: nat, now: int, i: nat)
    requires IdentityProtocol.Inv(s) && w in s.savers && i < |s.store.docs|
    ensures var docs, stage := AdvanceSaver(s, w, now).store.docs, s.savers[w].stage;
      i < |docs| &&
      docs[i] == if WritesOver(s, Advance(w, now), i) then stage.document else s.store.docs[i]
  {
    hide IdentityProtocol.Inv, PersonKnown, DocumentId, TrimSpace, VersionTaken, First, Next, EventOf, IsNew;
    if s.savers[w].stage.Write? {
      WriterKnows(s, w);
    }
  }

  // ---------- the live document against its log ----------

  // No logged version is past the live one.
  ghost predicate NotAhead(store: Docs) {
    forall i, k :: 0 <= i < |store.docs| && 0 <= k < |store.history| && OfDoc(store.history[k], store.docs[i]) ==>
      store.history[k].version <= store.docs[i].version
  }

  /** A save writes a version before one that is logged already, or logs a version that the live
      document has fallen behind. */
  predicate Overtakes(s: System, e: Event) {
    e.Advance? && e.w in s.savers &&
    match s.savers[e.w].stage
    case Count => false
    case Find(_) => false
    case Write(d, isNew) =>
      !isNew &&
      exists k :: 0 <= k < |s.store.history| && OfDoc(s.store.history[k], d) && d.version < s.store.history[k].version
    case Append(h) =>
      var i := DocAt(s.store.docs, h.tenantId, h.documentId);
      0 <= i && s.store.docs[i].version < h.version
  }

  lemma RewriteNotAheadIff(store: Docs, i: nat, d: Document)
    requires NotAhead(store) && KeysUnique(store.docs) && i < |store.docs| && SameDocument(store.docs[i], d)
    ensures NotAhead(store.(docs := store.docs[i := d])) <==>
      !exists k :: 0 <= k < |store.history| && OfDoc(store.history[k], d) && d.version < store.history[k].version
  {
    var t := store.(docs := store.docs[i := d]);
    if k :| 0 <= k < |store.history| && OfDoc(store.history[k], d) && d.version < store.history[k].version {
      assert OfDoc(t.history[k], t.docs[i]);
    } else {
      forall j, k | 0 <= j < |t.docs| && 0 <= k < |t.history| && OfDoc(t.history[k], t.docs[j])
        ensures t.history[k].version <= t.docs[j].version
      {
        assert j != i ==> t.docs[j] == store.docs[j];
      }
    }
  }

  lemma InsertNotAhead(store: Docs, d: Document)
    requires NotAhead(store) && forall k :: 0 <= k < |store.history| ==> !OfDoc(store.history[k], d)
    ensures NotAhead(store.(docs := store.docs + [d]))
  {
    var t := store.(docs := store.docs + [d]);
    forall j, k | 0 <= j < |t.docs| && 0 <= k < |t.history| && OfDoc(t.history[k], t.docs[j])
      ensures t.history[k].version <= t.docs[j].version
    {
      assert j < |store.docs| ==> t.docs[j] == store.docs[j];
    }
  }

  lemma LogNotAheadIff(store: Docs, h: Snapshot, i: nat)
    requires NotAhead(store) && KeysUnique(store.docs) && i < |store.docs| && OfDoc(h, store.docs[i])
    ensures NotAhead(Log(store, h)) <==> h.version <= store.docs[i].version
  {
    if VersionTaken(store.history, h) {
      var k :| 0 <= k < |store.history| && SameVersion(store.history[k], h);
      assert OfDoc(store.history[k], store.docs[i]);
    } else {
      var t := Log(store, h);
      assert t.history[|store.history|] == h;
      forall j, k | 0 <= j < |t.docs| && 0 <= k < |store.history| && OfDoc(t.history[k], t.docs[j])
        ensures t.history[k].version <= t.docs[j].version
      {
        assert t.history[k] == store.history[k];
      }
      forall j | 0 <= j < |t.docs| && OfDoc(h, t.docs[j]) ensures j == i {
        KeysApart(store.docs, i, j, h);
      }
    }
  }

  lemma NoneLogged(s: System, d: Document)
    requires IdentityProtocol.Inv(s) && !KeyTaken(s.store.docs, d)
    ensures forall k :: 0 <= k < |s.store.history| ==> !OfDoc(s.store.history[k], d)
  {
    forall k | 0 <= k < |s.store.history| ensures !OfDoc(s.store.history[k], d) {
      NothingOfUnstored(s, d, s.store.history[k].version);
    }
    hide IdentityProtocol.Inv;
  }

  // What a saver knows of the document whose snapshot it is about to log.
  lemma LoggerKnows(s: System, w: nat)
    requires IdentityProtocol.Inv(s) && w in s.savers && s.savers[w].stage.Append?
    ensures var h := s.savers[w].stage.event;
      var i := DocAt(s.store.docs, h.tenantId, h.documentId);
      0 <= i && OfDoc(h, s.store.docs[i]) && KeysUnique(s.store.docs)
  {
    assert SaverInv(s.savers[w], s.store, s.people.db.people);
    hide Protocol.Inv, Protocol.PersonKeys;
    var h := s.savers[w].stage.event;
    var i :| 0 <= i < |s.store.docs| && SameDocument(s.store.docs[i], h.document);
  }

  lemma AdvanceKeepsBoundIff(s: System, w: nat, now: int)
    requires IdentityProtocol.Inv(s) && NotAhead(s.store) && w in s.savers
    ensures NotAhead(AdvanceSaver(s, w, now).store) <==> !Overtakes(s, Advance(w, now))
  {
    hide IdentityProtocol.Inv, KeysUnique, VersionTaken, PersonKnown, DocumentId, TrimSpace, EventOf;
    match s.savers[w].stage {
      case Count => SameNotAhead(s.store, AdvanceSaver(s, w, now).store);
      case Find(_) =>
      case Write(d, isNew) =>
        WriterKnows(s, w);
        if !isNew {
          RewriteNotAheadIff(s.store, DocAt(s.store.docs, d.tenantId, d.documentId), d);
        } else if !KeyTaken(s.store.docs, d) {
          NoneLogged(s, d);
          InsertNotAhead(s.store, d);
        }
      case Append(h) =>
        LoggerKnows(s, w);
        LogNotAheadIff(s.store, h, DocAt(s.store.docs, h.tenantId, h.documentId));
    }
  }

  lemma SameNotAhead(a: Docs, b: Docs)
    requires a.docs == b.docs && a.history == b.history
    ensures NotAhead(a) <==> NotAhead(b)
  {
  }

  /** The bound that saves one after the other keep, however many snapshots are lost, fails when they
      overlap: an event breaks it if and only if it is one of those two. */
  lemma EventKeepsBoundIff(s: System, e: Event)
    requires IdentityProtocol.Inv(s) && Enabled(s, e) && NotAhead(s.store)
    ensures NotAhead(Apply(s, e).store) <==> !Overtakes(s, e)
  {
    hide IdentityProtocol.Inv, NotAhead, AdvanceSaver, Protocol.Enabled, Protocol.Apply, Normalise, Acceptable;
    if e.Advance? {
      AdvanceKeepsBoundIff(s, e.w, e.now);
    }
  }

  ghost predicate AlwaysBounded(s: System, events: seq<Event>)
    requires CanRun(s, events)
    decreases |events|
  {
    NotAhead(s.store) && (events == [] || AlwaysBounded(Apply(s, events[0]), events[1..]))
  }

  ghost predicate NeverOvertaken(s: System, events: seq<Event>)
    requires CanRun(s, events)
    decreases |events|
  {
    events == [] || (!Overtakes(s, events[0]) && NeverOvertaken(Apply(s, events[0]), events[1..]))
  }

  lemma {:induction false} RunKeepsBoundIff(s: System, events: seq<Event>)
    requires IdentityProtocol.Inv(s) && NotAhead(s.store) && CanRun(s, events)
    ensures AlwaysBounded(s, events) <==> NeverOvertaken(s, events)
    decreases |events|
  {
    hide IdentityProtocol.Inv, NotAhead, Overtakes, Apply, Enabled;
    if events != [] {
      EventGood(s, events[0]);
      EventKeepsBoundIff(s, events[0]);
      if NotAhead(Apply(s, events[0]).store) {
        RunKeepsBoundIff(Apply(s, events[0]), events[1..]);
      }
    }
  }

  // In every state of a run from the empty store, no log is ahead of its document, if and only if no
  // event of the run is of those two kinds.
  lemma BoundedIffNeverOvertaken(events: seq<Event>)
    requires CanRun(Start, events)
    ensures AlwaysBounded(Start, events) <==> NeverOvertaken(Start, events)
  {
    hide IdentityProtocol.Inv, CanRun, AlwaysBounded, NeverOvertaken;
    StartInv();
    RunKeepsBoundIff(Start, events);
  }

  // ---------- it happens ----------

  predicate SameKey(a: Document, b: Document) {
    a.tenantId == b.tenantId && a.documentId == b.documentId
  }

  // A save of document i that has found its person and not yet loaded the document.
  predicate AboutToLoad(s: System, w: nat, i: nat) {
    i < |s.store.docs| && w in s.savers && s.savers[w].stage.Find? && SameKey(s.savers[w].document, s.store.docs[i])
  }

  lemma DocAtIs(docs: seq<Document>, i: nat)
    requires KeysUnique(docs) && i < |docs|
    ensures DocAt(docs, docs[i].tenantId, docs[i].documentId) == i
  {
  }

  // What the save writes.
  function NextOf(s: System, w: nat, i: nat): Document
    requires AboutToLoad(s, w, i)
  {
    Next(s.savers[w].document, s.store.docs[i], s.savers[w].stage.now)
  }

  lemma LoadStep(s: System, w: nat, i: nat, now: int)
    requires KeysUnique(s.store.docs) && AboutToLoad(s, w, i)
    ensures AdvanceSaver(s, w, now) == s.(savers := s.savers[w := s.savers[w].(stage := Write(NextOf(s, w, i), false))])
    ensures SameDocument(NextOf(s, w, i), s.store.docs[i]) && NextOf(s, w, i).version == s.store.docs[i].version + 1
  {
    DocAtIs(s.store.docs, i);
  }

  lemma WriteStep(s: System, w: nat, i: nat, d: Document, now: int)
    requires KeysUnique(s.store.docs) && i < |s.store.docs| && w in s.savers
    requires s.savers[w].stage == Write(d, false) && SameKey(d, s.store.docs[i])
    ensures AdvanceSaver(s, w, now) ==
      s.(store := s.store.(docs := s.store.docs[i := d]),
         savers := s.savers[w := s.savers[w].(stage := Append(EventOf(d, false, s.savers[w].actor)))])
    ensures KeysUnique(s.store.docs[i := d])
  {
    DocAtIs(s.store.docs, i);
  }

  /** Two saves that load a document before either writes it, whenever they began, store the same
      version, and once the first has logged it the snapshot of the second is refused. */
  lemma StaleSavesShareVersion(s: System, i: nat, v: nat, w: nat, now: int)
    requires KeysUnique(s.store.docs) && v != w && AboutToLoad(s, v, i) && AboutToLoad(s, w, i)
    ensures var t := AdvanceSaver(AdvanceSaver(s, v, now), w, now);
      v in t.savers && w in t.savers &&
      var t1 := AdvanceSaver(AdvanceSaver(t, v, now), w, now);
      i < |t1.store.docs| && t1.store.docs[i].version == s.store.docs[i].version + 1 &&
      v in t1.savers && w in t1.savers && t1.savers[v].stage.Append? && t1.savers[w].stage.Append? &&
      VersionTaken(AdvanceSaver(t1, v, now).store.history, t1.savers[w].stage.event)
  {
    hide EventOf, VersionTaken, KeysUnique, DocAt, TrimSpace, PersonKnown, DocumentId, AdvanceSaver;
    var a, b := NextOf(s, v, i), NextOf(s, w, i);
    LoadStep(s, v, i, now);
    var s1 := AdvanceSaver(s, v, now);
    LoadStep(s1, w, i, now);
    var t := AdvanceSaver(s1, w, now);
    WriteStep(t, v, i, a, now);
    var s3 := AdvanceSaver(t, v, now);
    WriteStep(s3, w, i, b, now);
    var t1 := AdvanceSaver(s3, w, now);
    var g, h := EventOf(a, false, s.savers[v].actor), EventOf(b, false, s.savers[w].actor);
    SnapshotsCollide(a, s.savers[v].actor, b, s.savers[w].actor);
    AppendStep(t1, v, now);
    LoggedIsTaken(t1.store, g, h);
  }

  lemma AppendStep(s: System, w: nat, now: int)
    requires w in s.savers && s.savers[w].stage.Append?
    ensures AdvanceSaver(s, w, now) == Finish(s, w, Log(s.store, s.savers[w].stage.event))
  {
  }

  lemma SnapshotsCollide(a: Document, actor: string, b: Document, other: string)
    requires SameKey(a, b) && a.version == b.version
    ensures SameVersion(EventOf(a, false, actor), EventOf(b, false, other))
  {
  }

  lemma LoggedIsTaken(store: Docs, g: Snapshot, h: Snapshot)
    requires SameVersion(g, h)
    ensures VersionTaken(Log(store, g).history, h)
  {
    var history := Log(store, g).history;
    if VersionTaken(store.history, g) {
      var k :| 0 <= k < |store.history| && SameVersion(store.history[k], g);
      assert SameVersion(history[k], h);
    } else {
      assert SameVersion(history[|store.history|], h);
    }
  }

  lemma AdvanceLeads(s: System, w: nat, now: int)
    requires w in s.savers
    ensures Leads(s, [Advance(w, now)], AdvanceSaver(s, w, now))
  {
    hide AdvanceSaver;
    LeadsByOne(s, Advance(w, now));
  }

  // A whole save, with nothing in between.
  lemma WholeSave(s: System, w: nat, i: nat, now: int) returns (t: System)
    requires KeysUnique(s.store.docs) && AboutToLoad(s, w, i)
    ensures Leads(s, [Advance(w, now), Advance(w, now), Advance(w, now)], t)
    ensures t.store.docs == s.store.docs[i := NextOf(s, w, i)] && KeysUnique(t.store.docs)
    ensures t.savers == s.savers - {w} && t.people == s.people
    ensures Logged(t.store.history, s.store.docs[i], s.store.docs[i].version + 1)
  {
    hide EventOf, VersionTaken, KeysUnique, DocAt, TrimSpace, PersonKnown, DocumentId, AdvanceSaver, Logged, Leads, Log;
    var d, h, e := NextOf(s, w, i), EventOf(NextOf(s, w, i), false, s.savers[w].actor), Advance(w, now);
    LoadStep(s, w, i, now);
    var s1 := AdvanceSaver(s, w, now);
    WriteStep(s1, w, i, d, now);
    var s2 := AdvanceSaver(s1, w, now);
    AppendStep(s2, w, now);
    t := AdvanceSaver(s2, w, now);
    SnapshotsCollide(d, s.savers[w].actor, d, s.savers[w].actor);
    LoggedIsTaken(s2.store, h, h);
    LogTells(s2.store, h);
    EventTells(d, false, s.savers[w].actor);
    TakenIsLogged(t.store.history, h, d, s.store.docs[i]);
    AdvanceLeads(s, w, now);
    AdvanceLeads(s1, w, now);
    AdvanceLeads(s2, w, now);
    LeadsOn(s, [e], s1, [e], s2);
    LeadsOn(s, [e] + [e], s2, [e], t);
    assert [e] + [e] + [e] == [e, e, e];
  }

  lemma LogTells(store: Docs, h: Snapshot)
    ensures Log(store, h).docs == store.docs
  {
  }

  lemma TakenIsLogged(history: seq<Snapshot>, h: Snapshot, d: Document, e: Document)
    requires VersionTaken(history, h) && SameKey(d, e) && h.tenantId == d.tenantId && h.documentId == d.documentId
    ensures Logged(history, e, h.version)
  {
    var k :| 0 <= k < |history| && SameVersion(history[k], h);
    assert OfDoc(history[k], e) && history[k].version == h.version;
  }

  // u loads, v and w save from beginning to end, and u writes.
  function StaleSchedule(u: nat, v: nat, w: nat, now: int): seq<Event> {
    [Advance(u, now), Advance(v, now), Advance(v, now), Advance(v, now),
     Advance(w, now), Advance(w, now), Advance(w, now), Advance(u, now)]
  }

  /** A save that loads a document and writes it only after two other saves of it are done puts it
      back to the version of the first, behind the version that the second has logged. */
  lemma StaleSaveFallsBehind(s: System, i: nat, u: nat, v: nat, w: nat, now: int)
    requires KeysUnique(s.store.docs) && u != v && u != w && v != w
    requires AboutToLoad(s, u, i) && AboutToLoad(s, v, i) && AboutToLoad(s, w, i)
    ensures exists t ::
      Leads(s, StaleSchedule(u, v, w, now), t) &&
      i < |t.store.docs| && t.store.docs[i].version == s.store.docs[i].version + 1 &&
      Logged(t.store.history, t.store.docs[i], s.store.docs[i].version + 2) && !NotAhead(t.store)
  {
    hide VersionTaken, KeysUnique, DocAt, TrimSpace, PersonKnown, DocumentId, AdvanceSaver, Logged, NotAhead, Leads;
    LoadStep(s, u, i, now);
    var s1 := AdvanceSaver(s, u, now);
    var s2 := WholeSave(s1, v, i, now);
    var s3 := WholeSave(s2, w, i, now);
    WriteStep(s3, u, i, NextOf(s, u, i), now);
    var t := AdvanceSaver(s3, u, now);
    SameDocLogged(t.store.history, s2.store.docs[i], t.store.docs[i], s.store.docs[i].version + 2);
    LoggedAhead(t.store, i, s.store.docs[i].version + 2);
    AdvanceLeads(s, u, now);
    AdvanceLeads(s3, u, now);
    ScheduleLeads(s, s1, s2, s3, t, u, v, w, now);
  }

  lemma ScheduleLeads(s: System, s1: System, s2: System, s3: System, t: System, u: nat, v: nat, w: nat, now: int)
    requires Leads(s, [Advance(u, now)], s1) && Leads(s1, [Advance(v, now), Advance(v, now), Advance(v, now)], s2)
    requires Leads(s2, [Advance(w, now), Advance(w, now), Advance(w, now)], s3) && Leads(s3, [Advance(u, now)], t)
    ensures Leads(s, StaleSchedule(u, v, w, now), t)
  {
    hide Leads;
    var eu, ev, ew := Advance(u, now), Advance(v, now), Advance(w, now);
    LeadsOn(s, [eu], s1, [ev, ev, ev], s2);
    LeadsOn(s, [eu] + [ev, ev, ev], s2, [ew, ew, ew], s3);
    LeadsOn(s, [eu] + [ev, ev, ev] + [ew, ew, ew], s3, [eu], t);
    assert [eu] + [ev, ev, ev] + [ew, ew, ew] + [eu] == StaleSchedule(u, v, w, now);
  }

  lemma SameDocLogged(history: seq<Snapshot>, d: Document, e: Document, version: int)
    requires Logged(history, d, version) && SameKey(d, e)
    ensures Logged(history, e, version)
  {
    var k :| 0 <= k < |history| && OfDoc(history[k], d) && history[k].version == version;
    assert OfDoc(history[k], e);
  }

  lemma LoggedAhead(store: Docs, i: nat, version: int)
    requires i < |store.docs| && Logged(store.history, store.docs[i], version) && store.docs[i].version < version
    ensures !NotAhead(store)
  {
  }

  // ---------- and from the empty store ----------

  // Begins a save of d that finds its person and will load the stored document.
  lemma BeginsLoad(s: System, w: nat, i: nat, now: int) returns (t: System)
    requires i < |s.store.docs| && Resavable(s, s.store.docs[i]) && w !in s.savers
    ensures Leads(s, [Begin(w, s.store.docs[i], ""), Advance(w, now)], t)
    ensures t.store == s.store && t.people == s.people && AboutToLoad(t, w, i)
    ensures t.savers == s.savers[w := t.savers[w]]
  {
    hide Normalise, Acceptable, PersonKnown, Leads;
    var d := s.store.docs[i];
    var s1 := s.(savers := s.savers[w := Saver(d, "", Count)]);
    LeadsByOne(s, Begin(w, d, ""));
    AdvanceLeads(s1, w, now);
    t := s1.(savers := s1.savers[w := Saver(d, "", Find(now))]);
    LeadsOn(s, [Begin(w, d, "")], s1, [Advance(w, now)], t);
    assert [Begin(w, d, "")] + [Advance(w, now)] == [Begin(w, d, ""), Advance(w, now)];
  }

  predicate Resavable(s: System, d: Document) {
    Normalise(d) == d && Acceptable(d) && !IsNew(d) && PersonKnown(s.people.db.people, d)
  }

  lemma StaleSaveHappens(s: System, i: nat, now: int) returns (events: seq<Event>, t: System)
    requires KeysUnique(s.store.docs) && i < |s.store.docs| && Resavable(s, s.store.docs[i]) && s.savers == map[]
    ensures Leads(s, events, t) && !NotAhead(t.store)
  {
    hide Leads, Resavable, NotAhead, KeysUnique, Logged;
    var d := s.store.docs[i];
    var s1 := BeginsLoad(s, 0, i, now);
    SameResavable(s, s1, d);
    var s2 := BeginsLoad(s1, 1, i, now);
    SameResavable(s1, s2, d);
    var s3 := BeginsLoad(s2, 2, i, now);
    StaleSaveFallsBehind(s3, i, 0, 1, 2, now);
    t :| Leads(s3, StaleSchedule(0, 1, 2, now), t) && !NotAhead(t.store);
    events := [Begin(0, d, ""), Advance(0, now)] + [Begin(1, d, ""), Advance(1, now)];
    LeadsOn(s, [Begin(0, d, ""), Advance(0, now)], s1, [Begin(1, d, ""), Advance(1, now)], s2);
    LeadsOn(s, events, s2, [Begin(2, d, ""), Advance(2, now)], s3);
    events := events + [Begin(2, d, ""), Advance(2, now)];
    LeadsOn(s, events, s3, StaleSchedule(0, 1, 2, now), t);
    events := events + StaleSchedule(0, 1, 2, now);
  }

  lemma SameResavable(s: System, t: System, d: Document)
    requires Resavable(s, d) && t.people == s.people
    ensures Resavable(t, d)
  {
  }

  // Saves a new document in a store that has none.
  lemma FirstDocument(s: System, d: Document, now: int) returns (t: System)
    requires s.store.docs == [] && s.savers == map[] && d.documentId == "" && Normalise(d) == d && Acceptable(d)
    requires PersonKnown(s.people.db.people, d)
    ensures Leads(s, [Begin(0, d, ""), Advance(0, now), Advance(0, now), Crash(0)], t)
    ensures t.store.docs == [First(d, s.store.nextId, now)] && t.people == s.people && t.savers == map[]
  {
    hide Normalise, Acceptable, PersonKnown, Leads, EventOf, First;
    var e, d' := Advance(0, now), First(d, s.store.nextId, now);
    var s1 := s.(savers := map[0 := Saver(d, "", Count)]);
    assert s.savers[0 := Saver(d, "", Count)] == s1.savers;
    LeadsByOne(s, Begin(0, d, ""));
    var s2 := AdvanceSaver(s1, 0, now);
    AdvanceLeads(s1, 0, now);
    assert s2.savers[0].stage == Write(d', true);
    var s3 := AdvanceSaver(s2, 0, now);
    AdvanceLeads(s2, 0, now);
    t := Finish(s3, 0, s3.store);
    LeadsByOne(s3, Crash(0));
    LeadsOn(s, [Begin(0, d, "")], s1, [e], s2);
    LeadsOn(s, [Begin(0, d, "")] + [e], s2, [e], s3);
    LeadsOn(s, [Begin(0, d, "")] + [e] + [e], s3, [Crash(0)], t);
    assert [Begin(0, d, "")] + [e] + [e] + [Crash(0)] == [Begin(0, d, ""), e, e, Crash(0)];
  }

  function OfPeople(events: seq<Protocol.Event>): seq<Event> {
    seq(|events|, k requires 0 <= k < |events| => People(events[k]))
  }

  lemma {:induction false} PeopleLead(s: System, events: seq<Protocol.Event>, t: Protocol.System)
    requires Protocol.Leads(s.people, events, t)
    ensures Leads(s, OfPeople(events), s.(people := t))
    decreases |events|
  {
    assert Protocol.CanRun(s.people, events);
    if events != [] {
      assert Protocol.Enabled(s.people, events[0]);
      hide Protocol.Apply, Protocol.Enabled;
      var s1 := s.(people := Protocol.Apply(s.people, events[0]));
      PeopleLead(s1, events[1..], t);
      LeadsByOne(s, People(events[0]));
      LeadsOn(s, [People(events[0])], s1, OfPeople(events[1..]), s.(people := t));
      assert [People(events[0])] + OfPeople(events[1..]) == OfPeople(events);
    }
  }

  /** A document whose person some run of entity resolution has made is enough to reach a log that is
      ahead of its document, from the empty store. */
  lemma StaleSaveIsReached(events: seq<Protocol.Event>, people: Protocol.System, d: Document, now: int)
    requires Protocol.Leads(Protocol.Empty, events, people) && PersonKnown(people.db.people, d)
    requires d.documentId == "" && Normalise(d) == d && Acceptable(d)
    ensures exists run, t :: Leads(Start, run, t) && !NotAhead(t.store)
  {
    hide Protocol.Leads, PersonKnown, Normalise, Acceptable, Leads, NotAhead;
    var s1 := Start.(people := people);
    PeopleLead(Start, events, people);
    var s2 := FirstDocument(s1, d, now);
    LeadsOn(Start, OfPeople(events), s1, [Begin(0, d, ""), Advance(0, now), Advance(0, now), Crash(0)], s2);
    FirstResavable(s2, d, s1.store.nextId, now);
    var more, t := StaleSaveHappens(s2, 0, now);
    var run := OfPeople(events) + [Begin(0, d, ""), Advance(0, now), Advance(0, now), Crash(0)];
    LeadsOn(Start, run, s2, more, t);
  }

  lemma FirstResavable(s: System, d: Document, nextId: nat, now: int)
    requires Normalise(d) == d && Acceptable(d) && PersonKnown(s.people.db.people, d)
    ensures Resavable(s, First(d, nextId, now))
  {
    hide TrimSpace, Normalise, Acceptable, Protocol.PersonKeys, DocumentId;
    DocumentIdIssued(nextId + 1, nextId + 2);
    RenamedNormal(d, First(d, nextId, now));
  }
}
