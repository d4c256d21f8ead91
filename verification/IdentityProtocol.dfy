/** Saving identity documents while other saves, and the requests of entity resolution, go on: the
    store calls of a save are separate steps, and a save may stop between any two of them. */
module IdentityProtocol {
  import opened Text
  import opened IdentityDocuments
  import opened Entities
  import Protocol = ResolveProtocol

  // The store call that a save makes next. The document is normalised before the first.
  datatype Stage =
    | Count
    | Find(now: int)
    | Write(document: Document, isNew: bool)
    | Append(event: Snapshot)

  datatype Saver = Saver(document: Document, actor: string, stage: Stage)

  datatype System = System(people: Protocol.System, store: Docs, savers: map<nat, Saver>)

  datatype Event =
    | People(event: Protocol.Event)
    | Begin(w: nat, document: Document, actor: string)
    | Advance(w: nat, now: int)
    | Crash(w: nat)

  ghost predicate Enabled(s: System, e: Event) {
    match e
    case People(event) => Protocol.Enabled(s.people, event)
    case Begin(w, document, _) => w !in s.savers && Acceptable(Normalise(document))
    case Advance(w, _) => w in s.savers
    case Crash(w) => w in s.savers
  }

  function Finish(s: System, w: nat, store: Docs): System {
    s.(store := store, savers := s.savers - {w})
  }

  function Continue(s: System, w: nat, store: Docs, stage: Stage): System
    requires w in s.savers
  {
    s.(store := store, savers := s.savers[w := s.savers[w].(stage := stage)])
  }

  predicate PersonKnown(people: seq<Person>, d: Document) {
    (d.tenantId, d.personId) in Protocol.PersonKeys(people)
  }

  // The unique index identity_documents_tenant_document.
  predicate KeyTaken(docs: seq<Document>, d: Document) {
    0 <= DocAt(docs, d.tenantId, d.documentId)
  }

  function AdvanceSaver(s: System, w: nat, now: int): System
    requires w in s.savers
  {
    var d, store := s.savers[w].document, s.store;
    match s.savers[w].stage
    case Count =>
      if !PersonKnown(s.people.db.people, d) then Finish(s, w, store)
      else if IsNew(d) then Continue(s, w, store.(nextId := store.nextId + 2), Write(First(d, store.nextId, now), true))
      else Continue(s, w, store, Find(now))
    case Find(began) =>
      var i := DocAt(store.docs, d.tenantId, d.documentId);
      if i < 0 then Finish(s, w, store) else Continue(s, w, store, Write(Next(d, store.docs[i], began), false))
    case Write(d', isNew) =>
      if isNew && KeyTaken(store.docs, d') then Finish(s, w, store)
      else Continue(s, w, Put(store, d', isNew), Append(EventOf(d', isNew, s.savers[w].actor)))
    case Append(event) => Finish(s, w, Log(store, event))
  }

  ghost function Apply(s: System, e: Event): System
    requires Enabled(s, e)
  {
    match e
    case People(event) => s.(people := Protocol.Apply(s.people, event))
    case Begin(w, document, actor) => s.(savers := s.savers[w := Saver(Normalise(document), actor, Count)])
    case Advance(w, now) => AdvanceSaver(s, w, now)
    case Crash(w) => Finish(s, w, s.store)
  }

  ghost predicate CanRun(s: System, events: seq<Event>)
    decreases |events|
  {
    events == [] || (Enabled(s, events[0]) && CanRun(Apply(s, events[0]), events[1..]))
  }

  ghost function Run(s: System, events: seq<Event>): System
    requires CanRun(s, events)
    decreases |events|
  {
    if events == [] then s else Run(Apply(s, events[0]), events[1..])
  }

  ghost predicate Leads(s: System, events: seq<Event>, t: System) {
    CanRun(s, events) && Run(s, events) == t
  }

  lemma {:induction false} LeadsOn(s: System, a: seq<Event>, t: System, b: seq<Event>, u: System)
    requires Leads(s, a, t) && Leads(t, b, u)
    ensures Leads(s, a + b, u)
    decreases |a|
  {
    hide Enabled, Apply;
    if a == [] {
      assert a + b == b;
    } else {
      LeadsOn(Apply(s, a[0]), a[1..], t, b, u);
      assert (a + b)[1..] == a[1..] + b;
    }
  }

  lemma LeadsByOne(s: System, e: Event)
    requires Enabled(s, e)
    ensures Leads(s, [e], Apply(s, e))
  {
    hide Enabled, AdvanceSaver, Finish, Protocol.Apply, Protocol.Enabled;
    assert [e][0] == e && [e][1..] == [];
    assert CanRun(Apply(s, e), []) && Run(Apply(s, e), []) == Apply(s, e);
  }

  const Start: System := System(Protocol.Empty, IdentityDocuments.Empty, map[])

  // ---------- the invariant ----------

  ghost predicate KeysUnique(docs: seq<Document>) {
    forall i, j :: 0 <= i < j < |docs| ==>
      !(docs[i].tenantId == docs[j].tenantId && docs[i].documentId == docs[j].documentId)
  }

  predicate SameDocument(a: Document, b: Document) {
    a.tenantId == b.tenantId && a.documentId == b.documentId && a.id == b.id && a.createdAt == b.createdAt
  }

  ghost predicate IsStored(docs: seq<Document>, d: Document) {
    exists i :: 0 <= i < |docs| && SameDocument(docs[i], d)
  }

  // A snapshot was taken of a document that is still there.
  ghost predicate SnapshotOk(docs: seq<Document>, people: seq<Person>, h: Snapshot) {
    IsStored(docs, h.document) && h.tenantId == h.document.tenantId && h.documentId == h.document.documentId &&
    PersonKnown(people, h.document)
  }

  ghost predicate VersionsUnique(history: seq<Snapshot>) {
    forall j, k :: 0 <= j < k < |history| ==> !SameVersion(history[j], history[k])
  }

  ghost predicate StoreInv(store: Docs, people: seq<Person>) {
    KeysUnique(store.docs) && VersionsUnique(store.history) &&
    (forall i :: 0 <= i < |store.docs| ==> PersonKnown(people, store.docs[i]) && 1 <= store.docs[i].version) &&
    (forall k :: 0 <= k < |store.history| ==> SnapshotOk(store.docs, people, store.history[k]))
  }

  ghost predicate SaverInv(k: Saver, store: Docs, people: seq<Person>) {
    match k.stage
    case Count => true
    case Find(_) => PersonKnown(people, k.document)
    case Write(d, isNew) => PersonKnown(people, d) && 1 <= d.version &&
      (if isNew then d.version == 1 else IsStored(store.docs, d))
    case Append(h) => SnapshotOk(store.docs, people, h)
  }

  ghost predicate Inv(s: System) {
    Protocol.Inv(s.people) && StoreInv(s.store, s.people.db.people) &&
    forall w :: w in s.savers ==> SaverInv(s.savers[w], s.store, s.people.db.people)
  }

  // Documents stay where they are and keep their id, documentId, tenant and createdAt.
  ghost predicate Keeps(a: seq<Document>, b: seq<Document>) {
    |a| <= |b| && forall i :: 0 <= i < |a| ==> SameDocument(b[i], a[i])
  }

  // ---------- what survives ----------

  lemma IsStoredSurvives(a: seq<Document>, b: seq<Document>, d: Document)
    requires Keeps(a, b) && IsStored(a, d)
    ensures IsStored(b, d)
  {
    var i :| 0 <= i < |a| && SameDocument(a[i], d);
    assert SameDocument(b[i], d);
  }

  lemma SnapshotSurvives(a: seq<Document>, b: seq<Document>, p: seq<Person>, q: seq<Person>, h: Snapshot)
    requires Keeps(a, b) && SnapshotOk(a, p, h) && Protocol.PersonKeys(p) <= Protocol.PersonKeys(q)
    ensures SnapshotOk(b, q, h)
  {
    hide IsStored, Protocol.PersonKeys;
    IsStoredSurvives(a, b, h.document);
  }

  lemma SaverSurvives(k: Saver, a: Docs, b: Docs, p: seq<Person>, q: seq<Person>)
    requires SaverInv(k, a, p) && Keeps(a.docs, b.docs) && Protocol.PersonKeys(p) <= Protocol.PersonKeys(q)
    ensures SaverInv(k, b, q)
  {
    hide IsStored, SnapshotOk, Protocol.PersonKeys;
    match k.stage {
      case Count =>
      case Find(_) =>
      case Write(d, isNew) => if !isNew { IsStoredSurvives(a.docs, b.docs, d); }
      case Append(h) => SnapshotSurvives(a.docs, b.docs, p, q, h);
    }
  }

  // The savers that an event does not move keep their part of the invariant.
  lemma Survive(s: System, t: System)
    requires Inv(s) && Protocol.Inv(t.people) && StoreInv(t.store, t.people.db.people) &&
      Keeps(s.store.docs, t.store.docs)
    requires Protocol.PersonKeys(s.people.db.people) <= Protocol.PersonKeys(t.people.db.people)
    requires forall w :: w in t.savers ==>
      SaverInv(t.savers[w], t.store, t.people.db.people) || (w in s.savers && t.savers[w] == s.savers[w])
    ensures Inv(t)
  {
    hide SaverInv, StoreInv, Protocol.Inv, Keeps, Protocol.PersonKeys;
    forall w | w in t.savers ensures SaverInv(t.savers[w], t.store, t.people.db.people) {
      if w in s.savers && t.savers[w] == s.savers[w] {
        SaverSurvives(s.savers[w], s.store, t.store, s.people.db.people, t.people.db.people);
      }
    }
  }

  // ---------- one event ----------

  lemma PeopleGood(s: System, e: Protocol.Event)
    requires Inv(s) && Protocol.Enabled(s.people, e)
    ensures Inv(Apply(s, People(e))) && Keeps(s.store.docs, Apply(s, People(e)).store.docs)
  {
    hide Protocol.PersonKeys, PersonKnown, Protocol.Inv, Protocol.Apply, Protocol.Enabled, IsStored;
    var t := Apply(s, People(e));
    Protocol.EventGood(s.people, e);
    var p, q := s.people.db.people, t.people.db.people;
    forall k | 0 <= k < |t.store.history| ensures SnapshotOk(t.store.docs, q, t.store.history[k]) {
      SnapshotSurvives(s.store.docs, t.store.docs, p, q, t.store.history[k]);
    }
    forall i | 0 <= i < |t.store.docs| ensures PersonKnown(q, t.store.docs[i]) {
      StillKnown(p, q, t.store.docs[i]);
    }
    Survive(s, t);
  }

  lemma StillKnown(p: seq<Person>, q: seq<Person>, d: Document)
    requires PersonKnown(p, d) && Protocol.PersonKeys(p) <= Protocol.PersonKeys(q)
    ensures PersonKnown(q, d)
  {
    hide Protocol.PersonKeys;
  }

  lemma DocAtMatches(docs: seq<Document>, d: Document)
    requires KeysUnique(docs) && IsStored(docs, d)
    ensures var i := DocAt(docs, d.tenantId, d.documentId);
      0 <= i && SameDocument(docs[i], d)
  {
    var i :| 0 <= i < |docs| && SameDocument(docs[i], d);
    assert DocAt(docs, d.tenantId, d.documentId) == i;
  }

  lemma PutGood(store: Docs, d: Document, isNew: bool, people: seq<Person>)
    requires StoreInv(store, people) && PersonKnown(people, d) && 1 <= d.version
    requires if isNew then !KeyTaken(store.docs, d) else IsStored(store.docs, d)
    ensures var t := Put(store, d, isNew);
      StoreInv(t, people) && Keeps(store.docs, t.docs) && IsStored(t.docs, d)
  {
    hide Protocol.PersonKeys, SnapshotOk, SameVersion;
    var t := Put(store, d, isNew);
    if isNew {
      assert SameDocument(t.docs[|store.docs|], d);
    } else {
      DocAtMatches(store.docs, d);
      assert SameDocument(t.docs[DocAt(store.docs, d.tenantId, d.documentId)], d);
    }
    forall k | 0 <= k < |t.history| ensures SnapshotOk(t.docs, people, t.history[k]) {
      SnapshotSurvives(store.docs, t.docs, people, people, t.history[k]);
    }
  }

  lemma LogGood(store: Docs, h: Snapshot, people: seq<Person>)
    requires StoreInv(store, people) && SnapshotOk(store.docs, people, h)
    ensures StoreInv(Log(store, h), people)
  {
    hide SnapshotOk, PersonKnown, SameVersion;
  }

  lemma AdvanceGood(s: System, w: nat, now: int)
    requires Inv(s) && w in s.savers
    ensures Inv(AdvanceSaver(s, w, now)) && Keeps(s.store.docs, AdvanceSaver(s, w, now).store.docs)
  {
    hide Protocol.PersonKeys, Protocol.Inv, TrimSpace, VersionTaken, DocumentId;
    var t, k, people := AdvanceSaver(s, w, now), s.savers[w], s.people.db.people;
    assert SaverInv(k, s.store, people);
    match k.stage {
      case Count => Unmoved(s, t);
      case Find(began) =>
        var i := DocAt(s.store.docs, k.document.tenantId, k.document.documentId);
        if 0 <= i {
          assert SameDocument(s.store.docs[i], Next(k.document, s.store.docs[i], began));
        }
        Unmoved(s, t);
      case Write(d, isNew) =>
        hide StoreInv, IsStored, Protocol.PersonKeys, KeyTaken, Put, EventOf;
        if isNew && KeyTaken(s.store.docs, d) {
          Unmoved(s, t);
        } else {
          PutGood(s.store, d, isNew, people);
          EventTells(d, isNew, k.actor);
        }
      case Append(h) =>
        LogGood(s.store, h, people);
    }
    hide StoreInv, Protocol.PersonKeys, Protocol.Inv, SaverInv, Put;
    Survive(s, t);
  }

  lemma Unmoved(s: System, t: System)
    requires Inv(s) && t.store.docs == s.store.docs && t.store.history == s.store.history && t.people == s.people
    ensures StoreInv(t.store, t.people.db.people) && Keeps(s.store.docs, t.store.docs)
  {
    hide SnapshotOk, PersonKnown, SameVersion;
  }

  lemma EventTells(d: Document, isNew: bool, actor: string)
    ensures var h := EventOf(d, isNew, actor);
      h.document == d && h.tenantId == d.tenantId && h.documentId == d.documentId && h.version == d.version
  {
  }

  lemma EventGood(s: System, e: Event)
    requires Inv(s) && Enabled(s, e)
    ensures Inv(Apply(s, e)) && Keeps(s.store.docs, Apply(s, e).store.docs)
  {
    match e {
      case People(event) => PeopleGood(s, event);
      case Begin(w, document, actor) =>
        Unmoved(s, Apply(s, e));
        hide StoreInv, Normalise, Acceptable, Protocol.Inv, Protocol.PersonKeys;
        Survive(s, Apply(s, e));
      case Advance(w, now) => AdvanceGood(s, w, now);
      case Crash(w) =>
        Unmoved(s, Apply(s, e));
        hide StoreInv, SaverInv, Protocol.Inv, Protocol.PersonKeys;
        Survive(s, Apply(s, e));
    }
  }

  // ---------- every run ----------

  /** Whatever interleaves, a stored document stays, with its id, documentId, tenant and creation
      time. */
  lemma {:induction false} RunIsSafe(s: System, events: seq<Event>)
    requires Inv(s) && CanRun(s, events)
    ensures Inv(Run(s, events)) && Keeps(s.store.docs, Run(s, events).store.docs)
    decreases |events|
  {
    hide Inv, Apply, Enabled;
    if events != [] {
      EventGood(s, events[0]);
      RunIsSafe(Apply(s, events[0]), events[1..]);
    }
  }

  lemma StartInv()
    ensures Inv(Start)
  {
    Protocol.EmptyInv();
  }

  /** In every reachable state, every identity document and every snapshot of one names an existing
      person of its own tenant, every snapshot is of a document that is there, and no version of a
      document was logged twice. */
  lemma DocumentsReferToPeople(events: seq<Event>)
    requires CanRun(Start, events)
    ensures var s := Run(Start, events);
      (forall d :: d in s.store.docs ==> PersonExists(s.people.db.people, d)) &&
      (forall h :: h in s.store.history ==>
        PersonExists(s.people.db.people, h.document) && IsStored(s.store.docs, h.document)) &&
      VersionsUnique(s.store.history)
  {
    hide Run, CanRun, IsStored, VersionsUnique, KeysUnique;
    StartInv();
    RunIsSafe(Start, events);
    var s := Run(Start, events);
    assert StoreInv(s.store, s.people.db.people);
    forall d | PersonKnown(s.people.db.people, d) ensures PersonExists(s.people.db.people, d) {
      KnownExists(s.people.db.people, d);
    }
    hide PersonKnown, PersonExists;
    forall h | h in s.store.history
      ensures PersonKnown(s.people.db.people, h.document) && IsStored(s.store.docs, h.document)
    {
      var k :| 0 <= k < |s.store.history| && s.store.history[k] == h;
      assert SnapshotOk(s.store.docs, s.people.db.people, s.store.history[k]);
    }
  }

  ghost predicate PersonExists(people: seq<Person>, d: Document) {
    exists p :: p in people && p.tenantId == d.tenantId && p.personId == d.personId
  }

  lemma KnownExists(people: seq<Person>, d: Document)
    requires PersonKnown(people, d)
    ensures PersonExists(people, d)
  {
    var p :| p in people && (d.tenantId, d.personId) == (p.tenantId, p.personId);
    assert p in people && p.tenantId == d.tenantId && p.personId == d.personId;
  }
}
