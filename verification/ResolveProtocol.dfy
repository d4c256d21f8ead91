/** Entity resolution as a protocol: any number of Resolve requests, ingests and review decisions
    interleave one store call at a time, the two writes of an ingest being two events, and a
    request may stop between any two of its calls. */
module ResolveProtocol {
  import opened Text
  import opened Entities

  // ---------- requests in progress ----------

  // The store call that a request makes next for the record at its position in the batch.
  datatype Stage =
    | Look
    | Insert
    | Amend(personId: string)
    | Connect(personId: string)
    | Mark(personId: string)

  // batch is the snapshot that ListRawByStatus returned when the request began.
  datatype Worker = Worker(tenantId: string, batch: seq<Raw>, pos: nat, stage: Stage, review: seq<ObjectId>)

  datatype System = System(db: Db, workers: map<nat, Worker>)

  datatype Event =
    | NameSource(tenantId: string, slug: string, name: string)
    | Ingest(tenantId: string, slug: string, payloads: seq<Payload>)
    | Begin(w: nat, tenantId: string, limit: int)
    | Advance(w: nat, found: Option<string>)
    | Crash(w: nat)
    | Decide(tenantId: string, rawId: ObjectId, accept: bool)

  // ---------- one event ----------

  function Record(k: Worker): Raw
    requires k.pos < |k.batch|
  {
    k.batch[k.pos]
  }

  predicate AtLook(k: Worker) {
    k.pos < |k.batch| && k.stage == Look && !ForReview(Record(k))
  }

  ghost predicate Enabled(s: System, e: Event) {
    match e
    case NameSource(_, slug, _) => TrimSpace(slug) != ""
    case Ingest(_, slug, payloads) => TrimSpace(slug) != "" && payloads != []
    case Begin(w, tenantId, _) => w !in s.workers && TrimSpace(tenantId) != ""
    case Advance(w, found) =>
      w in s.workers &&
      var k := s.workers[w];
      AtLook(k) ==> FindOnePerson(s.db.people, k.tenantId, ExtractIdentifiers(Record(k).payload), found)
    case Crash(w) => w in s.workers
    case Decide(_, _, _) => true
  }

  function NextRecord(k: Worker): Worker {
    k.(pos := k.pos + 1, stage := Look)
  }

  // A request that has nothing left to do, or whose store call failed, is gone.
  function Finish(s: System, w: nat, db: Db): System {
    System(db, s.workers - {w})
  }

  function Continue(s: System, w: nat, db: Db, k: Worker): System {
    System(db, s.workers[w := k])
  }

  function AdvanceWorker(s: System, w: nat, found: Option<string>): System
    requires w in s.workers
  {
    var db, k := s.db, s.workers[w];
    if |k.batch| <= k.pos then
      if k.review == [] then Finish(s, w, db)
      else Finish(s, w, db.(raws := UpdateRawStatus(db.raws, k.tenantId, k.review, NeedsReview, "")))
    else
      var rec := Record(k);
      var ids := ExtractIdentifiers(rec.payload);
      match k.stage
      case Look =>
        if NoIdentifiers(ids) then Continue(s, w, db, NextRecord(k).(review := k.review + [rec.id]))
        else if found.None? then Continue(s, w, db, k.(stage := Insert))
        else Continue(s, w, db, k.(stage := Amend(found.value)))
      case Insert =>
        Continue(s, w, CreatePerson(db, k.tenantId, ids, rec.payload), k.(stage := Connect(Hex(db.nextId))))
      case Amend(pid) =>
        Continue(s, w, UpdatePersonIdentifiers(db, pid, ids), k.(stage := Connect(pid)))
      case Connect(pid) =>
        (match UpsertLink(db.links, k.tenantId, pid, rec.sourceSlug, ExternalId(rec), rec.payload)
         case Linked(links) => Continue(s, w, db.(links := links), k.(stage := Mark(pid)))
         case Refused(_) => Finish(s, w, db))
      case Mark(pid) =>
        Continue(s, w, db.(raws := UpdateRawStatus(db.raws, k.tenantId, [rec.id], Resolved, pid)), NextRecord(k))
  }

  function Apply(s: System, e: Event): System
    requires e.Advance? ==> e.w in s.workers
  {
    match e
    case NameSource(tenantId, slug, name) => s.(db := UpsertSource(s.db, tenantId, TrimSpace(slug), name))
    case Ingest(tenantId, slug, payloads) => s.(db := InsertRaws(s.db, tenantId, TrimSpace(slug), payloads))
    case Begin(w, tenantId, limit) =>
      Continue(s, w, s.db, Worker(tenantId, ListRawByStatus(s.db.raws, tenantId, Pending, limit), 0, Look, []))
    case Advance(w, found) => AdvanceWorker(s, w, found)
    case Crash(w) => Finish(s, w, s.db)
    case Decide(tenantId, rawId, accept) =>
      s.(db := s.db.(raws := UpdateRawStatus(s.db.raws, tenantId, [rawId], if accept then Resolved else Rejected, "")))
  }

  // ---------- runs ----------

  ghost predicate CanRun(s: System, events: seq<Event>)
    decreases |events|
  {
    events == [] || (Enabled(s, events[0]) && CanRun(Apply(s, events[0]), events[1..]))
  }

  ghost function Run(s: System, events: seq<Event>): System
    requires CanRun(s, events)
    decreases |events|
  {
    if events == [] then s else Run(Apply(s, events[0]), events[1..])
  }

  lemma {:induction false} RunConcat(s: System, a: seq<Event>, b: seq<Event>)
    requires CanRun(s, a) && CanRun(Run(s, a), b)
    ensures CanRun(s, a + b) && Run(s, a + b) == Run(Run(s, a), b)
    decreases |a|
  {
    hide Enabled, Apply, FindOnePerson;
    if a == [] {
      assert a + b == b;
    } else {
      assert (a + b)[1..] == a[1..] + b;
      CanRunStep(s, a);
      RunConcat(Apply(s, a[0]), a[1..], b);
    }
  }

  lemma CanRunStep(s: System, events: seq<Event>)
    requires events != [] && CanRun(s, events)
    ensures Enabled(s, events[0]) && (events[0].Advance? ==> events[0].w in s.workers)
    ensures CanRun(Apply(s, events[0]), events[1..]) && Run(s, events) == Run(Apply(s, events[0]), events[1..])
  {
  }

  // The events can happen one after the other, and lead there.
  ghost predicate Leads(s: System, events: seq<Event>, t: System) {
    CanRun(s, events) && Run(s, events) == t
  }

  lemma LeadsOn(s: System, a: seq<Event>, t: System, b: seq<Event>, u: System)
    requires Leads(s, a, t) && Leads(t, b, u)
    ensures Leads(s, a + b, u)
  {
    hide Enabled, Apply, Run, CanRun;
    RunConcat(s, a, b);
  }

  lemma LeadsByOne(s: System, e: Event)
    requires Enabled(s, e)
    ensures Leads(s, [e], Apply(s, e))
  {
    assert [e][1..] == [];
  }

  const Empty: System := System(NO_DATA, map[])

  // ---------- the invariant ----------

  function PersonKeys(people: seq<Person>): set<(string, string)> {
    set p | p in people :: (p.tenantId, p.personId)
  }

  function LinkKeys(links: seq<Link>): set<(string, string, string, string)> {
    set l | l in links :: (l.tenantId, l.personId, l.source, l.externalId)
  }

  // The unique index links_external.
  ghost predicate LinksUnique(links: seq<Link>) {
    forall i, j | 0 <= i < |links| && 0 <= j < |links| ::
      SameExternal(links[i], links[j].tenantId, links[j].source, links[j].externalId) ==> i == j
  }

  // Every personId is the text of an ObjectID handed out before.
  predicate Issued(personId: string, nextId: nat) {
    personId == Hex(FromHex(personId)) && FromHex(personId) < nextId
  }

  ghost predicate PeopleInv(db: Db) {
    (forall i :: 0 <= i < |db.people| ==> Issued(db.people[i].personId, db.nextId)) &&
    (forall i, j :: 0 <= i < j < |db.people| ==> db.people[i].personId != db.people[j].personId)
  }

  ghost predicate LinksInv(db: Db) {
    LinksUnique(db.links) &&
    (forall l :: l in db.links ==> (l.tenantId, l.personId) in PersonKeys(db.people))
  }

  // What a personId written to a raw record promises.
  predicate Backed(r: Raw, links: seq<Link>) {
    r.personId != "" ==> (r.tenantId, r.personId, r.sourceSlug, ExternalId(r)) in LinkKeys(links)
  }

  ghost predicate RawsInv(db: Db) {
    (forall i :: 0 <= i < |db.raws| ==>
      db.raws[i].id < db.nextId && TrimSpace(db.raws[i].sourceSlug) != "" && Backed(db.raws[i], db.links)) &&
    (forall i, j :: 0 <= i < j < |db.raws| ==> db.raws[i].id != db.raws[j].id)
  }

  ghost predicate DbInv(db: Db) {
    PeopleInv(db) && LinksInv(db) && RawsInv(db)
  }

  // The parts of a raw record that no store call rewrites.
  predicate SameRecord(r: Raw, rec: Raw) {
    r.id == rec.id && r.tenantId == rec.tenantId && r.sourceSlug == rec.sourceSlug && r.payload == rec.payload
  }

  // A batch entry still agrees with the stored record of the same id.
  ghost predicate Current(rec: Raw, db: Db, tenantId: string) {
    rec.tenantId == tenantId && rec.id < db.nextId && TrimSpace(rec.sourceSlug) != "" &&
    (forall i :: 0 <= i < |db.raws| && db.raws[i].id == rec.id ==> SameRecord(db.raws[i], rec))
  }

  predicate StageInv(k: Worker, db: Db) {
    k.pos < |k.batch| ==>
      match k.stage
      case Look => true
      case Insert => true
      case Amend(pid) => (k.tenantId, pid) in PersonKeys(db.people)
      case Connect(pid) => (k.tenantId, pid) in PersonKeys(db.people)
      case Mark(pid) => (k.tenantId, pid, Record(k).sourceSlug, ExternalId(Record(k))) in LinkKeys(db.links)
  }

  ghost predicate WorkerInv(k: Worker, db: Db) {
    (forall i :: 0 <= i < |k.batch| ==> Current(k.batch[i], db, k.tenantId)) && StageInv(k, db)
  }

  ghost predicate Inv(s: System) {
    DbInv(s.db) && forall w :: w in s.workers ==> WorkerInv(s.workers[w], s.db)
  }

  // ---------- what one event leaves in place ----------

  /** Everything later steps rely on: people and links stay, records stay as they were ingested,
      and new records take new ids. */
  ghost predicate Extends(a: Db, b: Db) {
    a.nextId <= b.nextId &&
    PersonKeys(a.people) <= PersonKeys(b.people) &&
    LinkKeys(a.links) <= LinkKeys(b.links) &&
    |a.raws| <= |b.raws| &&
    (forall i :: 0 <= i < |a.raws| ==> SameRecord(b.raws[i], a.raws[i])) &&
    (forall i :: |a.raws| <= i < |b.raws| ==> a.nextId <= b.raws[i].id)
  }

  // A personId, once written, is never rewritten.
  ghost predicate KeepsPersonIds(a: Db, b: Db) {
    |a.raws| <= |b.raws| &&
    forall i :: 0 <= i < |a.raws| && a.raws[i].personId != "" ==> b.raws[i].personId == a.raws[i].personId
  }

  lemma WorkerSurvives(k: Worker, a: Db, b: Db)
    requires WorkerInv(k, a) && Extends(a, b)
    ensures WorkerInv(k, b)
  {
    forall i | 0 <= i < |k.batch| ensures Current(k.batch[i], b, k.tenantId) {
      assert Current(k.batch[i], a, k.tenantId);
      forall j | 0 <= j < |b.raws| && b.raws[j].id == k.batch[i].id ensures SameRecord(b.raws[j], k.batch[i]) {
        assert j < |a.raws|;
        assert SameRecord(b.raws[j], a.raws[j]);
      }
    }
  }

  lemma SameRecordKeepsExternalId(r: Raw, rec: Raw)
    requires SameRecord(r, rec)
    ensures ExternalId(r) == ExternalId(rec)
  {
  }

  // ---------- the store calls keep the invariant ----------

  lemma PersonAtIsIt(people: seq<Person>, key: (string, string))
    requires key in PersonKeys(people)
    ensures 0 <= PersonAt(people, key.1)
  {
    var p :| p in people && key == (p.tenantId, p.personId);
    var j :| 0 <= j < |people| && people[j] == p;
    assert people[j].personId == key.1;
  }

  lemma PersonKeysAppend(people: seq<Person>, p: Person)
    ensures PersonKeys(people + [p]) == PersonKeys(people) + {(p.tenantId, p.personId)}
  {
    var a, b := PersonKeys(people + [p]), PersonKeys(people) + {(p.tenantId, p.personId)};
    forall x | x in b ensures x in a {
      if x in PersonKeys(people) {
        var q :| q in people && x == (q.tenantId, q.personId);
        assert q in people + [p];
      } else {
        assert p in people + [p];
      }
    }
  }

  lemma PersonKeysUpdate(people: seq<Person>, i: nat, p: Person)
    requires i < |people| && p.tenantId == people[i].tenantId && p.personId == people[i].personId
    ensures PersonKeys(people[i := p]) == PersonKeys(people)
  {
    var a, b := PersonKeys(people[i := p]), PersonKeys(people);
    forall x | x in a ensures x in b {
      var q :| q in people[i := p] && x == (q.tenantId, q.personId);
      var j :| 0 <= j < |people| && people[i := p][j] == q;
      assert people[j] in people;
    }
    forall x | x in b ensures x in a {
      var q :| q in people && x == (q.tenantId, q.personId);
      var j :| 0 <= j < |people| && people[j] == q;
      assert people[i := p][j] in people[i := p];
    }
  }

  lemma LinkKeysAppend(links: seq<Link>, l: Link)
    ensures LinkKeys(links + [l]) == LinkKeys(links) + {(l.tenantId, l.personId, l.source, l.externalId)}
  {
    var a, b := LinkKeys(links + [l]), LinkKeys(links) + {(l.tenantId, l.personId, l.source, l.externalId)};
    forall x | x in b ensures x in a {
      if x in LinkKeys(links) {
        var q :| q in links && x == (q.tenantId, q.personId, q.source, q.externalId);
        assert q in links + [l];
      } else {
        assert l in links + [l];
      }
    }
  }

  lemma LinkKeysUpdate(links: seq<Link>, i: nat, payload: Payload)
    requires i < |links|
    ensures LinkKeys(links[i := links[i].(payload := payload)]) == LinkKeys(links)
  {
    var links' := links[i := links[i].(payload := payload)];
    var a, b := LinkKeys(links'), LinkKeys(links);
    forall x | x in a ensures x in b {
      var q :| q in links' && x == (q.tenantId, q.personId, q.source, q.externalId);
      var j :| 0 <= j < |links| && links'[j] == q;
      assert links[j] in links;
    }
    forall x | x in b ensures x in a {
      var q :| q in links && x == (q.tenantId, q.personId, q.source, q.externalId);
      var j :| 0 <= j < |links| && links[j] == q;
      assert links'[j] in links';
    }
  }

  lemma IssuedNext(n: nat)
    ensures Issued(Hex(n), n + 1) && !Issued(Hex(n), n) && Hex(n) != ""
  {
    HexRoundTrip(n);
  }

  lemma CreatePersonInv(db: Db, tenantId: string, ids: Identifiers, attrs: Payload)
    requires DbInv(db)
    ensures var db' := CreatePerson(db, tenantId, ids, attrs);
      DbInv(db') && Extends(db, db') && KeepsPersonIds(db, db') && (tenantId, Hex(db.nextId)) in PersonKeys(db'.people)
  {
    hide LinkKeys, TrimSpace, ExternalId;
    IssuedNext(db.nextId);
    PersonKeysAppend(db.people, NewPerson(tenantId, Hex(db.nextId), ids, attrs));
  }

  lemma UpdatePersonInv(db: Db, personId: string, ids: Identifiers)
    requires DbInv(db)
    ensures var db' := UpdatePersonIdentifiers(db, personId, ids);
      DbInv(db') && Extends(db, db') && KeepsPersonIds(db, db') && PersonKeys(db'.people) == PersonKeys(db.people)
  {
    hide PersonKeys, LinkKeys, TrimSpace, ExternalId, Issued, PersonAt;
    var i := PersonAt(db.people, personId);
    if 0 <= i {
      PersonKeysUpdate(db.people, i, SetIdentifiers(db.people[i], ids));
    }
  }

  /** The upsert filter names the person and the unique index does not: a link that exists for
      another person refuses the upsert, so no external record is ever linked to two people. */
  lemma UpsertLinkInv(db: Db, tenantId: string, personId: string, source: string, externalId: string, payload: Payload)
    requires DbInv(db) && (tenantId, personId) in PersonKeys(db.people)
    ensures match UpsertLink(db.links, tenantId, personId, source, externalId, payload)
      case Refused(_) => true
      case Linked(links) =>
        var db' := db.(links := links);
        DbInv(db') && Extends(db, db') && KeepsPersonIds(db, db') &&
        (tenantId, personId, source, externalId) in LinkKeys(links)
  {
    hide PersonKeys, ExternalId, TrimSpace;
    match UpsertLink(db.links, tenantId, personId, source, externalId, payload)
    case Refused(_) =>
    case Linked(links) =>
      var i := LinkAt(db.links, tenantId, personId, source, externalId);
      if 0 <= i {
        LinkKeysUpdate(db.links, i, payload);
        assert db.links[i] in db.links;
        LinksOwnedUpdate(db, i, payload);
      } else {
        LinkKeysAppend(db.links, Link(tenantId, personId, source, externalId, payload));
      }
  }

  lemma LinksOwnedUpdate(db: Db, i: nat, payload: Payload)
    requires LinksInv(db) && i < |db.links|
    ensures LinksInv(db.(links := db.links[i := db.links[i].(payload := payload)]))
  {
    var links := db.links[i := db.links[i].(payload := payload)];
    forall l | l in links ensures (l.tenantId, l.personId) in PersonKeys(db.people) {
      var j :| 0 <= j < |links| && links[j] == l;
      assert db.links[j] in db.links;
    }
  }

  lemma LinkKeyUnique(links: seq<Link>, tenantId: string, p: string, q: string, source: string, externalId: string)
    requires LinksUnique(links)
    requires (tenantId, p, source, externalId) in LinkKeys(links)
    requires (tenantId, q, source, externalId) in LinkKeys(links)
    ensures p == q
  {
    var a :| a in links && (tenantId, p, source, externalId) == (a.tenantId, a.personId, a.source, a.externalId);
    var b :| b in links && (tenantId, q, source, externalId) == (b.tenantId, b.personId, b.source, b.externalId);
    var i :| 0 <= i < |links| && links[i] == a;
    var j :| 0 <= j < |links| && links[j] == b;
    assert SameExternal(links[i], links[j].tenantId, links[j].source, links[j].externalId);
  }

  // Writing no personId leaves every personId alone.
  lemma StatusOnlyInv(db: Db, tenantId: string, ids: seq<ObjectId>, status: Status)
    requires DbInv(db)
    ensures var db' := db.(raws := UpdateRawStatus(db.raws, tenantId, ids, status, ""));
      DbInv(db') && Extends(db, db') && KeepsPersonIds(db, db')
  {
    var raws := UpdateRawStatus(db.raws, tenantId, ids, status, "");
    forall i | 0 <= i < |raws| ensures SameRecord(raws[i], db.raws[i]) && Backed(raws[i], db.links) {
      assert Backed(db.raws[i], db.links);
      SameRecordKeepsExternalId(raws[i], db.raws[i]);
    }
  }

  // A personId is only written next to a link that admits no other person.
  lemma MarkInv(db: Db, rec: Raw, personId: string)
    requires DbInv(db) && Current(rec, db, rec.tenantId)
    requires (rec.tenantId, personId, rec.sourceSlug, ExternalId(rec)) in LinkKeys(db.links)
    ensures var db' := db.(raws := UpdateRawStatus(db.raws, rec.tenantId, [rec.id], Resolved, personId));
      DbInv(db') && Extends(db, db') && KeepsPersonIds(db, db')
  {
    var raws := UpdateRawStatus(db.raws, rec.tenantId, [rec.id], Resolved, personId);
    forall i | 0 <= i < |raws|
      ensures SameRecord(raws[i], db.raws[i]) && Backed(raws[i], db.links)
      ensures db.raws[i].personId != "" ==> raws[i].personId == db.raws[i].personId
    {
      var r := db.raws[i];
      assert Backed(r, db.links);
      SameRecordKeepsExternalId(raws[i], r);
      if r.id == rec.id {
        assert SameRecord(r, rec);
        SameRecordKeepsExternalId(r, rec);
        if r.personId != "" && personId != "" {
          LinkKeyUnique(db.links, r.tenantId, r.personId, personId, r.sourceSlug, ExternalId(r));
        }
      }
    }
  }

  // The second write of a batch adds pending records of a named source, and touches no other.
  lemma InsertRawsInv(db: Db, tenantId: string, slug: string, payloads: seq<Payload>)
    requires DbInv(db) && TrimSpace(slug) != ""
    ensures var db' := InsertRaws(db, tenantId, slug, payloads);
      DbInv(db') && Extends(db, db') && KeepsPersonIds(db, db') && db'.raws[..|db.raws|] == db.raws &&
      |db'.raws| == |db.raws| + |payloads| &&
      forall i :: |db.raws| <= i < |db'.raws| ==>
        db'.raws[i].tenantId == tenantId && db'.raws[i].sourceSlug == slug && db'.raws[i].status == Pending &&
        db'.raws[i].personId == "" && db'.raws[i].payload == payloads[i - |db.raws|]
  {
    hide PersonKeys, LinkKeys, ExternalId, TrimSpace;
    var db' := InsertRaws(db, tenantId, slug, payloads);
    forall i | 0 <= i < |db'.raws|
      ensures db'.raws[i].id < db'.nextId && TrimSpace(db'.raws[i].sourceSlug) != "" && Backed(db'.raws[i], db'.links)
    {
      if i < |db.raws| {
        assert Backed(db.raws[i], db.links);
      }
    }
  }

  lemma UpsertSourceInv(db: Db, tenantId: string, slug: string, name: string)
    requires DbInv(db)
    ensures var db' := UpsertSource(db, tenantId, slug, name);
      DbInv(db') && Extends(db, db') && KeepsPersonIds(db, db')
  {
    hide PersonKeys, LinkKeys, ExternalId, TrimSpace;
  }

  // ---------- beginning a request ----------

  lemma {:induction false} WithStatusMembers(raws: seq<Raw>, tenantId: string, status: Status)
    ensures forall r :: r in WithStatus(raws, tenantId, status) <==> r in raws && HasStatus(r, tenantId, status)
    decreases |raws|
  {
    if raws != [] {
      var n := |raws| - 1;
      WithStatusMembers(raws[..n], tenantId, status);
      assert raws == raws[..n] + [raws[n]];
    }
  }

  lemma BatchCurrent(db: Db, tenantId: string, limit: int)
    requires DbInv(db)
    ensures var batch := ListRawByStatus(db.raws, tenantId, Pending, limit);
      forall i :: 0 <= i < |batch| ==> Current(batch[i], db, tenantId)
  {
    hide PersonKeys, LinkKeys, ExternalId, WithStatus;
    var batch := ListRawByStatus(db.raws, tenantId, Pending, limit);
    WithStatusMembers(db.raws, tenantId, Pending);
    forall i | 0 <= i < |batch| ensures Current(batch[i], db, tenantId) {
      assert batch[i] == WithStatus(db.raws, tenantId, Pending)[i];
      assert batch[i] in WithStatus(db.raws, tenantId, Pending);
      var j :| 0 <= j < |db.raws| && db.raws[j] == batch[i];
    }
  }

  // ---------- every event keeps the invariant ----------

  lemma OthersSurvive(s: System, db: Db)
    requires Inv(s) && Extends(s.db, db)
    ensures forall w :: w in s.workers ==> WorkerInv(s.workers[w], db)
  {
    forall w | w in s.workers ensures WorkerInv(s.workers[w], db) {
      WorkerSurvives(s.workers[w], s.db, db);
    }
  }

  ghost predicate Good(s: System, t: System) {
    Inv(t) && Extends(s.db, t.db) && KeepsPersonIds(s.db, t.db)
  }

  lemma FoundIsPerson(db: Db, tenantId: string, ids: Identifiers, found: Option<string>)
    requires FindOnePerson(db.people, tenantId, ids, found) && found.Some?
    ensures (tenantId, found.value) in PersonKeys(db.people)
  {
    var i :| MatchAt(db.people, i, tenantId, ids) && db.people[i].personId == found.value;
    assert db.people[i] in db.people;
  }

  // What an event owes to the request that takes the step.
  ghost predicate StepGood(s: System, t: System, w: nat) {
    DbInv(t.db) && Extends(s.db, t.db) && KeepsPersonIds(s.db, t.db) &&
    t.workers - {w} == s.workers - {w} &&
    (w in t.workers ==> WorkerInv(t.workers[w], t.db))
  }

  lemma StageDone(k: Worker, k': Worker, a: Db, b: Db)
    requires WorkerInv(k, a) && Extends(a, b)
    requires k'.tenantId == k.tenantId && k'.batch == k.batch && StageInv(k', b)
    ensures WorkerInv(k', b)
  {
    WorkerSurvives(k, a, b);
    forall i | 0 <= i < |k'.batch| ensures Current(k'.batch[i], b, k'.tenantId) {
      assert Current(k.batch[i], b, k.tenantId);
    }
  }

  lemma LookGood(s: System, w: nat, found: Option<string>)
    requires Inv(s) && Enabled(s, Advance(w, found))
    requires s.workers[w].pos < |s.workers[w].batch| && s.workers[w].stage == Look
    ensures StepGood(s, AdvanceWorker(s, w, found), w)
  {
    hide FindOnePerson, PersonKeys, LinkKeys, DbInv, Current, ExtractIdentifiers, ExternalId;
    var k := s.workers[w];
    var ids := ExtractIdentifiers(Record(k).payload);
    if !NoIdentifiers(ids) && found.Some? {
      FoundIsPerson(s.db, k.tenantId, ids, found);
    }
    StageDone(k, AdvanceWorker(s, w, found).workers[w], s.db, s.db);
  }

  lemma InsertOrAmendGood(s: System, w: nat, found: Option<string>)
    requires Inv(s) && w in s.workers && s.workers[w].pos < |s.workers[w].batch|
    requires s.workers[w].stage.Insert? || s.workers[w].stage.Amend?
    ensures StepGood(s, AdvanceWorker(s, w, found), w)
  {
    var k, t := s.workers[w], AdvanceWorker(s, w, found);
    var ids := ExtractIdentifiers(Record(k).payload);
    if k.stage.Insert? {
      CreatePersonInv(s.db, k.tenantId, ids, Record(k).payload);
    } else {
      UpdatePersonInv(s.db, k.stage.personId, ids);
    }
    assert WorkerInv(k, s.db);
    StageDone(k, t.workers[w], s.db, t.db);
  }

  lemma ConnectGood(s: System, w: nat, found: Option<string>)
    requires Inv(s) && w in s.workers && s.workers[w].pos < |s.workers[w].batch| && s.workers[w].stage.Connect?
    ensures StepGood(s, AdvanceWorker(s, w, found), w)
  {
    var k, t := s.workers[w], AdvanceWorker(s, w, found);
    var rec := Record(k);
    assert WorkerInv(k, s.db);
    UpsertLinkInv(s.db, k.tenantId, k.stage.personId, rec.sourceSlug, ExternalId(rec), rec.payload);
    if w in t.workers {
      StageDone(k, t.workers[w], s.db, t.db);
    }
  }

  lemma MarkGood(s: System, w: nat, found: Option<string>)
    requires Inv(s) && w in s.workers && s.workers[w].pos < |s.workers[w].batch| && s.workers[w].stage.Mark?
    ensures StepGood(s, AdvanceWorker(s, w, found), w)
  {
    var k, t := s.workers[w], AdvanceWorker(s, w, found);
    assert WorkerInv(k, s.db) && Current(Record(k), s.db, k.tenantId);
    MarkInv(s.db, Record(k), k.stage.personId);
    StageDone(k, t.workers[w], s.db, t.db);
  }

  lemma AdvanceGood(s: System, w: nat, found: Option<string>)
    requires Inv(s) && Enabled(s, Advance(w, found))
    ensures Good(s, AdvanceWorker(s, w, found))
  {
    var k, t := s.workers[w], AdvanceWorker(s, w, found);
    if |k.batch| <= k.pos {
      StatusOnlyInv(s.db, k.tenantId, k.review, NeedsReview);
    } else {
      match k.stage {
        case Look => LookGood(s, w, found);
        case Insert => InsertOrAmendGood(s, w, found);
        case Amend(_) => InsertOrAmendGood(s, w, found);
        case Connect(_) => ConnectGood(s, w, found);
        case Mark(_) => MarkGood(s, w, found);
      }
    }
    OthersSurvive(s, t.db);
    forall v | v in t.workers ensures WorkerInv(t.workers[v], t.db) {
      if v != w {
        assert v in t.workers - {w};
        assert t.workers[v] == s.workers[v];
      }
    }
  }

  lemma EventGood(s: System, e: Event)
    requires Inv(s) && Enabled(s, e)
    ensures Good(s, Apply(s, e))
  {
    match e {
      case NameSource(tenantId, slug, name) => UpsertSourceInv(s.db, tenantId, TrimSpace(slug), name);
      case Ingest(tenantId, slug, payloads) => InsertRawsInv(s.db, tenantId, TrimSpace(slug), payloads);
      case Begin(w, tenantId, limit) => BatchCurrent(s.db, tenantId, limit);
      case Advance(w, found) => AdvanceGood(s, w, found);
      case Crash(w) =>
      case Decide(tenantId, rawId, accept) =>
        StatusOnlyInv(s.db, tenantId, [rawId], if accept then Resolved else Rejected);
    }
    OthersSurvive(s, Apply(s, e).db);
  }

  lemma ExtendsTransitive(a: Db, b: Db, c: Db)
    requires Extends(a, b) && Extends(b, c)
    ensures Extends(a, c)
  {
    forall i | 0 <= i < |a.raws| ensures SameRecord(c.raws[i], a.raws[i]) {
      assert SameRecord(b.raws[i], a.raws[i]) && SameRecord(c.raws[i], b.raws[i]);
    }
    forall i | |a.raws| <= i < |c.raws| ensures a.nextId <= c.raws[i].id {
      if i < |b.raws| { assert SameRecord(c.raws[i], b.raws[i]); }
    }
  }

  // ---------- safety over whole runs ----------

  /** Whatever interleaves, a record's person never changes once written, and people, links and
      records stay. */
  lemma {:induction false} RunIsSafe(s: System, events: seq<Event>)
    requires Inv(s) && CanRun(s, events)
    ensures Inv(Run(s, events))
    ensures Extends(s.db, Run(s, events).db)
    ensures KeepsPersonIds(s.db, Run(s, events).db)
    decreases |events|
  {
    if events != [] {
      var t := Apply(s, events[0]);
      EventGood(s, events[0]);
      RunIsSafe(t, events[1..]);
      ExtendsTransitive(s.db, t.db, Run(s, events).db);
      assert KeepsPersonIds(s.db, t.db) && KeepsPersonIds(t.db, Run(s, events).db);
    }
  }

  lemma EmptyInv()
    ensures Inv(Empty)
  {
  }

  // In every reachable state, records of one external record agree on the person.
  lemma OneExternalRecordOnePerson(events: seq<Event>, i: nat, j: nat)
    requires CanRun(Empty, events)
    requires var raws := Run(Empty, events).db.raws;
      i < |raws| && j < |raws| && raws[i].tenantId == raws[j].tenantId && raws[i].sourceSlug == raws[j].sourceSlug &&
      ExternalId(raws[i]) == ExternalId(raws[j]) && raws[i].personId != "" && raws[j].personId != ""
    ensures var raws := Run(Empty, events).db.raws; raws[i].personId == raws[j].personId
  {
    EmptyInv();
    RunIsSafe(Empty, events);
    var db := Run(Empty, events).db;
    var a, b := db.raws[i], db.raws[j];
    assert Backed(a, db.links) && Backed(b, db.links);
    LinkKeyUnique(db.links, a.tenantId, a.personId, b.personId, a.sourceSlug, ExternalId(a));
  }

  // In every reachable state the references between the collections hold, tenant by tenant.
  lemma ReferencesHold(events: seq<Event>)
    requires CanRun(Empty, events)
    ensures var db := Run(Empty, events).db;
      (forall l :: l in db.links ==>
        exists p :: p in db.people && p.tenantId == l.tenantId && p.personId == l.personId) &&
      (forall r :: r in db.raws && r.personId != "" ==>
        exists l :: l in db.links && IsLink(l, r.tenantId, r.personId, r.sourceSlug, ExternalId(r)))
  {
    EmptyInv();
    RunIsSafe(Empty, events);
    var db := Run(Empty, events).db;
    forall l | l in db.links
      ensures exists p :: p in db.people && p.tenantId == l.tenantId && p.personId == l.personId
    {
      var p :| p in db.people && (l.tenantId, l.personId) == (p.tenantId, p.personId);
      assert p in db.people && p.tenantId == l.tenantId && p.personId == l.personId;
    }
    forall r | r in db.raws && r.personId != ""
      ensures exists l :: l in db.links && IsLink(l, r.tenantId, r.personId, r.sourceSlug, ExternalId(r))
    {
      var i :| 0 <= i < |db.raws| && db.raws[i] == r;
      assert Backed(db.raws[i], db.links);
      var l :| l in db.links &&
        (r.tenantId, r.personId, r.sourceSlug, ExternalId(r)) == (l.tenantId, l.personId, l.source, l.externalId);
      assert IsLink(l, r.tenantId, r.personId, r.sourceSlug, ExternalId(r));
    }
  }

  /** The only upsert that Resolve can see refused is one for a link that belongs to somebody
      else: the blank-key error is out of its reach. */
  lemma ResolveNeverLinksBlank(events: seq<Event>, w: nat)
    requires CanRun(Empty, events) && w in Run(Empty, events).workers
    requires var k := Run(Empty, events).workers[w]; k.pos < |k.batch| && k.stage.Connect?
    ensures var s := Run(Empty, events);
      var k := s.workers[w];
      var rec := Record(k);
      var r := UpsertLink(s.db.links, k.tenantId, k.stage.personId, rec.sourceSlug, ExternalId(rec), rec.payload);
      r.Refused? ==>
        r.error == LinkKeyTaken &&
        exists l :: l in s.db.links && SameExternal(l, k.tenantId, rec.sourceSlug, ExternalId(rec)) &&
          l.personId != k.stage.personId
  {
    EmptyInv();
    RunIsSafe(Empty, events);
    var s := Run(Empty, events);
    var k := s.workers[w];
    var rec := Record(k);
    assert WorkerInv(k, s.db) && Current(rec, s.db, k.tenantId);
    ExternalIdNotBlank(rec);
    if UpsertLink(s.db.links, k.tenantId, k.stage.personId, rec.sourceSlug, ExternalId(rec), rec.payload).Refused? {
      var i :| 0 <= i < |s.db.links| && SameExternal(s.db.links[i], k.tenantId, rec.sourceSlug, ExternalId(rec));
      assert s.db.links[i] in s.db.links;
      assert !IsLink(s.db.links[i], k.tenantId, k.stage.personId, rec.sourceSlug, ExternalId(rec));
    }
  }
}
