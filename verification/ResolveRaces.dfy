/** When entity resolution keeps people apart while requests interleave: the exact events that make
    two people of a tenant share an identifier, and runs that get there. */
module ResolveRaces {
  import opened Text
  import opened Entities
  import opened ResolveProtocol
  import opened ResolvePass
  import opened ResolveRecovery
  import opened ResolveRuns
  import opened ResolveIdentity

  // ---------- one event ----------

  // Somebody matches the record that the request is at, apart from the person it has settled on.
  ghost predicate AnotherMatches(s: System, k: Worker, settled: Option<string>)
    requires k.pos < |k.batch|
  {
    exists i :: MatchAt(s.db.people, i, k.tenantId, Ids(Record(k))) && Some(s.db.people[i].personId) != settled
  }

  /** A request is about to insert a person whom somebody matches by now, or to amend one while
      somebody else matches. Both can be told from the collections before the event. */
  ghost predicate Conflicts(s: System, e: Event) {
    e.Advance? && e.w in s.workers &&
    var k := s.workers[e.w];
    k.pos < |k.batch| &&
    match k.stage
    case Insert => AnotherMatches(s, k, None)
    case Amend(pid) => AnotherMatches(s, k, Some(pid))
    case Look => false
    case Connect(_) => false
    case Mark(_) => false
  }

  lemma PeopleOnlyByWrites(s: System, e: Event)
    requires Enabled(s, e)
    requires e.Advance? && s.workers[e.w].pos < |s.workers[e.w].batch| ==>
      !s.workers[e.w].stage.Insert? && !s.workers[e.w].stage.Amend?
    ensures Apply(s, e).db.people == s.db.people
  {
    hide FindOnePerson, UpsertLink, UpdateRawStatus, ListRawByStatus, ExtractIdentifiers, ExternalId, TrimSpace;
  }

  // What a request that is about to write a person knows of its record and of the person.
  lemma WriterKnows(s: System, w: nat)
    requires Inv(s) && w in s.workers && s.workers[w].pos < |s.workers[w].batch|
    ensures var k := s.workers[w];
      Record(k).tenantId == k.tenantId &&
      (k.stage.Amend? ==>
        var i := PersonAt(s.db.people, k.stage.personId);
        0 <= i && s.db.people[i].tenantId == k.tenantId && s.db.people[i].personId == k.stage.personId)
    ensures forall i, j :: 0 <= i < j < |s.db.people| ==> s.db.people[i].personId != s.db.people[j].personId
  {
    hide LinkKeys, LinksInv, RawsInv;
    var k := s.workers[w];
    assert WorkerInv(k, s.db) && Current(Record(k), s.db, k.tenantId);
    if k.stage.Amend? {
      KeyAtPosition(s.db.people, (k.tenantId, k.stage.personId));
    }
  }

  lemma KeyAtPosition(people: seq<Person>, key: (string, string))
    requires key in PersonKeys(people)
    requires forall i, j :: 0 <= i < j < |people| ==> people[i].personId != people[j].personId
    ensures 0 <= PersonAt(people, key.1) && people[PersonAt(people, key.1)].tenantId == key.0
  {
    PersonAtIsIt(people, key);
    var p :| p in people && key == (p.tenantId, p.personId);
    var j :| 0 <= j < |people| && people[j] == p;
    assert PersonAt(people, key.1) == j;
  }

  lemma InsertKeepsUniqueIff(s: System, w: nat)
    requires Inv(s) && UniqueIdentities(s.db.people) && w in s.workers
    requires s.workers[w].pos < |s.workers[w].batch| && s.workers[w].stage.Insert?
    ensures UniqueIdentities(AdvanceWorker(s, w, None).db.people) <==> !AnotherMatches(s, s.workers[w], None)
  {
    hide UniqueIdentities, CreatePerson, ExtractIdentifiers, Inv;
    var k := s.workers[w];
    UniqueAfterInsert(s.db, k.tenantId, Ids(Record(k)), Record(k).payload);
  }

  lemma AmendKeepsUniqueIff(s: System, w: nat)
    requires Inv(s) && UniqueIdentities(s.db.people) && w in s.workers
    requires s.workers[w].pos < |s.workers[w].batch| && s.workers[w].stage.Amend?
    ensures UniqueIdentities(AdvanceWorker(s, w, None).db.people) <==>
      !AnotherMatches(s, s.workers[w], Some(s.workers[w].stage.personId))
  {
    hide UniqueIdentities, ExtractIdentifiers, Inv, SetIdentifiers;
    var k := s.workers[w];
    WriterKnows(s, w);
    UniqueAfterAmend(s.db.people, PersonAt(s.db.people, k.stage.personId), Record(k));
  }

  /** From people who share no identifier, an event keeps it that way if and only if it is not an
      insert of a person whom somebody matches by now, nor an amendment while somebody else does. */
  lemma EventKeepsUniqueIff(s: System, e: Event)
    requires Inv(s) && Enabled(s, e) && UniqueIdentities(s.db.people)
    ensures UniqueIdentities(Apply(s, e).db.people) <==> !Conflicts(s, e)
  {
    hide Inv, UniqueIdentities, AnotherMatches, CreatePerson, UpdatePersonIdentifiers, ExtractIdentifiers,
      FindOnePerson;
    if e.Advance? && s.workers[e.w].pos < |s.workers[e.w].batch| && s.workers[e.w].stage.Insert? {
      InsertKeepsUniqueIff(s, e.w);
    } else if e.Advance? && s.workers[e.w].pos < |s.workers[e.w].batch| && s.workers[e.w].stage.Amend? {
      AmendKeepsUniqueIff(s, e.w);
    } else {
      PeopleOnlyByWrites(s, e);
    }
  }

  // ---------- every run ----------

  ghost predicate AlwaysUnique(s: System, events: seq<Event>)
    requires CanRun(s, events)
    decreases |events|
  {
    UniqueIdentities(s.db.people) && (events == [] || AlwaysUnique(Apply(s, events[0]), events[1..]))
  }

  ghost predicate ConflictFree(s: System, events: seq<Event>)
    requires CanRun(s, events)
    decreases |events|
  {
    events == [] || (!Conflicts(s, events[0]) && ConflictFree(Apply(s, events[0]), events[1..]))
  }

  /** However requests interleave: no two people of a tenant share an identifier in any state of a
      run if and only if none of its events is such an insert or amendment. */
  lemma {:induction false} RunKeepsUniqueIff(s: System, events: seq<Event>)
    requires Inv(s) && UniqueIdentities(s.db.people) && CanRun(s, events)
    ensures AlwaysUnique(s, events) <==> ConflictFree(s, events)
    decreases |events|
  {
    hide Inv, UniqueIdentities, Conflicts, Apply, FindOnePerson;
    if events != [] {
      CanRunStep(s, events);
      EventGood(s, events[0]);
      EventKeepsUniqueIff(s, events[0]);
      if UniqueIdentities(Apply(s, events[0]).db.people) {
        RunKeepsUniqueIff(Apply(s, events[0]), events[1..]);
      }
    }
  }

  // From the empty store on.
  lemma UniqueIffConflictFree(events: seq<Event>)
    requires CanRun(Empty, events)
    ensures AlwaysUnique(Empty, events) <==> ConflictFree(Empty, events)
  {
    EmptyInv();
    hide Inv, AlwaysUnique, ConflictFree, CanRun;
    RunKeepsUniqueIff(Empty, events);
  }

  // ---------- two races ----------

  // The identifiers have a non-empty one in common.
  predicate Share(a: Identifiers, b: Identifiers) {
    (a.nationalId != "" && a.nationalId == b.nationalId) || (a.email != "" && a.email == b.email) ||
    (a.phone != "" && a.phone == b.phone)
  }

  // A request about to search for a record's identifiers, with an answer that the search may give.
  ghost predicate Searching(s: System, w: nat, found: Option<string>) {
    w in s.workers && AtLook(s.workers[w]) && Record(s.workers[w]).tenantId == s.workers[w].tenantId &&
    Finds(s.db, Record(s.workers[w]), found)
  }

  function RaceOf(v: nat, a: Option<string>, w: nat, b: Option<string>): seq<Event> {
    [Advance(v, a), Advance(w, b), Advance(v, None), Advance(w, None)]
  }

  function Found(found: Option<string>): Stage {
    if found.None? then Insert else Amend(found.value)
  }

  lemma LookStep(s: System, w: nat, found: Option<string>)
    requires Searching(s, w, found)
    ensures Enabled(s, Advance(w, found))
    ensures Apply(s, Advance(w, found)) == System(s.db, s.workers[w := s.workers[w].(stage := Found(found))])
  {
  }

  // The person write of the request, whatever comes in between.
  lemma WriteStep(s: System, w: nat, found: Option<string>)
    requires w in s.workers && s.workers[w].pos < |s.workers[w].batch| && s.workers[w].stage == Found(found)
    requires Record(s.workers[w]).tenantId == s.workers[w].tenantId
    ensures Enabled(s, Advance(w, None))
    ensures var k := s.workers[w];
      var t := Apply(s, Advance(w, None));
      t.db == WritePerson(s.db, Record(k), found) && t.workers.Keys == s.workers.Keys &&
      forall v :: v in s.workers && v != w ==> t.workers[v] == s.workers[v]
  {
    hide CreatePerson, UpdatePersonIdentifiers, ExtractIdentifiers, FindOnePerson;
  }

  // Two requests that search before either writes both write as the search told them.
  lemma RaceRuns(s: System, v: nat, a: Option<string>, w: nat, b: Option<string>)
    requires v != w && Searching(s, v, a) && Searching(s, w, b)
    ensures CanRun(s, RaceOf(v, a, w, b))
    ensures Run(s, RaceOf(v, a, w, b)).db ==
      WritePerson(WritePerson(s.db, Record(s.workers[v]), a), Record(s.workers[w]), b)
  {
    hide Enabled, Apply, Run, CanRun, WritePerson, Finds;
    var s1 := Apply(s, Advance(v, a));
    LookStep(s, v, a);
    var s2 := Apply(s1, Advance(w, b));
    LookStep(s1, w, b);
    var s3 := Apply(s2, Advance(v, None));
    WriteStep(s2, v, a);
    WriteStep(s3, w, b);
    FourSteps(s, Advance(v, a), Advance(w, b), Advance(v, None), Advance(w, None));
  }

  /** Whenever two requests of a tenant search for records that share an identifier, and nobody
      matches either, both can go on to insert a person. */
  lemma InsertRace(s: System, v: nat, w: nat)
    requires v != w && Searching(s, v, None) && Searching(s, w, None) && s.workers[v].tenantId == s.workers[w].tenantId
    requires Share(Ids(Record(s.workers[v])), Ids(Record(s.workers[w])))
    ensures CanRun(s, RaceOf(v, None, w, None))
    ensures var t := Run(s, RaceOf(v, None, w, None));
      |t.db.people| == |s.db.people| + 2 && !UniqueIdentities(t.db.people)
  {
    hide Run, CanRun, Finds, ForReview, WritePerson, UniqueIdentities, Share;
    RaceRuns(s, v, None, w, None);
    TwoInserts(s.db, Record(s.workers[v]), Record(s.workers[w]));
  }

  lemma TwoInserts(db: Db, a: Raw, b: Raw)
    requires Share(Ids(a), Ids(b)) && a.tenantId == b.tenantId
    ensures var people := WritePerson(WritePerson(db, a, None), b, None).people;
      |people| == |db.people| + 2 && !UniqueIdentities(people)
  {
    hide Ids;
    var people := WritePerson(WritePerson(db, a, None), b, None).people;
    var n := |db.people|;
    assert Clash(people[n], people[n + 1]);
  }

  /** Nor does it take an insert, or a record that matches two people: when two records share an
      identifier that each is about to give to the one person that it matches, both can. */
  lemma AmendRace(s: System, v: nat, p: string, w: nat, q: string)
    requires Inv(s) && v != w && p != q && Searching(s, v, Some(p)) && Searching(s, w, Some(q))
    requires s.workers[v].tenantId == s.workers[w].tenantId
    requires Share(Ids(Record(s.workers[v])), Ids(Record(s.workers[w])))
    ensures CanRun(s, RaceOf(v, Some(p), w, Some(q)))
    ensures var t := Run(s, RaceOf(v, Some(p), w, Some(q)));
      |t.db.people| == |s.db.people| && !UniqueIdentities(t.db.people)
  {
    hide Run, CanRun, Finds, ForReview, WritePerson, UniqueIdentities, Share, Inv;
    PeopleOfInv(s);
    RaceRuns(s, v, Some(p), w, Some(q));
    TwoAmendments(s.db, Record(s.workers[v]), p, Record(s.workers[w]), q);
  }

  lemma PeopleOfInv(s: System)
    requires Inv(s)
    ensures PeopleInv(s.db)
  {
  }

  lemma TwoAmendments(db: Db, a: Raw, p: string, b: Raw, q: string)
    requires PeopleInv(db) && p != q && Share(Ids(a), Ids(b)) && Finds(db, a, Some(p)) && Finds(db, b, Some(q))
    requires a.tenantId == b.tenantId
    ensures var people := WritePerson(WritePerson(db, a, Some(p)), b, Some(q)).people;
      |people| == |db.people| && !UniqueIdentities(people)
  {
    hide Ids, SetIdentifiers, Matches, WritePerson, UniqueIdentities, Share, Issued;
    var i :| MatchAt(db.people, i, a.tenantId, Ids(a)) && db.people[i].personId == p;
    var j :| MatchAt(db.people, j, b.tenantId, Ids(b)) && db.people[j].personId == q;
    MatchTenant(db.people[i], a.tenantId, Ids(a));
    MatchTenant(db.people[j], b.tenantId, Ids(b));
    BothAmended(db, a, i, b, j);
  }

  lemma MatchTenant(p: Person, tenantId: string, ids: Identifiers)
    requires Matches(p, tenantId, ids)
    ensures p.tenantId == tenantId
  {
  }

  lemma BothAmended(db: Db, a: Raw, i: nat, b: Raw, j: nat)
    requires PeopleInv(db) && i < |db.people| && j < |db.people| && i != j
    requires db.people[i].tenantId == db.people[j].tenantId && Share(Ids(a), Ids(b))
    ensures var people := WritePerson(WritePerson(db, a, Some(db.people[i].personId)), b,
        Some(db.people[j].personId)).people;
      |people| == |db.people| && !UniqueIdentities(people)
  {
    hide Ids, SetIdentifiers, WritePerson, Clash, Share, PeopleInv;
    AmendedAt(db, a, i);
    PersonWriteKeepsPeopleInv(db, a, Some(db.people[i].personId));
    var mid := WritePerson(db, a, Some(db.people[i].personId));
    AmendedMatches(db.people[i], a);
    AmendedAt(mid, b, j);
    var people := WritePerson(mid, b, Some(db.people[j].personId)).people;
    assert mid.people[j] == db.people[j];
    assert people[i] == SetIdentifiers(db.people[i], Ids(a)) && people[j] == SetIdentifiers(db.people[j], Ids(b));
    AmendedShare(db.people[i], a, db.people[j], b);
  }

  lemma AmendedShare(p: Person, a: Raw, q: Person, b: Raw)
    requires p.tenantId == q.tenantId && Share(Ids(a), Ids(b))
    ensures Clash(SetIdentifiers(p, Ids(a)), SetIdentifiers(q, Ids(b)))
    ensures Clash(SetIdentifiers(q, Ids(b)), SetIdentifiers(p, Ids(a)))
  {
    IdsTrimmed(a);
    IdsTrimmed(b);
    hide Ids, TrimSpace;
  }

  // ---------- the races are reached ----------

  function InsertRaceRun(tenantId: string, slug: string, payload: Payload): seq<Event> {
    [Ingest(tenantId, slug, [payload])] + [Begin(0, tenantId, 1)] + [Begin(1, tenantId, 1)] + RaceOf(0, None, 1, None)
  }

  /** One record with an identifier is enough: two requests that take it up together leave two people
      with that identifier. */
  lemma InsertRaceIsReached(tenantId: string, slug: string, payload: Payload)
    requires TrimSpace(tenantId) != "" && TrimSpace(slug) != "" && !NoIdentifiers(ExtractIdentifiers(payload))
    ensures CanRun(Empty, InsertRaceRun(tenantId, slug, payload))
    ensures !UniqueIdentities(Run(Empty, InsertRaceRun(tenantId, slug, payload)).db.people)
  {
    hide ExtractIdentifiers, TrimSpace, UniqueIdentities, Run, CanRun, Apply, Enabled, WithStatus;
    var s1 := FirstIngest(tenantId, slug, [payload]);
    BeginHead(s1, 0, tenantId);
    var k := Worker(tenantId, [s1.db.raws[0]], 0, Look, []);
    var s2 := System(s1.db, map[0 := k]);
    assert s1.workers[0 := k] == map[0 := k];
    BeginHead(s2, 1, tenantId);
    var s3 := System(s1.db, map[0 := k, 1 := k]);
    assert Searching(s3, 0, None) && Searching(s3, 1, None);
    InsertRace(s3, 0, 1);
    LeadsOn(Empty, [Ingest(tenantId, slug, [payload])], s1, [Begin(0, tenantId, 1)], s2);
    LeadsOn(Empty, [Ingest(tenantId, slug, [payload])] + [Begin(0, tenantId, 1)], s2, [Begin(1, tenantId, 1)], s3);
    LeadsOn(Empty, [Ingest(tenantId, slug, [payload])] + [Begin(0, tenantId, 1)] + [Begin(1, tenantId, 1)], s3,
            RaceOf(0, None, 1, None), Run(s3, RaceOf(0, None, 1, None)));
  }

  function InsertAndStop(tenantId: string, id: ObjectId): seq<Event> {
    [Begin(0, tenantId, 1)] + [Advance(0, None), Advance(0, None), Crash(0), Decide(tenantId, id, false)]
  }

  function WithPerson(db: Db, rec: Raw): Db {
    CreatePerson(db, rec.tenantId, Ids(rec), rec.payload).(raws := RejectedRaws(db.raws, rec))
  }

  // A request inserts the person of the queue's head and stops there; then the record is rejected.
  lemma PersonAlone(s: System, tenantId: string, rec: Raw, rest: seq<Raw>)
    requires s.workers == map[] && TrimSpace(tenantId) != "" && Queue(s.db, tenantId) == [rec] + rest
    requires !ForReview(rec) && rec.tenantId == tenantId && DistinctIds([rec] + rest) && Finds(s.db, rec, None)
    ensures Leads(s, InsertAndStop(tenantId, rec.id), System(WithPerson(s.db, rec), map[]))
    ensures Queue(WithPerson(s.db, rec), tenantId) == rest
  {
    hide TrimSpace, ExtractIdentifiers, WithStatus, ExternalId, Leads, RejectedRaws, ForReview, Finds;
    BeginHead(s, 0, tenantId);
    var s1 := System(s.db, map[0 := Worker(tenantId, [rec], 0, Look, [])]);
    assert s.workers[0 := Worker(tenantId, [rec], 0, Look, [])] == s1.workers;
    var created := CreatePerson(s.db, tenantId, Ids(rec), rec.payload);
    InsertThenStop(s.db, tenantId, rec);
    DecideHead(System(created, map[]), tenantId, rec, rest);
    LeadsOn(s, [Begin(0, tenantId, 1)], s1, [Advance(0, None), Advance(0, None), Crash(0)], System(created, map[]));
    LeadsOn(s, [Begin(0, tenantId, 1)] + [Advance(0, None), Advance(0, None), Crash(0)], System(created, map[]),
            [Decide(tenantId, rec.id, false)], System(WithPerson(s.db, rec), map[]));
    assert [Advance(0, None), Advance(0, None), Crash(0)] + [Decide(tenantId, rec.id, false)] ==
      [Advance(0, None), Advance(0, None), Crash(0), Decide(tenantId, rec.id, false)];
    assert [Begin(0, tenantId, 1)] +
      ([Advance(0, None), Advance(0, None), Crash(0)] + [Decide(tenantId, rec.id, false)]) ==
      [Begin(0, tenantId, 1)] + [Advance(0, None), Advance(0, None), Crash(0)] + [Decide(tenantId, rec.id, false)];
  }

  lemma InsertThenStop(db: Db, tenantId: string, rec: Raw)
    requires !ForReview(rec) && rec.tenantId == tenantId && Finds(db, rec, None)
    ensures Leads(System(db, map[0 := Worker(tenantId, [rec], 0, Look, [])]),
      [Advance(0, None), Advance(0, None), Crash(0)],
      System(CreatePerson(db, tenantId, Ids(rec), rec.payload), map[]))
  {
    hide ExtractIdentifiers, Leads, Finds, Enabled, Apply;
    var s1 := System(db, map[0 := Worker(tenantId, [rec], 0, Look, [])]);
    LookStep(s1, 0, None);
    var s2 := Apply(s1, Advance(0, None));
    WriteStep(s2, 0, None);
    var s3 := Apply(s2, Advance(0, None));
    CrashStep(s3, 0);
    assert s3.workers - {0} == map[];
    LeadsByOne(s1, Advance(0, None));
    LeadsByOne(s2, Advance(0, None));
    LeadsByOne(s3, Crash(0));
    LeadsOn(s1, [Advance(0, None)], s2, [Advance(0, None)], s3);
    LeadsOn(s1, [Advance(0, None)] + [Advance(0, None)], s3, [Crash(0)], Apply(s3, Crash(0)));
    assert [Advance(0, None)] + [Advance(0, None)] + [Crash(0)] == [Advance(0, None), Advance(0, None), Crash(0)];
  }

  lemma CrashStep(s: System, w: nat)
    requires w in s.workers
    ensures Enabled(s, Crash(w)) && Apply(s, Crash(w)) == System(s.db, s.workers - {w})
  {
  }

  // Two people, and two requests that have taken up one more record each.
  function AmendRaceSetUp(tenantId: string, slug: string, payloads: seq<Payload>): seq<Event> {
    [Ingest(tenantId, slug, payloads)] + InsertAndStop(tenantId, 0) + InsertAndStop(tenantId, 1) +
    [Begin(0, tenantId, 1)] + [Decide(tenantId, 2, false)] + [Begin(1, tenantId, 1)]
  }

  // The first two records are of different people, the other two add one identifier to each.
  predicate Crossing(payloads: seq<Payload>) {
    |payloads| == 4 &&
    var a, b := ExtractIdentifiers(payloads[0]), ExtractIdentifiers(payloads[1]);
    var c, d := ExtractIdentifiers(payloads[2]), ExtractIdentifiers(payloads[3]);
    !NoIdentifiers(a) && !NoIdentifiers(b) && !Share(a, b) &&
    Share(a, c) && !Share(b, c) && Share(b, d) && !Share(a, d) && Share(c, d)
  }

  lemma MatchIsShare(tenantId: string, personId: string, ids: Identifiers, attrs: Payload, sought: Identifiers)
    ensures Matches(NewPerson(tenantId, personId, ids, attrs), tenantId, sought) <==> Share(ids, sought)
    ensures Share(ids, sought) ==> !NoIdentifiers(sought)
  {
  }

  lemma TwoPeople(people: seq<Person>, tenantId: string, p: Person, q: Person, sought: Identifiers)
    requires people == [p, q]
    ensures Unambiguous(people, tenantId, sought) <==> !(Matches(p, tenantId, sought) && Matches(q, tenantId, sought))
    ensures Matches(p, tenantId, sought) ==> MatchAt(people, 0, tenantId, sought)
    ensures Matches(q, tenantId, sought) ==> MatchAt(people, 1, tenantId, sought)
  {
    hide Matches;
    if Matches(p, tenantId, sought) && Matches(q, tenantId, sought) {
      assert MatchAt(people, 0, tenantId, sought) && MatchAt(people, 1, tenantId, sought);
    }
  }

  // The state of the race: two people, a request at each of two records, everything else decided.
  ghost predicate AtRace(s: System, tenantId: string, slug: string, payloads: seq<Payload>)
    requires |payloads| == 4
  {
    s.db.people == [NewPerson(tenantId, Hex(4), ExtractIdentifiers(payloads[0]), payloads[0]),
                    NewPerson(tenantId, Hex(5), ExtractIdentifiers(payloads[1]), payloads[1])] &&
    s.workers == map[0 := Worker(tenantId, [Raw(2, tenantId, TrimSpace(slug), payloads[2], Pending, "")], 0, Look, []),
                     1 := Worker(tenantId, [Raw(3, tenantId, TrimSpace(slug), payloads[3], Pending, "")], 0, Look, [])]
  }

  lemma RacePeople(db: Db, tenantId: string, a: Raw, b: Raw)
    requires db.people == [] && a.tenantId == b.tenantId == tenantId && !Share(Ids(a), Ids(b))
    ensures Finds(db, a, None) && Finds(WithPerson(db, a), b, None)
    ensures WithPerson(WithPerson(db, a), b).people ==
      [NewPerson(tenantId, Hex(db.nextId), Ids(a), a.payload),
       NewPerson(tenantId, Hex(db.nextId + 1), Ids(b), b.payload)]
  {
    hide Ids, UpdateRawStatus, Matches;
    MatchIsShare(tenantId, Hex(db.nextId), Ids(a), a.payload, Ids(b));
    var people := WithPerson(db, a).people;
    assert people == [NewPerson(tenantId, Hex(db.nextId), Ids(a), a.payload)];
    forall i ensures !MatchAt(people, i, tenantId, Ids(b)) {
    }
  }

  lemma AmendRaceIsSetUp(tenantId: string, slug: string, payloads: seq<Payload>) returns (s: System)
    requires TrimSpace(tenantId) != "" && TrimSpace(slug) != "" && Crossing(payloads)
    ensures Leads(Empty, AmendRaceSetUp(tenantId, slug, payloads), s) && AtRace(s, tenantId, slug, payloads)
  {
    hide ExtractIdentifiers, TrimSpace, Leads, WithStatus, UpdateRawStatus, Share, Finds, InsertAndStop;
    var ingest := [Ingest(tenantId, slug, payloads)];
    var s0 := FirstIngest(tenantId, slug, payloads);
    var raws := NewRaws(tenantId, TrimSpace(slug), payloads, 0);
    var a, b, c, d := raws[0], raws[1], raws[2], raws[3];
    assert raws == [a] + [b, c, d] && [b, c, d] == [b] + [c, d] && [c, d] == [c] + [d];
    RacePeople(s0.db, tenantId, a, b);
    PersonAlone(s0, tenantId, a, [b, c, d]);
    var s1 := System(WithPerson(s0.db, a), map[]);
    PersonAlone(s1, tenantId, b, [c, d]);
    var s2 := System(WithPerson(s1.db, b), map[]);
    BeginHead(s2, 0, tenantId);
    var k, l := Worker(tenantId, [c], 0, Look, []), Worker(tenantId, [d], 0, Look, []);
    var s3 := System(s2.db, map[0 := k]);
    assert s2.workers[0 := k] == s3.workers;
    DecideHead(s3, tenantId, c, [d]);
    var s4 := s3.(db := s3.db.(raws := RejectedRaws(s3.db.raws, c)));
    BeginHead(s4, 1, tenantId);
    s := System(s4.db, map[0 := k, 1 := l]);
    LeadsOn(Empty, ingest, s0, InsertAndStop(tenantId, 0), s1);
    LeadsOn(Empty, ingest + InsertAndStop(tenantId, 0), s1, InsertAndStop(tenantId, 1), s2);
    LeadsOn(Empty, ingest + InsertAndStop(tenantId, 0) + InsertAndStop(tenantId, 1), s2, [Begin(0, tenantId, 1)], s3);
    LeadsOn(Empty, ingest + InsertAndStop(tenantId, 0) + InsertAndStop(tenantId, 1) + [Begin(0, tenantId, 1)], s3,
            [Decide(tenantId, 2, false)], s4);
    LeadsOn(Empty, ingest + InsertAndStop(tenantId, 0) + InsertAndStop(tenantId, 1) + [Begin(0, tenantId, 1)] +
            [Decide(tenantId, 2, false)], s4, [Begin(1, tenantId, 1)], s);
  }

  // Every request is at a record that matches at most one person.
  ghost predicate NoneAmbiguous(s: System, tenantId: string) {
    forall w :: w in s.workers && s.workers[w].pos < |s.workers[w].batch| ==>
      Unambiguous(s.db.people, tenantId, Ids(Record(s.workers[w])))
  }

  predicate ShareNext(k: Worker, l: Worker) {
    k.pos < |k.batch| && l.pos < |l.batch| && Share(Ids(Record(k)), Ids(Record(l)))
  }

  lemma AtRaceSearching(s: System, tenantId: string, slug: string, payloads: seq<Payload>)
    requires Crossing(payloads) && AtRace(s, tenantId, slug, payloads)
    ensures Searching(s, 0, Some(Hex(4))) && Searching(s, 1, Some(Hex(5))) && UniqueIdentities(s.db.people)
    ensures NoneAmbiguous(s, tenantId) && ShareNext(s.workers[0], s.workers[1])
  {
    hide ExtractIdentifiers, TrimSpace, Share, Matches, Unambiguous;
    var people := s.db.people;
    var p, q := people[0], people[1];
    var c, d := ExtractIdentifiers(payloads[2]), ExtractIdentifiers(payloads[3]);
    MatchIsShare(tenantId, Hex(4), ExtractIdentifiers(payloads[0]), payloads[0], c);
    MatchIsShare(tenantId, Hex(5), ExtractIdentifiers(payloads[1]), payloads[1], c);
    MatchIsShare(tenantId, Hex(4), ExtractIdentifiers(payloads[0]), payloads[0], d);
    MatchIsShare(tenantId, Hex(5), ExtractIdentifiers(payloads[1]), payloads[1], d);
    TwoPeople(people, tenantId, p, q, c);
    TwoPeople(people, tenantId, p, q, d);
    ClashIsShare(tenantId, Hex(4), ExtractIdentifiers(payloads[0]), payloads[0], Hex(5),
        ExtractIdentifiers(payloads[1]), payloads[1]);
    hide Clash;
    assert MatchAt(people, 0, tenantId, c) && MatchAt(people, 1, tenantId, d);
  }

  lemma ClashIsShare(tenantId: string, p: string, a: Identifiers, x: Payload, q: string, b: Identifiers, y: Payload)
    ensures Clash(NewPerson(tenantId, p, a, x), NewPerson(tenantId, q, b, y)) <==> Share(a, b)
  {
  }

  /** It happens from the empty store on, without an ambiguous record: while people are still unique
      and each of two records matches exactly one of them, the two requests leave them sharing an
      identifier, and no person is inserted. */
  lemma AmendRaceIsReached(tenantId: string, slug: string, payloads: seq<Payload>)
    requires TrimSpace(tenantId) != "" && TrimSpace(slug) != "" && Crossing(payloads)
    ensures var race := RaceOf(0, Some(Hex(4)), 1, Some(Hex(5)));
      CanRun(Empty, AmendRaceSetUp(tenantId, slug, payloads)) &&
      var s := Run(Empty, AmendRaceSetUp(tenantId, slug, payloads));
      UniqueIdentities(s.db.people) &&
      NoneAmbiguous(s, tenantId) &&
      CanRun(s, race) && |Run(s, race).db.people| == |s.db.people| && !UniqueIdentities(Run(s, race).db.people)
  {
    hide Run, CanRun, Searching, UniqueIdentities, Share, Crossing, ExtractIdentifiers, TrimSpace, Inv,
      AmendRaceSetUp, RaceOf, NoneAmbiguous;
    var s := AmendRaceIsSetUp(tenantId, slug, payloads);
    AtRaceSearching(s, tenantId, slug, payloads);
    EmptyInv();
    RunIsSafe(Empty, AmendRaceSetUp(tenantId, slug, payloads));
    HexDiffer();
    AmendRace(s, 0, Hex(4), 1, Hex(5));
  }

  lemma HexDiffer()
    ensures Hex(4) != Hex(5)
  {
    HexRoundTrip(4);
    HexRoundTrip(5);
  }

  // Four records of the kind: two emails, and one phone that belongs to both.
  lemma CrossingExists()
    ensures Crossing([map["email" := Str("a")], map["email" := Str("b")],
                      map["email" := Str("a"), "phone" := Str("1")], map["email" := Str("b"), "phone" := Str("1")]])
  {
    hide ExtractIdentifiers;
    KeysDiffer();
    var a, b := map["email" := Str("a")], map["email" := Str("b")];
    var c, d := map["email" := Str("a"), "phone" := Str("1")], map["email" := Str("b"), "phone" := Str("1")];
    IdsOfText(a, "a", "");
    IdsOfText(b, "b", "");
    IdsOfText(c, "a", "1");
    IdsOfText(d, "b", "1");
    assert "a"[0] != "b"[0];
  }
}
