/** One record's pass through Resolve, cut after any number of its store writes, and what
    processing the record again then does. */
module ResolvePass {
  import opened Text
  import opened Entities
  import opened ResolveProtocol

  // ---------- the three writes of a pass ----------

  function Ids(rec: Raw): Identifiers {
    ExtractIdentifiers(rec.payload)
  }

  // The person that the pass settles on.
  function PersonOf(db: Db, found: Option<string>): string {
    if found.Some? then found.value else Hex(db.nextId)
  }

  function WritePerson(db: Db, rec: Raw, found: Option<string>): Db {
    match found
    case None => CreatePerson(db, rec.tenantId, Ids(rec), rec.payload)
    case Some(pid) => UpdatePersonIdentifiers(db, pid, Ids(rec))
  }

  function TryLink(links: seq<Link>, rec: Raw, pid: string): LinkResult {
    UpsertLink(links, rec.tenantId, pid, rec.sourceSlug, ExternalId(rec), rec.payload)
  }

  predicate LinkAccepted(db: Db, rec: Raw, found: Option<string>) {
    TryLink(db.links, rec, PersonOf(db, found)).Linked?
  }

  // A refused link leaves the collections as they are.
  function WriteLink(db: Db, rec: Raw, pid: string): Db {
    match TryLink(db.links, rec, pid)
    case Linked(links) => db.(links := links)
    case Refused(_) => db
  }

  function WriteMark(db: Db, rec: Raw, pid: string): Db {
    db.(raws := UpdateRawStatus(db.raws, rec.tenantId, [rec.id], Resolved, pid))
  }

  /** The collections after the first `writes` writes of the pass. A pass whose link is refused
      stops there, so it never reaches the third. */
  function Partial(db: Db, rec: Raw, found: Option<string>, writes: nat): Db {
    var pid := PersonOf(db, found);
    if writes == 0 then db
    else if writes == 1 then WritePerson(db, rec, found)
    else if writes == 2 || !LinkAccepted(db, rec, found) then WriteLink(WritePerson(db, rec, found), rec, pid)
    else WriteMark(WriteLink(WritePerson(db, rec, found), rec, pid), rec, pid)
  }

  function Pass(db: Db, rec: Raw, found: Option<string>): Db {
    Partial(db, rec, found, 3)
  }

  ghost predicate Finds(db: Db, rec: Raw, found: Option<string>) {
    FindOnePerson(db.people, rec.tenantId, Ids(rec), found)
  }

  // ---------- the pass and the protocol ----------

  // A request that nothing comes between makes four calls for a record; after n of them the
  // collections are those of a pass cut after n - 1 writes.
  lemma UndisturbedRequestPasses(s: System, w: nat, found: Option<string>)
    requires w in s.workers && AtLook(s.workers[w]) && Record(s.workers[w]).tenantId == s.workers[w].tenantId
    ensures var k := s.workers[w];
      var rec := Record(k);
      var s1 := AdvanceWorker(s, w, found);
      w in s1.workers && !AtLook(s1.workers[w]) && s1.db == Partial(s.db, rec, found, 0) &&
      var s2 := AdvanceWorker(s1, w, None);
      w in s2.workers && !AtLook(s2.workers[w]) && s2.db == Partial(s.db, rec, found, 1) &&
      var s3 := AdvanceWorker(s2, w, None);
      s3.db == Partial(s.db, rec, found, 2) && (w in s3.workers <==> LinkAccepted(s.db, rec, found)) &&
      (w in s3.workers ==>
        !AtLook(s3.workers[w]) &&
        AdvanceWorker(s3, w, None) == Continue(s, w, Partial(s.db, rec, found, 3), NextRecord(k)))
  {
    hide UpsertLink, CreatePerson, UpdatePersonIdentifiers, UpdateRawStatus, ExtractIdentifiers, ExternalId,
      NoIdentifiers;
    var k := s.workers[w];
    LinksAfterPerson(s.db, Record(k), found);
  }

  // ---------- the person write settles the search ----------

  lemma PersonAtPosition(people: seq<Person>, i: nat)
    requires i < |people|
    requires forall j, k :: 0 <= j < k < |people| ==> people[j].personId != people[k].personId
    ensures PersonAt(people, people[i].personId) == i
  {
  }

  lemma IdsTrimmed(rec: Raw)
    ensures var ids := Ids(rec);
      TrimSpace(ids.nationalId) == ids.nationalId && TrimSpace(ids.email) == ids.email &&
      TrimSpace(ids.phone) == ids.phone
  {
    ExtractedTrimmed(rec.payload);
  }

  // Exactly the person at position i carries one of the identifiers.
  ghost predicate OnlyMatch(people: seq<Person>, i: nat, tenantId: string, ids: Identifiers) {
    forall j :: MatchAt(people, j, tenantId, ids) <==> j == i
  }

  // A person carries the identifiers already.
  predicate Carries(p: Person, ids: Identifiers) {
    SetIdentifiers(p, ids) == p
  }

  // The person at position i is where a further pass over the record ends up.
  ghost predicate SettledAt(people: seq<Person>, i: nat, rec: Raw) {
    i < |people| && OnlyMatch(people, i, rec.tenantId, Ids(rec)) && Carries(people[i], Ids(rec)) &&
    PersonAt(people, people[i].personId) == i
  }

  // A new person is the only one that carries the record's identifiers.
  lemma SettledAfterCreate(db: Db, rec: Raw)
    requires PeopleInv(db) && Finds(db, rec, None) && !ForReview(rec)
    ensures SettledAt(WritePerson(db, rec, None).people, |db.people|, rec)
  {
    var people := WritePerson(db, rec, None).people;
    forall j | MatchAt(people, j, rec.tenantId, Ids(rec)) ensures j == |db.people| {
      assert j < |db.people| ==> MatchAt(db.people, j, rec.tenantId, Ids(rec));
    }
    assert MatchAt(people, |db.people|, rec.tenantId, Ids(rec));
    CreateKeepsPeopleInv(db, rec);
    PersonAtPosition(people, |db.people|);
  }

  lemma CreateKeepsPeopleInv(db: Db, rec: Raw)
    requires PeopleInv(db)
    ensures PeopleInv(WritePerson(db, rec, None))
  {
    IssuedNext(db.nextId);
  }

  // Amending a person that the record matches leaves it matching, with nothing more to amend.
  lemma AmendedMatches(p: Person, rec: Raw)
    ensures var q := SetIdentifiers(p, Ids(rec));
      q.personId == p.personId && q.tenantId == p.tenantId && Carries(q, Ids(rec)) &&
      (Matches(p, rec.tenantId, Ids(rec)) ==> Matches(q, rec.tenantId, Ids(rec)))
  {
    hide Ids, TrimSpace;
    IdsTrimmed(rec);
  }

  lemma AmendedAt(db: Db, rec: Raw, i: nat)
    requires PeopleInv(db) && i < |db.people|
    ensures WritePerson(db, rec, Some(db.people[i].personId)).people ==
      db.people[i := SetIdentifiers(db.people[i], Ids(rec))]
  {
    hide Ids, SetIdentifiers, PersonAt, Issued;
    PersonAtPosition(db.people, i);
  }

  // So is an amended person, when it was the only match before.
  lemma SettledAfterAmend(db: Db, rec: Raw, i: nat)
    requires PeopleInv(db) && OnlyMatch(db.people, i, rec.tenantId, Ids(rec)) && i < |db.people|
    ensures var people := WritePerson(db, rec, Some(db.people[i].personId)).people;
      people == db.people[i := SetIdentifiers(db.people[i], Ids(rec))] && SettledAt(people, i, rec)
  {
    hide Ids, SetIdentifiers, Matches, Carries, PersonAt, Issued, WritePerson;
    AmendedAt(db, rec, i);
    AmendedMatches(db.people[i], rec);
    var people := db.people[i := SetIdentifiers(db.people[i], Ids(rec))];
    assert MatchAt(db.people, i, rec.tenantId, Ids(rec));
    forall j ensures MatchAt(people, j, rec.tenantId, Ids(rec)) <==> j == i {
      assert j != i ==> (MatchAt(people, j, rec.tenantId, Ids(rec)) <==> MatchAt(db.people, j, rec.tenantId, Ids(rec)));
    }
    PersonAtPosition(people, i);
  }

  lemma WrittenPerson(db: Db, rec: Raw, found: Option<string>) returns (i: nat)
    requires PeopleInv(db) && !ForReview(rec) && Finds(db, rec, found)
    requires Unambiguous(db.people, rec.tenantId, Ids(rec))
    ensures var people := WritePerson(db, rec, found).people;
      SettledAt(people, i, rec) && people[i].personId == PersonOf(db, found)
  {
    if found.None? {
      SettledAfterCreate(db, rec);
      i := |db.people|;
    } else {
      i :| MatchAt(db.people, i, rec.tenantId, Ids(rec)) && db.people[i].personId == found.value;
      SettledAfterAmend(db, rec, i);
    }
  }

  lemma SearchSettled(db: Db, rec: Raw, i: nat, again: Option<string>)
    requires SettledAt(db.people, i, rec) && Finds(db, rec, again)
    ensures again == Some(db.people[i].personId) && WritePerson(db, rec, again) == db
    ensures Unambiguous(db.people, rec.tenantId, Ids(rec))
  {
    hide Ids, SetIdentifiers, Matches, PersonAt;
    assert MatchAt(db.people, i, rec.tenantId, Ids(rec));
    assert db.people[i := db.people[i]] == db.people;
  }

  /** Once the person is written, the search can only find that person again, and writing it
      again changes nothing. */
  lemma PersonWriteSettles(db: Db, rec: Raw, found: Option<string>, again: Option<string>)
    requires PeopleInv(db) && !ForReview(rec) && Finds(db, rec, found)
    requires Unambiguous(db.people, rec.tenantId, Ids(rec))
    requires Finds(WritePerson(db, rec, found), rec, again)
    ensures again == Some(PersonOf(db, found))
    ensures WritePerson(WritePerson(db, rec, found), rec, again) == WritePerson(db, rec, found)
    ensures Unambiguous(WritePerson(db, rec, found).people, rec.tenantId, Ids(rec))
  {
    hide Ids, SetIdentifiers, Matches, PersonAt, Issued, PersonOf;
    var i := WrittenPerson(db, rec, found);
    SearchSettled(WritePerson(db, rec, found), rec, i, again);
  }

  // ---------- the link write is idempotent ----------

  lemma LinkWriteTwice(db: Db, rec: Raw, pid: string)
    ensures WriteLink(WriteLink(db, rec, pid), rec, pid) == WriteLink(db, rec, pid)
    ensures TryLink(WriteLink(db, rec, pid).links, rec, pid).Linked? == TryLink(db.links, rec, pid).Linked?
  {
    match TryLink(db.links, rec, pid)
    case Refused(_) =>
    case Linked(links) =>
      var t, s, e := rec.tenantId, rec.sourceSlug, ExternalId(rec);
      var i := LinkAt(db.links, t, pid, s, e);
      var n := if 0 <= i then i else |db.links|;
      assert IsLink(links[n], t, pid, s, e) && links[n].payload == rec.payload;
      forall j | 0 <= j < n ensures !IsLink(links[j], t, pid, s, e) {
        assert links[j] == db.links[j];
      }
      assert LinkAt(links, t, pid, s, e) == n;
      assert links[n := links[n].(payload := rec.payload)] == links;
  }

  lemma MarkTwice(db: Db, rec: Raw, pid: string)
    ensures WriteMark(WriteMark(db, rec, pid), rec, pid) == WriteMark(db, rec, pid)
  {
    var a := UpdateRawStatus(db.raws, rec.tenantId, [rec.id], Resolved, pid);
    assert UpdateRawStatus(a, rec.tenantId, [rec.id], Resolved, pid) == a;
  }

  // ---------- crash recovery for one record ----------

  lemma LinksAfterPerson(db: Db, rec: Raw, found: Option<string>)
    ensures WritePerson(db, rec, found).links == db.links && WritePerson(db, rec, found).raws == db.raws
  {
  }

  lemma PartialPeople(db: Db, rec: Raw, found: Option<string>, writes: nat)
    requires 1 <= writes
    ensures Partial(db, rec, found, writes).people == WritePerson(db, rec, found).people
    ensures Partial(db, rec, found, writes).nextId == WritePerson(db, rec, found).nextId
  {
  }

  // The person write touches the people alone; so it commutes with what the later writes did.
  lemma PersonWriteAgain(db: Db, rec: Raw, found: Option<string>, writes: nat, again: Option<string>)
    requires PeopleInv(db) && !ForReview(rec) && Finds(db, rec, found) && 1 <= writes
    requires Unambiguous(db.people, rec.tenantId, Ids(rec))
    requires Finds(Partial(db, rec, found, writes), rec, again)
    ensures again == Some(PersonOf(db, found))
    ensures WritePerson(Partial(db, rec, found, writes), rec, again) == Partial(db, rec, found, writes)
  {
    PartialPeople(db, rec, found, writes);
    PersonWriteSettles(db, rec, found, again);
    var p, q := WritePerson(db, rec, found), Partial(db, rec, found, writes);
    assert WritePerson(q, rec, again) == q.(people := WritePerson(p, rec, again).people);
  }

  lemma LinkAfterMark(db: Db, rec: Raw, pid: string)
    ensures WriteLink(WriteMark(db, rec, pid), rec, pid) == WriteMark(WriteLink(db, rec, pid), rec, pid)
  {
  }

  // What the rest of the pass does to collections that its first writes have already reached.
  lemma RestOfPassAgain(db: Db, rec: Raw, found: Option<string>, writes: nat)
    requires 1 <= writes <= 3
    ensures var pid := PersonOf(db, found);
      var q := Partial(db, rec, found, writes);
      TryLink(q.links, rec, pid).Linked? == LinkAccepted(db, rec, found) &&
      (if LinkAccepted(db, rec, found) then WriteMark(WriteLink(q, rec, pid), rec, pid) else WriteLink(q, rec, pid)) ==
      Pass(db, rec, found)
  {
    var pid := PersonOf(db, found);
    var d1 := WritePerson(db, rec, found);
    var d2 := WriteLink(d1, rec, pid);
    LinkWriteTwice(d1, rec, pid);
    if writes == 3 {
      MarkTwice(d2, rec, pid);
      LinkAfterMark(d2, rec, pid);
    }
  }

  /** Cut after any of its writes and run again, the pass ends in exactly the collections that one
      uninterrupted pass leaves: it creates a person exactly when nobody matched at first, and
      never a second one. */
  lemma PassRecovers(db: Db, rec: Raw, found: Option<string>, writes: nat, again: Option<string>)
    requires PeopleInv(db) && !ForReview(rec) && Finds(db, rec, found) && writes <= 3
    requires Unambiguous(db.people, rec.tenantId, Ids(rec))
    requires Finds(Partial(db, rec, found, writes), rec, again)
    ensures Pass(Partial(db, rec, found, writes), rec, again) == Pass(db, rec, found)
    ensures LinkAccepted(Partial(db, rec, found, writes), rec, again) == LinkAccepted(db, rec, found)
    ensures |Pass(db, rec, found).people| == |db.people| + (if found.None? then 1 else 0)
  {
    PartialPeople(db, rec, found, 3);
    if writes == 0 {
      FindsDetermined(db, rec, found, again);
    } else {
      var q := Partial(db, rec, found, writes);
      PersonWriteAgain(db, rec, found, writes, again);
      assert PersonOf(q, again) == PersonOf(db, found);
      RestOfPassAgain(db, rec, found, writes);
    }
  }

  // With at most one match the search has one answer.
  lemma FindsDetermined(db: Db, rec: Raw, found: Option<string>, again: Option<string>)
    requires Finds(db, rec, found) && Finds(db, rec, again)
    requires Unambiguous(db.people, rec.tenantId, Ids(rec))
    ensures again == found
  {
    if found.Some? && again.Some? {
      var i :| MatchAt(db.people, i, rec.tenantId, Ids(rec)) && db.people[i].personId == found.value;
      var j :| MatchAt(db.people, j, rec.tenantId, Ids(rec)) && db.people[j].personId == again.value;
      assert i == j;
    }
  }
}
