/** What resolving a record leaves in the collections, read off the record's payload: which
    identifiers a person ends up with, what is linked and marked, and that no identifier gets lost. */
module ResolveEffects {
  import opened Text
  import opened Entities
  import opened ResolveProtocol
  import opened ResolvePass
  import opened ResolveRecovery
  import opened ResolveIdentity
  import opened Lookup

  // ---------- what a payload says ----------

  predicate HasText(payload: Payload, key: string) {
    key in payload && !payload[key].Other? && !AllSpace(payload[key].text)
  }

  /** A record carries an identifier exactly when its payload holds text under the identifier's key
      that is more than white space; then it is that text without the white space around it, an
      email in lower case. */
  lemma IdentifiersOfPayload(payload: Payload)
    ensures var ids := ExtractIdentifiers(payload);
      (ids.nationalId != "" <==> HasText(payload, "national_id")) &&
      (ids.email != "" <==> HasText(payload, "email")) &&
      (ids.phone != "" <==> HasText(payload, "phone")) &&
      (HasText(payload, "national_id") ==> ids.nationalId == TrimSpace(payload["national_id"].text)) &&
      (HasText(payload, "email") ==> ids.email == ToLower(TrimSpace(payload["email"].text))) &&
      (HasText(payload, "phone") ==> ids.phone == TrimSpace(payload["phone"].text))
    ensures NoIdentifiers(ExtractIdentifiers(payload)) <==>
      !HasText(payload, "national_id") && !HasText(payload, "email") && !HasText(payload, "phone")
  {
    hide TrimSpace, AllSpace;
    forall key | key in payload && !payload[key].Other?
      ensures TrimSpace(payload[key].text) == "" <==> AllSpace(payload[key].text)
    {
      BlankIffAllSpace(payload[key].text);
    }
    assert Trimmed("");
  }

  // The external id of a record is the first of three texts that is not blank.
  lemma ExternalIdOfPayload(rec: Raw)
    ensures ExternalId(rec) ==
      if HasText(rec.payload, "external_id") then TrimSpace(rec.payload["external_id"].text)
      else if HasText(rec.payload, "id") then TrimSpace(rec.payload["id"].text)
      else Hex(rec.id)
  {
    hide TrimSpace, AllSpace, Hex;
    var a, b, c := AsString(rec.payload, "external_id"), AsString(rec.payload, "id"), Hex(rec.id);
    assert [a, b, c][1..] == [b, c] && [b, c][1..] == [c];
    HexTrimmed(rec.id);
    assert Trimmed("");
    forall key | key in rec.payload && !rec.payload[key].Other?
      ensures TrimSpace(rec.payload[key].text) == "" <==> AllSpace(rec.payload[key].text)
    {
      BlankIffAllSpace(rec.payload[key].text);
    }
    assert FirstNonEmpty([c]) == c;
    assert FirstNonEmpty([b, c]) == if b != "" then b else c;
  }

  // ---------- the person ----------

  /** An amendment gives the person each identifier that the record carries, leaves the ones it
      lacks, and changes nothing else of that person and nobody else. */
  lemma AmendMerges(db: Db, rec: Raw, pid: string, i: nat)
    requires PeopleInv(db) && i < |db.people|
    ensures var people := WritePerson(db, rec, Some(pid)).people;
      var p, q, ids := db.people[i], people[i], Ids(rec);
      |people| == |db.people| && (p.personId != pid ==> q == p) &&
      (p.personId == pid ==>
        q.tenantId == p.tenantId && q.personId == p.personId && q.attributes == p.attributes &&
        q.nationalId == (if ids.nationalId != "" then ids.nationalId else p.nationalId) &&
        q.primaryEmail == (if ids.email != "" then ids.email else p.primaryEmail) &&
        q.primaryPhone == (if ids.phone != "" then ids.phone else p.primaryPhone))
  {
    hide Ids, TrimSpace, Issued;
    IdsTrimmed(rec);
    assert Trimmed("");
    if db.people[i].personId == pid {
      PersonAtPosition(db.people, i);
    }
  }

  // A record that matches nobody becomes one more person, with its identifiers and whole payload.
  lemma InsertStores(db: Db, rec: Raw)
    ensures var people := WritePerson(db, rec, None).people;
      |people| == |db.people| + 1 && people[..|db.people|] == db.people &&
      var q, ids := people[|db.people|], Ids(rec);
      q.tenantId == rec.tenantId && q.personId == PersonOf(db, None) && q.attributes == rec.payload &&
      q.nationalId == ids.nationalId && q.primaryEmail == ids.email && q.primaryPhone == ids.phone
  {
    hide Ids;
  }

  // ---------- the link and the record ----------

  lemma PersonOfNotBlank(db: Db, rec: Raw, found: Option<string>)
    requires PeopleInv(db) && Finds(db, rec, found)
    ensures PersonOf(db, found) != ""
  {
    hide Ids;
    if found.Some? {
      var i :| MatchAt(db.people, i, rec.tenantId, Ids(rec)) && db.people[i].personId == found.value;
      assert Issued(db.people[i].personId, db.nextId);
    }
  }

  /** A whole pass marks its record, and it alone, as resolved to the person, and leaves the link
      from the record's external id to that person, with the record's payload. */
  lemma PassMarks(db: Db, rec: Raw, found: Option<string>)
    requires PeopleInv(db) && Finds(db, rec, found) && LinkAccepted(db, rec, found)
    ensures var d, pid := Pass(db, rec, found), PersonOf(db, found);
      pid != "" && |d.raws| == |db.raws| &&
      (forall i :: 0 <= i < |db.raws| ==>
        d.raws[i] ==
        if db.raws[i].tenantId == rec.tenantId && db.raws[i].id == rec.id
        then db.raws[i].(status := Resolved, personId := pid) else db.raws[i])
    ensures var d, pid := Pass(db, rec, found), PersonOf(db, found);
      HasOwnLink(d.links, rec, pid) &&
      forall l :: l in db.links && !IsLink(l, rec.tenantId, pid, rec.sourceSlug, ExternalId(rec)) ==> l in d.links
  {
    hide Ids, Pass, WritePerson, Hex, ExternalId, PeopleInv, Finds;
    PersonOfNotBlank(db, rec, found);
    PassRaws(db, rec, found);
    LinksAfterPerson(db, rec, found);
    PassLinks(db, rec, found);
    LinkInView(WritePerson(db, rec, found), rec, PersonOf(db, found));
    OtherLinksStay(WritePerson(db, rec, found), rec, PersonOf(db, found));
  }

  lemma OtherLinksStay(db: Db, rec: Raw, pid: string)
    ensures var links := WriteLink(db, rec, pid).links;
      forall l :: l in db.links && !IsLink(l, rec.tenantId, pid, rec.sourceSlug, ExternalId(rec)) ==> l in links
  {
    hide ExternalId;
    var links := WriteLink(db, rec, pid).links;
    forall l | l in db.links && !IsLink(l, rec.tenantId, pid, rec.sourceSlug, ExternalId(rec)) ensures l in links {
      var j :| 0 <= j < |db.links| && db.links[j] == l;
      assert links[j] == l;
    }
  }

  // ---------- no identifier gets lost ----------

  // People stay, and an identifier that a person has is never blanked.
  ghost predicate KeepsIdentifiers(a: Db, b: Db) {
    |a.people| <= |b.people| &&
    forall i :: 0 <= i < |a.people| ==>
      var p, q := a.people[i], b.people[i];
      q.tenantId == p.tenantId && q.personId == p.personId && q.attributes == p.attributes &&
      (p.nationalId != "" ==> q.nationalId != "") &&
      (p.primaryEmail != "" ==> q.primaryEmail != "") &&
      (p.primaryPhone != "" ==> q.primaryPhone != "")
  }

  lemma AmendKeepsIdentifiers(db: Db, personId: string, ids: Identifiers)
    ensures KeepsIdentifiers(db, UpdatePersonIdentifiers(db, personId, ids))
  {
    assert Trimmed("");
  }

  lemma EventKeepsIdentifiers(s: System, e: Event)
    requires Enabled(s, e)
    ensures KeepsIdentifiers(s.db, Apply(s, e).db)
  {
    hide UpsertLink, UpdateRawStatus, ListRawByStatus, UpdatePersonIdentifiers, ExtractIdentifiers, ExternalId,
      FindOnePerson;
    if e.Advance? {
      var k := s.workers[e.w];
      if k.pos < |k.batch| && k.stage.Amend? {
        AmendKeepsIdentifiers(s.db, k.stage.personId, ExtractIdentifiers(Record(k).payload));
      }
    }
  }

  /** However requests interleave and wherever they stop, no person ever loses the national id, the
      email or the phone: each may be replaced by another, and never by nothing. */
  lemma {:induction false} RunKeepsIdentifiers(s: System, events: seq<Event>)
    requires CanRun(s, events)
    ensures KeepsIdentifiers(s.db, Run(s, events).db)
    decreases |events|
  {
    hide Enabled, Apply, KeepsIdentifiers;
    if events == [] {
      KeepsSame(s.db);
    } else {
      CanRunStep(s, events);
      EventKeepsIdentifiers(s, events[0]);
      RunKeepsIdentifiers(Apply(s, events[0]), events[1..]);
      KeepsOn(s.db, Apply(s, events[0]).db, Run(s, events).db);
    }
  }

  lemma KeepsSame(db: Db)
    ensures KeepsIdentifiers(db, db)
  {
  }

  lemma KeepsOn(a: Db, b: Db, c: Db)
    requires KeepsIdentifiers(a, b) && KeepsIdentifiers(b, c)
    ensures KeepsIdentifiers(a, c)
  {
  }

  // The record carries no key of that kind.
  predicate Lacks(rec: Raw, key: Key) {
    match key
    case Email(_) => Ids(rec).email == ""
    case Phone(_) => Ids(rec).phone == ""
  }

  // So its pass leaves the key with whoever holds it.
  lemma HolderStays(db: Db, rec: Raw, found: Option<string>, key: Key, i: nat)
    requires PeopleInv(db) && i < |db.people| && HasKey(db.people[i], rec.tenantId, key) && Lacks(rec, key)
    ensures var people := WritePerson(db, rec, found).people;
      |db.people| <= |people| && people[i].personId == db.people[i].personId && HasKey(people[i], rec.tenantId, key)
  {
    hide Ids, WritePerson, PeopleInv;
    if found.Some? {
      AmendMerges(db, rec, found.value, i);
    } else {
      InsertStores(db, rec);
      assert WritePerson(db, rec, None).people[i] == WritePerson(db, rec, None).people[..|db.people|][i];
    }
  }

  /** Whoever a lookup by email or phone finds before a record without one is resolved is found by
      it afterwards. */
  lemma FoundBeforeFoundAfter(db: Db, rec: Raw, found: Option<string>, key: Key, view: Option<PersonView>, i: nat)
    requires PeopleInv(db) && i < |db.people| && HasKey(db.people[i], rec.tenantId, key) && Lacks(rec, key)
    requires FindsView(Pass(db, rec, found), rec.tenantId, key, view)
    ensures view.Some?
    ensures UniqueIdentities(Pass(db, rec, found).people) && key != Email("") && key != Phone("") ==>
      view.value.person.personId == db.people[i].personId
  {
    hide Partial, WritePerson, PeopleInv, LinksOf, Lacks, UniqueIdentities, HasKey;
    PartialPeople(db, rec, found, 3);
    HolderStays(db, rec, found, key, i);
    var people := Pass(db, rec, found).people;
    assert people[i] in people;
    if UniqueIdentities(people) && key != Email("") && key != Phone("") {
      OneHolder(people, rec.tenantId, key, people[i], view.value.person);
    }
  }

  lemma OneHolder(people: seq<Person>, tenantId: string, key: Key, p: Person, q: Person)
    requires UniqueIdentities(people) && p in people && q in people && key != Email("") && key != Phone("")
    requires HasKey(p, tenantId, key) && HasKey(q, tenantId, key)
    ensures p == q
  {
    var i :| 0 <= i < |people| && people[i] == p;
    var j :| 0 <= j < |people| && people[j] == q;
    if i < j {
      assert Clash(people[i], people[j]);
    } else if j < i {
      assert Clash(people[j], people[i]);
    }
  }

  // ---------- the records of a call ----------

  // The positions before i of the records with the status.
  ghost function Earlier(raws: seq<Raw>, i: nat, tenantId: string, status: Status): set<nat>
    requires i <= |raws|
  {
    set j: nat | j < i && raws[j].tenantId == tenantId && raws[j].status == status
  }

  lemma {:induction false} WithStatusCounts(raws: seq<Raw>, i: nat, tenantId: string, status: Status)
    requires i <= |raws|
    ensures |WithStatus(raws[..i], tenantId, status)| == |Earlier(raws, i, tenantId, status)|
  {
    if i == 0 {
      assert Earlier(raws, 0, tenantId, status) == {};
    } else {
      assert raws[..i][..i - 1] == raws[..i - 1];
      WithStatusCounts(raws, i - 1, tenantId, status);
      EarlierNext(raws, i - 1, tenantId, status);
      hide Earlier;
    }
  }

  lemma NotEarlier(raws: seq<Raw>, i: nat, tenantId: string, status: Status)
    requires i <= |raws|
    ensures i !in Earlier(raws, i, tenantId, status)
  {
  }

  lemma EarlierNext(raws: seq<Raw>, i: nat, tenantId: string, status: Status)
    requires i < |raws|
    ensures |Earlier(raws, i + 1, tenantId, status)| ==
      |Earlier(raws, i, tenantId, status)| + (if HasStatus(raws[i], tenantId, status) then 1 else 0)
  {
    var has := HasStatus(raws[i], tenantId, status);
    var a, b := Earlier(raws, i, tenantId, status), Earlier(raws, i + 1, tenantId, status);
    var last: set<nat> := if has then {i} else {};
    forall j: nat ensures j in b <==> j in a + last {
    }
    hide Earlier;
    assert b == a + last;
    assert i !in a by {
      NotEarlier(raws, i, tenantId, status);
    }
  }

  lemma {:induction false} WithStatusAppend(a: seq<Raw>, b: seq<Raw>, tenantId: string, status: Status)
    ensures WithStatus(a + b, tenantId, status) == WithStatus(a, tenantId, status) + WithStatus(b, tenantId, status)
    decreases |b|
  {
    if b == [] {
      assert a + b == a;
    } else {
      var n := |b| - 1;
      assert (a + b)[..|a| + n] == a + b[..n];
      WithStatusAppend(a, b[..n], tenantId, status);
    }
  }

  /** A listing is oldest first and complete up to its limit, 100 when none is given: the record
      that has the status and n earlier ones beside it is the n-th of the list. */
  lemma ListedByAge(raws: seq<Raw>, tenantId: string, status: Status, limit: int, i: nat)
    requires i < |raws| && raws[i].tenantId == tenantId && raws[i].status == status
    ensures var most: nat := if limit <= 0 then 100 else limit;
      var listed, n := ListRawByStatus(raws, tenantId, status, limit), |Earlier(raws, i, tenantId, status)|;
      var all := |Earlier(raws, |raws|, tenantId, status)|;
      |listed| == (if all < most then all else most) && n < all && (n < most ==> listed[n] == raws[i])
  {
    WithStatusCounts(raws, i, tenantId, status);
    WithStatusCounts(raws, |raws|, tenantId, status);
    assert raws[..|raws|] == raws;
    assert raws == raws[..i + 1] + raws[i + 1..];
    WithStatusAppend(raws[..i + 1], raws[i + 1..], tenantId, status);
    assert raws[..i + 1][..i] == raws[..i];
  }

  // What the records of a scan, the first n of the batch, have become.
  ghost predicate Scanned(before: seq<Raw>, after: seq<Raw>, batch: seq<Raw>, n: nat)
    requires n <= |batch|
  {
    |after| == |before| &&
    forall i :: 0 <= i < |before| ==>
      if before[i] in batch[..n] && !ForReview(before[i])
      then after[i].personId != "" && after[i] == before[i].(status := Resolved, personId := after[i].personId)
      else after[i] == before[i]
  }

  lemma ScannedOneMore(before: seq<Raw>, mid: seq<Raw>, after: seq<Raw>, batch: seq<Raw>, n: nat, pid: string)
    requires n < |batch| && Scanned(before, mid, batch, n) && DistinctIds(before) && batch[n] in before && pid != ""
    requires !ForReview(batch[n]) && batch[n] !in batch[..n]
    requires after == UpdateRawStatus(mid, batch[n].tenantId, [batch[n].id], Resolved, pid)
    ensures Scanned(before, after, batch, n + 1)
  {
    hide ForReview;
    var rec := batch[n];
    var k :| 0 <= k < |before| && before[k] == rec;
    assert batch[..n + 1] == batch[..n] + [rec];
    forall i | 0 <= i < |before|
      ensures if before[i] in batch[..n + 1] && !ForReview(before[i])
        then after[i].personId != "" && after[i] == before[i].(status := Resolved, personId := after[i].personId)
        else after[i] == before[i]
    {
      assert before[i].id == rec.id ==> i == k;
      assert mid[i].id == before[i].id && mid[i].tenantId == before[i].tenantId;
    }
  }

  lemma ScannedSkip(before: seq<Raw>, after: seq<Raw>, batch: seq<Raw>, n: nat)
    requires n < |batch| && Scanned(before, after, batch, n) && ForReview(batch[n])
    ensures Scanned(before, after, batch, n + 1)
  {
    hide ForReview;
    assert batch[..n + 1] == batch[..n] + [batch[n]];
  }

  lemma BatchMembers(db: Db, tenantId: string, limit: int)
    requires Distinct(db)
    ensures var batch := Batch(db, tenantId, limit);
      DistinctIds(db.raws) && DistinctIds(batch) &&
      forall k :: 0 <= k < |batch| ==> batch[k] in db.raws && batch[k] !in batch[..k] && batch[k].tenantId == tenantId
  {
    hide WithStatus;
    var batch := Batch(db, tenantId, limit);
    BatchIsPrefix(db, tenantId, limit);
    QueueDistinct(db.raws, tenantId);
    WithStatusMembers(db.raws, tenantId, Pending);
    forall k | 0 <= k < |batch|
      ensures batch[k] in db.raws && batch[k] !in batch[..k] && batch[k].tenantId == tenantId
    {
      QueueTenant(db, tenantId, k);
      assert batch[k] in Queue(db, tenantId);
    }
  }

  lemma {:induction false} ScanMarks(db: Db, tenantId: string, limit: int, founds: seq<Option<string>>)
    requires Distinct(db)
    requires |founds| <= |Batch(db, tenantId, limit)| && ValidScan(db, Batch(db, tenantId, limit), founds)
    ensures var batch := Batch(db, tenantId, limit);
      Scanned(db.raws, Scan(db, batch, founds).raws, batch, |founds|)
    decreases |founds|
  {
    hide Finds, LinkAccepted, Batch, Queue, ForReview, Pass, Scanned, UpdateRawStatus, DistinctIds;
    var batch := Batch(db, tenantId, limit);
    if founds == [] {
      NoneScanned(db.raws, batch);
    } else {
      var n := |founds| - 1;
      var d := Scan(db, batch, founds[..n]);
      ScanMarks(db, tenantId, limit, founds[..n]);
      ScanPlaces(db, tenantId, limit, founds[..n]);
      BatchMembers(db, tenantId, limit);
      if ForReview(batch[n]) {
        ScannedSkip(db.raws, d.raws, batch, n);
      } else {
        PassRaws(d, batch[n], founds[n]);
        PersonOfNotBlank(d, batch[n], founds[n]);
        ScannedOneMore(db.raws, d.raws, Pass(d, batch[n], founds[n]).raws, batch, n, PersonOf(d, founds[n]));
      }
    }
  }

  lemma NoneScanned(raws: seq<Raw>, batch: seq<Raw>)
    ensures Scanned(raws, raws, batch, 0)
  {
  }

  lemma IdsOfAppend(a: seq<Raw>, b: seq<Raw>)
    ensures IdsOf(a + b) == IdsOf(a) + IdsOf(b)
  {
  }

  lemma {:induction false} ReviewIds(recs: seq<Raw>, id: ObjectId)
    ensures id in IdsOf(ReviewsOf(recs)) <==> exists r :: r in recs && ForReview(r) && r.id == id
    decreases |recs|
  {
    hide ForReview;
    if recs != [] {
      var n := |recs| - 1;
      ReviewIds(recs[..n], id);
      assert recs == recs[..n] + [recs[n]];
      IdsOfAppend(ReviewsOf(recs[..n]), if ForReview(recs[n]) then [recs[n]] else []);
    }
  }

  /** A finished call sends every record of its batch on: one that carries an identifier is resolved
      to a person, one that carries none goes to review, and no other record changes. */
  lemma FinishedCallMarks(db: Db, tenantId: string, c: Call, i: nat)
    requires Distinct(db) && ValidCall(db, tenantId, c) && c.stop.Finished? && i < |db.raws|
    ensures var r, after := db.raws[i], Effect(db, tenantId, c).raws;
      |after| == |db.raws| &&
      if r !in Batch(db, tenantId, c.limit) then after[i] == r
      else if NoIdentifiers(ExtractIdentifiers(r.payload)) then after[i] == r.(status := NeedsReview)
      else after[i].personId != "" && after[i] == r.(status := Resolved, personId := after[i].personId)
  {
    hide Finds, LinkAccepted, ValidScan, Scan, Batch, Distinct, DistinctIds, ReviewsOf, IdsOf, ExtractIdentifiers,
      NoIdentifiers;
    var batch := Batch(db, tenantId, c.limit);
    var r, d := db.raws[i], Scan(db, batch, c.founds);
    ScanMarks(db, tenantId, c.limit, c.founds);
    BatchMembers(db, tenantId, c.limit);
    assert batch[..|batch|] == batch;
    ReviewIds(batch, r.id);
    SameIdSame(db.raws, batch, i);
    assert d.raws[i].id == r.id && d.raws[i].tenantId == r.tenantId;
  }

  lemma SameIdSame(raws: seq<Raw>, batch: seq<Raw>, i: nat)
    requires DistinctIds(raws) && i < |raws| && forall k :: 0 <= k < |batch| ==> batch[k] in raws
    ensures forall r :: r in batch && r.id == raws[i].id ==> r == raws[i]
  {
  }

  // ---------- ingest ----------

  /** An accepted batch registers its source under the trimmed slug and appends its payloads in
      order, as pending records under new ids. */
  lemma BatchStored(db: Db, tenantId: string, slug: string, name: string, payloads: seq<Payload>)
    ensures var r := SaveBatch(db, tenantId, slug, name, payloads);
      (r.Ok? <==> !AllSpace(slug) && payloads != []) &&
      (r.Ok? ==>
        var n, after := |db.raws|, r.value;
        after.people == db.people && after.links == db.links &&
        after.sources == db.sources[(tenantId, TrimSpace(slug)) := name] &&
        after.nextId == db.nextId + |payloads| && |after.raws| == n + |payloads| && after.raws[..n] == db.raws &&
        forall i :: 0 <= i < |payloads| ==>
          var rec := after.raws[n + i];
          rec.payload == payloads[i] && rec.tenantId == tenantId && rec.sourceSlug == TrimSpace(slug) &&
          rec.status == Pending && rec.personId == "" && rec.id == db.nextId + i)
  {
    BlankIffAllSpace(slug);
    hide TrimSpace, AllSpace;
  }
}
