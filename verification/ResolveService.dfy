/** The services on top of the store: ingest, resolve, review and lookup. */
module ResolveService {
  import opened Text
  import opened Entities
  import opened ResolveProtocol
  import opened ResolvePass
  import opened ResolveRecovery
  import opened Lookup
  import opened EntityStore

  // ---------- ingest ----------

  method Ingest(store: MongoStore, tenantId: string, slug: string, name: string, payloads: seq<Payload>)
    returns (r: Result<nat>)
    modifies store.conn`calls, store`sources, store`raws, store`nextId
    ensures r.Ok? ==> TrimSpace(tenantId) != "" && r.value == |payloads|
    ensures r.Ok? ==> SaveBatch(old(store.Contents()), tenantId, slug, name, payloads) == Ok(store.Contents())
    ensures r.Err? ==> store.raws == old(store.raws)
    ensures store.conn.Healthy() ==> (r.Ok? <==> TrimSpace(tenantId) != "" && TrimSpace(slug) != "" && payloads != [])
  {
    if TrimSpace(tenantId) == "" {
      return Err("services: tenant required");
    }
    if TrimSpace(slug) == "" {
      return Err("services: source slug required");
    }
    if |payloads| == 0 {
      return Err("services: at least one record required");
    }
    r := store.SaveBatch(tenantId, slug, name, payloads);
  }

  // ---------- resolve ----------

  datatype ResolveResult = ResolveResult(resolved: nat, needsReview: nat, skipped: int)

  // How far the loop is: what it wrote, and what it has put aside for review.
  ghost predicate Progress(start: Db, now: Db, batch: seq<Raw>, founds: seq<Option<string>>, i: nat) {
    i == |founds| <= |batch| && ValidScan(start, batch, founds) && now == Scan(start, batch, founds)
  }

  lemma ProgressNext(start: Db, now: Db, batch: seq<Raw>, founds: seq<Option<string>>, found: Option<string>)
    requires |founds| < |batch| && Progress(start, now, batch, founds, |founds|)
    requires var rec := batch[|founds|];
      !ForReview(rec) ==> Finds(now, rec, found) && LinkAccepted(now, rec, found)
    ensures var rec := batch[|founds|];
      Progress(start, if ForReview(rec) then now else Pass(now, rec, found), batch, founds + [found], |founds| + 1)
  {
    hide Finds, LinkAccepted, Pass, ForReview;
    assert (founds + [found])[..|founds|] == founds;
  }

  lemma ReviewIdsNext(batch: seq<Raw>, i: nat)
    requires i < |batch|
    ensures IdsOf(ReviewsOf(batch[..i + 1])) ==
      IdsOf(ReviewsOf(batch[..i])) + (if ForReview(batch[i]) then [batch[i].id] else [])
  {
    ReviewsOfNext(batch, i);
  }

  // The writes of a pass, told by the links that the upsert left.
  lemma PassSteps(d: Db, rec: Raw, found: Option<string>, links: seq<Link>)
    ensures var pid := PersonOf(d, found);
      var d1 := WritePerson(d, rec, found);
      d1.links == d.links && Partial(d, rec, found, 0) == d && Partial(d, rec, found, 1) == d1 &&
      (TryLink(d1.links, rec, pid).Refused? ==> !LinkAccepted(d, rec, found)) &&
      (TryLink(d1.links, rec, pid) == Linked(links) ==>
        LinkAccepted(d, rec, found) && Partial(d, rec, found, 2) == d1.(links := links) &&
        Partial(d, rec, found, 3) == WriteMark(d1.(links := links), rec, pid))
  {
    hide UpsertLink, CreatePerson, UpdatePersonIdentifiers, UpdateRawStatus;
    LinksAfterPerson(d, rec, found);
  }

  // The person that the record belongs to, written to the people collection.
  method MatchPerson(store: MongoStore, rec: Raw, ids: Identifiers)
    returns (r: Result<string>, ghost found: Option<string>)
    requires ids == Ids(rec) && !ForReview(rec)
    modifies store.conn`calls, store`people, store`nextId
    ensures r.Ok? ==> Finds(old(store.Contents()), rec, found) && r.value == PersonOf(old(store.Contents()), found)
    ensures r.Ok? ==> store.Contents() == WritePerson(old(store.Contents()), rec, found)
    ensures r.Err? ==> store.Contents() == old(store.Contents()) && !store.conn.Healthy()
  {
    found := None;
    var match_ := store.FindPersonByIdentifiers(rec.tenantId, ids);
    if match_.Err? {
      return Err(match_.message), found;
    }
    if match_.value.None? {
      var created := store.CreatePerson(rec.tenantId, ids, rec.payload);
      if created.Err? {
        return Err(created.message), found;
      }
      r := Ok(created.value.personId);
    } else {
      var pid := match_.value.value.personId;
      found := Some(pid);
      var updated := store.UpdatePersonIdentifiers(pid, ids);
      if updated.Err? {
        return Err(updated.message), found;
      }
      r := Ok(pid);
    }
  }

  /** One record with identifiers: person, link and status, in that order. When a call fails,
      `writes` says how many of the three writes had been made. */
  method ResolveRecord(store: MongoStore, tenantId: string, rec: Raw, ids: Identifiers)
    returns (matched: bool, err: Option<string>, ghost found: Option<string>, ghost writes: nat)
    requires ids == Ids(rec) && !ForReview(rec) && rec.tenantId == tenantId
    modifies store.conn`calls, store`people, store`links, store`raws, store`nextId
    ensures store.Contents() == Partial(old(store.Contents()), rec, found, writes)
    ensures writes <= 3 && (writes != 0 ==> Finds(old(store.Contents()), rec, found)) && (matched <==> 1 <= writes)
    ensures err.None? ==> writes == 3 && LinkAccepted(old(store.Contents()), rec, found)
    ensures err.Some? ==>
      writes < 3 && (store.conn.Healthy() ==> 1 <= writes && !LinkAccepted(old(store.Contents()), rec, found))
  {
    hide Finds, WritePerson, Entities.UpsertLink, Entities.UpdateRawStatus, Partial, LinkAccepted, PersonOf,
      ForReview, Ids, ExtractIdentifiers, ExternalId;
    matched, writes := false, 0;
    ghost var before := store.Contents();
    var person;
    person, found := MatchPerson(store, rec, ids);
    PassSteps(before, rec, found, store.links);
    if person.Err? {
      return matched, Some(person.message), found, 0;
    }
    matched := true;
    var externalId := ExternalId(rec);
    var linked := store.UpsertLink(tenantId, person.value, rec.sourceSlug, externalId, rec.payload);
    PassSteps(before, rec, found, store.links);
    if linked.Err? {
      return matched, Some(linked.message), found, 1;
    }
    var marked := store.UpdateRawStatus(tenantId, [rec.id], Resolved, person.value);
    if marked.Err? {
      return matched, Some(marked.message), found, 2;
    }
    return matched, None, found, 3;
  }

  lemma CutEffect(start: Db, now: Db, tenantId: string, limit: int, founds: seq<Option<string>>, found: Option<string>,
      writes: nat)
    requires Stopped(start, now, Batch(start, tenantId, limit), founds, found, writes)
    ensures var c := Call(limit, founds, Cut(found, writes));
      ValidCall(start, tenantId, c) && Effect(start, tenantId, c) == now
  {
    hide Scan, ValidScan, Partial, Finds, ForReview;
    PartialNothing(Scan(start, Batch(start, tenantId, limit), founds), Batch(start, tenantId, limit)[|founds|], found);
  }

  lemma PartialNothing(d: Db, rec: Raw, found: Option<string>)
    ensures Partial(d, rec, found, 0) == d
  {
  }

  // What the counters say about a call, wherever it stopped.
  ghost predicate Counted(start: Db, tenantId: string, c: Call, result: ResolveResult)
    requires |c.founds| <= |Batch(start, tenantId, c.limit)|
  {
    var batch, n := Batch(start, tenantId, c.limit), |c.founds|;
    result.needsReview == |ReviewsOf(batch[..n])| && result.skipped == 0 &&
    result.resolved + result.needsReview == n + (if c.stop.Cut? && 1 <= c.stop.writes then 1 else 0)
  }

  // The loop stopped at a record, with so many of its writes made.
  ghost predicate Stopped(start: Db, now: Db, batch: seq<Raw>, founds: seq<Option<string>>, found: Option<string>,
      writes: nat)
  {
    |founds| < |batch| && ValidScan(start, batch, founds) && writes < 3 &&
    var d, rec := Scan(start, batch, founds), batch[|founds|];
    (writes != 0 ==> !ForReview(rec) && Finds(d, rec, found)) && now == Partial(d, rec, found, writes)
  }

  ghost predicate LinkRefusedAt(start: Db, batch: seq<Raw>, founds: seq<Option<string>>, found: Option<string>)
    requires |founds| < |batch|
  {
    !LinkAccepted(Scan(start, batch, founds), batch[|founds|], found)
  }

  lemma StopsAt(start: Db, before: Db, now: Db, batch: seq<Raw>, founds: seq<Option<string>>, found: Option<string>,
      writes: nat)
    requires |founds| < |batch| && Progress(start, before, batch, founds, |founds|) && writes < 3
    requires !ForReview(batch[|founds|]) && (writes != 0 ==> Finds(before, batch[|founds|], found))
    requires now == Partial(before, batch[|founds|], found, writes)
    ensures Stopped(start, now, batch, founds, found, writes)
    ensures LinkRefusedAt(start, batch, founds, found) <==> !LinkAccepted(before, batch[|founds|], found)
  {
    hide Scan, ValidScan, Finds, Partial, LinkAccepted, ForReview;
  }

  // Processes the records of a batch, one after the other.
  method ResolveBatch(store: MongoStore, tenantId: string, batch: seq<Raw>, ghost start: Db)
    returns (resolved: nat, reviewIds: seq<ObjectId>, err: Option<string>,
      ghost founds: seq<Option<string>>, ghost found: Option<string>, ghost writes: nat)
    requires store.Contents() == start && forall i :: 0 <= i < |batch| ==> batch[i].tenantId == tenantId
    modifies store.conn`calls, store`people, store`links, store`raws, store`nextId
    ensures |founds| <= |batch| && reviewIds == IdsOf(ReviewsOf(batch[..|founds|]))
    ensures resolved + |reviewIds| == |founds| + (if err.Some? && 1 <= writes then 1 else 0)
    ensures err.None? ==> Progress(start, store.Contents(), batch, founds, |batch|)
    ensures err.Some? ==> Stopped(start, store.Contents(), batch, founds, found, writes)
    ensures err.Some? && store.conn.Healthy() ==> 1 <= writes && LinkRefusedAt(start, batch, founds, found)
  {
    hide Scan, ValidScan, Partial, Finds, LinkAccepted, ReviewsOf, IdsOf, Progress, Stopped, LinkRefusedAt;
    resolved, reviewIds, founds, found, writes := 0, [], [], None, 0;
    NothingScanned(start, batch);
    for i := 0 to |batch|
      invariant i == |founds| && Progress(start, store.Contents(), batch, founds, i)
      invariant reviewIds == IdsOf(ReviewsOf(batch[..i])) && resolved + |reviewIds| == i
    {
      var rec := batch[i];
      var ids := ExtractIdentifiers(rec.payload);
      ReviewIdsNext(batch, i);
      ghost var before := store.Contents();
      if NoIdentifiers(ids) {
        reviewIds := reviewIds + [rec.id];
        ProgressNext(start, before, batch, founds, None);
        founds := founds + [None];
        continue;
      }
      var matched, failed;
      matched, failed, found, writes := ResolveRecord(store, tenantId, rec, ids);
      if matched {
        resolved := resolved + 1;
      }
      if failed.Some? {
        StopsAt(start, before, store.Contents(), batch, founds, found, writes);
        err := failed;
        return;
      }
      ProgressNext(start, before, batch, founds, found);
      founds := founds + [found];
    }
    assert batch[..|batch|] == batch;
    err := None;
  }

  lemma NothingScanned(start: Db, batch: seq<Raw>)
    ensures Progress(start, start, batch, [], 0) && IdsOf(ReviewsOf(batch[..0])) == []
  {
    assert batch[..0] == [];
  }

  /** Processes the tenant's oldest pending records, one after the other. The trace says what
      happened: a run that reports no error is a finished call, one that reports an error was cut
      after some store write, and either way the collections are what the trace makes of them. */
  method Resolve(store: MongoStore, tenantId: string, batchSize: int)
    returns (result: ResolveResult, err: Option<string>, ghost trace: Call)
    modifies store.conn`calls, store`people, store`links, store`raws, store`nextId
    ensures trace.limit == batchSize && ValidCall(old(store.Contents()), tenantId, trace)
    ensures store.Contents() == Effect(old(store.Contents()), tenantId, trace)
    ensures Counted(old(store.Contents()), tenantId, trace, result)
    ensures err.None? <==> trace.stop.Finished?
    ensures TrimSpace(tenantId) == "" ==> err.Some? && store.Contents() == old(store.Contents())
    ensures TrimSpace(tenantId) != "" && store.conn.Healthy() ==> FaultFree(old(store.Contents()), tenantId, trace)
  {
    hide Scan, ValidScan, Entities.UpdateRawStatus, WithStatus, Partial, Finds, LinkAccepted, ReviewsOf, IdsOf,
      TrimSpace, Stopped, Progress, ValidCall, Effect, Batch;
    ghost var start := store.Contents();
    result := ResolveResult(0, 0, 0);
    trace := Call(batchSize, [], Cut(None, 0));
    NothingDone(start, tenantId, batchSize);
    if TrimSpace(tenantId) == "" {
      return result, Some("services: tenant required"), trace;
    }
    var size := if batchSize <= 0 then 100 else batchSize;
    var listed := store.ListRawByStatus(tenantId, Pending, size);
    if listed.Err? {
      return result, Some(listed.message), trace;
    }
    var batch := listed.value;
    BatchListed(start, tenantId, batchSize);
    var resolved, reviewIds, failed, founds, found, writes := ResolveBatch(store, tenantId, batch, start);
    result := ResolveResult(resolved, |reviewIds|, 0);
    if failed.Some? {
      trace := Call(batchSize, founds, Cut(found, writes));
      CutEffect(start, store.Contents(), tenantId, batchSize, founds, found, writes);
      ReviewsCounted(batch[..|founds|]);
      StoppedWithin(start, store.Contents(), batch, founds, found, writes);
      return result, failed, trace;
    }
    ScanEffects(start, store.Contents(), tenantId, batchSize, founds);
    assert batch[..|batch|] == batch;
    ReviewsCounted(batch);
    ghost var scanned := store.Contents();
    if |reviewIds| > 0 {
      var flushed := store.UpdateRawStatus(tenantId, reviewIds, NeedsReview, "");
      if flushed.Err? {
        trace := Call(batchSize, founds, Cut(None, 0));
        return result, Some(flushed.message), trace;
      }
    } else {
      NoReviews(scanned, tenantId, ReviewsOf(batch));
    }
    result := result.(skipped := |batch| - result.resolved - result.needsReview);
    trace := Call(batchSize, founds, Finished);
    err := None;
  }

  lemma StoppedWithin(start: Db, now: Db, batch: seq<Raw>, founds: seq<Option<string>>, found: Option<string>,
      writes: nat)
    requires Stopped(start, now, batch, founds, found, writes)
    ensures |founds| < |batch|
  {
  }

  lemma ReviewsCounted(batch: seq<Raw>)
    ensures |IdsOf(ReviewsOf(batch))| == |ReviewsOf(batch)|
  {
    hide ReviewsOf;
  }

  // The records that the store lists are the batch of the model.
  lemma BatchListed(db: Db, tenantId: string, limit: int)
    ensures Entities.ListRawByStatus(db.raws, tenantId, Pending, if limit <= 0 then 100 else limit) ==
      Batch(db, tenantId, limit)
    ensures forall i :: 0 <= i < |Batch(db, tenantId, limit)| ==> Batch(db, tenantId, limit)[i].tenantId == tenantId
  {
    forall i | 0 <= i < |Batch(db, tenantId, limit)| ensures Batch(db, tenantId, limit)[i].tenantId == tenantId {
      BatchTenant(db, tenantId, limit, i);
    }
    hide WithStatus;
  }

  lemma ScanEffects(start: Db, now: Db, tenantId: string, limit: int, founds: seq<Option<string>>)
    requires Progress(start, now, Batch(start, tenantId, limit), founds, |Batch(start, tenantId, limit)|)
    ensures var cut, done := Call(limit, founds, Cut(None, 0)), Call(limit, founds, Finished);
      |founds| == |Batch(start, tenantId, limit)| &&
      ValidCall(start, tenantId, cut) && Effect(start, tenantId, cut) == now &&
      ValidCall(start, tenantId, done) &&
      Effect(start, tenantId, done) == Flush(now, tenantId, ReviewsOf(Batch(start, tenantId, limit)))
  {
    hide Scan, ValidScan, Batch, Flush;
  }

  lemma NothingDone(start: Db, tenantId: string, limit: int)
    ensures var c := Call(limit, [], Cut(None, 0));
      ValidCall(start, tenantId, c) && Effect(start, tenantId, c) == start &&
      Counted(start, tenantId, c, ResolveResult(0, 0, 0))
  {
    assert Batch(start, tenantId, limit)[..0] == [];
  }

  lemma NoReviews(db: Db, tenantId: string, reviews: seq<Raw>)
    requires IdsOf(reviews) == []
    ensures Flush(db, tenantId, reviews) == db
  {
    assert reviews == [];
    FlushNothing(db, tenantId);
  }

  lemma BatchTenant(db: Db, tenantId: string, limit: int, i: nat)
    requires i < |Batch(db, tenantId, limit)|
    ensures Batch(db, tenantId, limit)[i].tenantId == tenantId
  {
    BatchIsPrefix(db, tenantId, limit);
    QueueTenant(db, tenantId, i);
  }

  // ---------- review ----------

  // Why a decision is turned away; the checks are made in this order. id is what the text of the
  // record's id reads as.
  function Refusal(tenantId: string, rawId: string, id: Option<ObjectId>, decision: string): Option<string> {
    if TrimSpace(tenantId) == "" then Some("services: tenant required")
    else if TrimSpace(rawId) == "" then Some("services: raw id required")
    else if id.None? then Some("services: invalid raw id")
    else if ToLower(decision) !in {"accept", "reject"} then Some("services: decision must be 'accept' or 'reject'")
    else None
  }

  /** Decides a raw record whatever its status; the record's person is left as it is. `parse` is
      primitive.ObjectIDFromHex. */
  method Decide(store: MongoStore, tenantId: string, rawId: string, decision: string, parse: string -> Option<ObjectId>)
    returns (r: Result<()>)
    modifies store.conn`calls, store`raws
    ensures r.Ok? ==>
      Refusal(tenantId, rawId, parse(rawId), decision).None? &&
      var status := if ToLower(decision) == "accept" then Resolved else Rejected;
      store.raws == UpdateRawStatus(old(store.raws), tenantId, [parse(rawId).value], status, "")
    ensures r.Err? ==> store.raws == old(store.raws)
    ensures var refusal := Refusal(tenantId, rawId, parse(rawId), decision);
      if refusal.Some? then r == Err(refusal.value) else store.conn.Healthy() ==> r.Ok?
  {
    hide TrimSpace, ToLower, UpdateRawStatus;
    if TrimSpace(tenantId) == "" {
      return Err("services: tenant required");
    }
    if TrimSpace(rawId) == "" {
      return Err("services: raw id required");
    }
    var objectId := parse(rawId);
    if objectId.None? {
      return Err("services: invalid raw id");
    }
    var status: Status;
    if ToLower(decision) == "accept" {
      status := Resolved;
    } else if ToLower(decision) == "reject" {
      status := Rejected;
    } else {
      return Err("services: decision must be 'accept' or 'reject'");
    }
    r := store.UpdateRawStatus(tenantId, [objectId.value], status, "");
  }

  // ---------- lookup ----------

  // All the person's links and no others.
  ghost predicate HasAllLinks(links: seq<Link>, p: Person, found: seq<Link>) {
    forall l :: l in found <==> l in links && l.tenantId == p.tenantId && l.personId == p.personId
  }

  method ByEmail(store: MongoStore, tenantId: string, email: string) returns (r: Result<Option<PersonView>>)
    modifies store.conn`calls
    ensures r.Ok? ==> FindsView(store.Contents(), tenantId, EmailKey(email), r.value)
    ensures r.Ok? && r.value.Some? ==>
      var p := r.value.value.person;
      p in store.people && p.tenantId == tenantId && p.primaryEmail == ToLower(TrimSpace(email)) &&
      HasAllLinks(store.links, p, r.value.value.links)
    ensures r.Ok? && r.value.None? ==>
      forall p :: p in store.people ==> p.tenantId != tenantId || p.primaryEmail != ToLower(TrimSpace(email))
    ensures store.conn.Healthy() ==> (r.Ok? <==> TrimSpace(email) != "" && TrimSpace(tenantId) != "")
  {
    if TrimSpace(email) == "" {
      return Err("services: email required");
    }
    if TrimSpace(tenantId) == "" {
      return Err("services: tenant required");
    }
    r := store.FindPersonWithLinks(tenantId, Email(ToLower(TrimSpace(email))));
  }

  method ByPhone(store: MongoStore, tenantId: string, phone: string) returns (r: Result<Option<PersonView>>)
    modifies store.conn`calls
    ensures r.Ok? ==> FindsView(store.Contents(), tenantId, PhoneKey(phone), r.value)
    ensures r.Ok? && r.value.Some? ==>
      var p := r.value.value.person;
      p in store.people && p.tenantId == tenantId && p.primaryPhone == phone &&
      HasAllLinks(store.links, p, r.value.value.links)
    ensures r.Ok? && r.value.None? ==>
      forall p :: p in store.people ==> p.tenantId != tenantId || p.primaryPhone != phone
    ensures store.conn.Healthy() ==> (r.Ok? <==> TrimSpace(phone) != "" && TrimSpace(tenantId) != "")
  {
    if TrimSpace(phone) == "" {
      return Err("services: phone required");
    }
    if TrimSpace(tenantId) == "" {
      return Err("services: tenant required");
    }
    r := store.FindPersonWithLinks(tenantId, Phone(phone));
  }
}
