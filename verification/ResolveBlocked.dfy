/** What a refused link does to the records behind it: Resolve stops at the record, the record stays
    pending, and the next call begins with it again. */
module ResolveBlocked {
  import opened Text
  import opened Entities
  import opened ResolveProtocol
  import opened ResolvePass
  import opened ResolveRecovery
  import opened ResolveRuns

  // The record's external id is linked already, to somebody whom its identifiers do not match.
  ghost predicate Foreign(db: Db, rec: Raw) {
    exists k :: 0 <= k < |db.links| && HeldByStranger(db, rec, k)
  }

  ghost predicate HeldByStranger(db: Db, rec: Raw, k: int)
    requires 0 <= k < |db.links|
  {
    SameExternal(db.links[k], rec.tenantId, rec.sourceSlug, ExternalId(rec)) &&
    forall i :: MatchAt(db.people, i, rec.tenantId, Ids(rec)) ==> db.people[i].personId != db.links[k].personId
  }

  // The person that the pass settles on is not the stranger.
  lemma NotTheStranger(db: Db, rec: Raw, found: Option<string>, k: nat)
    requires DbInv(db) && Finds(db, rec, found) && k < |db.links| && HeldByStranger(db, rec, k)
    ensures PersonOf(db, found) != db.links[k].personId
  {
    hide ExternalId, RawsInv, LinkKeys;
    var l := db.links[k];
    assert l in db.links;
    if found.None? {
      var p :| p in db.people && (l.tenantId, l.personId) == (p.tenantId, p.personId);
      var i :| 0 <= i < |db.people| && db.people[i] == p;
      assert Issued(db.people[i].personId, db.nextId);
      IssuedNext(db.nextId);
    } else {
      var i :| MatchAt(db.people, i, rec.tenantId, Ids(rec)) && db.people[i].personId == found.value;
    }
  }

  // The unique index lets nobody else have a key that is held.
  lemma HeldByAnother(db: Db, rec: Raw, found: Option<string>, k: nat)
    requires DbInv(db) && k < |db.links| && PersonOf(db, found) != db.links[k].personId
    requires SameExternal(db.links[k], rec.tenantId, rec.sourceSlug, ExternalId(rec))
    ensures !LinkAccepted(db, rec, found)
  {
    hide ExternalId, RawsInv, LinkKeys, PersonKeys, PeopleInv, TrimSpace;
    var key := db.links[k];
    forall j | 0 <= j < |db.links| && SameExternal(db.links[j], rec.tenantId, rec.sourceSlug, ExternalId(rec))
      ensures j == k
    {
      assert SameExternal(db.links[j], key.tenantId, key.source, key.externalId);
    }
  }

  lemma ForeignRefuses(db: Db, rec: Raw, found: Option<string>)
    requires DbInv(db) && Foreign(db, rec) && Finds(db, rec, found)
    ensures !LinkAccepted(db, rec, found)
  {
    hide DbInv, ExternalId, Finds, LinkAccepted, PersonOf;
    var k :| 0 <= k < |db.links| && HeldByStranger(db, rec, k);
    NotTheStranger(db, rec, found, k);
    HeldByAnother(db, rec, found, k);
  }

  lemma PersonWriteKeepsDbInv(db: Db, rec: Raw, found: Option<string>)
    requires DbInv(db)
    ensures DbInv(WritePerson(db, rec, found))
  {
    if found.None? {
      CreatePersonInv(db, rec.tenantId, Ids(rec), rec.payload);
    } else {
      UpdatePersonInv(db, found.value, Ids(rec));
    }
  }

  // Writing the person does not make the stranger match.
  lemma ForeignPersists(db: Db, rec: Raw, found: Option<string>, writes: nat)
    requires DbInv(db) && Foreign(db, rec) && Finds(db, rec, found)
    ensures var d := Partial(db, rec, found, writes);
      DbInv(d) && Foreign(d, rec) && d.raws == db.raws && d.links == db.links
  {
    hide ExternalId, DbInv, Ids, LinkAccepted, PersonOf, HeldByStranger, Partial, WritePerson, Finds;
    var k :| 0 <= k < |db.links| && HeldByStranger(db, rec, k);
    NotTheStranger(db, rec, found, k);
    ForeignRefuses(db, rec, found);
    PersonWriteKeepsDbInv(db, rec, found);
    LinksAfterPerson(db, rec, found);
    StrangerApart(db, rec, found, k);
    RefusedPartial(db, rec, found, writes);
  }

  // A pass that is refused its link leaves the person written, and no more.
  lemma RefusedPartial(db: Db, rec: Raw, found: Option<string>, writes: nat)
    requires !LinkAccepted(db, rec, found)
    ensures Partial(db, rec, found, writes) == if writes == 0 then db else WritePerson(db, rec, found)
  {
    hide ExternalId, Ids, UpsertLink;
    LinksAfterPerson(db, rec, found);
  }

  lemma StrangerApart(db: Db, rec: Raw, found: Option<string>, k: nat)
    requires k < |db.links| && HeldByStranger(db, rec, k) && PersonOf(db, found) != db.links[k].personId
    ensures WritePerson(db, rec, found).links == db.links && HeldByStranger(WritePerson(db, rec, found), rec, k)
  {
    hide ExternalId, Ids;
    var d := WritePerson(db, rec, found);
    forall i | MatchAt(d.people, i, rec.tenantId, Ids(rec)) ensures d.people[i].personId != db.links[k].personId {
      if i < |db.people| && d.people[i] == db.people[i] {
        assert MatchAt(db.people, i, rec.tenantId, Ids(rec));
      }
    }
  }

  // ---------- a call that comes to such a record ----------

  // Where the first record with identifiers is, or the end.
  function FirstSerious(queue: seq<Raw>): (j: nat)
    ensures j <= |queue| && forall i :: 0 <= i < j ==> ForReview(queue[i])
    ensures j < |queue| ==> !ForReview(queue[j])
  {
    SeriousFromTells(queue, 0);
    SeriousFrom(queue, 0)
  }

  function SeriousFrom(queue: seq<Raw>, from: nat): nat
    requires from <= |queue|
    decreases |queue| - from
  {
    if from == |queue| || !ForReview(queue[from]) then from else SeriousFrom(queue, from + 1)
  }

  lemma {:induction false} SeriousFromTells(queue: seq<Raw>, from: nat)
    requires from <= |queue|
    ensures var j := SeriousFrom(queue, from);
      from <= j <= |queue| && (forall i :: from <= i < j ==> ForReview(queue[i])) &&
      (j < |queue| ==> !ForReview(queue[j]))
    decreases |queue| - from
  {
    hide ForReview;
    if from < |queue| && ForReview(queue[from]) {
      SeriousFromTells(queue, from + 1);
    }
  }

  /** Calls of this size come to a record that is refused its link, before they have resolved any
      other and before they send off the records for review in front of it. */
  ghost predicate Stuck(db: Db, tenantId: string, size: nat) {
    var queue := Queue(db, tenantId);
    var j := FirstSerious(queue);
    j < |queue| && j < size && Foreign(db, queue[j])
  }

  // Passing over records for review changes nothing.
  lemma {:induction false} ScanReviews(db: Db, batch: seq<Raw>, founds: seq<Option<string>>)
    requires |founds| <= |batch| && forall i :: 0 <= i < |founds| ==> ForReview(batch[i])
    ensures ValidScan(db, batch, founds) && Scan(db, batch, founds) == db
    decreases |founds|
  {
    hide Finds, LinkAccepted, ForReview, Pass;
    if founds != [] {
      ScanReviews(db, batch, founds[..|founds| - 1]);
    }
  }

  // A scan that gets past the first record with identifiers was granted its link at the start.
  lemma {:induction false} ScanReaches(db: Db, batch: seq<Raw>, founds: seq<Option<string>>, j: nat)
    requires j < |founds| <= |batch| && ValidScan(db, batch, founds) && !ForReview(batch[j])
    requires forall i :: 0 <= i < j ==> ForReview(batch[i])
    ensures Finds(db, batch[j], founds[j]) && LinkAccepted(db, batch[j], founds[j])
    decreases |founds|
  {
    hide Finds, LinkAccepted, ForReview, Pass;
    var n := |founds| - 1;
    if j == n {
      ScanReviews(db, batch, founds[..n]);
    } else {
      ScanReaches(db, batch, founds[..n], j);
    }
  }

  // The batch of a call that comes to the first record with identifiers.
  lemma BatchComesTo(db: Db, tenantId: string, limit: int)
    requires var j := FirstSerious(Queue(db, tenantId)); j < |Queue(db, tenantId)| && j < BatchLimit(limit)
    ensures var queue, batch := Queue(db, tenantId), Batch(db, tenantId, limit);
      var j := FirstSerious(queue);
      j < |batch| && batch[j] == queue[j] && forall i :: 0 <= i < j ==> ForReview(batch[i])
  {
    hide WithStatus, ForReview;
    BatchIsPrefix(db, tenantId, limit);
  }

  // Such a call does not get past the record.
  lemma CallBlocked(db: Db, tenantId: string, c: Call)
    requires DbInv(db) && ValidCall(db, tenantId, c) && Stuck(db, tenantId, BatchLimit(c.limit))
    ensures |c.founds| <= FirstSerious(Queue(db, tenantId)) && c.stop.Cut?
    ensures var d := Effect(db, tenantId, c);
      DbInv(d) && d.raws == db.raws && d.links == db.links &&
      Foreign(d, Queue(db, tenantId)[FirstSerious(Queue(db, tenantId))])
  {
    hide DbInv, Foreign, Finds, LinkAccepted, ForReview, Partial, Queue, Batch, ValidScan, Scan;
    var queue, batch := Queue(db, tenantId), Batch(db, tenantId, c.limit);
    var j := FirstSerious(queue);
    BatchComesTo(db, tenantId, c.limit);
    NotPast(db, batch, c.founds, j);
    ScanReviews(db, batch, c.founds);
    if c.stop.Cut? && c.stop.writes != 0 {
      ForeignPersists(db, queue[j], c.stop.found, c.stop.writes);
    }
  }

  lemma NotPast(db: Db, batch: seq<Raw>, founds: seq<Option<string>>, j: nat)
    requires DbInv(db) && |founds| <= |batch| && ValidScan(db, batch, founds) && j < |batch|
    requires !ForReview(batch[j]) && Foreign(db, batch[j]) && forall i :: 0 <= i < j ==> ForReview(batch[i])
    ensures |founds| <= j
  {
    hide DbInv, Foreign, Finds, LinkAccepted, ForReview, ValidScan;
    if j < |founds| {
      ScanReaches(db, batch, founds, j);
      ForeignRefuses(db, batch[j], founds[j]);
      assert false;
    }
  }

  lemma StillStuck(db: Db, d: Db, tenantId: string, size: nat)
    requires Stuck(db, tenantId, size) && d.raws == db.raws &&
      Foreign(d, Queue(db, tenantId)[FirstSerious(Queue(db, tenantId))])
    ensures Stuck(d, tenantId, size)
  {
    hide Foreign, WithStatus, ForReview;
  }

  /** Such a record stops the queue for good: as long as no smaller batches are tried, no record is
      resolved, none is sent to review, and no link is made. */
  lemma {:induction false} RefusedLinkBlocksQueue(db: Db, tenantId: string, calls: seq<Call>)
    requires DbInv(db) && ValidCalls(db, tenantId, calls)
    requires forall i :: 0 <= i < |calls| ==> Stuck(db, tenantId, BatchLimit(calls[i].limit))
    ensures AfterCalls(db, tenantId, calls).raws == db.raws && AfterCalls(db, tenantId, calls).links == db.links
    decreases |calls|
  {
    hide DbInv, Foreign, ForReview, ValidScan, Effect, Stuck, Queue, Batch;
    if calls != [] {
      var d, more := Effect(db, tenantId, calls[0]), calls[1..];
      CallBlocked(db, tenantId, calls[0]);
      forall i | 0 <= i < |more| ensures Stuck(d, tenantId, BatchLimit(more[i].limit)) {
        StillStuck(db, d, tenantId, BatchLimit(calls[i + 1].limit));
      }
      RefusedLinkBlocksQueue(d, tenantId, more);
    }
  }

  // ---------- exactly when the queue moves on ----------

  lemma KeyHolder(db: Db, rec: Raw, k: nat)
    requires DbInv(db) && TrimSpace(rec.sourceSlug) != "" && k < |db.links|
    requires SameExternal(db.links[k], rec.tenantId, rec.sourceSlug, ExternalId(rec))
    ensures TryLink(db.links, rec, db.links[k].personId).Linked?
  {
    ExternalIdNotBlank(rec);
    hide ExternalId, TrimSpace, PeopleInv, RawsInv, PersonKeys;
    assert IsLink(db.links[k], rec.tenantId, db.links[k].personId, rec.sourceSlug, ExternalId(rec));
  }

  lemma KeyFree(db: Db, rec: Raw, pid: string)
    requires TrimSpace(rec.sourceSlug) != "" && !ExternalTaken(db.links, rec.tenantId, rec.sourceSlug, ExternalId(rec))
    ensures TryLink(db.links, rec, pid).Linked?
  {
    ExternalIdNotBlank(rec);
    hide ExternalId, TrimSpace;
  }

  // Unless the key is held by a stranger, some answer of the search gets the record its link.
  lemma SomebodyAccepted(db: Db, rec: Raw) returns (found: Option<string>)
    requires DbInv(db) && TrimSpace(rec.sourceSlug) != "" && !Foreign(db, rec)
    ensures Finds(db, rec, found) && LinkAccepted(db, rec, found)
  {
    hide ExternalId, TrimSpace, UpsertLink, DbInv;
    if k :| 0 <= k < |db.links| && SameExternal(db.links[k], rec.tenantId, rec.sourceSlug, ExternalId(rec)) {
      assert !HeldByStranger(db, rec, k);
      var i :| MatchAt(db.people, i, rec.tenantId, Ids(rec)) && db.people[i].personId == db.links[k].personId;
      found := Some(db.people[i].personId);
      KeyHolder(db, rec, k);
    } else {
      found := FirstFound(db, rec);
      FirstFoundFinds(db, rec);
      KeyFree(db, rec, PersonOf(db, found));
    }
    LinksAfterPerson(db, rec, found);
  }

  /** A record is refused its link whatever the search answers if and only if its external id is
      linked to somebody whom it does not match. */
  lemma ForeignIffRefused(db: Db, rec: Raw)
    requires DbInv(db) && TrimSpace(rec.sourceSlug) != ""
    ensures Foreign(db, rec) <==> forall found :: Finds(db, rec, found) ==> !LinkAccepted(db, rec, found)
  {
    hide Foreign, Finds, LinkAccepted, DbInv, TrimSpace;
    if Foreign(db, rec) {
      forall found | Finds(db, rec, found) ensures !LinkAccepted(db, rec, found) {
        ForeignRefuses(db, rec, found);
      }
    } else {
      var found := SomebodyAccepted(db, rec);
    }
  }

  // A record that matches at most one person has its link accepted exactly when it is not foreign.
  lemma AcceptedIffNotForeign(db: Db, rec: Raw, found: Option<string>)
    requires DbInv(db) && TrimSpace(rec.sourceSlug) != "" && Finds(db, rec, found)
    requires Unambiguous(db.people, rec.tenantId, Ids(rec))
    ensures LinkAccepted(db, rec, found) <==> !Foreign(db, rec)
  {
    hide Foreign, LinkAccepted, DbInv, TrimSpace, Finds, Unambiguous;
    if Foreign(db, rec) {
      ForeignRefuses(db, rec, found);
    } else {
      var other := SomebodyAccepted(db, rec);
      FindsDetermined(db, rec, found, other);
    }
  }

  // Somebody, and nobody else, carries the record's identifiers: the person of this id.
  ghost predicate OnlyMatchIs(db: Db, rec: Raw, personId: string) {
    (exists i :: MatchAt(db.people, i, rec.tenantId, Ids(rec)) && db.people[i].personId == personId) &&
    forall i :: MatchAt(db.people, i, rec.tenantId, Ids(rec)) ==> db.people[i].personId == personId
  }

  // If the record's external id is linked, it is linked to the only person whom the record matches.
  ghost predicate Assured(db: Db, rec: Raw) {
    forall k :: 0 <= k < |db.links| && SameExternal(db.links[k], rec.tenantId, rec.sourceSlug, ExternalId(rec)) ==>
      OnlyMatchIs(db, rec, db.links[k].personId)
  }

  lemma AssuredAccepts(db: Db, rec: Raw, found: Option<string>)
    requires DbInv(db) && TrimSpace(rec.sourceSlug) != "" && Assured(db, rec) && Finds(db, rec, found)
    ensures LinkAccepted(db, rec, found)
  {
    hide DbInv, ExternalId, TrimSpace, UpsertLink, Ids;
    if k :| 0 <= k < |db.links| && SameExternal(db.links[k], rec.tenantId, rec.sourceSlug, ExternalId(rec)) {
      assert OnlyMatchIs(db, rec, db.links[k].personId);
      KeyHolder(db, rec, k);
    } else {
      KeyFree(db, rec, PersonOf(db, found));
    }
  }

  lemma SomebodyRefused(db: Db, rec: Raw) returns (found: Option<string>)
    requires DbInv(db) && !Assured(db, rec)
    ensures Finds(db, rec, found) && !LinkAccepted(db, rec, found)
  {
    hide DbInv, ExternalId, LinkAccepted, Ids;
    var k :| 0 <= k < |db.links| && SameExternal(db.links[k], rec.tenantId, rec.sourceSlug, ExternalId(rec)) &&
      !OnlyMatchIs(db, rec, db.links[k].personId);
    if i :| MatchAt(db.people, i, rec.tenantId, Ids(rec)) && db.people[i].personId != db.links[k].personId {
      found := Some(db.people[i].personId);
      HeldByAnother(db, rec, found, k);
    } else {
      assert HeldByStranger(db, rec, k);
      found := FirstFound(db, rec);
      FirstFoundFinds(db, rec);
      ForeignRefuses(db, rec, found);
    }
  }

  /** A record is granted its link whatever the search answers if and only if its external id is
      linked to nobody, or to the only person whom it matches. */
  lemma AssuredIffAccepted(db: Db, rec: Raw)
    requires DbInv(db) && TrimSpace(rec.sourceSlug) != ""
    ensures Assured(db, rec) <==> forall found :: Finds(db, rec, found) ==> LinkAccepted(db, rec, found)
  {
    hide Assured, Finds, LinkAccepted, DbInv, TrimSpace;
    if Assured(db, rec) {
      forall found | Finds(db, rec, found) ensures LinkAccepted(db, rec, found) {
        AssuredAccepts(db, rec, found);
      }
    } else {
      var found := SomebodyRefused(db, rec);
    }
  }

  lemma QueueIsStored(db: Db, tenantId: string)
    requires DbInv(db)
    ensures Distinct(db)
    ensures forall i :: 0 <= i < |Queue(db, tenantId)| ==> TrimSpace(Queue(db, tenantId)[i].sourceSlug) != ""
  {
    WithStatusMembers(db.raws, tenantId, Pending);
    hide WithStatus, TrimSpace, PeopleInv, LinksInv, Backed;
    forall j | 0 <= j < |Queue(db, tenantId)| ensures TrimSpace(Queue(db, tenantId)[j].sourceSlug) != "" {
      assert Queue(db, tenantId)[j] in Queue(db, tenantId);
      var i :| 0 <= i < |db.raws| && db.raws[i] == Queue(db, tenantId)[j];
    }
  }

  // ---------- calls on a store that answers every call ----------

  // Such a call can be continued, from wherever it is, until it finishes or is refused a link.
  lemma {:induction false} Completes(db: Db, tenantId: string, limit: int, founds: seq<Option<string>>)
    returns (c: Call)
    requires |founds| <= |Batch(db, tenantId, limit)| && ValidScan(db, Batch(db, tenantId, limit), founds)
    ensures c.limit == limit && founds <= c.founds && ValidCall(db, tenantId, c) && FaultFree(db, tenantId, c)
    decreases |Batch(db, tenantId, limit)| - |founds|
  {
    hide Finds, LinkAccepted, ForReview, Pass, Batch;
    var batch, n := Batch(db, tenantId, limit), |founds|;
    if n == |batch| {
      c := Call(limit, founds, Finished);
    } else {
      var d := Scan(db, batch, founds);
      var found := FirstFound(d, batch[n]);
      FirstFoundFinds(d, batch[n]);
      if ForReview(batch[n]) || LinkAccepted(d, batch[n], found) {
        assert (founds + [found])[..n] == founds;
        c := Completes(db, tenantId, limit, founds + [found]);
      } else {
        c := Call(limit, founds, Cut(found, 1));
      }
    }
  }

  lemma {:induction false} ReviewsFewer(recs: seq<Raw>, j: nat)
    requires j < |recs| && !ForReview(recs[j])
    ensures |ReviewsOf(recs)| < |recs|
    decreases |recs|
  {
    hide ForReview;
    var n := |recs| - 1;
    ReviewsOfMembers(recs[..n]);
    if j < n {
      ReviewsFewer(recs[..n], j);
    }
  }

  // A call without faults that gets past a record with identifiers shortens the queue.
  lemma PastMoves(db: Db, tenantId: string, c: Call, j: nat)
    requires DbInv(db) && ValidCall(db, tenantId, c) && FaultFree(db, tenantId, c) && j < |c.founds|
    requires !ForReview(Batch(db, tenantId, c.limit)[j])
    ensures |Queue(Effect(db, tenantId, c), tenantId)| < |Queue(db, tenantId)|
  {
    hide DbInv, Distinct, ForReview, Partial, ValidScan, LinkAccepted, Finds, ReviewsOf, WithStatus, Flush;
    var queue, batch, n := Queue(db, tenantId), Batch(db, tenantId, c.limit), |c.founds|;
    QueueIsStored(db, tenantId);
    BatchIsPrefix(db, tenantId, c.limit);
    if c.stop.Finished? {
      FinishedCallDrains(db, tenantId, c);
    } else {
      var d := Scan(db, batch, c.founds);
      ScanPlaces(db, tenantId, c.limit, c.founds);
      ReviewsFewer(queue[..n], j);
      PartialRaws(d, batch[n], c.stop.found, c.stop.writes);
    }
  }

  // A call of records for review alone sends them off.
  lemma ReviewsMove(db: Db, tenantId: string, c: Call)
    requires DbInv(db) && ValidCall(db, tenantId, c) && FaultFree(db, tenantId, c) && Queue(db, tenantId) != []
    requires BatchLimit(c.limit) <= FirstSerious(Queue(db, tenantId)) ||
      FirstSerious(Queue(db, tenantId)) == |Queue(db, tenantId)|
    ensures |Queue(Effect(db, tenantId, c), tenantId)| < |Queue(db, tenantId)|
  {
    hide DbInv, Distinct, ForReview, Scan, ValidScan, LinkAccepted, Finds, WithStatus, Effect;
    QueueIsStored(db, tenantId);
    BatchIsPrefix(db, tenantId, c.limit);
    FinishedCallDrains(db, tenantId, c);
  }

  ghost predicate Moves(db: Db, tenantId: string, c: Call) {
    ValidCall(db, tenantId, c) && Queue(Effect(db, tenantId, c), tenantId) != Queue(db, tenantId)
  }

  // A call without faults that moves the queue, when the queue is not stuck.
  lemma SomeCallMoves(db: Db, tenantId: string, limit: int) returns (c: Call)
    requires DbInv(db) && Queue(db, tenantId) != [] && !Stuck(db, tenantId, BatchLimit(limit))
    ensures c.limit == limit && Moves(db, tenantId, c) && FaultFree(db, tenantId, c)
  {
    hide DbInv, Foreign, ForReview, Queue, Batch, ValidCall, FaultFree, Effect, Finds, LinkAccepted;
    var queue := Queue(db, tenantId);
    var j := FirstSerious(queue);
    if j < |queue| && j < BatchLimit(limit) {
      QueueIsStored(db, tenantId);
      BatchComesTo(db, tenantId, limit);
      var found := SomebodyAccepted(db, queue[j]);
      var founds := ScanTo(db, Batch(db, tenantId, limit), j, found);
      c := Completes(db, tenantId, limit, founds);
      assert j < |c.founds|;
      PastMoves(db, tenantId, c, j);
    } else {
      NothingScanned(db, tenantId, limit);
      c := Completes(db, tenantId, limit, []);
      ReviewsMove(db, tenantId, c);
    }
  }

  lemma NothingScanned(db: Db, tenantId: string, limit: int)
    ensures ValidScan(db, Batch(db, tenantId, limit), [])
  {
  }

  lemma ScanTo(db: Db, batch: seq<Raw>, j: nat, found: Option<string>) returns (founds: seq<Option<string>>)
    requires j < |batch| && (forall i :: 0 <= i < j ==> ForReview(batch[i])) && Finds(db, batch[j], found)
    requires LinkAccepted(db, batch[j], found)
    ensures |founds| == j + 1 && ValidScan(db, batch, founds)
  {
    hide Finds, LinkAccepted, ForReview, Pass;
    var front: seq<Option<string>> := seq(j, _ => None);
    ScanReviews(db, batch, front);
    founds := front + [found];
    assert founds[..j] == front;
  }

  /** Some call of a size moves the queue if and only if the queue is not stuck at that size, and then
      some call does that meets no fault. */
  lemma QueueMovesIff(db: Db, tenantId: string, limit: int)
    requires DbInv(db) && Queue(db, tenantId) != []
    ensures (exists c: Call :: c.limit == limit && Moves(db, tenantId, c)) <==> !Stuck(db, tenantId, BatchLimit(limit))
    ensures (exists c: Call :: c.limit == limit && Moves(db, tenantId, c) && FaultFree(db, tenantId, c)) <==>
      !Stuck(db, tenantId, BatchLimit(limit))
  {
    hide DbInv, Stuck, Moves, FaultFree, Queue;
    if Stuck(db, tenantId, BatchLimit(limit)) {
      forall c: Call | c.limit == limit ensures !Moves(db, tenantId, c) {
        StuckStays(db, tenantId, c);
      }
    } else {
      var c := SomeCallMoves(db, tenantId, limit);
    }
  }

  lemma StuckStays(db: Db, tenantId: string, c: Call)
    requires DbInv(db) && Stuck(db, tenantId, BatchLimit(c.limit))
    ensures !Moves(db, tenantId, c)
  {
    hide DbInv, Stuck, ValidCall, Effect, WithStatus;
    if ValidCall(db, tenantId, c) {
      CallBlocked(db, tenantId, c);
    }
  }

  /** The search may answer so that calls of this size stop at the first record with identifiers. */
  ghost predicate MayStick(db: Db, tenantId: string, size: nat) {
    var queue := Queue(db, tenantId);
    var j := FirstSerious(queue);
    j < |queue| && j < size && !Assured(db, queue[j])
  }

  /** Every call of a size that meets no fault moves the queue, whatever the searches answer, if and
      only if the first record with identifiers, when the batch comes to it, has its external id
      linked to nobody or to the only person whom it matches. */
  lemma QueueMustMoveIff(db: Db, tenantId: string, limit: int)
    requires DbInv(db) && Queue(db, tenantId) != []
    ensures !MayStick(db, tenantId, BatchLimit(limit)) <==>
      forall c: Call :: c.limit == limit && ValidCall(db, tenantId, c) && FaultFree(db, tenantId, c) ==>
        Moves(db, tenantId, c)
  {
    hide DbInv, MayStick, Moves, FaultFree, ValidScan, Queue, Batch;
    if MayStick(db, tenantId, BatchLimit(limit)) {
      var c := SomeCallSticks(db, tenantId, limit);
    } else {
      forall c: Call | c.limit == limit && ValidCall(db, tenantId, c) && FaultFree(db, tenantId, c)
        ensures Moves(db, tenantId, c)
      {
        EveryCallMoves(db, tenantId, c);
      }
    }
  }

  lemma SomeCallSticks(db: Db, tenantId: string, limit: int) returns (c: Call)
    requires DbInv(db) && MayStick(db, tenantId, BatchLimit(limit))
    ensures c.limit == limit && ValidCall(db, tenantId, c) && FaultFree(db, tenantId, c) && !Moves(db, tenantId, c)
  {
    hide DbInv, Assured, ForReview, WithStatus, Finds, LinkAccepted, Partial, Batch, ValidScan, Scan;
    var queue, batch := Queue(db, tenantId), Batch(db, tenantId, limit);
    var j := FirstSerious(queue);
    BatchComesTo(db, tenantId, limit);
    var found := SomebodyRefused(db, queue[j]);
    var front: seq<Option<string>> := seq(j, _ => None);
    ScanReviews(db, batch, front);
    c := Call(limit, front, Cut(found, 1));
    PartialRaws(db, queue[j], found, 1);
  }

  lemma EveryCallMoves(db: Db, tenantId: string, c: Call)
    requires DbInv(db) && Queue(db, tenantId) != [] && !MayStick(db, tenantId, BatchLimit(c.limit))
    requires ValidCall(db, tenantId, c) && FaultFree(db, tenantId, c)
    ensures Moves(db, tenantId, c)
  {
    hide DbInv, Assured, ForReview, Queue, Batch, Effect, Finds, LinkAccepted, ValidScan, Scan;
    var queue, batch := Queue(db, tenantId), Batch(db, tenantId, c.limit);
    var j := FirstSerious(queue);
    if j < |queue| && j < BatchLimit(c.limit) {
      QueueIsStored(db, tenantId);
      BatchComesTo(db, tenantId, c.limit);
      if |c.founds| <= j {
        ScanReviews(db, batch, c.founds);
        AssuredAccepts(db, queue[j], c.stop.found);
        assert false;
      }
      PastMoves(db, tenantId, c, j);
    } else {
      ReviewsMove(db, tenantId, c);
    }
  }

  // ---------- a blocked queue is reached ----------

  // The same external record, first with one set of identifiers and then with another.
  predicate Renamed(tenantId: string, first: Payload, second: Payload) {
    AsString(first, "external_id") == AsString(second, "external_id") != "" &&
    !NoIdentifiers(ExtractIdentifiers(first)) && !NoIdentifiers(ExtractIdentifiers(second)) &&
    !Matches(NewPerson(tenantId, "", ExtractIdentifiers(first), first), tenantId, ExtractIdentifiers(second))
  }

  // Records without identifiers may come in front of the second.
  function BlockingRun(tenantId: string, slug: string, first: Payload, front: seq<Payload>, second: Payload):
    seq<Event>
  {
    [Ingest(tenantId, slug, [first])] + [Begin(0, tenantId, 1)] +
    [Advance(0, None), Advance(0, None), Advance(0, None), Advance(0, None)] +
      [Ingest(tenantId, slug, front + [second])]
  }

  predicate AllBare(payloads: seq<Payload>) {
    forall i :: 0 <= i < |payloads| ==> NoIdentifiers(ExtractIdentifiers(payloads[i]))
  }

  lemma GivenExternalId(rec: Raw)
    requires AsString(rec.payload, "external_id") != ""
    ensures ExternalId(rec) == AsString(rec.payload, "external_id")
  {
    var a, b, c := AsString(rec.payload, "external_id"), AsString(rec.payload, "id"), Hex(rec.id);
    assert FirstNonEmpty([a, b, c]) == a;
  }

  // What the first record leaves: one person, one link, and nothing pending.
  lemma AfterFirst(db: Db, rec: Raw, tenantId: string)
    requires db.people == [] && db.links == [] && db.raws == [rec] && rec.status == Pending
    requires rec.tenantId == tenantId && !ForReview(rec) && TrimSpace(rec.sourceSlug) != ""
    ensures Finds(db, rec, None) && LinkAccepted(db, rec, None)
    ensures var d := Pass(db, rec, None);
      d.people == [NewPerson(tenantId, Hex(db.nextId), Ids(rec), rec.payload)] &&
      d.links == [Link(tenantId, Hex(db.nextId), rec.sourceSlug, ExternalId(rec), rec.payload)] &&
      d.nextId == db.nextId + 1 && |d.raws| == 1 && d.raws[0].status == Resolved
  {
    ExternalIdNotBlank(rec);
    hide TrimSpace, ExternalId, ExtractIdentifiers;
  }

  lemma {:induction false} OnlyPending(done: Raw, news: seq<Raw>, tenantId: string)
    requires !HasStatus(done, tenantId, Pending) && forall i :: 0 <= i < |news| ==>
      HasStatus(news[i], tenantId, Pending)
    ensures WithStatus([done] + news, tenantId, Pending) == news
    decreases |news|
  {
    var all, n := [done] + news, |news|;
    if n == 0 {
      assert all == [done] && [done][..0] == [];
    } else {
      OnlyPending(done, news[..n - 1], tenantId);
      assert all[..n] == [done] + news[..n - 1];
      assert news == news[..n - 1] + [news[n - 1]];
    }
  }

  /** It takes one external record whose identifiers change: ingested and resolved under the first
      ones, ingested again under the second, behind any number of records for review, it makes a
      queue that no call moves whose batch comes to it. */
  lemma BlockedQueueIsReached(tenantId: string, slug: string, first: Payload, front: seq<Payload>, second: Payload,
      size: nat)
    requires TrimSpace(tenantId) != "" && TrimSpace(slug) != "" && Renamed(tenantId, first, second) && AllBare(front)
    ensures CanRun(Empty, BlockingRun(tenantId, slug, first, front, second))
    ensures var db := Run(Empty, BlockingRun(tenantId, slug, first, front, second)).db;
      DbInv(db) && |Queue(db, tenantId)| == |front| + 1 && (Stuck(db, tenantId, size) <==> |front| < size)
  {
    var s := Reaches(tenantId, slug, first, front, second);
    EmptyInv();
    hide Leads, Foreign, Inv, ForReview, Renamed, AllBare, TrimSpace, BlockingRun, WithStatus;
    LeadsTells(Empty, BlockingRun(tenantId, slug, first, front, second), s);
    RunIsSafe(Empty, BlockingRun(tenantId, slug, first, front, second));
    InvTells(s);
    SeriousAt(Queue(s.db, tenantId), |front|);
  }

  lemma SeriousAt(queue: seq<Raw>, j: nat)
    requires j < |queue| && !ForReview(queue[j]) && forall i :: 0 <= i < j ==> ForReview(queue[i])
    ensures FirstSerious(queue) == j
  {
    hide ForReview;
  }

  lemma InvTells(s: System)
    requires Inv(s)
    ensures DbInv(s.db)
  {
  }

  lemma Reaches(tenantId: string, slug: string, first: Payload, front: seq<Payload>, second: Payload)
    returns (s: System)
    requires TrimSpace(tenantId) != "" && TrimSpace(slug) != "" && Renamed(tenantId, first, second) && AllBare(front)
    ensures Leads(Empty, BlockingRun(tenantId, slug, first, front, second), s)
    ensures var queue := Queue(s.db, tenantId);
      |queue| == |front| + 1 && !ForReview(queue[|front|]) && Foreign(s.db, queue[|front|]) &&
      forall i :: 0 <= i < |front| ==> ForReview(queue[i])
  {
    hide TrimSpace, ExtractIdentifiers, ExternalId, AsString, Leads, WithStatus, Partial, LinkAccepted, Finds;
    var ingest, again := [Ingest(tenantId, slug, [first])], [Ingest(tenantId, slug, front + [second])];
    var advances := [Advance(0, None), Advance(0, None), Advance(0, None), Advance(0, None)];
    var s0 := FirstIngest(tenantId, slug, [first]);
    var rec := s0.db.raws[0];
    assert s0.db.raws == [rec];
    BeginHead(s0, 0, tenantId);
    var s1 := System(s0.db, s0.workers[0 := Worker(tenantId, [rec], 0, Look, [])]);
    TrimKeeps(slug);
    AfterFirst(s0.db, rec, tenantId);
    var s2 := FourAdvances(s1, 0, None);
    LeadsByOne(s2, again[0]);
    s := Apply(s2, again[0]);
    var news := NewRaws(tenantId, TrimSpace(slug), front + [second], s2.db.nextId);
    assert s2.db.raws == [s2.db.raws[0]];
    OnlyPending(s2.db.raws[0], news, tenantId);
    var next := news[|front|];
    GivenExternalId(rec);
    GivenExternalId(next);
    SecondForeign(s.db, tenantId, rec, next);
    LeadsOn(Empty, ingest, s0, [Begin(0, tenantId, 1)], s1);
    LeadsOn(Empty, ingest + [Begin(0, tenantId, 1)], s1, advances, s2);
    LeadsOn(Empty, ingest + [Begin(0, tenantId, 1)] + advances, s2, again, s);
  }

  lemma TrimKeeps(slug: string)
    ensures TrimSpace(TrimSpace(slug)) == TrimSpace(slug)
  {
  }

  lemma SecondForeign(db: Db, tenantId: string, rec: Raw, next: Raw)
    requires |db.people| == 1 && |db.links| == 1 && next.tenantId == tenantId && next.sourceSlug == rec.sourceSlug
    requires ExternalId(next) == ExternalId(rec)
    requires db.links[0] == Link(tenantId, db.people[0].personId, rec.sourceSlug, ExternalId(rec), rec.payload)
    requires db.people[0] == NewPerson(tenantId, db.people[0].personId, Ids(rec), rec.payload)
    requires !Matches(NewPerson(tenantId, "", Ids(rec), rec.payload), tenantId, Ids(next))
    ensures Foreign(db, next)
  {
    hide ExternalId, ExtractIdentifiers;
    assert HeldByStranger(db, next, 0);
  }

  // Two payloads of the kind.
  lemma RenamedExists(tenantId: string)
    ensures Renamed(tenantId, map["external_id" := Str("7"), "email" := Str("a")],
                    map["external_id" := Str("7"), "email" := Str("b")])
  {
    hide ExtractIdentifiers, AsString;
    KeysDiffer();
    var before := map["external_id" := Str("7"), "email" := Str("a")];
    var after := map["external_id" := Str("7"), "email" := Str("b")];
    IdsOfText(before, "a", "");
    IdsOfText(after, "b", "");
    PlainText("7");
    FieldText(before, "external_id", "7");
    FieldText(after, "external_id", "7");
    assert "a"[0] != "b"[0];
  }
}
