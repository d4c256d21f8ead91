/** Draining a tenant's queue with Resolve calls that may be cut anywhere: every call leaves the
    outcome of the queue as it was, so however the calls were cut, a drained queue has the outcome
    of one uninterrupted pass over it. */
module ResolveRecovery {
  import opened Text
  import opened Entities
  import opened ResolveProtocol
  import opened ResolvePass

  // ---------- settling one record ----------

  // The position of the first matching person, or -1.
  function FirstMatchAt(people: seq<Person>, tenantId: string, ids: Identifiers): (i: int)
    ensures -1 <= i < |people|
    ensures 0 <= i ==> MatchAt(people, i, tenantId, ids)
    ensures forall j :: 0 <= j < (if i < 0 then |people| else i) ==> !MatchAt(people, j, tenantId, ids)
  {
    if people == [] then -1
    else
      var n := |people| - 1;
      var i := FirstMatchAt(people[..n], tenantId, ids);
      assert forall j :: 0 <= j < n ==> MatchAt(people[..n], j, tenantId, ids) == MatchAt(people, j, tenantId, ids);
      if 0 <= i then i else if MatchAt(people, n, tenantId, ids) then n else -1
  }

  function FirstFound(db: Db, rec: Raw): Option<string> {
    var i := FirstMatchAt(db.people, rec.tenantId, Ids(rec));
    if i < 0 then None else Some(db.people[i].personId)
  }

  function Review(db: Db, rec: Raw): Db {
    db.(raws := UpdateRawStatus(db.raws, rec.tenantId, [rec.id], NeedsReview, ""))
  }

  function Settle(db: Db, rec: Raw): Db {
    if ForReview(rec) then Review(db, rec) else Pass(db, rec, FirstFound(db, rec))
  }

  // Settling the record has one result: it matches at most one person.
  ghost predicate Smooth(db: Db, rec: Raw) {
    !ForReview(rec) ==> Unambiguous(db.people, rec.tenantId, Ids(rec))
  }

  lemma FirstFoundFinds(db: Db, rec: Raw)
    ensures Finds(db, rec, FirstFound(db, rec))
  {
  }

  // ---------- settling a queue ----------

  function SettleAll(db: Db, recs: seq<Raw>): Db
    decreases |recs|
  {
    if recs == [] then db else SettleAll(Settle(db, recs[0]), recs[1..])
  }

  ghost predicate SmoothAll(db: Db, recs: seq<Raw>)
    decreases |recs|
  {
    recs == [] || (Smooth(db, recs[0]) && SmoothAll(Settle(db, recs[0]), recs[1..]))
  }

  function Queue(db: Db, tenantId: string): seq<Raw> {
    WithStatus(db.raws, tenantId, Pending)
  }

  // What one uninterrupted pass over the tenant's queue, oldest record first, leaves.
  function Outcome(db: Db, tenantId: string): Db {
    SettleAll(db, Queue(db, tenantId))
  }

  ghost predicate SmoothQueue(db: Db, tenantId: string) {
    SmoothAll(db, Queue(db, tenantId))
  }

  ghost predicate Distinct(db: Db) {
    PeopleInv(db) && forall i, j :: 0 <= i < j < |db.raws| ==> db.raws[i].id != db.raws[j].id
  }

  ghost predicate DistinctIds(recs: seq<Raw>) {
    forall i, j :: 0 <= i < j < |recs| ==> recs[i].id != recs[j].id
  }

  predicate AllForReview(recs: seq<Raw>) {
    forall i :: 0 <= i < |recs| ==> ForReview(recs[i])
  }

  // ---------- records for review can wait ----------

  lemma ReviewAfterPerson(db: Db, x: Raw, rec: Raw, found: Option<string>)
    ensures WritePerson(Review(db, x), rec, found) == Review(WritePerson(db, rec, found), x)
  {
    hide UpdateRawStatus;
  }

  lemma ReviewAfterLink(db: Db, x: Raw, rec: Raw, pid: string)
    ensures WriteLink(Review(db, x), rec, pid) == Review(WriteLink(db, rec, pid), x)
  {
    hide UpdateRawStatus, TryLink;
  }

  lemma ReviewAfterMark(db: Db, x: Raw, rec: Raw, pid: string)
    requires x.id != rec.id
    ensures WriteMark(Review(db, x), rec, pid) == Review(WriteMark(db, rec, pid), x)
  {
    var a, b := WriteMark(Review(db, x), rec, pid), Review(WriteMark(db, rec, pid), x);
    assert a.raws == b.raws;
  }

  lemma ReviewAfterPass(db: Db, x: Raw, rec: Raw, found: Option<string>)
    requires x.id != rec.id
    ensures Pass(Review(db, x), rec, found) == Review(Pass(db, rec, found), x)
    ensures LinkAccepted(Review(db, x), rec, found) == LinkAccepted(db, rec, found)
  {
    var pid := PersonOf(db, found);
    var d1 := WritePerson(db, rec, found);
    ReviewAfterPerson(db, x, rec, found);
    ReviewAfterLink(d1, x, rec, pid);
    ReviewAfterMark(WriteLink(d1, rec, pid), x, rec, pid);
    assert PersonOf(Review(db, x), found) == pid;
    assert LinkAccepted(Review(db, x), rec, found) == LinkAccepted(db, rec, found);
    hide WritePerson, WriteLink, WriteMark, Review, PersonOf, LinkAccepted;
  }

  lemma ReviewCommutes(db: Db, x: Raw, rec: Raw)
    requires x.id != rec.id && ForReview(x) && !ForReview(rec)
    ensures Settle(Settle(db, x), rec) == Settle(Settle(db, rec), x)
    ensures Smooth(Settle(db, x), rec) == Smooth(db, rec)
  {
    assert FirstFound(Review(db, x), rec) == FirstFound(db, rec);
    ReviewAfterPass(db, x, rec, FirstFound(db, rec));
    hide Pass, FirstFound, LinkAccepted, ForReview, Unambiguous;
  }

  lemma ReviewSettles(db: Db, x: Raw)
    requires ForReview(x)
    ensures Settle(db, x) == Review(db, x) && Smooth(db, x)
  {
  }

  // A record can be settled ahead of the review records in front of it.
  lemma {:induction false} SettleAhead(db: Db, reviews: seq<Raw>, rec: Raw, rest: seq<Raw>)
    requires AllForReview(reviews) && !ForReview(rec)
    requires forall i :: 0 <= i < |reviews| ==> reviews[i].id != rec.id
    ensures SettleAll(db, reviews + [rec] + rest) == SettleAll(Settle(db, rec), reviews + rest)
    ensures SmoothAll(db, reviews + [rec] + rest) == (Smooth(db, rec) && SmoothAll(Settle(db, rec), reviews + rest))
    decreases |reviews|
  {
    hide Settle, Smooth, ForReview;
    var all := reviews + [rec] + rest;
    if reviews == [] {
      assert all[1..] == rest && reviews + rest == rest;
    } else {
      var x, more := reviews[0], reviews[1..];
      assert all[1..] == more + [rec] + rest;
      assert (reviews + rest)[1..] == more + rest;
      ReviewCommutes(db, x, rec);
      ReviewSettles(db, x);
      ReviewSettles(Settle(db, rec), x);
      SettleAhead(Settle(db, x), more, rec, rest);
      assert all[0] == x && (reviews + rest)[0] == x;
    }
  }

  // ---------- a cut pass keeps the outcome ----------

  lemma PersonWriteKeepsPeopleInv(db: Db, rec: Raw, found: Option<string>)
    requires PeopleInv(db)
    ensures PeopleInv(WritePerson(db, rec, found))
  {
    hide PeopleInv, CreatePerson, UpdatePersonIdentifiers;
    if found.None? {
      CreateKeepsPeopleInv(db, rec);
    } else {
      AmendKeepsPeopleInv(db, found.value, Ids(rec));
    }
  }

  lemma AmendKeepsPeopleInv(db: Db, personId: string, ids: Identifiers)
    requires PeopleInv(db)
    ensures PeopleInv(UpdatePersonIdentifiers(db, personId, ids))
  {
    hide PersonAt, Issued, TrimSpace;
    var i := PersonAt(db.people, personId);
    assert 0 <= i ==> SetIdentifiers(db.people[i], ids).personId == db.people[i].personId;
    hide SetIdentifiers;
  }

  lemma PartialKeepsDistinct(db: Db, rec: Raw, found: Option<string>, writes: nat)
    requires Distinct(db)
    ensures Distinct(Partial(db, rec, found, writes))
  {
    if writes != 0 {
      hide Partial, WritePerson;
      PartialRaws(db, rec, found, writes);
      PartialPeople(db, rec, found, writes);
      PersonWriteKeepsPeopleInv(db, rec, found);
    }
  }

  lemma PartialRaws(db: Db, rec: Raw, found: Option<string>, writes: nat)
    ensures var raws := Partial(db, rec, found, writes).raws;
      |raws| == |db.raws| && forall i :: 0 <= i < |raws| ==> raws[i].id == db.raws[i].id
    ensures writes < 3 || !LinkAccepted(db, rec, found) ==> Partial(db, rec, found, writes).raws == db.raws
  {
    hide UpsertLink, CreatePerson, UpdatePersonIdentifiers;
    LinksAfterPerson(db, rec, found);
  }

  lemma CutPassSettles(db: Db, rec: Raw, found: Option<string>, writes: nat)
    requires Distinct(db) && !ForReview(rec) && Finds(db, rec, found) && Smooth(db, rec) && writes <= 3
    ensures var q := Partial(db, rec, found, writes);
      Smooth(q, rec) && Settle(q, rec) == Settle(db, rec)
    ensures found == FirstFound(db, rec) && Settle(db, rec) == Pass(db, rec, found)
  {
    var q := Partial(db, rec, found, writes);
    FirstFoundFinds(db, rec);
    FirstFoundFinds(q, rec);
    FindsDetermined(db, rec, found, FirstFound(db, rec));
    PassRecovers(db, rec, found, writes, FirstFound(q, rec));
    if 1 <= writes {
      PartialPeople(db, rec, found, writes);
      var i := WrittenPerson(db, rec, found);
    }
  }

  lemma CutPassKeepsOutcome(db: Db, reviews: seq<Raw>, rec: Raw, rest: seq<Raw>, found: Option<string>, writes: nat)
    requires Distinct(db) && AllForReview(reviews) && !ForReview(rec) && Finds(db, rec, found) && writes <= 3
    requires forall i :: 0 <= i < |reviews| ==> reviews[i].id != rec.id
    requires SmoothAll(db, reviews + [rec] + rest)
    ensures var q := Partial(db, rec, found, writes);
      SettleAll(q, reviews + [rec] + rest) == SettleAll(db, reviews + [rec] + rest) &&
      SmoothAll(q, reviews + [rec] + rest)
  {
    var q := Partial(db, rec, found, writes);
    SettleAhead(db, reviews, rec, rest);
    SettleAhead(q, reviews, rec, rest);
    CutPassSettles(db, rec, found, writes);
  }

  // ---------- the queue after a write ----------

  function Without(recs: seq<Raw>, id: ObjectId): seq<Raw> {
    if recs == [] then []
    else
      var n := |recs| - 1;
      Without(recs[..n], id) + (if recs[n].id == id then [] else [recs[n]])
  }

  lemma {:induction false} WithoutAbsent(recs: seq<Raw>, id: ObjectId)
    requires forall i :: 0 <= i < |recs| ==> recs[i].id != id
    ensures Without(recs, id) == recs
    decreases |recs|
  {
    if recs != [] {
      var n := |recs| - 1;
      WithoutAbsent(recs[..n], id);
      assert recs == recs[..n] + [recs[n]];
    }
  }

  lemma {:induction false} WithoutAppend(a: seq<Raw>, b: seq<Raw>, id: ObjectId)
    ensures Without(a + b, id) == Without(a, id) + Without(b, id)
    decreases |b|
  {
    if b == [] {
      assert a + b == a;
    } else {
      var n := |b| - 1;
      assert (a + b)[..|a| + n] == a + b[..n];
      WithoutAppend(a, b[..n], id);
    }
  }

  lemma WithoutMiddle(a: seq<Raw>, rec: Raw, b: seq<Raw>)
    requires DistinctIds(a + [rec] + b)
    ensures Without(a + [rec] + b, rec.id) == a + b
  {
    var all := a + [rec] + b;
    forall i | 0 <= i < |a| ensures a[i].id != rec.id {
      assert all[i] == a[i] && all[|a|] == rec;
    }
    forall i | 0 <= i < |b| ensures b[i].id != rec.id {
      assert all[|a| + 1 + i] == b[i] && all[|a|] == rec;
    }
    WithoutAbsent(a, rec.id);
    WithoutAbsent(b, rec.id);
    WithoutAppend(a + [rec], b, rec.id);
    WithoutAppend(a, [rec], rec.id);
    assert [rec][..0] == [];
    assert Without([rec], rec.id) == [];
  }

  // Taking a record out of the pending status takes it out of the queue and moves no other.
  lemma {:induction false} QueueAfterStatus(raws: seq<Raw>, tenantId: string, id: ObjectId, status: Status, pid: string)
    requires status != Pending
    ensures WithStatus(UpdateRawStatus(raws, tenantId, [id], status, pid), tenantId, Pending) ==
      Without(WithStatus(raws, tenantId, Pending), id)
    decreases |raws|
  {
    if raws != [] {
      var n := |raws| - 1;
      var after := UpdateRawStatus(raws, tenantId, [id], status, pid);
      QueueAfterStatus(raws[..n], tenantId, id, status, pid);
      assert after[..n] == UpdateRawStatus(raws[..n], tenantId, [id], status, pid);
      var head, last := WithStatus(raws[..n], tenantId, Pending), raws[n];
      assert HasStatus(after[n], tenantId, Pending) <==> HasStatus(last, tenantId, Pending) && last.id != id;
      assert HasStatus(last, tenantId, Pending) ==> after[n] == last || last.id == id;
      hide UpdateRawStatus;
      if HasStatus(last, tenantId, Pending) {
        assert (head + [last])[..|head|] == head;
        assert Without(head + [last], id) == Without(head, id) + (if last.id == id then [] else [last]);
      } else {
        assert head + [] == head && Without(head, id) + [] == Without(head, id);
      }
    }
  }

  lemma {:induction false} QueueDistinct(raws: seq<Raw>, tenantId: string)
    requires DistinctIds(raws)
    ensures DistinctIds(WithStatus(raws, tenantId, Pending))
    decreases |raws|
  {
    if raws != [] {
      var n := |raws| - 1;
      QueueDistinct(raws[..n], tenantId);
      WithStatusMembers(raws[..n], tenantId, Pending);
      var q := WithStatus(raws[..n], tenantId, Pending);
      forall i | 0 <= i < |q| ensures q[i].id != raws[n].id {
        assert q[i] in raws[..n];
      }
    }
  }

  // ---------- one call ----------

  datatype Stop =
    | Finished
    | Cut(found: Option<string>, writes: nat)

  /** A Resolve call as it happened: what the search found for each record that it processed in
      full, and, when a store call failed, how far it came with the next record. */
  datatype Call = Call(limit: int, founds: seq<Option<string>>, stop: Stop)

  function Batch(db: Db, tenantId: string, limit: int): seq<Raw> {
    ListRawByStatus(db.raws, tenantId, Pending, limit)
  }

  // The collections once the first |founds| records of the batch are processed.
  function Scan(db: Db, batch: seq<Raw>, founds: seq<Option<string>>): Db
    requires |founds| <= |batch|
  {
    if founds == [] then db
    else
      var n := |founds| - 1;
      var d := Scan(db, batch, founds[..n]);
      if ForReview(batch[n]) then d else Pass(d, batch[n], founds[n])
  }

  function ReviewsOf(batch: seq<Raw>): seq<Raw> {
    if batch == [] then []
    else
      var n := |batch| - 1;
      ReviewsOf(batch[..n]) + (if ForReview(batch[n]) then [batch[n]] else [])
  }

  function IdsOf(recs: seq<Raw>): (ids: seq<ObjectId>)
    ensures |ids| == |recs| && forall i :: 0 <= i < |recs| ==> ids[i] == recs[i].id
  {
    seq(|recs|, i requires 0 <= i < |recs| => recs[i].id)
  }

  function Flush(db: Db, tenantId: string, recs: seq<Raw>): Db {
    db.(raws := UpdateRawStatus(db.raws, tenantId, IdsOf(recs), NeedsReview, ""))
  }

  ghost predicate ValidScan(db: Db, batch: seq<Raw>, founds: seq<Option<string>>)
    requires |founds| <= |batch|
  {
    founds == [] ||
    (var n := |founds| - 1;
     ValidScan(db, batch, founds[..n]) &&
     (!ForReview(batch[n]) ==>
       var d := Scan(db, batch, founds[..n]);
       Finds(d, batch[n], founds[n]) && LinkAccepted(d, batch[n], founds[n])))
  }

  ghost predicate ValidCall(db: Db, tenantId: string, c: Call) {
    var batch := Batch(db, tenantId, c.limit);
    |c.founds| <= |batch| && ValidScan(db, batch, c.founds) &&
    match c.stop
    case Finished => |c.founds| == |batch|
    case Cut(found, writes) =>
      writes == 0 ||
      (writes <= 3 && |c.founds| < |batch| && !ForReview(batch[|c.founds|]) &&
       Finds(Scan(db, batch, c.founds), batch[|c.founds|], found))
  }

  function Effect(db: Db, tenantId: string, c: Call): Db
    requires |c.founds| <= |Batch(db, tenantId, c.limit)|
  {
    var batch := Batch(db, tenantId, c.limit);
    var d := Scan(db, batch, c.founds);
    match c.stop
    case Finished => Flush(d, tenantId, ReviewsOf(batch))
    case Cut(found, writes) =>
      if writes == 0 || |batch| <= |c.founds| then d else Partial(d, batch[|c.founds|], found, writes)
  }

  // The call stopped at a record whose link was refused.
  ghost predicate StoppedByLink(start: Db, tenantId: string, c: Call)
    requires |c.founds| <= |Batch(start, tenantId, c.limit)|
  {
    var batch, n := Batch(start, tenantId, c.limit), |c.founds|;
    c.stop.Cut? && 1 <= c.stop.writes && n < |batch| &&
    !LinkAccepted(Scan(start, batch, c.founds), batch[n], c.stop.found)
  }

  // A call on a store that answers every call finishes, or stops at a link that is refused.
  ghost predicate FaultFree(start: Db, tenantId: string, c: Call)
    requires |c.founds| <= |Batch(start, tenantId, c.limit)|
  {
    c.stop.Finished? || StoppedByLink(start, tenantId, c)
  }

  // ---------- one call keeps the outcome ----------

  // The queue after a scan of n records: only review records are still in front of the rest.
  ghost predicate Placed(db: Db, d: Db, tenantId: string, n: nat) {
    var queue := Queue(db, tenantId);
    n <= |queue| && Distinct(d) && Queue(d, tenantId) == ReviewsOf(queue[..n]) + queue[n..]
  }

  ghost predicate Standing(db: Db, d: Db, tenantId: string, n: nat) {
    Placed(db, d, tenantId, n) && SmoothQueue(d, tenantId) && Outcome(d, tenantId) == Outcome(db, tenantId)
  }

  lemma {:induction false} ReviewsOfMembers(recs: seq<Raw>)
    ensures AllForReview(ReviewsOf(recs)) && |ReviewsOf(recs)| <= |recs|
    ensures forall r :: r in ReviewsOf(recs) ==> r in recs
    decreases |recs|
  {
    if recs != [] {
      ReviewsOfMembers(recs[..|recs| - 1]);
    }
  }

  lemma QueueTenant(db: Db, tenantId: string, i: nat)
    requires i < |Queue(db, tenantId)|
    ensures Queue(db, tenantId)[i].tenantId == tenantId
  {
    WithStatusMembers(db.raws, tenantId, Pending);
    assert Queue(db, tenantId)[i] in Queue(db, tenantId);
  }

  lemma SplitAt(queue: seq<Raw>, n: nat)
    requires n < |queue|
    ensures queue[..n + 1][..n] == queue[..n] && queue[n..] == [queue[n]] + queue[n + 1..]
  {
  }

  lemma ReviewsApart(reviews: seq<Raw>, rec: Raw, rest: seq<Raw>)
    requires DistinctIds(reviews + [rec] + rest)
    ensures forall i :: 0 <= i < |reviews| ==> reviews[i].id != rec.id
  {
    var all := reviews + [rec] + rest;
    forall i | 0 <= i < |reviews| ensures reviews[i].id != rec.id {
      assert all[i] == reviews[i] && all[|reviews|] == rec;
    }
  }

  lemma PassRaws(db: Db, rec: Raw, found: Option<string>)
    requires LinkAccepted(db, rec, found)
    ensures Pass(db, rec, found).raws == UpdateRawStatus(db.raws, rec.tenantId, [rec.id], Resolved, PersonOf(db, found))
  {
    hide UpsertLink, CreatePerson, UpdatePersonIdentifiers, UpdateRawStatus;
    LinksAfterPerson(db, rec, found);
  }

  lemma QueueAfterPass(d: Db, tenantId: string, rec: Raw, found: Option<string>)
    requires LinkAccepted(d, rec, found) && rec.tenantId == tenantId
    ensures Queue(Pass(d, rec, found), tenantId) == Without(Queue(d, tenantId), rec.id)
  {
    PassRaws(d, rec, found);
    QueueAfterStatus(d.raws, tenantId, rec.id, Resolved, PersonOf(d, found));
  }

  // The record that a scan comes to next, with the review records still in front of it.
  lemma PlacedFront(db: Db, d: Db, tenantId: string, n: nat)
    requires Placed(db, d, tenantId, n) && n < |Queue(db, tenantId)|
    ensures var queue := Queue(db, tenantId);
      var rec, reviews, rest := queue[n], ReviewsOf(queue[..n]), queue[n + 1..];
      Queue(d, tenantId) == reviews + [rec] + rest && DistinctIds(reviews + [rec] + rest) && AllForReview(reviews) &&
      rec.tenantId == tenantId && forall i :: 0 <= i < |reviews| ==> reviews[i].id != rec.id
  {
    var queue := Queue(db, tenantId);
    var rec, reviews, rest := queue[n], ReviewsOf(queue[..n]), queue[n + 1..];
    SplitAt(queue, n);
    assert reviews + queue[n..] == reviews + [rec] + rest;
    QueueDistinct(d.raws, tenantId);
    ReviewsApart(reviews, rec, rest);
    ReviewsOfMembers(queue[..n]);
    QueueTenant(db, tenantId, n);
  }

  lemma ReviewsOfNext(queue: seq<Raw>, n: nat)
    requires n < |queue|
    ensures ForReview(queue[n]) ==> ReviewsOf(queue[..n + 1]) == ReviewsOf(queue[..n]) + [queue[n]]
    ensures !ForReview(queue[n]) ==> ReviewsOf(queue[..n + 1]) == ReviewsOf(queue[..n])
  {
    SplitAt(queue, n);
    assert ReviewsOf(queue[..n]) + [] == ReviewsOf(queue[..n]);
  }

  // The pass over the next record takes it out of the queue.
  lemma PlacedAdvances(db: Db, d: Db, tenantId: string, n: nat, found: Option<string>)
    requires Placed(db, d, tenantId, n) && n < |Queue(db, tenantId)|
    requires var rec := Queue(db, tenantId)[n]; !ForReview(rec) && LinkAccepted(d, rec, found)
    ensures Placed(db, Pass(d, Queue(db, tenantId)[n], found), tenantId, n + 1)
  {
    hide Partial, WithStatus, ReviewsOf, Without, LinkAccepted, Distinct;
    var queue := Queue(db, tenantId);
    var rec, reviews, rest := queue[n], ReviewsOf(queue[..n]), queue[n + 1..];
    PlacedFront(db, d, tenantId, n);
    PartialKeepsDistinct(d, rec, found, 3);
    QueueAfterPass(d, tenantId, rec, found);
    WithoutMiddle(reviews, rec, rest);
    ReviewsOfNext(queue, n);
  }

  // The record that a standing scan comes to can be settled.
  lemma StandingSmooth(db: Db, d: Db, tenantId: string, n: nat)
    requires Standing(db, d, tenantId, n) && n < |Queue(db, tenantId)| && !ForReview(Queue(db, tenantId)[n])
    ensures Distinct(d) && Smooth(d, Queue(db, tenantId)[n])
  {
    hide Settle, SettleAll, SmoothAll, WithStatus, ReviewsOf, Distinct, Smooth, ForReview;
    var queue := Queue(db, tenantId);
    PlacedFront(db, d, tenantId, n);
    SettleAhead(d, ReviewsOf(queue[..n]), queue[n], queue[n + 1..]);
  }

  // The pass over the next record moves the scan on by one.
  lemma StandingAdvances(db: Db, d: Db, tenantId: string, n: nat, found: Option<string>)
    requires Standing(db, d, tenantId, n) && n < |Queue(db, tenantId)|
    requires var rec := Queue(db, tenantId)[n]; !ForReview(rec) && Finds(d, rec, found) && LinkAccepted(d, rec, found)
    ensures Standing(db, Pass(d, Queue(db, tenantId)[n], found), tenantId, n + 1)
  {
    hide Partial, Settle, SettleAll, SmoothAll, WithStatus, ReviewsOf, Without, Finds, LinkAccepted, Distinct, Smooth;
    var queue := Queue(db, tenantId);
    var rec, reviews, rest := queue[n], ReviewsOf(queue[..n]), queue[n + 1..];
    PlacedFront(db, d, tenantId, n);
    SettleAhead(d, reviews, rec, rest);
    CutPassSettles(d, rec, found, 0);
    PlacedAdvances(db, d, tenantId, n, found);
    ReviewsOfNext(queue, n);
  }

  // A record for review is passed over.
  lemma PlacedSkips(db: Db, d: Db, tenantId: string, n: nat)
    requires Placed(db, d, tenantId, n) && n < |Queue(db, tenantId)| && ForReview(Queue(db, tenantId)[n])
    ensures Placed(db, d, tenantId, n + 1)
  {
    hide WithStatus, ReviewsOf, Distinct, ForReview;
    var queue := Queue(db, tenantId);
    ReviewsOfNext(queue, n);
    SplitAt(queue, n);
    assert ReviewsOf(queue[..n]) + queue[n..] == ReviewsOf(queue[..n + 1]) + queue[n + 1..];
  }

  lemma BatchIsPrefix(db: Db, tenantId: string, limit: int)
    ensures var queue := Queue(db, tenantId);
      var batch := Batch(db, tenantId, limit);
      |batch| <= |queue| && batch == queue[..|batch|] &&
      |batch| == if |queue| <= BatchLimit(limit) then |queue| else BatchLimit(limit)
  {
  }

  lemma PlacedAtStart(db: Db, tenantId: string)
    requires Distinct(db)
    ensures Placed(db, db, tenantId, 0)
  {
    var queue := Queue(db, tenantId);
    assert queue[..0] == [] && ReviewsOf(queue[..0]) + queue[0..] == queue;
  }

  lemma {:induction false} ScanPlaces(db: Db, tenantId: string, limit: int, founds: seq<Option<string>>)
    requires Distinct(db)
    requires |founds| <= |Batch(db, tenantId, limit)| && ValidScan(db, Batch(db, tenantId, limit), founds)
    ensures Placed(db, Scan(db, Batch(db, tenantId, limit), founds), tenantId, |founds|)
    decreases |founds|
  {
    hide Placed, Finds, LinkAccepted, Batch, Queue, ForReview, Pass, Distinct;
    var batch := Batch(db, tenantId, limit);
    BatchIsPrefix(db, tenantId, limit);
    if founds == [] {
      PlacedAtStart(db, tenantId);
    } else {
      var n := |founds| - 1;
      var d := Scan(db, batch, founds[..n]);
      ScanPlaces(db, tenantId, limit, founds[..n]);
      assert batch[n] == Queue(db, tenantId)[n];
      if ForReview(batch[n]) {
        PlacedSkips(db, d, tenantId, n);
      } else {
        PlacedAdvances(db, d, tenantId, n, founds[n]);
      }
    }
  }

  lemma {:induction false} ScanStands(db: Db, tenantId: string, limit: int, founds: seq<Option<string>>)
    requires Distinct(db) && SmoothQueue(db, tenantId)
    requires |founds| <= |Batch(db, tenantId, limit)| && ValidScan(db, Batch(db, tenantId, limit), founds)
    ensures Standing(db, Scan(db, Batch(db, tenantId, limit), founds), tenantId, |founds|)
    decreases |founds|
  {
    hide Placed, Finds, LinkAccepted, Batch, Queue, ForReview, Pass, SmoothQueue, Outcome, Distinct;
    var batch := Batch(db, tenantId, limit);
    BatchIsPrefix(db, tenantId, limit);
    if founds == [] {
      PlacedAtStart(db, tenantId);
    } else {
      var n := |founds| - 1;
      var d := Scan(db, batch, founds[..n]);
      ScanStands(db, tenantId, limit, founds[..n]);
      assert batch[n] == Queue(db, tenantId)[n];
      if ForReview(batch[n]) {
        PlacedSkips(db, d, tenantId, n);
      } else {
        StandingAdvances(db, d, tenantId, n, founds[n]);
      }
    }
  }

  lemma FlushNothing(db: Db, tenantId: string)
    ensures Flush(db, tenantId, []) == db
  {
    assert Flush(db, tenantId, []).raws == db.raws;
  }

  // Sending the collected review records off at the end is sending each off in turn.
  lemma {:induction false} FlushSettles(db: Db, tenantId: string, reviews: seq<Raw>, rest: seq<Raw>)
    requires AllForReview(reviews) && forall i :: 0 <= i < |reviews| ==> reviews[i].tenantId == tenantId
    ensures SettleAll(db, reviews + rest) == SettleAll(Flush(db, tenantId, reviews), rest)
    ensures SmoothAll(db, reviews + rest) == SmoothAll(Flush(db, tenantId, reviews), rest)
    decreases |reviews|
  {
    hide ForReview, UpdateRawStatus, Settle, Smooth, Review, Flush;
    if reviews == [] {
      assert reviews + rest == rest;
      FlushNothing(db, tenantId);
    } else {
      var x, more := reviews[0], reviews[1..];
      var all := reviews + rest;
      assert all[1..] == more + rest && all[0] == x;
      ReviewSettles(db, x);
      FlushSettles(Review(db, x), tenantId, more, rest);
      FlushOneMore(db, tenantId, x, more);
      assert reviews == [x] + more;
    }
  }

  lemma FlushOneMore(db: Db, tenantId: string, x: Raw, more: seq<Raw>)
    requires x.tenantId == tenantId
    ensures Flush(Review(db, x), tenantId, more) == Flush(db, tenantId, [x] + more)
  {
    StatusOneMore(db.raws, tenantId, x, more);
  }

  lemma StatusOneMore(raws: seq<Raw>, tenantId: string, x: Raw, more: seq<Raw>)
    ensures var after := UpdateRawStatus(raws, tenantId, [x.id], NeedsReview, "");
      UpdateRawStatus(after, tenantId, IdsOf(more), NeedsReview, "") ==
      UpdateRawStatus(raws, tenantId, IdsOf([x] + more), NeedsReview, "")
  {
    assert IdsOf([x] + more) == [x.id] + IdsOf(more);
  }

  lemma {:induction false} QueueAfterFlush(raws: seq<Raw>, tenantId: string, reviews: seq<Raw>, rest: seq<Raw>)
    requires DistinctIds(raws) && WithStatus(raws, tenantId, Pending) == reviews + rest
    ensures WithStatus(UpdateRawStatus(raws, tenantId, IdsOf(reviews), NeedsReview, ""), tenantId, Pending) == rest
    decreases |reviews|
  {
    hide UpdateRawStatus, IdsOf, WithStatus, DistinctIds;
    if reviews == [] {
      NothingFlushed(raws, tenantId);
      assert reviews + rest == rest;
    } else {
      var x, more := reviews[0], reviews[1..];
      assert reviews == [x] + more;
      StatusOneMore(raws, tenantId, x, more);
      assert reviews + rest == [x] + (more + rest);
      QueueAfterFirst(raws, tenantId, x, more + rest);
      QueueAfterFlush(UpdateRawStatus(raws, tenantId, [x.id], NeedsReview, ""), tenantId, more, rest);
    }
  }

  lemma NothingFlushed(raws: seq<Raw>, tenantId: string)
    ensures UpdateRawStatus(raws, tenantId, IdsOf([]), NeedsReview, "") == raws
  {
  }

  lemma QueueAfterFirst(raws: seq<Raw>, tenantId: string, x: Raw, rest: seq<Raw>)
    requires DistinctIds(raws) && WithStatus(raws, tenantId, Pending) == [x] + rest
    ensures var after := UpdateRawStatus(raws, tenantId, [x.id], NeedsReview, "");
      DistinctIds(after) && WithStatus(after, tenantId, Pending) == rest
  {
    hide WithStatus;
    QueueDistinct(raws, tenantId);
    QueueAfterStatus(raws, tenantId, x.id, NeedsReview, "");
    assert [] + [x] + rest == [x] + rest && [] + rest == rest;
    WithoutMiddle([], x, rest);
  }

  /** A finished call takes exactly its batch off the front of the queue, the oldest
      min(limit, pending) records, and loses no record. */
  lemma FinishedCallDrains(db: Db, tenantId: string, c: Call)
    requires Distinct(db) && ValidCall(db, tenantId, c) && c.stop.Finished?
    ensures var db' := Effect(db, tenantId, c);
      var queue, limit := Queue(db, tenantId), BatchLimit(c.limit);
      Distinct(db') && |db'.raws| == |db.raws| &&
      |c.founds| == (if |queue| <= limit then |queue| else limit) && Queue(db', tenantId) == queue[|c.founds|..]
  {
    hide ReviewsOf, Distinct, ValidScan, Queue, Flush;
    var queue, batch := Queue(db, tenantId), Batch(db, tenantId, c.limit);
    ScanPlaces(db, tenantId, c.limit, c.founds);
    BatchIsPrefix(db, tenantId, c.limit);
    ScanCounts(db, batch, c.founds);
    FlushPlaces(db, Scan(db, batch, c.founds), tenantId, |batch|);
  }

  lemma {:induction false} ScanCounts(db: Db, batch: seq<Raw>, founds: seq<Option<string>>)
    requires |founds| <= |batch|
    ensures |Scan(db, batch, founds).raws| == |db.raws|
    decreases |founds|
  {
    hide Partial, ForReview;
    if founds != [] {
      var n := |founds| - 1;
      ScanCounts(db, batch, founds[..n]);
      PartialRaws(Scan(db, batch, founds[..n]), batch[n], founds[n], 3);
    }
  }

  lemma FlushPlaces(db: Db, d: Db, tenantId: string, n: nat)
    requires Placed(db, d, tenantId, n)
    ensures var d' := Flush(d, tenantId, ReviewsOf(Queue(db, tenantId)[..n]));
      Distinct(d') && |d'.raws| == |d.raws| && Queue(d', tenantId) == Queue(db, tenantId)[n..]
  {
    hide ReviewsOf, WithStatus, Flush;
    var queue := Queue(db, tenantId);
    var reviews := ReviewsOf(queue[..n]);
    QueueAfterFlush(d.raws, tenantId, reviews, queue[n..]);
    FlushRaws(d, tenantId, reviews);
  }

  // It also keeps the outcome.
  lemma FinishedCallKeepsOutcome(db: Db, tenantId: string, c: Call)
    requires Distinct(db) && SmoothQueue(db, tenantId) && ValidCall(db, tenantId, c) && c.stop.Finished?
    ensures var db' := Effect(db, tenantId, c);
      Distinct(db') && SmoothQueue(db', tenantId) && Outcome(db', tenantId) == Outcome(db, tenantId)
  {
    hide Scan, Standing, ReviewsOf, Flush, SmoothQueue, Outcome, Batch, Queue, Distinct, ValidScan;
    var batch := Batch(db, tenantId, c.limit);
    ScanStands(db, tenantId, c.limit, c.founds);
    BatchIsPrefix(db, tenantId, c.limit);
    FlushStands(db, Scan(db, batch, c.founds), tenantId, |batch|);
  }

  lemma FlushStands(db: Db, d: Db, tenantId: string, n: nat)
    requires Standing(db, d, tenantId, n)
    ensures var d' := Flush(d, tenantId, ReviewsOf(Queue(db, tenantId)[..n]));
      Distinct(d') && SmoothQueue(d', tenantId) && Outcome(d', tenantId) == Outcome(db, tenantId)
  {
    hide SettleAll, SmoothAll, ReviewsOf, WithStatus, Flush, AllForReview, Distinct;
    var queue := Queue(db, tenantId);
    var reviews := ReviewsOf(queue[..n]);
    ReviewsTenant(db, tenantId, n);
    FlushSettles(d, tenantId, reviews, queue[n..]);
    FlushPlaces(db, d, tenantId, n);
  }

  lemma FlushRaws(d: Db, tenantId: string, reviews: seq<Raw>)
    ensures Distinct(d) ==> Distinct(Flush(d, tenantId, reviews))
    ensures |Flush(d, tenantId, reviews).raws| == |d.raws|
    ensures Queue(Flush(d, tenantId, reviews), tenantId) ==
      WithStatus(UpdateRawStatus(d.raws, tenantId, IdsOf(reviews), NeedsReview, ""), tenantId, Pending)
  {
    hide WithStatus;
  }

  lemma ReviewsTenant(db: Db, tenantId: string, n: nat)
    requires n <= |Queue(db, tenantId)|
    ensures var reviews := ReviewsOf(Queue(db, tenantId)[..n]);
      AllForReview(reviews) && forall i :: 0 <= i < |reviews| ==> reviews[i].tenantId == tenantId
  {
    hide ReviewsOf, WithStatus, ForReview;
    var queue := Queue(db, tenantId);
    var reviews := ReviewsOf(queue[..n]);
    ReviewsOfMembers(queue[..n]);
    forall i | 0 <= i < |reviews| ensures reviews[i].tenantId == tenantId {
      assert reviews[i] in queue[..n];
      var j :| 0 <= j < n && queue[..n][j] == reviews[i];
      QueueTenant(db, tenantId, j);
    }
  }

  lemma CutCallKeepsOutcome(db: Db, tenantId: string, c: Call)
    requires Distinct(db) && SmoothQueue(db, tenantId) && ValidCall(db, tenantId, c) && c.stop.Cut?
    ensures var db' := Effect(db, tenantId, c);
      Distinct(db') && SmoothQueue(db', tenantId) && Outcome(db', tenantId) == Outcome(db, tenantId)
  {
    var queue, batch := Queue(db, tenantId), Batch(db, tenantId, c.limit);
    var n, d := |c.founds|, Scan(db, batch, c.founds);
    var found, writes := c.stop.found, c.stop.writes;
    ScanStands(db, tenantId, c.limit, c.founds);
    BatchIsPrefix(db, tenantId, c.limit);
    if 1 <= writes {
      assert batch[n] == queue[n];
      CutWithinRecord(db, d, tenantId, n, found, writes);
    }
  }

  lemma CutWithinRecord(db: Db, d: Db, tenantId: string, n: nat, found: Option<string>, writes: nat)
    requires Standing(db, d, tenantId, n) && n < |Queue(db, tenantId)| && 1 <= writes <= 3
    requires var rec := Queue(db, tenantId)[n]; !ForReview(rec) && Finds(d, rec, found)
    ensures var d' := Partial(d, Queue(db, tenantId)[n], found, writes);
      Distinct(d') && SmoothQueue(d', tenantId) && Outcome(d', tenantId) == Outcome(db, tenantId)
  {
    hide Partial, SettleAll, SmoothAll, ReviewsOf, WithStatus, Distinct, Finds, ForReview, LinkAccepted;
    var queue := Queue(db, tenantId);
    var rec, reviews, rest := queue[n], ReviewsOf(queue[..n]), queue[n + 1..];
    if writes == 3 && LinkAccepted(d, rec, found) {
      StandingAdvances(db, d, tenantId, n, found);
    } else {
      PlacedFront(db, d, tenantId, n);
      CutPassKeepsOutcome(d, reviews, rec, rest, found, writes);
      PartialKeepsDistinct(d, rec, found, writes);
      PartialRaws(d, rec, found, writes);
      assert Queue(Partial(d, rec, found, writes), tenantId) == Queue(d, tenantId);
    }
  }

  // ---------- any number of calls ----------

  ghost predicate ValidCalls(db: Db, tenantId: string, calls: seq<Call>)
    decreases |calls|
  {
    calls == [] ||
    (ValidCall(db, tenantId, calls[0]) && ValidCalls(Effect(db, tenantId, calls[0]), tenantId, calls[1..]))
  }

  ghost function AfterCalls(db: Db, tenantId: string, calls: seq<Call>): Db
    requires ValidCalls(db, tenantId, calls)
    decreases |calls|
  {
    if calls == [] then db else AfterCalls(Effect(db, tenantId, calls[0]), tenantId, calls[1..])
  }

  lemma {:induction false} CallsKeepOutcome(db: Db, tenantId: string, calls: seq<Call>)
    requires Distinct(db) && SmoothQueue(db, tenantId) && ValidCalls(db, tenantId, calls)
    ensures Outcome(AfterCalls(db, tenantId, calls), tenantId) == Outcome(db, tenantId)
    decreases |calls|
  {
    if calls != [] {
      var c := calls[0];
      if c.stop.Finished? {
        FinishedCallKeepsOutcome(db, tenantId, c);
      } else {
        CutCallKeepsOutcome(db, tenantId, c);
      }
      CallsKeepOutcome(Effect(db, tenantId, c), tenantId, calls[1..]);
    }
  }

  /** When every queued record matches at most one person as its turn comes: however the calls were
      sized and wherever they were cut, the queue once drained leaves people, links and raw records
      exactly as one uninterrupted pass would. */
  lemma DrainRecovers(db: Db, tenantId: string, calls: seq<Call>)
    requires Distinct(db) && SmoothQueue(db, tenantId) && ValidCalls(db, tenantId, calls)
    requires Queue(AfterCalls(db, tenantId, calls), tenantId) == []
    ensures AfterCalls(db, tenantId, calls) == Outcome(db, tenantId)
  {
    CallsKeepOutcome(db, tenantId, calls);
  }

  // ---------- how many calls a queue takes ----------

  ghost predicate FinishedCalls(calls: seq<Call>, size: nat) {
    forall i :: 0 <= i < |calls| ==> calls[i].stop.Finished? && BatchLimit(calls[i].limit) == size
  }

  lemma OneBatchLess(n: nat, calls: nat, size: nat)
    requires 0 < calls
    ensures n <= calls * size <==> (if n <= size then 0 else n - size) <= (calls - 1) * size
  {
    assert calls * size == size + (calls - 1) * size;
  }

  /** Successful calls of one batch size drain a queue of n records in ceil(n / size) calls and in
      no fewer. */
  lemma {:induction false} DrainsInRounds(db: Db, tenantId: string, calls: seq<Call>, size: nat)
    requires Distinct(db) && ValidCalls(db, tenantId, calls) && FinishedCalls(calls, size)
    ensures Queue(AfterCalls(db, tenantId, calls), tenantId) == [] <==> |Queue(db, tenantId)| <= |calls| * size
    decreases |calls|
  {
    hide Distinct, ValidScan, Queue, Effect, Finds;
    if calls != [] {
      FinishedCallDrains(db, tenantId, calls[0]);
      DrainsInRounds(Effect(db, tenantId, calls[0]), tenantId, calls[1..], size);
      OneBatchLess(|Queue(db, tenantId)|, |calls|, size);
    }
  }
}
