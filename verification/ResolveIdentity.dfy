/** When entity resolution keeps people apart, one call after the other: two people of a tenant never
    share an identifier as long as every record matches at most one of them, and exactly then. */
module ResolveIdentity {
  import opened Text
  import opened Entities
  import opened ResolveProtocol
  import opened ResolvePass
  import opened ResolveRecovery

  // ---------- identity uniqueness ----------

  // Two people of one tenant share a non-empty identifier.
  predicate Clash(p: Person, q: Person) {
    p.tenantId == q.tenantId &&
    ((p.nationalId != "" && p.nationalId == q.nationalId) ||
     (p.primaryEmail != "" && p.primaryEmail == q.primaryEmail) ||
     (p.primaryPhone != "" && p.primaryPhone == q.primaryPhone))
  }

  ghost predicate UniqueIdentities(people: seq<Person>) {
    forall i, j :: 0 <= i < j < |people| ==> !Clash(people[i], people[j])
  }

  // Who clashes with the person that was just written is who the record matched.
  lemma ClashIsMatch(p: Person, q: Person, rec: Raw)
    requires p.tenantId == q.tenantId == rec.tenantId && !Clash(p, q)
    ensures Clash(SetIdentifiers(p, Ids(rec)), q) <==> Matches(q, rec.tenantId, Ids(rec))
  {
    IdsTrimmed(rec);
  }

  // Inserting a person keeps uniqueness exactly when nobody matches.
  lemma UniqueAfterInsert(db: Db, tenantId: string, ids: Identifiers, attrs: Payload)
    requires UniqueIdentities(db.people)
    ensures UniqueIdentities(CreatePerson(db, tenantId, ids, attrs).people) <==>
      forall i :: !MatchAt(db.people, i, tenantId, ids)
  {
    var n, people := |db.people|, CreatePerson(db, tenantId, ids, attrs).people;
    forall i | 0 <= i < n ensures Clash(people[i], people[n]) <==> MatchAt(db.people, i, tenantId, ids) {
    }
    if i :| MatchAt(db.people, i, tenantId, ids) {
      assert Clash(people[i], people[n]);
    } else {
      forall i, j | 0 <= i < j < |people| ensures !Clash(people[i], people[j]) {
        assert j < n ==> !Clash(db.people[i], db.people[j]);
        assert !MatchAt(db.people, i, tenantId, ids);
      }
    }
  }

  // Amending a person keeps it exactly when nobody else matches.
  lemma UniqueAfterAmend(people: seq<Person>, i: nat, rec: Raw)
    requires UniqueIdentities(people) && i < |people| && people[i].tenantId == rec.tenantId
    ensures UniqueIdentities(people[i := SetIdentifiers(people[i], Ids(rec))]) <==>
      forall j :: MatchAt(people, j, rec.tenantId, Ids(rec)) ==> j == i
  {
    hide SetIdentifiers, Ids;
    var after := people[i := SetIdentifiers(people[i], Ids(rec))];
    SetIdentifiersTenant(people[i], Ids(rec));
    forall j | 0 <= j < |people| && j != i
      ensures Clash(after[i], after[j]) <==> MatchAt(people, j, rec.tenantId, Ids(rec))
    {
      ClashSymmetric(people[i], people[j]);
      AmendedClash(people[i], people[j], rec);
    }
    hide Clash;
    if j :| MatchAt(people, j, rec.tenantId, Ids(rec)) && j != i {
      ClashSymmetric(after[i], after[j]);
      assert Clash(after[i], after[j]);
      assert Clash(after[if i < j then i else j], after[if i < j then j else i]);
    } else {
      forall a, b | 0 <= a < b < |after| ensures !Clash(after[a], after[b]) {
        ClashSymmetric(after[a], after[b]);
        assert !Clash(people[a], people[b]);
      }
    }
  }

  lemma SetIdentifiersTenant(p: Person, ids: Identifiers)
    ensures SetIdentifiers(p, ids).tenantId == p.tenantId
  {
  }

  lemma ClashSymmetric(p: Person, q: Person)
    ensures Clash(p, q) <==> Clash(q, p)
  {
  }

  lemma AmendedClash(p: Person, q: Person, rec: Raw)
    requires p.tenantId == rec.tenantId && !Clash(p, q)
    ensures Clash(SetIdentifiers(p, Ids(rec)), q) <==> Matches(q, rec.tenantId, Ids(rec))
  {
    if q.tenantId == rec.tenantId {
      ClashIsMatch(p, q, rec);
    }
  }

  /** From people who share no identifier, one record's pass keeps it that way if and only if the
      record matches at most one person, which can be counted before the pass. The link write and
      the status write have no say in it. */
  lemma UniqueIffUnambiguous(db: Db, rec: Raw, found: Option<string>, writes: nat)
    requires PeopleInv(db) && UniqueIdentities(db.people) && Finds(db, rec, found) && 1 <= writes
    ensures UniqueIdentities(Partial(db, rec, found, writes).people) <==>
      Unambiguous(db.people, rec.tenantId, Ids(rec))
  {
    PartialPeople(db, rec, found, writes);
    if found.None? {
      UniqueAfterInsert(db, rec.tenantId, Ids(rec), rec.payload);
    } else {
      var i :| MatchAt(db.people, i, rec.tenantId, Ids(rec)) && db.people[i].personId == found.value;
      PersonAtPosition(db.people, i);
      UniqueAfterAmend(db.people, i, rec);
    }
  }

  // Hence every state of a conflict-free sequential run has it, cut calls included.
  lemma {:induction false} ScanKeepsUnique(db: Db, tenantId: string, limit: int, founds: seq<Option<string>>)
    requires Distinct(db) && SmoothQueue(db, tenantId) && UniqueIdentities(db.people)
    requires |founds| <= |Batch(db, tenantId, limit)| && ValidScan(db, Batch(db, tenantId, limit), founds)
    ensures UniqueIdentities(Scan(db, Batch(db, tenantId, limit), founds).people)
    decreases |founds|
  {
    hide UniqueIdentities, Standing, Finds, LinkAccepted, Batch, Queue, ForReview, Partial, SmoothQueue, Outcome,
      Unambiguous;
    if founds != [] {
      var batch, n := Batch(db, tenantId, limit), |founds| - 1;
      var d := Scan(db, batch, founds[..n]);
      ScanKeepsUnique(db, tenantId, limit, founds[..n]);
      ScanStands(db, tenantId, limit, founds[..n]);
      BatchIsPrefix(db, tenantId, limit);
      assert batch[n] == Queue(db, tenantId)[n];
      if !ForReview(batch[n]) {
        StandingSmooth(db, d, tenantId, n);
        UniqueIffUnambiguous(d, batch[n], founds[n], 3);
      }
    }
  }

  lemma CallKeepsUnique(db: Db, tenantId: string, c: Call)
    requires Distinct(db) && SmoothQueue(db, tenantId) && UniqueIdentities(db.people) && ValidCall(db, tenantId, c)
    ensures UniqueIdentities(Effect(db, tenantId, c).people)
  {
    hide UniqueIdentities, Standing, LinkAccepted, Batch, Queue, ForReview, Partial, SmoothQueue, Outcome,
      Unambiguous, Scan;
    var batch, n := Batch(db, tenantId, c.limit), |c.founds|;
    ScanKeepsUnique(db, tenantId, c.limit, c.founds);
    if c.stop.Cut? && c.stop.writes != 0 {
      var d := Scan(db, batch, c.founds);
      ScanStands(db, tenantId, c.limit, c.founds);
      BatchIsPrefix(db, tenantId, c.limit);
      assert batch[n] == Queue(db, tenantId)[n];
      StandingSmooth(db, d, tenantId, n);
      UniqueIffUnambiguous(d, batch[n], c.stop.found, c.stop.writes);
    }
  }

  lemma {:induction false} CallsKeepUnique(db: Db, tenantId: string, calls: seq<Call>)
    requires Distinct(db) && SmoothQueue(db, tenantId) && UniqueIdentities(db.people) && ValidCalls(db, tenantId, calls)
    ensures UniqueIdentities(AfterCalls(db, tenantId, calls).people)
    decreases |calls|
  {
    hide UniqueIdentities, SmoothQueue, Distinct, ValidScan, Finds, Effect;
    if calls != [] {
      var c := calls[0];
      CallKeepsUnique(db, tenantId, c);
      CallKeepsQueueInv(db, tenantId, c);
      CallsKeepUnique(Effect(db, tenantId, c), tenantId, calls[1..]);
    }
  }

  lemma CallKeepsQueueInv(db: Db, tenantId: string, c: Call)
    requires Distinct(db) && SmoothQueue(db, tenantId) && ValidCall(db, tenantId, c)
    ensures Distinct(Effect(db, tenantId, c)) && SmoothQueue(Effect(db, tenantId, c), tenantId)
  {
    hide Distinct, SmoothQueue, Outcome, Effect, ValidScan, Finds;
    if c.stop.Finished? {
      FinishedCallKeepsOutcome(db, tenantId, c);
    } else {
      CutCallKeepsOutcome(db, tenantId, c);
    }
  }
}
