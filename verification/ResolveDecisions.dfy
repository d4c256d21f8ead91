/** The status of raw records while requests interleave: what writes it, and exactly when a request
    that began before a reviewer's decision overwrites the decision. */
module ResolveDecisions {
  import opened Text
  import opened Entities
  import opened ResolveProtocol
  import opened ResolvePass
  import opened ResolveRecovery
  import opened ResolveRuns

  // ---------- what an event writes ----------

  // The status that the event writes to the record, if it writes one.
  function Written(s: System, e: Event, r: Raw): Option<Status> {
    match e
    case Decide(tenantId, rawId, accept) =>
      if r.tenantId == tenantId && r.id == rawId then Some(if accept then Resolved else Rejected) else None
    case Advance(w, _) =>
      if w !in s.workers || r.tenantId != s.workers[w].tenantId then None
      else
        var k := s.workers[w];
        if |k.batch| <= k.pos then (if r.id in k.review then Some(NeedsReview) else None)
        else if k.stage.Mark? && r.id == Record(k).id then Some(Resolved)
        else None
    case NameSource(_, _, _) => None
    case Ingest(_, _, _) => None
    case Begin(_, _, _) => None
    case Crash(_) => None
  }

  /** A record's status is moved by a decision on it, by the last write of a request at it, and by the
      review flush of a request that has collected it, whatever it was before; by nothing else. */
  lemma StatusAfter(s: System, e: Event, i: nat)
    requires Enabled(s, e) && i < |s.db.raws|
    ensures i < |Apply(s, e).db.raws| && Apply(s, e).db.raws[i].id == s.db.raws[i].id
    ensures Apply(s, e).db.raws[i].status ==
      match Written(s, e, s.db.raws[i]) case None => s.db.raws[i].status case Some(status) => status
  {
    hide FindOnePerson, UpsertLink, SetIdentifiers, PersonAt, ListRawByStatus, ExtractIdentifiers, ExternalId,
      NoIdentifiers, TrimSpace;
  }

  // ---------- rejected records ----------

  predicate IsRejected(s: System, i: int)
    requires 0 <= i < |s.db.raws|
  {
    s.db.raws[i].status == Rejected
  }

  /** A request, not a reviewer, is about to write the status of a record that has been rejected: it
      is at the last write of such a record, or at the end with such a record collected for review. */
  predicate Overturns(s: System, e: Event) {
    e.Advance? && exists i :: 0 <= i < |s.db.raws| && IsRejected(s, i) && Written(s, e, s.db.raws[i]).Some?
  }

  // What is rejected stays rejected, unless a reviewer decides again.
  ghost predicate KeepsRejected(s: System, e: Event, t: System) {
    |s.db.raws| <= |t.db.raws| &&
    (e.Decide? || forall i :: 0 <= i < |s.db.raws| && IsRejected(s, i) ==> IsRejected(t, i))
  }

  lemma RawsNeverShrink(s: System, e: Event)
    requires Enabled(s, e)
    ensures |s.db.raws| <= |Apply(s, e).db.raws|
  {
    hide FindOnePerson, UpsertLink, SetIdentifiers, PersonAt, ListRawByStatus, ExtractIdentifiers, ExternalId,
      NoIdentifiers, TrimSpace;
  }

  /** An event that is no decision keeps every rejection if and only if it is not one of those. */
  lemma EventKeepsRejectedIff(s: System, e: Event)
    requires Enabled(s, e)
    ensures KeepsRejected(s, e, Apply(s, e)) <==> !Overturns(s, e)
  {
    hide AdvanceWorker, FindOnePerson, UpdateRawStatus, TrimSpace, Written;
    RawsNeverShrink(s, e);
    if !e.Decide? {
      forall i | 0 <= i < |s.db.raws| && IsRejected(s, i)
        ensures IsRejected(Apply(s, e), i) <==> !(e.Advance? && Written(s, e, s.db.raws[i]).Some?)
      {
        StatusAfter(s, e, i);
        WritesTell(s, e, s.db.raws[i]);
      }
    }
  }

  lemma WritesTell(s: System, e: Event, r: Raw)
    requires !e.Decide?
    ensures Written(s, e, r) != Some(Rejected) && (!e.Advance? ==> Written(s, e, r).None?)
  {
  }

  // In every step of the run.
  ghost predicate RejectionsLast(s: System, events: seq<Event>)
    requires CanRun(s, events)
    decreases |events|
  {
    events == [] ||
    (KeepsRejected(s, events[0], Apply(s, events[0])) && RejectionsLast(Apply(s, events[0]), events[1..]))
  }

  ghost predicate NeverOverturned(s: System, events: seq<Event>)
    requires CanRun(s, events)
    decreases |events|
  {
    events == [] || (!Overturns(s, events[0]) && NeverOverturned(Apply(s, events[0]), events[1..]))
  }

  /** However requests interleave, rejections last until a reviewer decides again if and only if no
      request of the run makes such a write. */
  lemma {:induction false} RunKeepsRejectedIff(s: System, events: seq<Event>)
    requires CanRun(s, events)
    ensures RejectionsLast(s, events) <==> NeverOverturned(s, events)
    decreases |events|
  {
    hide Apply, Enabled, KeepsRejected, Overturns, FindOnePerson;
    if events != [] {
      CanRunStep(s, events);
      EventKeepsRejectedIff(s, events[0]);
      RunKeepsRejectedIff(Apply(s, events[0]), events[1..]);
    }
  }

  // ---------- it happens ----------

  // A record is ingested, a request takes it up, and a reviewer rejects it.
  function RejectedMeanwhile(tenantId: string, slug: string, payload: Payload): seq<Event> {
    [Ingest(tenantId, slug, [payload])] + [Begin(0, tenantId, 1)] + [Decide(tenantId, 0, false)]
  }

  lemma RejectedFirst(tenantId: string, slug: string, payload: Payload) returns (s: System)
    requires TrimSpace(tenantId) != "" && TrimSpace(slug) != ""
    ensures Leads(Empty, RejectedMeanwhile(tenantId, slug, payload), s)
    ensures var rec := Raw(0, tenantId, TrimSpace(slug), payload, Pending, "");
      s.db.people == [] && s.db.links == [] && s.db.raws == [rec.(status := Rejected)] &&
      s.workers == map[0 := Worker(tenantId, [rec], 0, Look, [])]
  {
    hide TrimSpace, Leads, WithStatus, ExtractIdentifiers;
    var s0 := FirstIngest(tenantId, slug, [payload]);
    var rec := s0.db.raws[0];
    assert s0.db.raws == [rec] + [];
    BeginHead(s0, 0, tenantId);
    var s1 := System(s0.db, s0.workers[0 := Worker(tenantId, [rec], 0, Look, [])]);
    DecideHead(s1, tenantId, rec, []);
    s := s1.(db := s1.db.(raws := RejectedRaws(s1.db.raws, rec)));
    LeadsOn(Empty, [Ingest(tenantId, slug, [payload])], s0, [Begin(0, tenantId, 1)], s1);
    LeadsOn(Empty, [Ingest(tenantId, slug, [payload])] + [Begin(0, tenantId, 1)], s1, [Decide(tenantId, 0, false)], s);
  }

  function FourMore(): seq<Event> {
    [Advance(0, None), Advance(0, None), Advance(0, None), Advance(0, None)]
  }

  /** From the empty store: a record with identifiers that is rejected after a request has taken it up
      ends resolved, with a person of its own. */
  lemma RejectionIsResolved(tenantId: string, slug: string, payload: Payload)
    requires TrimSpace(tenantId) != "" && TrimSpace(slug) != "" && !NoIdentifiers(ExtractIdentifiers(payload))
    ensures var run := RejectedMeanwhile(tenantId, slug, payload);
      CanRun(Empty, run) && |Run(Empty, run).db.raws| == 1 && IsRejected(Run(Empty, run), 0) &&
      CanRun(Run(Empty, run), FourMore()) &&
      var t := Run(Run(Empty, run), FourMore());
      |t.db.raws| == 1 && t.db.raws[0].status == Resolved && |t.db.people| == 1
  {
    hide TrimSpace, Leads, ExtractIdentifiers, ExternalId, CanRun, Run, Partial;
    var s := RejectedFirst(tenantId, slug, payload);
    LeadsTells(Empty, RejectedMeanwhile(tenantId, slug, payload), s);
    var rec := Record(s.workers[0]);
    NobodyThere(s.db, rec, slug);
    var t := FourAdvances(s, 0, None);
    LeadsTells(s, FourMore(), t);
  }

  lemma NobodyThere(db: Db, rec: Raw, slug: string)
    requires db.people == [] && db.links == [] && |db.raws| == 1 && db.raws[0].id == rec.id
    requires db.raws[0].tenantId == rec.tenantId && rec.sourceSlug == TrimSpace(slug) != ""
    ensures Finds(db, rec, None) && LinkAccepted(db, rec, None)
    ensures var d := Pass(db, rec, None);
      |d.raws| == 1 && d.raws[0].status == Resolved && |d.people| == 1
  {
    ExternalIdNotBlank(rec);
    hide TrimSpace, ExternalId, ExtractIdentifiers;
  }

  /** And a record without identifiers that is rejected after a request has taken it up ends in review
      again. */
  lemma RejectionIsReviewed(tenantId: string, slug: string, payload: Payload)
    requires TrimSpace(tenantId) != "" && TrimSpace(slug) != "" && NoIdentifiers(ExtractIdentifiers(payload))
    ensures var run, more := RejectedMeanwhile(tenantId, slug, payload), [Advance(0, None), Advance(0, None)];
      CanRun(Empty, run) && |Run(Empty, run).db.raws| == 1 && IsRejected(Run(Empty, run), 0) &&
      CanRun(Run(Empty, run), more) &&
      var t := Run(Run(Empty, run), more);
      |t.db.raws| == 1 && t.db.raws[0].status == NeedsReview
  {
    hide TrimSpace, Leads, ExtractIdentifiers, ExternalId, CanRun, Run, FindOnePerson;
    var s := RejectedFirst(tenantId, slug, payload);
    LeadsTells(Empty, RejectedMeanwhile(tenantId, slug, payload), s);
    var e := Advance(0, None);
    var s1 := Apply(s, e);
    LeadsByOne(s, e);
    var t := Apply(s1, e);
    LeadsByOne(s1, e);
    LeadsOn(s, [e], s1, [e], t);
    LeadsTells(s, [e] + [e], t);
    assert [e] + [e] == [e, e];
  }
}
