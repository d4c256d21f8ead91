/** Pieces of runs of the resolution protocol, from the empty store on. */
module ResolveRuns {
  import opened Text
  import opened Entities
  import opened ResolveProtocol
  import opened ResolvePass
  import opened ResolveRecovery

  lemma FourSteps(s: System, a: Event, b: Event, c: Event, d: Event)
    requires Enabled(s, a) && Enabled(Apply(s, a), b) && Enabled(Apply(Apply(s, a), b), c)
    requires Enabled(Apply(Apply(Apply(s, a), b), c), d)
    ensures Leads(s, [a, b, c, d], Apply(Apply(Apply(Apply(s, a), b), c), d))
  {
    hide Apply, FindOnePerson, AtLook, Leads;
    var s1 := Apply(s, a);
    var s2 := Apply(s1, b);
    var s3 := Apply(s2, c);
    LeadsByOne(s, a);
    LeadsByOne(s1, b);
    LeadsByOne(s2, c);
    LeadsByOne(s3, d);
    LeadsOn(s, [a], s1, [b], s2);
    LeadsOn(s, [a] + [b], s2, [c], s3);
    LeadsOn(s, [a] + [b] + [c], s3, [d], Apply(s3, d));
    assert [a] + [b] + [c] + [d] == [a, b, c, d];
  }

  lemma {:induction false} AllPending(raws: seq<Raw>, tenantId: string)
    requires forall i :: 0 <= i < |raws| ==> HasStatus(raws[i], tenantId, Pending)
    ensures WithStatus(raws, tenantId, Pending) == raws
    decreases |raws|
  {
    if raws != [] {
      var n := |raws| - 1;
      AllPending(raws[..n], tenantId);
      assert raws == raws[..n] + [raws[n]];
    }
  }

  // The first batch of all: its records have the ids 0, 1, 2 and so on.
  lemma FirstIngest(tenantId: string, slug: string, payloads: seq<Payload>) returns (s: System)
    requires TrimSpace(slug) != "" && payloads != []
    ensures Leads(Empty, [Ingest(tenantId, slug, payloads)], s)
    ensures s == System(Db([], [], NewRaws(tenantId, TrimSpace(slug), payloads, 0), map[], |payloads|), map[])
    ensures Queue(s.db, tenantId) == s.db.raws && DistinctIds(s.db.raws)
  {
    hide TrimSpace, Leads, WithStatus;
    s := Apply(Empty, Ingest(tenantId, slug, payloads));
    LeadsByOne(Empty, Ingest(tenantId, slug, payloads));
    assert s.db.raws == [] + NewRaws(tenantId, TrimSpace(slug), payloads, 0) ==
      NewRaws(tenantId, TrimSpace(slug), payloads, 0);
    AllPending(s.db.raws, tenantId);
  }

  // A request for one record takes up the head of the queue.
  lemma BeginHead(s: System, w: nat, tenantId: string)
    requires w !in s.workers && TrimSpace(tenantId) != "" && Queue(s.db, tenantId) != []
    ensures Leads(s, [Begin(w, tenantId, 1)],
      System(s.db, s.workers[w := Worker(tenantId, [Queue(s.db, tenantId)[0]], 0, Look, [])]))
  {
    hide WithStatus, TrimSpace, Leads;
    var queue := Queue(s.db, tenantId);
    assert queue[..1] == [queue[0]] && (|queue| == 1 ==> queue == queue[..1]);
    LeadsByOne(s, Begin(w, tenantId, 1));
  }

  function RejectedRaws(raws: seq<Raw>, rec: Raw): seq<Raw> {
    UpdateRawStatus(raws, rec.tenantId, [rec.id], Rejected, "")
  }

  lemma DecideHead(s: System, tenantId: string, rec: Raw, rest: seq<Raw>)
    requires Queue(s.db, tenantId) == [rec] + rest && DistinctIds([rec] + rest) && rec.tenantId == tenantId
    ensures Leads(s, [Decide(tenantId, rec.id, false)], s.(db := s.db.(raws := RejectedRaws(s.db.raws, rec))))
    ensures Queue(s.db.(raws := RejectedRaws(s.db.raws, rec)), tenantId) == rest
  {
    hide WithStatus, UpdateRawStatus, Leads;
    LeadsByOne(s, Decide(tenantId, rec.id, false));
    QueueAfterStatus(s.db.raws, tenantId, rec.id, Rejected, "");
    assert [] + [rec] + rest == [rec] + rest && [] + rest == rest;
    WithoutMiddle([], rec, rest);
  }

  // Four calls resolve a record that has its request to itself.
  lemma FourAdvances(s: System, w: nat, found: Option<string>) returns (t: System)
    requires w in s.workers && AtLook(s.workers[w]) && Record(s.workers[w]).tenantId == s.workers[w].tenantId
    requires Finds(s.db, Record(s.workers[w]), found) && LinkAccepted(s.db, Record(s.workers[w]), found)
    ensures Leads(s, [Advance(w, found), Advance(w, None), Advance(w, None), Advance(w, None)], t)
    ensures t.db == Pass(s.db, Record(s.workers[w]), found)
  {
    hide ExtractIdentifiers, ExternalId, Leads, AdvanceWorker, LinkAccepted, Partial;
    UndisturbedRequestPasses(s, w, found);
    t := AdvanceWorker(AdvanceWorker(AdvanceWorker(AdvanceWorker(s, w, found), w, None), w, None), w, None);
    FourSteps(s, Advance(w, found), Advance(w, None), Advance(w, None), Advance(w, None));
  }

  lemma LeadsTells(s: System, events: seq<Event>, t: System)
    requires Leads(s, events, t)
    ensures CanRun(s, events) && Run(s, events) == t
  {
  }

  // ---------- records made of text ----------

  lemma FieldText(payload: Payload, key: string, text: string)
    requires Trimmed(text) && (if key in payload then payload[key] == Str(text) else text == "")
    ensures AsString(payload, key) == text
  {
    hide TrimSpace;
  }

  lemma PlainText(s: string)
    requires s in {"a", "b", "1", "7", ""}
    ensures Trimmed(s) && TrimSpace(s) == s && ToLower(s) == s
  {
    assert Trimmed(s);
  }

  // The identifiers of a record with a plain email, perhaps a phone, and no national id.
  lemma IdsOfText(payload: Payload, email: string, phone: string)
    requires email in {"a", "b"} && phone in {"1", ""} && "email" in payload && payload["email"] == Str(email)
    requires "national_id" !in payload && (if "phone" in payload then payload["phone"] == Str(phone) else phone == "")
    ensures ExtractIdentifiers(payload) == Identifiers("", email, phone)
  {
    hide TrimSpace, ToLower, AsString, Trimmed;
    PlainText(email);
    PlainText(phone);
    PlainText("");
    FieldText(payload, "email", email);
    FieldText(payload, "phone", phone);
    FieldText(payload, "national_id", "");
  }

  lemma KeysDiffer()
    ensures "phone" != "email" && "national_id" != "email" && "national_id" != "phone"
    ensures "external_id" != "email" && "external_id" != "national_id" && "external_id" != "phone"
  {
    assert "phone"[0] != "email"[0] && "national_id"[0] != "email"[0] && "national_id"[0] != "phone"[0];
    assert "external_id"[1] != "email"[1] && "external_id"[0] != "national_id"[0] && "external_id"[0] != "phone"[0];
  }
}
