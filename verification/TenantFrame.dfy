/** What one tenant's requests cannot touch: whatever interleaves, the documents of a tenant that no
    request acts for stay exactly as they are. */
module TenantFrame {
  import opened Text
  import opened Entities
  import opened AssetNumbers
  import opened Assets
  import P = ResolveProtocol
  import A = AssetAllocator
  import D = IdentityDocuments
  import I = IdentityProtocol
  import K = ApiKeys
  import L = AssetLifecycle
  import N = AssetIngest

  // ---------- the documents of one tenant ----------

  function Filter<T>(s: seq<T>, keep: T -> bool): seq<T> {
    if s == [] then [] else Filter(s[..|s| - 1], keep) + (if keep(s[|s| - 1]) then [s[|s| - 1]] else [])
  }

  // Elements that are not kept may change and come in without a trace.
  ghost predicate SameWhereKept<T>(a: seq<T>, b: seq<T>, keep: T -> bool) {
    |a| <= |b| &&
    (forall i :: 0 <= i < |a| ==> (keep(b[i]) <==> keep(a[i])) && (keep(a[i]) ==> b[i] == a[i])) &&
    (forall i :: |a| <= i < |b| ==> !keep(b[i]))
  }

  lemma {:induction false} FilterSame<T>(a: seq<T>, b: seq<T>, keep: T -> bool)
    requires SameWhereKept(a, b, keep)
    ensures Filter(a, keep) == Filter(b, keep)
    decreases |b|
  {
    if b != [] {
      var n := |b| - 1;
      if |a| == |b| {
        FilterSame(a[..n], b[..n], keep);
      } else {
        FilterSame(a, b[..n], keep);
      }
    }
  }

  // ---------- entity resolution ----------

  datatype View = View(people: seq<Person>, links: seq<Link>, raws: seq<Raw>, sources: map<string, string>)

  function ViewOf(db: Db, tenantId: string): View {
    View(Filter(db.people, (p: Person) => p.tenantId == tenantId),
         Filter(db.links, (l: Link) => l.tenantId == tenantId),
         Filter(db.raws, (r: Raw) => r.tenantId == tenantId),
         map k | k in db.sources && k.0 == tenantId :: k.1 := db.sources[k])
  }

  // What makes two states look alike to a tenant.
  ghost predicate Alike(a: Db, b: Db, tenantId: string) {
    SameWhereKept(a.people, b.people, (p: Person) => p.tenantId == tenantId) &&
    SameWhereKept(a.links, b.links, (l: Link) => l.tenantId == tenantId) &&
    SameWhereKept(a.raws, b.raws, (r: Raw) => r.tenantId == tenantId) &&
    (forall slug :: (tenantId, slug) in a.sources <==> (tenantId, slug) in b.sources) &&
    (forall slug :: (tenantId, slug) in a.sources ==> a.sources[(tenantId, slug)] == b.sources[(tenantId, slug)])
  }

  lemma AlikeViews(a: Db, b: Db, tenantId: string)
    requires Alike(a, b, tenantId)
    ensures ViewOf(a, tenantId) == ViewOf(b, tenantId)
  {
    FilterSame(a.people, b.people, (p: Person) => p.tenantId == tenantId);
    FilterSame(a.links, b.links, (l: Link) => l.tenantId == tenantId);
    FilterSame(a.raws, b.raws, (r: Raw) => r.tenantId == tenantId);
  }

  // An event that begins a request, ingests or decides for another tenant.
  predicate ForAnother(e: P.Event, tenantId: string) {
    match e
    case NameSource(t, _, _) => t != tenantId
    case Ingest(t, _, _) => t != tenantId
    case Begin(_, t, _) => t != tenantId
    case Decide(t, _, _) => t != tenantId
    case Advance(_, _) => true
    case Crash(_) => true
  }

  ghost predicate WorkersElsewhere(s: P.System, tenantId: string) {
    forall w :: w in s.workers ==> s.workers[w].tenantId != tenantId
  }

  lemma StatusAlike(db: Db, t: string, ids: seq<ObjectId>, status: Status, personId: string, tenantId: string)
    requires t != tenantId
    ensures Alike(db, db.(raws := UpdateRawStatus(db.raws, t, ids, status, personId)), tenantId)
  {
  }

  // UpdatePersonIdentifiers filters on personId alone; it finds the worker's own tenant because a
  // personId is never given to two people.
  lemma AmendAlike(db: Db, t: string, personId: string, ids: Identifiers, tenantId: string)
    requires P.PeopleInv(db) && (t, personId) in P.PersonKeys(db.people) && t != tenantId
    ensures Alike(db, UpdatePersonIdentifiers(db, personId, ids), tenantId)
  {
    var p :| p in db.people && (t, personId) == (p.tenantId, p.personId);
    var j :| 0 <= j < |db.people| && db.people[j] == p;
    assert PersonAt(db.people, personId) == j;
  }

  lemma CreateAlike(db: Db, t: string, ids: Identifiers, attrs: Payload, tenantId: string)
    requires t != tenantId
    ensures Alike(db, CreatePerson(db, t, ids, attrs), tenantId)
  {
    hide ExtractIdentifiers;
  }

  lemma LinkAlike(db: Db, t: string, personId: string, source: string, externalId: string, payload: Payload,
      tenantId: string)
    requires t != tenantId
    ensures match UpsertLink(db.links, t, personId, source, externalId, payload)
      case Linked(links) => Alike(db, db.(links := links), tenantId)
      case Refused(_) => true
  {
    hide TrimSpace;
  }

  lemma BatchAlike(db: Db, t: string, slug: string, name: string, payloads: seq<Payload>, tenantId: string)
    requires t != tenantId
    ensures Alike(db, UpsertSource(db, t, slug, name), tenantId) &&
      Alike(db, InsertRaws(db, t, slug, payloads), tenantId)
  {
  }

  lemma SelfAlike(db: Db, tenantId: string)
    ensures Alike(db, db, tenantId)
  {
  }

  // The person that a worker is about to amend is one of its own tenant.
  lemma AmendStage(s: P.System, w: nat)
    requires P.Inv(s) && w in s.workers
    ensures P.PeopleInv(s.db)
    ensures var k := s.workers[w];
      k.pos < |k.batch| && k.stage.Amend? ==> (k.tenantId, k.stage.personId) in P.PersonKeys(s.db.people)
  {
    assert P.WorkerInv(s.workers[w], s.db);
    hide P.PersonKeys, P.LinksInv, P.RawsInv, P.LinkKeys;
  }

  lemma AdvanceAlike(s: P.System, w: nat, found: Option<string>, tenantId: string)
    requires P.Inv(s) && w in s.workers && s.workers[w].tenantId != tenantId
    ensures Alike(s.db, P.AdvanceWorker(s, w, found).db, tenantId)
  {
    hide Alike, P.Inv, P.PeopleInv, P.PersonKeys, CreatePerson, UpdatePersonIdentifiers, UpsertLink, UpdateRawStatus,
      ExtractIdentifiers, ExternalId;
    var k := s.workers[w];
    AmendStage(s, w);
    SelfAlike(s.db, tenantId);
    if |k.batch| <= k.pos {
      StatusAlike(s.db, k.tenantId, k.review, NeedsReview, "", tenantId);
    } else {
      var rec := P.Record(k);
      match k.stage {
        case Look =>
        case Insert => CreateAlike(s.db, k.tenantId, ExtractIdentifiers(rec.payload), rec.payload, tenantId);
        case Amend(pid) => AmendAlike(s.db, k.tenantId, pid, ExtractIdentifiers(rec.payload), tenantId);
        case Connect(pid) => LinkAlike(s.db, k.tenantId, pid, rec.sourceSlug, ExternalId(rec), rec.payload, tenantId);
        case Mark(pid) => StatusAlike(s.db, k.tenantId, [rec.id], Resolved, pid, tenantId);
      }
    }
  }

  lemma EventAlike(s: P.System, e: P.Event, tenantId: string)
    requires P.Inv(s) && P.Enabled(s, e) && WorkersElsewhere(s, tenantId) && ForAnother(e, tenantId)
    ensures Alike(s.db, P.Apply(s, e).db, tenantId)
  {
    hide Alike, P.Inv, UpsertSource, InsertRaws, UpdateRawStatus, P.AdvanceWorker, TrimSpace;
    SelfAlike(s.db, tenantId);
    match e {
      case NameSource(t, slug, name) => BatchAlike(s.db, t, TrimSpace(slug), name, [], tenantId);
      case Ingest(t, slug, payloads) => BatchAlike(s.db, t, TrimSpace(slug), "", payloads, tenantId);
      case Begin(w, t, limit) =>
      case Advance(w, found) => AdvanceAlike(s, w, found, tenantId);
      case Crash(w) =>
      case Decide(t, rawId, accept) =>
        StatusAlike(s.db, t, [rawId], if accept then Resolved else Rejected, "", tenantId);
    }
  }

  // A worker keeps the tenant that it began with.
  lemma StillElsewhere(s: P.System, e: P.Event, tenantId: string)
    requires P.Enabled(s, e) && WorkersElsewhere(s, tenantId) && ForAnother(e, tenantId)
    ensures WorkersElsewhere(P.Apply(s, e), tenantId)
  {
    hide UpsertSource, InsertRaws, TrimSpace, UpdateRawStatus, CreatePerson, UpdatePersonIdentifiers, UpsertLink,
      ExtractIdentifiers, ExternalId, FindOnePerson, ListRawByStatus, ForReview;
  }

  /** However ingests, resolve requests, decisions and crashes interleave, as long as none of them
      is for a tenant, its people, links, records and sources do not change. */
  lemma {:induction false} OthersUntouched(s: P.System, events: seq<P.Event>, tenantId: string)
    requires P.Inv(s) && P.CanRun(s, events) && WorkersElsewhere(s, tenantId)
    requires forall k :: 0 <= k < |events| ==> ForAnother(events[k], tenantId)
    ensures ViewOf(P.Run(s, events).db, tenantId) == ViewOf(s.db, tenantId)
    decreases |events|
  {
    hide ViewOf, Alike, P.Inv, P.Apply, P.Good, FindOnePerson, WorkersElsewhere;
    if events != [] {
      var t := P.Apply(s, events[0]);
      EventAlike(s, events[0], tenantId);
      StillElsewhere(s, events[0], tenantId);
      AlikeViews(s.db, t.db, tenantId);
      P.EventGood(s, events[0]);
      GoodInv(s, t);
      OthersUntouched(t, events[1..], tenantId);
    }
  }

  lemma GoodInv(s: P.System, t: P.System)
    requires P.Good(s, t)
    ensures P.Inv(t)
  {
  }

  // ---------- assets ----------

  predicate RequestElsewhere(r: A.Request, tenantId: string) {
    match r
    case Checking(t, _, _) => t != tenantId
    case Inserting(t, _, _) => t != tenantId
    case Writing(a) => a.tenantId != tenantId
  }

  predicate AssetEventForAnother(e: A.Event, tenantId: string) {
    match e
    case Generate(_, t, _, _) => t != tenantId
    case Load(_, t, _, _) => t != tenantId
    case Check(_) => true
    case Insert(_, _, _) => true
    case Write(_) => true
    case Crash(_) => true
  }

  ghost predicate RequestsElsewhere(s: A.System, tenantId: string) {
    forall w :: w in s.requests ==> RequestElsewhere(s.requests[w], tenantId)
  }

  function AssetsOf(assets: seq<Asset>, tenantId: string): seq<Asset> {
    Filter(assets, (a: Asset) => a.tenantId == tenantId)
  }

  lemma AssetEventAlike(s: A.System, e: A.Event, tenantId: string)
    requires A.Enabled(s, e) && RequestsElsewhere(s, tenantId) && AssetEventForAnother(e, tenantId)
    ensures AssetsOf(A.Apply(s, e).assets, tenantId) == AssetsOf(s.assets, tenantId)
    ensures RequestsElsewhere(A.Apply(s, e), tenantId)
  {
    hide Filter, FindLast, Taken, LastFour, Print;
    var t := A.Apply(s, e);
    assert e.Insert? || e.Write? ==> RequestElsewhere(s.requests[e.w], tenantId);
    FilterSame(s.assets, t.assets, (a: Asset) => a.tenantId == tenantId);
  }

  // The same for ingests, transfers and disposals of assets.
  lemma {:induction false} OtherAssetsUntouched(s: A.System, events: seq<A.Event>, tenantId: string)
    requires A.CanRun(s, events) && RequestsElsewhere(s, tenantId)
    requires forall k :: 0 <= k < |events| ==> AssetEventForAnother(events[k], tenantId)
    ensures AssetsOf(A.Run(s, events).assets, tenantId) == AssetsOf(s.assets, tenantId)
    decreases |events|
  {
    hide AssetsOf, A.Apply, A.Enabled;
    if events != [] {
      AssetEventAlike(s, events[0], tenantId);
      OtherAssetsUntouched(A.Apply(s, events[0]), events[1..], tenantId);
    }
  }

  /** Tenants do share the asset numbers: while another tenant holds assets of a group, no number of
      that group passes the check for this one. */
  lemma HeldGroupRefuses(s: A.System, w: nat, tenantId: string, g: Group, held: Asset)
    requires A.Inv(s) && A.Enabled(s, A.Check(w)) && A.ForGroup(s.requests[w], tenantId, g)
    requires held in s.assets && held.group == g && held.tenantId != tenantId
    ensures A.Apply(s, A.Check(w)) == A.Finish(s, w)
  {
    hide Print, SerialText, Numbers, A.AssetsInv;
    assert A.RequestInv(s.requests[w], s.assets);
    HeldIsTaken(s.assets, tenantId, g, held);
  }

  // Another tenant's first asset of the group has the number that this tenant's first would get.
  lemma HeldIsTaken(assets: seq<Asset>, tenantId: string, g: Group, held: Asset)
    requires A.AssetsInv(assets) && held in assets && held.group == g && held.tenantId != tenantId
    ensures Numbers(assets, tenantId, g) == [] && Taken(assets, Print(g, 1))
  {
    hide Print, SerialText, Numbers;
    assert Dense(assets, tenantId, g) && Dense(assets, held.tenantId, g);
    var i := A.FirstOfGroup(assets, held);
    assert assets[i] in assets;
    forall a | a in assets ensures !InGroup(a, tenantId, g) {
      if InGroup(a, tenantId, g) {
        var _ := A.FirstOfGroup(assets, a);
      }
    }
    NoneInGroup(assets, tenantId, g);
  }

  ghost predicate HeldByAnother(assets: seq<Asset>, tenantId: string, g: Group) {
    exists a :: a in assets && a.group == g && a.tenantId != tenantId
  }

  /** Up to its 9999th asset of a well-formed group, a tenant's next number is taken if and only if
      another tenant holds assets of the group. */
  lemma NextTakenIff(assets: seq<Asset>, tenantId: string, g: Group)
    requires A.AssetsInv(assets) && WellFormed(g) && |Numbers(assets, tenantId, g)| < 9999
    ensures Taken(assets, Print(g, |Numbers(assets, tenantId, g)| + 1)) <==> HeldByAnother(assets, tenantId, g)
  {
    hide Print, SerialText, Numbers, WellFormed, AssetNoMatches, A.AssetsInv;
    var n := |Numbers(assets, tenantId, g)|;
    if a :| a in assets && a.group == g && a.tenantId != tenantId {
      HeldIsTaken(assets, tenantId, g, a);
    }
    if Taken(assets, Print(g, n + 1)) {
      var a :| a in assets && a.assetNo == Print(g, n + 1);
      HolderIsAnother(assets, tenantId, g, a);
    }
  }

  lemma HolderIsAnother(assets: seq<Asset>, tenantId: string, g: Group, a: Asset)
    requires A.AssetsInv(assets) && WellFormed(g) && |Numbers(assets, tenantId, g)| < 9999
    requires a in assets && a.assetNo == Print(g, |Numbers(assets, tenantId, g)| + 1)
    ensures a.group == g && a.tenantId != tenantId
  {
    hide Print, SerialText, Numbers, WellFormed, AssetNoMatches;
    var n := |Numbers(assets, tenantId, g)|;
    var i :| 0 <= i < |assets| && assets[i] == a;
    var k := NumberAt(assets, a.tenantId, a.group, i);
    assert Dense(assets, a.tenantId, a.group);
    PrintMatchesIff(g, n + 1);
    PrintMatchesIff(a.group, k + 1);
    WellFormedInjective(a.group, k + 1, g, n + 1);
  }

  /** Hence a number of a well-formed group fails the check, up to the tenant's 9999th asset, if and
      only if the tenant has numbered on since it was generated, or another tenant holds assets of
      the group. */
  lemma CheckRefusesIff(s: A.System, w: nat, tenantId: string, g: Group)
    requires A.Inv(s) && A.Enabled(s, A.Check(w)) && A.ForGroup(s.requests[w], tenantId, g)
    requires WellFormed(g) && |Numbers(s.assets, tenantId, g)| < 9999
    ensures A.Apply(s, A.Check(w)) == A.Finish(s, w) <==>
      s.requests[w].assetNo != Print(g, |Numbers(s.assets, tenantId, g)| + 1) || HeldByAnother(s.assets, tenantId, g)
  {
    hide Print, SerialText, Numbers, Taken, WellFormed, A.AssetsInv, HeldByAnother;
    var n, r := |Numbers(s.assets, tenantId, g)|, s.requests[w];
    NextTakenIff(s.assets, tenantId, g);
    RefusedIsTaken(s, w);
    if r.assetNo != Print(g, n + 1) {
      assert A.RequestInv(r, s.assets);
      var m :| 1 <= m <= n + 1 && m <= 10000 && r.assetNo == Print(g, m);
      GroupIsDense(s.assets, tenantId, g);
      TakenByGroup(s.assets, tenantId, g, m);
    }
  }

  lemma GroupIsDense(assets: seq<Asset>, tenantId: string, g: Group)
    requires A.AssetsInv(assets)
    ensures Dense(assets, tenantId, g)
  {
  }

  lemma RefusedIsTaken(s: A.System, w: nat)
    requires A.Enabled(s, A.Check(w))
    ensures A.Apply(s, A.Check(w)) == A.Finish(s, w) <==> Taken(s.assets, s.requests[w].assetNo)
  {
    hide Taken;
    assert w !in A.Finish(s, w).requests;
  }

  predicate LedgerForAnother(op: L.Operation, tenantId: string) {
    match op
    case Ingest(a, _, _) => a.tenantId != tenantId
    case Transfer(t, _, _, _, _) => t != tenantId
    case Disposal(t, _, _, _) => t != tenantId
  }

  datatype LedgerView = LedgerView(assets: seq<Asset>, history: seq<AssetHistory>)

  function LedgerOf(l: L.Ledger, tenantId: string): LedgerView {
    LedgerView(AssetsOf(l.assets, tenantId), Filter(l.history, (h: AssetHistory) => h.tenantId == tenantId))
  }

  lemma LedgerStepAlike(l: L.Ledger, op: L.Operation, tenantId: string)
    requires LedgerForAnother(op, tenantId)
    ensures LedgerOf(L.Step(l, op), tenantId) == LedgerOf(l, tenantId)
  {
    hide Filter, Taken;
    var t := L.Step(l, op);
    FilterSame(l.assets, t.assets, (a: Asset) => a.tenantId == tenantId);
    FilterSame(l.history, t.history, (h: AssetHistory) => h.tenantId == tenantId);
  }

  // The same for the history of assets.
  lemma {:induction false} OtherHistoryUntouched(l: L.Ledger, ops: seq<L.Operation>, tenantId: string)
    requires forall k :: 0 <= k < |ops| ==> LedgerForAnother(ops[k], tenantId)
    ensures LedgerOf(L.RunAll(l, ops), tenantId) == LedgerOf(l, tenantId)
    decreases |ops|
  {
    hide LedgerOf, L.Step;
    if ops != [] {
      LedgerStepAlike(l, ops[0], tenantId);
      OtherHistoryUntouched(L.Step(l, ops[0]), ops[1..], tenantId);
    }
  }

  lemma {:induction false} LinksOfRequest(req: N.Request, slots: seq<N.Slot>, outs: seq<N.Outcome>)
    requires |slots| == |outs|
    ensures forall l :: l in N.LinksIn(req, slots, outs) ==> l.tenantId == req.tenantId
    decreases |outs|
  {
    if outs != [] {
      LinksOfRequest(req, slots[..|slots| - 1], outs[..|outs| - 1]);
    }
  }

  // An ingest for one tenant adds asset links of no other.
  lemma OtherLinksUntouched(req: N.Request, slots: seq<N.Slot>, outs: seq<N.Outcome>, links: seq<AssetLink>,
      tenantId: string)
    requires |slots| == |outs| && req.tenantId != tenantId
    ensures var ofTenant := (l: AssetLink) => l.tenantId == tenantId;
      Filter(links + N.LinksIn(req, slots, outs), ofTenant) == Filter(links, ofTenant)
  {
    hide N.LinksIn;
    LinksOfRequest(req, slots, outs);
    FilterSame(links, links + N.LinksIn(req, slots, outs), (l: AssetLink) => l.tenantId == tenantId);
  }

  // ---------- tenants and API keys ----------

  datatype KeysView = KeysView(tenants: seq<K.Tenant>, keys: seq<K.Key>)

  function KeysOf(s: K.Registry, slug: string): KeysView {
    KeysView(Filter(s.tenants, (t: K.Tenant) => t.slug == slug), Filter(s.keys, (k: K.Key) => k.tenantId == slug))
  }

  lemma KeyStepAlike(s: K.Registry, op: K.Operation, slug: string)
    requires K.NormalizeSlug(op.slug) != slug
    ensures KeysOf(K.Step(s, op), slug) == KeysOf(s, slug)
  {
    hide Filter, K.Step;
    var t := K.Step(s, op);
    TenantsSame(s, op, slug);
    KeysSame(s, op, slug);
    FilterSame(s.tenants, t.tenants, (x: K.Tenant) => x.slug == slug);
    FilterSame(s.keys, t.keys, (k: K.Key) => k.tenantId == slug);
  }

  lemma TenantsSame(s: K.Registry, op: K.Operation, slug: string)
    requires K.NormalizeSlug(op.slug) != slug
    ensures SameWhereKept(s.tenants, K.Step(s, op).tenants, (x: K.Tenant) => x.slug == slug)
  {
    hide K.NormalizeSlug, TrimSpace, HasPrefix, K.NewKey, K.UnrevokedAt;
  }

  lemma KeysSame(s: K.Registry, op: K.Operation, slug: string)
    requires K.NormalizeSlug(op.slug) != slug
    ensures SameWhereKept(s.keys, K.Step(s, op).keys, (k: K.Key) => k.tenantId == slug)
  {
    hide K.NormalizeSlug, TrimSpace, HasPrefix, K.KeyId, K.FullSecret, K.TenantAt;
  }

  // The same for tenants and their keys, from the n-th operation on.
  lemma {:induction false} OtherKeysUntouched(ops: seq<K.Operation>, n: nat, slug: string)
    requires n <= |ops| && forall k :: n <= k < |ops| ==> K.NormalizeSlug(ops[k].slug) != slug
    ensures KeysOf(K.Run(ops), slug) == KeysOf(K.Run(ops[..n]), slug)
    decreases |ops|
  {
    hide KeysOf, K.Step, K.NormalizeSlug;
    if n == |ops| {
      assert ops[..n] == ops;
    } else {
      var front := ops[..|ops| - 1];
      OtherKeysUntouched(front, n, slug);
      assert front[..n] == ops[..n];
      KeyStepAlike(K.Run(front), ops[|ops| - 1], slug);
    }
  }

  lemma {:induction false} InFilter<T>(s: seq<T>, keep: T -> bool, x: T)
    ensures x in Filter(s, keep) <==> x in s && keep(x)
    decreases |s|
  {
    if s != [] {
      InFilter(s[..|s| - 1], keep, x);
      assert s == s[..|s| - 1] + [s[|s| - 1]];
    }
  }

  lemma ActiveInView(s: K.Registry, slug: string, apiKey: string)
    ensures K.Active(s, slug, apiKey) <==>
      exists k :: k in KeysOf(s, slug).keys && k.hash == K.Sha256(apiKey) && !k.revoked
  {
    hide Filter;
    var keep := (k: K.Key) => k.tenantId == slug;
    if K.Active(s, slug, apiKey) {
      var i :| 0 <= i < |s.keys| && s.keys[i].tenantId == slug && s.keys[i].hash == K.Sha256(apiKey) &&
        !s.keys[i].revoked;
      InFilter(s.keys, keep, s.keys[i]);
    }
    if k :| k in KeysOf(s, slug).keys && k.hash == K.Sha256(apiKey) && !k.revoked {
      InFilter(s.keys, keep, k);
      var i :| 0 <= i < |s.keys| && s.keys[i] == k;
    }
  }

  /** Whether a key is accepted for a tenant is up to the tenant's own operations: those for other
      tenants change no answer. */
  lemma VerdictsUntouched(ops: seq<K.Operation>, n: nat, tenantId: string, apiKey: string)
    requires n <= |ops| && forall k :: n <= k < |ops| ==> K.NormalizeSlug(ops[k].slug) != K.NormalizeSlug(tenantId)
    ensures K.Verifies(K.Run(ops), tenantId, apiKey) <==> K.Verifies(K.Run(ops[..n]), tenantId, apiKey)
  {
    hide KeysOf, K.Run, K.Inv, K.Active, K.Verifies, K.NormalizeSlug;
    OtherKeysUntouched(ops, n, K.NormalizeSlug(tenantId));
    K.RunInv(ops);
    K.RunInv(ops[..n]);
    K.VerifiesIffActive(K.Run(ops), tenantId, apiKey);
    K.VerifiesIffActive(K.Run(ops[..n]), tenantId, apiKey);
    ActiveInView(K.Run(ops), K.NormalizeSlug(tenantId), apiKey);
    ActiveInView(K.Run(ops[..n]), K.NormalizeSlug(tenantId), apiKey);
  }

  // ---------- identity documents ----------

  predicate SaverElsewhere(k: I.Saver, tenantId: string) {
    k.document.tenantId != tenantId &&
    match k.stage
    case Count => true
    case Find(_) => true
    case Write(d, _) => d.tenantId != tenantId
    case Append(h) => h.tenantId != tenantId
  }

  predicate SaveForAnother(e: I.Event, tenantId: string) {
    match e
    case People(event) => ForAnother(event, tenantId)
    case Begin(_, document, _) => TrimSpace(document.tenantId) != tenantId
    case Advance(_, _) => true
    case Crash(_) => true
  }

  ghost predicate SaversElsewhere(s: I.System, tenantId: string) {
    forall w :: w in s.savers ==> SaverElsewhere(s.savers[w], tenantId)
  }

  datatype DocumentView = DocumentView(docs: seq<D.Document>, history: seq<D.Snapshot>)

  function DocumentsOf(store: D.Docs, tenantId: string): DocumentView {
    DocumentView(Filter(store.docs, (d: D.Document) => d.tenantId == tenantId),
                 Filter(store.history, (h: D.Snapshot) => h.tenantId == tenantId))
  }

  lemma SaveEventAlike(s: I.System, e: I.Event, tenantId: string)
    requires I.Enabled(s, e) && SaversElsewhere(s, tenantId) && SaveForAnother(e, tenantId)
    ensures DocumentsOf(I.Apply(s, e).store, tenantId) == DocumentsOf(s.store, tenantId)
  {
    hide Filter, I.AdvanceSaver, D.Normalise, D.Acceptable, P.Apply, P.Enabled;
    var t := I.Apply(s, e);
    if e.Advance? {
      assert SaverElsewhere(s.savers[e.w], tenantId);
      AdvanceSaverAlike(s, e.w, e.now, tenantId);
    }
    FilterSame(s.store.docs, t.store.docs, (d: D.Document) => d.tenantId == tenantId);
    FilterSame(s.store.history, t.store.history, (h: D.Snapshot) => h.tenantId == tenantId);
  }

  lemma AdvanceSaverAlike(s: I.System, w: nat, now: int, tenantId: string)
    requires w in s.savers && SaverElsewhere(s.savers[w], tenantId)
    ensures var a, b := s.store, I.AdvanceSaver(s, w, now).store;
      SameWhereKept(a.docs, b.docs, (d: D.Document) => d.tenantId == tenantId) &&
      SameWhereKept(a.history, b.history, (h: D.Snapshot) => h.tenantId == tenantId)
  {
    hide D.VersionTaken, I.PersonKnown, TrimSpace, D.DocumentId, D.EventOf, D.First, D.Next, D.IsNew, I.KeyTaken;
  }

  lemma SaversStayElsewhere(s: I.System, e: I.Event, tenantId: string)
    requires I.Enabled(s, e) && SaversElsewhere(s, tenantId) && SaveForAnother(e, tenantId)
    ensures SaversElsewhere(I.Apply(s, e), tenantId)
  {
    hide D.NormaliseContent, D.Acceptable, D.Put, D.Log, TrimSpace, I.PersonKnown, D.DocumentId, I.KeyTaken, P.Apply,
      P.Enabled;
    assert e.Advance? ==> SaverElsewhere(s.savers[e.w], tenantId);
  }

  // The same for saves of identity documents, with entity resolution going on beside them.
  lemma {:induction false} OtherDocumentsUntouched(s: I.System, events: seq<I.Event>, tenantId: string)
    requires I.CanRun(s, events) && SaversElsewhere(s, tenantId)
    requires forall k :: 0 <= k < |events| ==> SaveForAnother(events[k], tenantId)
    ensures DocumentsOf(I.Run(s, events).store, tenantId) == DocumentsOf(s.store, tenantId)
    decreases |events|
  {
    hide DocumentsOf, I.Apply, I.Enabled;
    if events != [] {
      SaveEventAlike(s, events[0], tenantId);
      SaversStayElsewhere(s, events[0], tenantId);
      OtherDocumentsUntouched(I.Apply(s, events[0]), events[1..], tenantId);
    }
  }
}
