/** The collections that entity resolution reads and writes, and what each store call does to
    them, as functions from one state of the collections to the next. */
module Entities {
  import opened Text

  type ObjectId = nat

  // ---------- documents ----------

  // A value of a raw payload, as far as asString tells values apart.
  datatype Value = Str(text: string) | Stringer(text: string) | Other

  type Payload = map<string, Value>

  datatype Identifiers = Identifiers(nationalId: string, email: string, phone: string)

  datatype Person = Person(
    tenantId: string, personId: string,
    nationalId: string, primaryEmail: string, primaryPhone: string,
    attributes: Payload)

  datatype Link = Link(tenantId: string, personId: string, source: string, externalId: string, payload: Payload)

  datatype Status = Pending | Resolved | NeedsReview | Rejected

  // personId is "" while no person has been written to the record.
  datatype Raw = Raw(
    id: ObjectId, tenantId: string, sourceSlug: string, payload: Payload,
    status: Status, personId: string)

  /** Every sequence is in insertion order, which is also the order of createdAt. nextId counts
      the ObjectIDs handed out so far. */
  datatype Db = Db(
    people: seq<Person>, links: seq<Link>, raws: seq<Raw>,
    sources: map<(string, string), string>, nextId: nat)

  const NO_DATA: Db := Db([], [], [], map[], 0)

  // ---------- what a raw record says (services/resolve.go) ----------

  function AsString(payload: Payload, key: string): (s: string)
    ensures Trimmed(s)
  {
    if key !in payload then ""
    else match payload[key]
      case Str(text) => TrimSpace(text)
      case Stringer(text) => TrimSpace(text)
      case Other => ""
  }

  function ExtractIdentifiers(payload: Payload): Identifiers {
    Identifiers(
      AsString(payload, "national_id"),
      ToLower(TrimSpace(AsString(payload, "email"))),
      TrimSpace(AsString(payload, "phone")))
  }

  predicate NoIdentifiers(ids: Identifiers) {
    ids.nationalId == "" && ids.email == "" && ids.phone == ""
  }

  function FirstNonEmpty(values: seq<string>): string {
    if values == [] then ""
    else if TrimSpace(values[0]) != "" then values[0]
    else FirstNonEmpty(values[1..])
  }

  function ExternalId(rec: Raw): string {
    FirstNonEmpty([AsString(rec.payload, "external_id"), AsString(rec.payload, "id"), Hex(rec.id)])
  }

  // A record that is never matched: it goes to the review queue.
  predicate ForReview(rec: Raw) {
    NoIdentifiers(ExtractIdentifiers(rec.payload))
  }

  // ---------- people (store/person.go) ----------

  // The filter of FindPersonByIdentifiers: the tenant and at least one non-empty identifier.
  predicate Matches(p: Person, tenantId: string, ids: Identifiers) {
    p.tenantId == tenantId &&
    ((ids.nationalId != "" && p.nationalId == ids.nationalId) ||
     (ids.email != "" && p.primaryEmail == ids.email) ||
     (ids.phone != "" && p.primaryPhone == ids.phone))
  }

  predicate MatchAt(people: seq<Person>, i: int, tenantId: string, ids: Identifiers) {
    0 <= i < |people| && Matches(people[i], tenantId, ids)
  }

  /** FindOne returns some document that the filter accepts, or none when it accepts none.
      Nothing in the query ranks one identifier above another. */
  ghost predicate FindOnePerson(people: seq<Person>, tenantId: string, ids: Identifiers, found: Option<string>) {
    match found
    case None => forall i :: 0 <= i < |people| ==> !MatchAt(people, i, tenantId, ids)
    case Some(pid) => exists i :: MatchAt(people, i, tenantId, ids) && people[i].personId == pid
  }

  // At most one stored person carries one of the identifiers.
  ghost predicate Unambiguous(people: seq<Person>, tenantId: string, ids: Identifiers) {
    forall i, j :: MatchAt(people, i, tenantId, ids) && MatchAt(people, j, tenantId, ids) ==> i == j
  }

  function NewPerson(tenantId: string, personId: string, ids: Identifiers, attrs: Payload): Person {
    Person(tenantId, personId, ids.nationalId, ids.email, ids.phone, attrs)
  }

  function CreatePerson(db: Db, tenantId: string, ids: Identifiers, attrs: Payload): Db {
    db.(people := db.people + [NewPerson(tenantId, Hex(db.nextId), ids, attrs)], nextId := db.nextId + 1)
  }

  function SetIdentifiers(p: Person, ids: Identifiers): Person {
    p.(nationalId := if TrimSpace(ids.nationalId) != "" then ids.nationalId else p.nationalId,
       primaryEmail := if TrimSpace(ids.email) != "" then ids.email else p.primaryEmail,
       primaryPhone := if TrimSpace(ids.phone) != "" then ids.phone else p.primaryPhone)
  }

  // The position of the first person with the given personId, or -1.
  function PersonAt(people: seq<Person>, personId: string): (i: int)
    ensures -1 <= i < |people|
    ensures 0 <= i ==> people[i].personId == personId
    ensures forall j :: 0 <= j < (if i < 0 then |people| else i) ==> people[j].personId != personId
  {
    if people == [] then -1
    else
      var n := |people| - 1;
      var i := PersonAt(people[..n], personId);
      if 0 <= i then i else if people[n].personId == personId then n else -1
  }

  // UpdateOne with a filter on personId alone.
  function UpdatePersonIdentifiers(db: Db, personId: string, ids: Identifiers): Db {
    var i := PersonAt(db.people, personId);
    if i < 0 then db else db.(people := db.people[i := SetIdentifiers(db.people[i], ids)])
  }

  // ---------- links (store/person.go) ----------

  predicate IsLink(l: Link, tenantId: string, personId: string, source: string, externalId: string) {
    l.tenantId == tenantId && l.personId == personId && l.source == source && l.externalId == externalId
  }

  // The key of the unique index links_external.
  predicate SameExternal(l: Link, tenantId: string, source: string, externalId: string) {
    l.tenantId == tenantId && l.source == source && l.externalId == externalId
  }

  // The position of the first link that the upsert filter accepts, or -1.
  function LinkAt(links: seq<Link>, tenantId: string, personId: string, source: string, externalId: string): (i: int)
    ensures -1 <= i < |links|
    ensures 0 <= i ==> IsLink(links[i], tenantId, personId, source, externalId)
    ensures forall j :: 0 <= j < (if i < 0 then |links| else i) ==>
      !IsLink(links[j], tenantId, personId, source, externalId)
  {
    if links == [] then -1
    else
      var n := |links| - 1;
      var i := LinkAt(links[..n], tenantId, personId, source, externalId);
      if 0 <= i then i else if IsLink(links[n], tenantId, personId, source, externalId) then n else -1
  }

  predicate ExternalTaken(links: seq<Link>, tenantId: string, source: string, externalId: string) {
    exists i :: 0 <= i < |links| && SameExternal(links[i], tenantId, source, externalId)
  }

  datatype LinkError = LinkKeyBlank | LinkKeyTaken

  datatype LinkResult = Linked(links: seq<Link>) | Refused(error: LinkError)

  function UpsertLink(links: seq<Link>, tenantId: string, personId: string, source: string, externalId: string,
                      payload: Payload): LinkResult {
    if TrimSpace(source) == "" || TrimSpace(externalId) == "" then Refused(LinkKeyBlank)
    else
      var i := LinkAt(links, tenantId, personId, source, externalId);
      if 0 <= i then Linked(links[i := links[i].(payload := payload)])
      else if ExternalTaken(links, tenantId, source, externalId) then Refused(LinkKeyTaken)
      else Linked(links + [Link(tenantId, personId, source, externalId, payload)])
  }

  // ---------- raw records (store/raw.go, store/ingest.go) ----------

  predicate HasStatus(r: Raw, tenantId: string, status: Status) {
    r.tenantId == tenantId && r.status == status
  }

  function WithStatus(raws: seq<Raw>, tenantId: string, status: Status): seq<Raw> {
    if raws == [] then []
    else
      var n := |raws| - 1;
      WithStatus(raws[..n], tenantId, status) + (if HasStatus(raws[n], tenantId, status) then [raws[n]] else [])
  }

  function BatchLimit(limit: int): nat {
    if limit <= 0 then 100 else limit
  }

  function Take(raws: seq<Raw>, n: nat): seq<Raw> {
    if |raws| <= n then raws else raws[..n]
  }

  function ListRawByStatus(raws: seq<Raw>, tenantId: string, status: Status, limit: int): seq<Raw> {
    Take(WithStatus(raws, tenantId, status), BatchLimit(limit))
  }

  function SetStatus(r: Raw, status: Status, personId: string): Raw {
    r.(status := status, personId := if personId != "" then personId else r.personId)
  }

  function UpdateRawStatus(raws: seq<Raw>, tenantId: string, ids: seq<ObjectId>, status: Status, personId: string):
      (r: seq<Raw>)
    ensures |r| == |raws|
    ensures forall i :: 0 <= i < |raws| ==>
      r[i] == if raws[i].tenantId == tenantId && raws[i].id in ids then SetStatus(raws[i], status, personId)
              else raws[i]
  {
    seq(|raws|, i requires 0 <= i < |raws| =>
      if raws[i].tenantId == tenantId && raws[i].id in ids then SetStatus(raws[i], status, personId) else raws[i])
  }

  function NewRaws(tenantId: string, slug: string, payloads: seq<Payload>, firstId: nat): (r: seq<Raw>)
    ensures |r| == |payloads|
    ensures forall i :: 0 <= i < |r| ==> r[i] == Raw(firstId + i, tenantId, slug, payloads[i], Pending, "")
  {
    seq(|payloads|, i requires 0 <= i < |payloads| => Raw(firstId + i, tenantId, slug, payloads[i], Pending, ""))
  }

  // The two writes of SaveBatch, for a slug that has been trimmed.
  function UpsertSource(db: Db, tenantId: string, slug: string, name: string): Db {
    db.(sources := db.sources[(tenantId, slug) := name])
  }

  function InsertRaws(db: Db, tenantId: string, slug: string, payloads: seq<Payload>): Db {
    db.(raws := db.raws + NewRaws(tenantId, slug, payloads, db.nextId), nextId := db.nextId + |payloads|)
  }

  function SaveBatch(db: Db, tenantId: string, slug: string, name: string, payloads: seq<Payload>): Result<Db> {
    var s := TrimSpace(slug);
    if s == "" then Err("store: source slug required")
    else if payloads == [] then Err("store: no records to ingest")
    else Ok(InsertRaws(UpsertSource(db, tenantId, s, name), tenantId, s, payloads))
  }

  // ---------- facts about extracted identifiers ----------

  lemma ExtractedTrimmed(payload: Payload)
    ensures var ids := ExtractIdentifiers(payload);
      Trimmed(ids.nationalId) && Trimmed(ids.email) && Trimmed(ids.phone)
  {
    CaseIdempotent(TrimSpace(AsString(payload, "email")));
  }

  lemma ExternalIdNotBlank(rec: Raw)
    ensures TrimSpace(ExternalId(rec)) != ""
  {
    HexTrimmed(rec.id);
    var a, b, c := AsString(rec.payload, "external_id"), AsString(rec.payload, "id"), Hex(rec.id);
    assert [a, b, c][1..] == [b, c] && [b, c][1..] == [c];
    assert FirstNonEmpty([c]) == c;
    assert FirstNonEmpty([b, c]) == if TrimSpace(b) != "" then b else c;
    assert FirstNonEmpty([a, b, c]) == if TrimSpace(a) != "" then a else FirstNonEmpty([b, c]);
  }
}
