/** What a lookup by email or phone returns, and what it finds after a record is resolved. */
module Lookup {
  import opened Text
  import opened Entities
  import opened ResolveProtocol
  import opened ResolvePass
  import opened ResolveRecovery
  import opened ResolveIdentity

  datatype PersonView = PersonView(person: Person, links: seq<Link>)

  // The cursor over one person's links.
  function LinksOf(links: seq<Link>, tenantId: string, personId: string): (r: seq<Link>)
    ensures forall l :: l in r <==> l in links && l.tenantId == tenantId && l.personId == personId
  {
    if links == [] then []
    else
      var n := |links| - 1;
      assert links == links[..n] + [links[n]];
      LinksOf(links[..n], tenantId, personId) +
      (if links[n].tenantId == tenantId && links[n].personId == personId then [links[n]] else [])
  }

  datatype Key = Email(email: string) | Phone(phone: string)

  predicate HasKey(p: Person, tenantId: string, key: Key) {
    p.tenantId == tenantId &&
    match key
    case Email(email) => p.primaryEmail == email
    case Phone(phone) => p.primaryPhone == phone
  }

  // FindOne by the key, then that person's links.
  ghost predicate FindsView(db: Db, tenantId: string, key: Key, view: Option<PersonView>) {
    match view
    case None => forall p :: p in db.people ==> !HasKey(p, tenantId, key)
    case Some(v) =>
      v.person in db.people && HasKey(v.person, tenantId, key) &&
      v.links == LinksOf(db.links, v.person.tenantId, v.person.personId)
  }

  // What the two lookups search for: the email is normalised, the phone is taken as it comes.
  function EmailKey(email: string): Key {
    Email(ToLower(TrimSpace(email)))
  }

  function PhoneKey(phone: string): Key {
    Phone(phone)
  }

  // ---------- emails ----------

  // Any spelling of an email in another case, with white space around it, is the same key.
  lemma EmailVariants(before: string, spelled: string, after: string, email: string)
    requires AllSpace(before) && AllSpace(after) && ToLower(spelled) == email && Trimmed(email) && email != ""
    ensures EmailKey(before + spelled + after) == Email(email)
  {
    CaseKeepsSpace(spelled[0]);
    CaseKeepsSpace(spelled[|spelled| - 1]);
    TrimPadded(before, spelled, after);
  }

  lemma WrittenEmail(db: Db, rec: Raw, found: Option<string>)
    requires PeopleInv(db) && !ForReview(rec) && Finds(db, rec, found) && Ids(rec).email != ""
    ensures exists p :: p in Pass(db, rec, found).people &&
              p.personId == PersonOf(db, found) && HasKey(p, rec.tenantId, Email(Ids(rec).email))
  {
    IdsTrimmed(rec);
    PartialPeople(db, rec, found, 3);
    var people := Pass(db, rec, found).people;
    if found.None? {
      var p := people[|db.people|];
      assert p in people && p.personId == PersonOf(db, found) && HasKey(p, rec.tenantId, Email(Ids(rec).email));
    } else {
      var i :| MatchAt(db.people, i, rec.tenantId, Ids(rec)) && db.people[i].personId == found.value;
      PersonAtPosition(db.people, i);
      var p := people[i];
      assert p in people && p.personId == PersonOf(db, found) && HasKey(p, rec.tenantId, Email(Ids(rec).email));
    }
  }

  // The links hold the record's own, with the record's payload.
  ghost predicate HasOwnLink(links: seq<Link>, rec: Raw, pid: string) {
    exists l :: l in links && IsLink(l, rec.tenantId, pid, rec.sourceSlug, ExternalId(rec)) && l.payload == rec.payload
  }

  lemma LinkInView(db: Db, rec: Raw, pid: string)
    requires TryLink(db.links, rec, pid).Linked?
    ensures HasOwnLink(LinksOf(WriteLink(db, rec, pid).links, rec.tenantId, pid), rec, pid)
  {
    var links := WriteLink(db, rec, pid).links;
    var i := LinkAt(db.links, rec.tenantId, pid, rec.sourceSlug, ExternalId(rec));
    var l := links[if 0 <= i then i else |db.links|];
    assert l in links;
    assert l in LinksOf(links, rec.tenantId, pid);
  }

  /** After a record is resolved, a lookup by any spelling of its email finds a person with that
      email and all and only that person's links. While people share no identifier it is the
      resolved person, and the links include the record's own. */
  lemma EmailFindsResolved(db: Db, rec: Raw, found: Option<string>, email: string, view: Option<PersonView>)
    requires PeopleInv(db) && !ForReview(rec) && Finds(db, rec, found) && LinkAccepted(db, rec, found)
    requires EmailKey(email) == Email(Ids(rec).email) && Ids(rec).email != ""
    requires FindsView(Pass(db, rec, found), rec.tenantId, EmailKey(email), view)
    ensures view.Some? && view.value.person.primaryEmail == Ids(rec).email
    ensures forall l :: l in view.value.links <==>
      l in Pass(db, rec, found).links && l.tenantId == rec.tenantId && l.personId == view.value.person.personId
    ensures UniqueIdentities(Pass(db, rec, found).people) ==>
      view.value.person.personId == PersonOf(db, found) && HasOwnLink(view.value.links, rec, PersonOf(db, found))
  {
    var pid := PersonOf(db, found);
    var people := Pass(db, rec, found).people;
    WrittenEmail(db, rec, found);
    var p :| p in people && p.personId == pid && HasKey(p, rec.tenantId, Email(Ids(rec).email));
    assert view.Some?;
    if UniqueIdentities(people) {
      SameKeySamePerson(people, p, view.value.person);
      LinkInView(WritePerson(db, rec, found), rec, pid);
      PassLinks(db, rec, found);
    }
  }

  lemma PassLinks(db: Db, rec: Raw, found: Option<string>)
    requires LinkAccepted(db, rec, found)
    ensures TryLink(WritePerson(db, rec, found).links, rec, PersonOf(db, found)).Linked?
    ensures Pass(db, rec, found).links == WriteLink(WritePerson(db, rec, found), rec, PersonOf(db, found)).links
  {
    hide UpsertLink, CreatePerson, UpdatePersonIdentifiers, UpdateRawStatus;
    LinksAfterPerson(db, rec, found);
  }

  lemma SameKeySamePerson(people: seq<Person>, p: Person, q: Person)
    requires UniqueIdentities(people) && p in people && q in people
    requires p.tenantId == q.tenantId && p.primaryEmail == q.primaryEmail != ""
    ensures p == q
  {
    var i :| 0 <= i < |people| && people[i] == p;
    var j :| 0 <= j < |people| && people[j] == q;
    if i < j {
      assert Clash(people[i], people[j]);
    } else if j < i {
      assert Clash(people[j], people[i]);
    }
  }

  // ---------- phones ----------

  ghost predicate PhonesTrimmed(people: seq<Person>) {
    forall i :: 0 <= i < |people| ==> Trimmed(people[i].primaryPhone)
  }

  lemma {:induction false} RunTrimsPhones(s: System, events: seq<Event>)
    requires PhonesTrimmed(s.db.people) && CanRun(s, events)
    ensures PhonesTrimmed(Run(s, events).db.people)
    decreases |events|
  {
    if events != [] {
      EventTrimsPhones(s, events[0]);
      RunTrimsPhones(Apply(s, events[0]), events[1..]);
    }
  }

  lemma CreateTrimsPhones(db: Db, tenantId: string, payload: Payload)
    requires PhonesTrimmed(db.people)
    ensures PhonesTrimmed(CreatePerson(db, tenantId, ExtractIdentifiers(payload), payload).people)
  {
    ExtractedTrimmed(payload);
  }

  lemma AmendTrimsPhones(db: Db, personId: string, payload: Payload)
    requires PhonesTrimmed(db.people)
    ensures PhonesTrimmed(UpdatePersonIdentifiers(db, personId, ExtractIdentifiers(payload)).people)
  {
    ExtractedTrimmed(payload);
  }

  lemma EventTrimsPhones(s: System, e: Event)
    requires PhonesTrimmed(s.db.people) && Enabled(s, e)
    ensures PhonesTrimmed(Apply(s, e).db.people)
  {
    hide UpsertLink, UpdateRawStatus, ListRawByStatus, CreatePerson, UpdatePersonIdentifiers, PhonesTrimmed,
      ExtractIdentifiers, ExternalId, FindOnePerson;
    if e.Advance? {
      var k := s.workers[e.w];
      if k.pos < |k.batch| {
        CreateTrimsPhones(s.db, k.tenantId, Record(k).payload);
        if k.stage.Amend? {
          AmendTrimsPhones(s.db, k.stage.personId, Record(k).payload);
        }
      }
    }
  }

  /** Lookups treat the two keys unlike each other: in every reachable state a phone with white
      space around it finds nobody, although the trimmed phone finds its owner. */
  lemma PhoneFoundIffTrimmed(events: seq<Event>, tenantId: string, phone: string, view: Option<PersonView>)
    requires CanRun(Empty, events) && FindsView(Run(Empty, events).db, tenantId, PhoneKey(phone), view)
    requires TrimSpace(phone) != ""
    requires exists p :: p in Run(Empty, events).db.people && HasKey(p, tenantId, PhoneKey(TrimSpace(phone)))
    ensures view.Some? <==> Trimmed(phone)
  {
    RunTrimsPhones(Empty, events);
    var people := Run(Empty, events).db.people;
    if view.Some? {
      var i :| 0 <= i < |people| && people[i] == view.value.person;
      assert Trimmed(people[i].primaryPhone);
    }
  }
}
