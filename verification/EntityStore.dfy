/** The people, links and raw collections of the MongoDB store. Every method is one store call:
    it may fail, and then it has changed nothing. */
module EntityStore {
  import opened Connections
  import opened Text
  import opened Entities
  import opened Lookup

  // The records of a batch, as they are inserted.
  method RawDocs(tenantId: string, source: string, payloads: seq<Payload>, nextId: nat) returns (docs: array<Raw>)
    ensures fresh(docs) && docs[..] == NewRaws(tenantId, source, payloads, nextId)
  {
    docs := new Raw[|payloads|];
    for i := 0 to |payloads|
      modifies docs
      invariant forall j :: 0 <= j < i ==> docs[j] == Raw(nextId + j, tenantId, source, payloads[j], Pending, "")
    {
      docs[i] := Raw(nextId + i, tenantId, source, payloads[i], Pending, "");
    }
    assert |docs[..]| == |payloads|;
  }

  class MongoStore {
    var people: seq<Person>
    var links: seq<Link>
    var raws: seq<Raw>
    var sources: map<(string, string), string>
    var nextId: nat

    const conn: Connection

    ghost function Contents(): Db
      reads this
    {
      Db(people, links, raws, sources, nextId)
    }

    constructor (conn: Connection)
      ensures Contents() == NO_DATA && this.conn == conn
    {
      people, links, raws, sources, nextId := [], [], [], map[], 0;
      this.conn := conn;
    }

    method FindPersonByIdentifiers(tenantId: string, ids: Identifiers) returns (r: Result<Option<Person>>)
      modifies conn`calls
      ensures r.Ok? ==>
        FindOnePerson(people, tenantId, ids, match r.value case None => None case Some(p) => Some(p.personId))
      ensures r.Err? ==> conn.fails(old(conn.calls))
    {
      if NoIdentifiers(ids) {
        return Ok(None);
      }
      var ok := conn.Call();
      if !ok {
        return Err("store: find person");
      }
      if i :| 0 <= i < |people| && Matches(people[i], tenantId, ids) {
        assert MatchAt(people, i, tenantId, ids);
        r := Ok(Some(people[i]));
      } else {
        r := Ok(None);
      }
    }

    method CreatePerson(tenantId: string, ids: Identifiers, attrs: Payload) returns (r: Result<Person>)
      modifies conn`calls, this`people, this`nextId
      ensures r.Ok? ==> Contents() == Entities.CreatePerson(old(Contents()), tenantId, ids, attrs)
      ensures r.Ok? ==> r.value.personId == Hex(old(nextId))
      ensures r.Err? ==> Contents() == old(Contents()) && conn.fails(old(conn.calls))
    {
      var ok := conn.Call();
      if !ok {
        return Err("store: insert person");
      }
      var person := NewPerson(tenantId, Hex(nextId), ids, attrs);
      people, nextId := people + [person], nextId + 1;
      r := Ok(person);
    }

    method UpdatePersonIdentifiers(personId: string, ids: Identifiers) returns (r: Result<()>)
      modifies conn`calls, this`people
      ensures r.Ok? ==> Contents() == Entities.UpdatePersonIdentifiers(old(Contents()), personId, ids)
      ensures r.Err? ==> Contents() == old(Contents()) && conn.fails(old(conn.calls))
    {
      var ok := conn.Call();
      if !ok {
        return Err("store: update person identifiers");
      }
      var i := PersonAt(people, personId);
      if 0 <= i {
        var p := people[i];
        if TrimSpace(ids.nationalId) != "" { p := p.(nationalId := ids.nationalId); }
        if TrimSpace(ids.email) != "" { p := p.(primaryEmail := ids.email); }
        if TrimSpace(ids.phone) != "" { p := p.(primaryPhone := ids.phone); }
        people := people[i := p];
      }
      r := Ok(());
    }

    method UpsertLink(tenantId: string, personId: string, source: string, externalId: string, payload: Payload)
      returns (r: Result<()>)
      modifies conn`calls, this`links
      ensures r.Ok? ==>
        Entities.UpsertLink(old(links), tenantId, personId, source, externalId, payload) == Linked(links)
      ensures r.Err? ==> links == old(links)
      ensures r.Err? ==>
        conn.fails(old(conn.calls)) ||
        Entities.UpsertLink(old(links), tenantId, personId, source, externalId, payload).Refused?
    {
      if TrimSpace(source) == "" || TrimSpace(externalId) == "" {
        return Err("store: link source and external id required");
      }
      var ok := conn.Call();
      if !ok {
        return Err("store: upsert link");
      }
      var i := LinkAt(links, tenantId, personId, source, externalId);
      if 0 <= i {
        links := links[i := links[i].(payload := payload)];
      } else if exists j :: 0 <= j < |links| && SameExternal(links[j], tenantId, source, externalId) {
        return Err("store: upsert link: duplicate key links_external");
      } else {
        links := links + [Link(tenantId, personId, source, externalId, payload)];
      }
      r := Ok(());
    }

    method ListRawByStatus(tenantId: string, status: Status, limit: int) returns (r: Result<seq<Raw>>)
      modifies conn`calls
      ensures r.Ok? ==> r.value == Entities.ListRawByStatus(raws, tenantId, status, limit)
      ensures r.Err? ==> conn.fails(old(conn.calls))
    {
      var most := if limit <= 0 then 100 else limit;
      var ok := conn.Call();
      if !ok {
        return Err("store: list raw");
      }
      var records: seq<Raw> := [];
      var i := 0;
      while i < |raws| && |records| < most
        invariant 0 <= i <= |raws| && |records| <= most
        invariant records == WithStatus(raws[..i], tenantId, status)
      {
        assert raws[..i + 1][..i] == raws[..i];
        if HasStatus(raws[i], tenantId, status) {
          records := records + [raws[i]];
        }
        i := i + 1;
      }
      WithStatusPrefix(raws, i, tenantId, status);
      r := Ok(records);
    }

    method UpdateRawStatus(tenantId: string, ids: seq<ObjectId>, status: Status, personId: string)
      returns (r: Result<()>)
      modifies conn`calls, this`raws
      ensures r.Ok? ==> raws == Entities.UpdateRawStatus(old(raws), tenantId, ids, status, personId)
      ensures r.Err? ==> raws == old(raws) && conn.fails(old(conn.calls))
    {
      if ids == [] {
        assert Entities.UpdateRawStatus(raws, tenantId, ids, status, personId) == raws;
        return Ok(());
      }
      var ok := conn.Call();
      if !ok {
        return Err("store: update raw status");
      }
      raws := Entities.UpdateRawStatus(raws, tenantId, ids, status, personId);
      r := Ok(());
    }

    /** Upserts the source and inserts one pending record a payload. The two writes are separate:
        when the second fails the source stays. */
    method SaveBatch(tenantId: string, slug: string, name: string, payloads: seq<Payload>) returns (r: Result<nat>)
      modifies conn`calls, this`sources, this`raws, this`nextId
      ensures r.Ok? ==> Entities.SaveBatch(old(Contents()), tenantId, slug, name, payloads) == Ok(Contents())
      ensures r.Ok? ==> r.value == |payloads| == |raws| - |old(raws)|
      ensures r.Err? ==>
        Contents() ==
          if TrimSpace(slug) == "" || payloads == [] || conn.fails(old(conn.calls)) then old(Contents())
          else UpsertSource(old(Contents()), tenantId, TrimSpace(slug), name)
      ensures r.Err? ==>
        Entities.SaveBatch(old(Contents()), tenantId, slug, name, payloads).Err? ||
        conn.fails(old(conn.calls)) || conn.fails(old(conn.calls) + 1)
    {
      var source := TrimSpace(slug);
      if source == "" {
        return Err("store: source slug required");
      }
      if |payloads| == 0 {
        return Err("store: no records to ingest");
      }
      var ok := conn.Call();
      if !ok {
        return Err("store: upsert source");
      }
      sources := sources[(tenantId, source) := name];
      var rawDocs := RawDocs(tenantId, source, payloads, nextId);
      ok := conn.Call();
      if !ok {
        return Err("store: insert raw records");
      }
      raws, nextId := raws + rawDocs[..], nextId + |payloads|;
      r := Ok(|payloads|);
    }

    // FindOne on people, then the cursor over the links of the person found.
    method FindPersonWithLinks(tenantId: string, key: Key) returns (r: Result<Option<PersonView>>)
      modifies conn`calls
      ensures r.Ok? ==> FindsView(Contents(), tenantId, key, r.value)
      ensures r.Err? ==> conn.fails(old(conn.calls)) || conn.fails(old(conn.calls) + 1)
    {
      var ok := conn.Call();
      if !ok {
        return Err("store: find person");
      }
      if i :| 0 <= i < |people| && HasKey(people[i], tenantId, key) {
        var person := people[i];
        ok := conn.Call();
        if !ok {
          return Err("store: find links");
        }
        var found: seq<Link> := [];
        for n := 0 to |links|
          invariant found == LinksOf(links[..n], person.tenantId, person.personId)
        {
          assert links[..n + 1][..n] == links[..n];
          if links[n].tenantId == person.tenantId && links[n].personId == person.personId {
            found := found + [links[n]];
          }
        }
        assert links[..|links|] == links;
        r := Ok(Some(PersonView(person, found)));
      } else {
        r := Ok(None);
      }
    }
  }

  lemma {:induction false} WithStatusGrows(raws: seq<Raw>, i: nat, tenantId: string, status: Status)
    requires i <= |raws|
    ensures WithStatus(raws[..i], tenantId, status) <= WithStatus(raws, tenantId, status)
    decreases |raws|
  {
    if i == |raws| {
      assert raws[..i] == raws;
    } else {
      var n := |raws| - 1;
      assert raws[..n][..i] == raws[..i];
      WithStatusGrows(raws[..n], i, tenantId, status);
    }
  }

  // A scan that stops early has the same first records as the whole collection.
  lemma WithStatusPrefix(raws: seq<Raw>, i: nat, tenantId: string, status: Status)
    requires i <= |raws|
    ensures WithStatus(raws[..i], tenantId, status) <= WithStatus(raws, tenantId, status)
    ensures i == |raws| ==> WithStatus(raws[..i], tenantId, status) == WithStatus(raws, tenantId, status)
  {
    WithStatusGrows(raws, i, tenantId, status);
    assert i == |raws| ==> raws[..i] == raws;
  }
}
