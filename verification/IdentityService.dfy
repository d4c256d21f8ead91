/** Saving an identity document (services/identity_document.go, store/identity_document.go). */
module IdentityService {
  import opened Connections
  import opened Text
  import opened IdentityDocuments
  import opened IdentityContents

  lemma PutAndLogTells(s: Docs, d: Document, isNew: bool, actor: string)
    ensures PutAndLog(s, d, isNew, actor, NotLogged) == Put(s, d, isNew)
    ensures var put, h := Put(s, d, isNew), EventOf(d, isNew, actor);
      !VersionTaken(s.history, h) ==> PutAndLog(s, d, isNew, actor, Stored) == put.(history := s.history + [h])
  {
    hide EventOf, VersionTaken;
  }

  lemma EventIs(d: Document, isNew: bool, actor: string, now: int)
    requires d.updatedAt == now
    ensures EventOf(d, isNew, actor) ==
      Snapshot(d.tenantId, d.documentId, d.personId, if isNew then "created" else "updated", TrimSpace(actor),
          d.version, d, now)
  {
  }

  // A save has something to write: the person is there, and the document too unless it is new.
  predicate Savable(s: Docs, people: set<(string, string)>, d: Document) {
    (d.tenantId, d.personId) in people && (IsNew(d) || 0 <= DocAt(s.docs, d.tenantId, d.documentId))
  }

  // The unique index on versions is in nobody's way while saves come one after the other.
  lemma FirstFree(s: Docs, d: Document, now: int, actor: string)
    requires Inv(s, false)
    ensures !VersionTaken(s.history, EventOf(First(d, s.nextId, now), true, actor))
  {
    DocumentIdIssued(s.nextId + 1, s.nextId);
    hide IdentityDocuments.Inv, Accounted, VersionTaken, DocumentId, IssuedTo;
    var zero := First(d, s.nextId, now).(version := 0);
    UnknownAccounted(s, zero, false);
    LogAccepted(s, zero, First(d, s.nextId, now), true, actor, false);
  }

  lemma NextFree(s: Docs, d: Document, i: nat, now: int, actor: string)
    requires Inv(s, false) && i < |s.docs| && d.tenantId == s.docs[i].tenantId && d.documentId == s.docs[i].documentId
    ensures !VersionTaken(s.history, EventOf(Next(d, s.docs[i], now), false, actor))
  {
    hide Accounted, VersionTaken, Sound, IssuedTo, IdsUnique;
    LogAccepted(s, s.docs[i], Next(d, s.docs[i], now), false, actor, false);
  }

  // The document of a successful save: what the caller gave, in its place.
  ghost predicate StoredAs(before: seq<Document>, after: seq<Document>, d: Document, given: Document, now: int) {
    d.tenantId == given.tenantId && d.personId == given.personId && d.content == given.content && d.updatedAt == now &&
    (if IsNew(given) then HasPrefix(d.documentId, "doc_") else d.documentId == given.documentId) &&
    PutAs(before, after, d, IsNew(given))
  }

  lemma PutStores(before: Docs, base: Docs, document: Document, d: Document, now: int)
    requires base.docs == before.docs
    requires if IsNew(document) then d == First(document, before.nextId, now)
      else var i := DocAt(before.docs, document.tenantId, document.documentId);
        0 <= i && d == Next(document, before.docs[i], now)
    ensures StoredAs(before.docs, Put(base, d, IsNew(document)).docs, d, document, now)
  {
    hide IsNew, HasPrefix, DocumentId;
    if IsNew(document) {
      IdPrefix(before.nextId + 1);
    } else {
      assert Supersedes(d, before.docs[DocAt(before.docs, document.tenantId, document.documentId)]);
    }
  }

  lemma IdPrefix(n: nat)
    ensures HasPrefix(DocumentId(n), "doc_")
  {
  }

  class MongoStore {
    var docs: seq<Document>
    var history: seq<Snapshot>
    var nextId: nat
    // Tenant and personId of the people collection.
    var people: set<(string, string)>

    const conn: Connection

    ghost function Contents(): Docs
      reads this
    {
      Docs(docs, history, nextId)
    }

    constructor (people: set<(string, string)>, conn: Connection)
      ensures Contents() == Empty && this.people == people && this.conn == conn
    {
      docs, history, nextId := [], [], 0;
      this.people, this.conn := people, conn;
    }

    // Counts the person and finds the document, unless it is new: what the save will write.
    method PrepareDocument(document: Document, now: int) returns (r: Result<Document>)
      modifies conn`calls, this`nextId
      ensures r.Ok? ==> (document.tenantId, document.personId) in people
      ensures r.Ok? && IsNew(document) ==> r.value == First(document, old(nextId), now) && nextId == old(nextId) + 2
      ensures r.Ok? && !IsNew(document) ==>
        var i := DocAt(docs, document.tenantId, document.documentId);
        0 <= i && r.value == Next(document, docs[i], now) && nextId == old(nextId)
      ensures r.Err? ==> nextId == old(nextId)
      ensures r.Err? && conn.Healthy() ==>
        (document.tenantId, document.personId) !in people ||
        (!IsNew(document) && DocAt(docs, document.tenantId, document.documentId) < 0)
    {
      hide TrimSpace, DocumentId;
      var ok := conn.Call();
      if !ok {
        return Err("store: verify identity document person");
      }
      if (document.tenantId, document.personId) !in people {
        return Err("store: linked person not found");
      }
      var d := document;
      if TrimSpace(document.documentId) == "" {
        d := d.(id := nextId, documentId := DocumentId(nextId + 1), version := 1, createdAt := now);
        nextId := nextId + 2;
      } else {
        ok := conn.Call();
        if !ok {
          return Err("store: find identity document");
        }
        var i := DocAt(docs, document.tenantId, document.documentId);
        if i < 0 {
          return Err("store: identity document not found");
        }
        d := d.(id := docs[i].id, createdAt := docs[i].createdAt, version := docs[i].version + 1);
      }
      r := Ok(d.(updatedAt := now));
    }

    // Inserts a new document or replaces the stored one.
    method WriteDocument(d: Document, isNew: bool) returns (ok: bool)
      requires !isNew ==> 0 <= DocAt(docs, d.tenantId, d.documentId)
      modifies conn`calls, this`docs
      ensures Contents() == if ok then Put(old(Contents()), d, isNew) else old(Contents())
      ensures conn.Healthy() ==> ok
    {
      ok := conn.Call();
      if ok && isNew {
        docs := docs + [d];
      } else if ok {
        docs := docs[DocAt(docs, d.tenantId, d.documentId) := d];
      }
    }

    // Inserts the snapshot, unless the version has been logged before.
    method InsertSnapshot(h: Snapshot) returns (ok: bool)
      modifies conn`calls, this`history
      ensures history == if ok then old(history) + [h] else old(history)
      ensures ok ==> !VersionTaken(old(history), h)
      ensures conn.Healthy() && !ok ==> VersionTaken(old(history), h)
    {
      ok := conn.Call();
      if ok && VersionTaken(history, h) {
        ok := false;
      } else if ok {
        history := history + [h];
      }
    }

    /** Counts the person, finds the document unless it is new, writes it, and logs it. `reach` says
        how far the save got; it is reported a success when it got all the way. */
    method SaveIdentityDocument(document: Document, actor: string, now: int)
      returns (r: Result<Document>, ghost reach: Reach)
      modifies conn`calls, this`docs, this`history, this`nextId
      ensures var op := Save(document, actor, now, (document.tenantId, document.personId) in people, reach);
        var after := StoreSave(old(Contents()), op);
        docs == after.docs && history == after.history && after.nextId <= nextId && (r.Ok? ==> nextId == after.nextId)
      ensures r.Ok? ==>
        reach == Stored && history == old(history) + [EventOf(r.value, IsNew(document), actor)]
      ensures r.Ok? ==> Savable(old(Contents()), people, document)
      ensures r.Ok? ==> StoredAs(old(docs), docs, r.value, document, now)
      ensures conn.Healthy() && Inv(old(Contents()), false) ==> (r.Ok? <==> Savable(old(Contents()), people, document))
    {
      hide IdentityDocuments.Inv, PutAndLog, VersionTaken, DocumentId, Put, EventOf, IsNew, StoredAs, DocAt;
      reach := NotStored;
      ghost var before := Contents();
      var prepared := PrepareDocument(document, now);
      if prepared.Err? {
        return Err(prepared.message), reach;
      }
      var d, isNew := prepared.value, IsNew(document);
      ghost var base := Contents();
      var written := WriteDocument(d, isNew);
      if !written {
        return Err("store: write identity document"), reach;
      }
      reach := NotLogged;
      PutAndLogTells(base, d, isNew, actor);
      PutStores(before, base, document, d, now);
      EventIs(d, isNew, actor, now);
      var event := Snapshot(d.tenantId, d.documentId, d.personId, if isNew then "created" else "updated",
                            TrimSpace(actor), d.version, d, now);
      if Inv(before, false) {
        if isNew {
          FirstFree(before, document, now, actor);
        } else {
          NextFree(before, document, DocAt(before.docs, document.tenantId, document.documentId), now, actor);
        }
      }
      var logged := InsertSnapshot(event);
      if !logged {
        return Err("store: insert identity document history"), reach;
      }
      reach := Stored;
      r := Ok(d);
    }
  }

  // Trims every field and folds its case, one after the other.
  method Clean(content: Content) returns (c: Content)
    ensures c == CleanContent(content)
  {
    hide TrimSpace, ToUpper, ToLower;
    c := content.(documentType := "maldives_national_id", countryCode := "MDV");
    c := c.(nationalId := ToUpper(TrimSpace(c.nationalId)));
    c := c.(serialNumber := TrimSpace(c.serialNumber));
    c := c.(name := LocalizedText(TrimSpace(c.name.english), TrimSpace(c.name.dhivehi)));
    c := c.(commonName := LocalizedText(TrimSpace(c.commonName.english), TrimSpace(c.commonName.dhivehi)));
    c := c.(sex := ToUpper(TrimSpace(c.sex)));
    c := c.(source := TrimSpace(c.source));
    c := c.(extractionMethod := TrimSpace(c.extractionMethod));
    c := c.(verificationStatus := ToLower(TrimSpace(c.verificationStatus)));
    c := c.(verifiedBy := TrimSpace(c.verifiedBy));
    c := c.(frontImageRef := TrimSpace(c.frontImageRef));
    c := c.(backImageRef := TrimSpace(c.backImageRef));
  }

  method Fill(content: Content) returns (c: Content)
    ensures c == FillDefaults(content)
  {
    c := content;
    if c.source == "" {
      c := c.(source := "manual-admin");
    }
    if c.extractionMethod == "" {
      c := c.(extractionMethod := "manual");
    }
    if c.verificationStatus == "" {
      c := c.(verificationStatus := "unverified");
    }
  }

  lemma TrimTwice(s: string)
    ensures TrimSpace(TrimSpace(s)) == TrimSpace(s)
  {
  }

  // Why a normalised document is turned away; the checks are made in this order.
  function Complaint(d: Document): Option<string> {
    if d.tenantId == "" || d.personId == "" then Some("services: tenant and person ID are required")
    else if d.content.nationalId == "" then Some("services: national ID is required")
    else if d.content.name.english == "" && d.content.name.dhivehi == ""
      then Some("services: at least one name is required")
    else if d.content.verificationStatus !in {"unverified", "verified", "rejected"}
      then Some("services: invalid verification status")
    else if d.content.dateOfBirth != "" && !ValidIsoDate(d.content.dateOfBirth)
      then Some("services: date of birth must use YYYY-MM-DD")
    else if d.content.expiryDate != "" && !ValidIsoDate(d.content.expiryDate)
      then Some("services: expiry date must use YYYY-MM-DD")
    else None
  }

  lemma ComplaintIff(d: Document)
    ensures Complaint(d).None? <==> Acceptable(d)
  {
  }

  /** Which complaint the caller gets, told of what was given: the first of the six checks that
      fails. */
  lemma ComplaintTells(given: Document)
    ensures var c, content := Complaint(Normalise(given)), given.content;
      var unknown := AllSpace(given.tenantId) || AllSpace(given.personId);
      var unnamed := AllSpace(content.name.english) && AllSpace(content.name.dhivehi);
      var badStatus := !AllSpace(content.verificationStatus) &&
        ToLower(TrimSpace(content.verificationStatus)) !in {"unverified", "verified", "rejected"};
      c == if unknown then Some("services: tenant and person ID are required")
           else if AllSpace(content.nationalId) then Some("services: national ID is required")
           else if unnamed then Some("services: at least one name is required")
           else if badStatus then Some("services: invalid verification status")
           else if content.dateOfBirth != "" && !IsDate(content.dateOfBirth)
             then Some("services: date of birth must use YYYY-MM-DD")
           else if content.expiryDate != "" && !IsDate(content.expiryDate)
             then Some("services: expiry date must use YYYY-MM-DD")
           else None
  {
    hide TrimSpace, AllSpace, ValidIsoDate, IsDate, ToUpper;
    var content := given.content;
    BlankIffAllSpace(given.tenantId);
    BlankIffAllSpace(given.personId);
    BlankIffAllSpace(content.nationalId);
    BlankIffAllSpace(content.name.english);
    BlankIffAllSpace(content.name.dhivehi);
    UpperNotBlank(TrimSpace(content.nationalId));
    StatusGiven(content.verificationStatus);
    ValidIffDate(content.dateOfBirth);
    ValidIffDate(content.expiryDate);
  }

  lemma UpperNotBlank(s: string)
    ensures ToUpper(s) == "" <==> s == ""
  {
  }

  lemma StatusGiven(s: string)
    ensures var status := OrElse(ToLower(TrimSpace(s)), "unverified");
      status in {"unverified", "verified", "rejected"} <==>
      AllSpace(s) || ToLower(TrimSpace(s)) in {"unverified", "verified", "rejected"}
  {
    hide TrimSpace, AllSpace;
    BlankIffAllSpace(s);
    assert ToLower("") == "";
  }

  // Cleans the fields up one after the other, fills in the defaults, and makes the checks.
  method Check(document: Document) returns (r: Result<Document>)
    ensures r == match Complaint(Normalise(document)) case None => Ok(Normalise(document)) case Some(c) => Err(c)
  {
    var d := document.(tenantId := TrimSpace(document.tenantId), personId := TrimSpace(document.personId),
                       documentId := TrimSpace(document.documentId));
    var c := Clean(document.content);
    FilledFields(c);
    hide TrimSpace, ValidIsoDate, CleanContent, FillDefaults;
    if d.tenantId == "" || d.personId == "" {
      return Err("services: tenant and person ID are required");
    }
    if c.nationalId == "" {
      return Err("services: national ID is required");
    }
    if c.name.english == "" && c.name.dhivehi == "" {
      return Err("services: at least one name is required");
    }
    c := Fill(c);
    if c.verificationStatus !in {"unverified", "verified", "rejected"} {
      return Err("services: invalid verification status");
    }
    if c.dateOfBirth != "" && !ValidIsoDate(c.dateOfBirth) {
      return Err("services: date of birth must use YYYY-MM-DD");
    }
    if c.expiryDate != "" && !ValidIsoDate(c.expiryDate) {
      return Err("services: expiry date must use YYYY-MM-DD");
    }
    r := Ok(d.(content := c));
  }

  /** Saves exactly the acceptable documents of people who are there, new or stored before. The
      stored document is the normalised one, whatever the caller sent. */
  method SaveDocument(store: MongoStore, document: Document, actor: string, now: int)
    returns (r: Result<Document>, ghost reach: Reach)
    modifies store.conn`calls, store`docs, store`history, store`nextId
    ensures var d := Normalise(document);
      var op := Save(document, actor, now, (d.tenantId, d.personId) in store.people, reach);
      var after := SaveStep(old(store.Contents()), op);
      store.docs == after.docs && store.history == after.history && (r.Ok? ==> store.nextId == after.nextId)
    ensures Inv(old(store.Contents()), false) ==> Inv(store.Contents(), false)
    ensures r.Ok? ==>
      reach == Stored && Acceptable(Normalise(document)) &&
      Savable(old(store.Contents()), store.people, Normalise(document)) &&
      store.history == old(store.history) + [EventOf(r.value, IsNew(Normalise(document)), actor)]
    ensures r.Ok? ==>
      EnoughGiven(document) && SaidBy(r.value, document, now) && r.value in store.docs &&
      (if AllSpace(document.documentId) then HasPrefix(r.value.documentId, "doc_")
       else r.value.documentId == TrimSpace(document.documentId)) &&
      PutAs(old(store.docs), store.docs, r.value, AllSpace(document.documentId)) &&
      SnapshotOf(store.history[|old(store.history)|], r.value, AllSpace(document.documentId), actor)
    ensures store.conn.Healthy() && Inv(old(store.Contents()), false) ==>
      (r.Ok? <==> Acceptable(Normalise(document)) && Savable(old(store.Contents()), store.people, Normalise(document)))
    ensures !Acceptable(Normalise(document)) ==>
      r == Err(Complaint(Normalise(document)).value) && store.Contents() == old(store.Contents())
  {
    NormaliseTwice(document);
    ComplaintIff(Normalise(document));
    SameStep(store.Contents(), document, actor);
    SameEvent(actor);
    NotSaved(store.Contents(), document, actor, now);
    StoredIsGiven(document, actor, now);
    hide Inv, EventOf, DocAt, IsNew, TrimSpace, AllSpace, Normalise, Complaint, Acceptable, SaveStep, StoreSave,
      Savable, StoredAs, EnoughGiven, SaidBy, PutAs, SnapshotOf;
    reach := NotStored;
    var checked := Check(document);
    if checked.Err? {
      return Err(checked.message), reach;
    }
    ghost var before := store.Contents();
    r, reach := store.SaveIdentityDocument(checked.value, TrimSpace(actor), now);
    if Inv(before, false) {
      var d := Normalise(document);
      ghost var op := Save(document, actor, now, (d.tenantId, d.personId) in store.people, reach);
      SaveKeepsInv(before, op, false);
      LaterIds(SaveStep(before, op), store.Contents());
    }
  }

  // What the store is given is what the caller gave, normalised.
  lemma StoredIsGiven(document: Document, actor: string, now: int)
    ensures Acceptable(Normalise(document)) <==> EnoughGiven(document)
    ensures forall d, before, after :: StoredAs(before, after, d, Normalise(document), now) ==>
      SaidBy(d, document, now) && d in after && PutAs(before, after, d, AllSpace(document.documentId)) &&
      (if AllSpace(document.documentId) then HasPrefix(d.documentId, "doc_")
       else d.documentId == TrimSpace(document.documentId))
    ensures forall d ::
      SnapshotOf(EventOf(d, IsNew(Normalise(document)), actor), d, AllSpace(document.documentId), actor)
  {
    hide Normalise, Acceptable, EnoughGiven, SaysWhatGiven, TrimSpace, AllSpace, EventOf, SnapshotOf, Supersedes;
    AcceptableIffGiven(document);
    NormalisedSays(document);
    BlankIffAllSpace(document.documentId);
    TrimTwice(document.documentId);
    forall d
      ensures SnapshotOf(EventOf(d, IsNew(Normalise(document)), actor), d, AllSpace(document.documentId), actor)
    {
      EventIsSnapshot(d, IsNew(Normalise(document)), actor);
    }
    forall d, before, after | StoredAs(before, after, d, Normalise(document), now)
      ensures d in after && SaidBy(d, document, now)
    {
      PutIn(before, after, d, IsNew(Normalise(document)));
    }
  }

  lemma PutIn(before: seq<Document>, after: seq<Document>, d: Document, isNew: bool)
    requires PutAs(before, after, d, isNew)
    ensures d in after
  {
    hide Supersedes;
    if !isNew {
      var i :| 0 <= i < |before| && Supersedes(d, before[i]) && after == before[i := d];
      assert after[i] == d;
    }
  }

  lemma LaterIds(s: Docs, t: Docs)
    requires Inv(s, false) && t.docs == s.docs && t.history == s.history && s.nextId <= t.nextId
    ensures Inv(t, false)
  {
    hide Accounted;
    forall i | 0 <= i < |s.docs| ensures Sound(t.docs[i], t.nextId) {
      StillSound(s.docs[i], s.nextId, t.nextId);
    }
    hide Sound, IdsUnique;
    forall k | 0 <= k < |s.history| ensures IssuedTo(t.history[k].documentId, t.nextId) {
      IssuedLonger(s.history[k].documentId, s.nextId, t.nextId);
    }
  }

  lemma NotSaved(s: Docs, document: Document, actor: string, now: int)
    ensures forall known :: SaveStep(s, Save(document, actor, now, known, NotStored)) == s
  {
    hide Normalise, Acceptable, PutAndLog;
  }

  // The fields that the checks look at before the defaults are filled in.
  lemma FilledFields(c: Content)
    ensures FillDefaults(c).nationalId == c.nationalId && FillDefaults(c).name == c.name
  {
  }

  // A save starts by normalising: the store may be given the normalised document and actor.
  lemma SameStep(s: Docs, document: Document, actor: string)
    ensures Acceptable(Normalise(document)) ==> forall now, known, reach ::
      StoreSave(s, Save(Normalise(document), TrimSpace(actor), now, known, reach)) ==
        SaveStep(s, Save(document, actor, now, known, reach))
  {
    SameEvent(actor);
    hide Normalise, Acceptable, TrimSpace, EventOf;
  }

  lemma SameEvent(actor: string)
    ensures forall d, isNew :: EventOf(d, isNew, TrimSpace(actor)) == EventOf(d, isNew, actor)
  {
    TrimTwice(actor);
  }
}
