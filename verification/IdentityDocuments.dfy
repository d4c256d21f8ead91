/** Identity documents: how a document is normalised and checked before it is saved, what a save
    does to the documents and to their history, and what every sequence of saves keeps. */
module IdentityDocuments {
  import opened Text

  datatype LocalizedText = LocalizedText(english: string, dhivehi: string)

  // What a document says. carried stands for the fields that a save stores as they come.
  datatype Content = Content(
    documentType: string, countryCode: string, nationalId: string, serialNumber: string,
    name: LocalizedText, commonName: LocalizedText, sex: string, dateOfBirth: string, expiryDate: string,
    source: string, extractionMethod: string, verificationStatus: string, verifiedBy: string,
    frontImageRef: string, backImageRef: string, carried: string)

  datatype Document = Document(
    id: nat, tenantId: string, documentId: string, personId: string, content: Content,
    version: int, createdAt: int, updatedAt: int)

  datatype Snapshot = Snapshot(
    tenantId: string, documentId: string, personId: string, eventType: string, actor: string,
    version: int, document: Document, createdAt: int)

  // ---------- dates ----------

  function Number(s: string): nat {
    if s == "" || !IsDigit(s[|s| - 1]) then 0 else 10 * Number(s[..|s| - 1]) + (s[|s| - 1] as nat - '0' as nat)
  }

  predicate Leap(year: nat) {
    year % 4 == 0 && (year % 100 != 0 || year % 400 == 0)
  }

  function DaysIn(month: nat, year: nat): nat {
    if month == 2 then (if Leap(year) then 29 else 28)
    else if month == 4 || month == 6 || month == 9 || month == 11 then 30
    else 31
  }

  // A day of the calendar, written YYYY-MM-DD.
  predicate ValidIsoDate(s: string) {
    |s| == 10 && s[4] == '-' && s[7] == '-' &&
    (forall i :: 0 <= i < 10 && i != 4 && i != 7 ==> IsDigit(s[i])) &&
    1 <= Number(s[5..7]) <= 12 && 1 <= Number(s[8..]) <= DaysIn(Number(s[5..7]), Number(s[..4]))
  }

  // ---------- what the service does before saving ----------

  function TrimBoth(t: LocalizedText): LocalizedText {
    LocalizedText(TrimSpace(t.english), TrimSpace(t.dhivehi))
  }

  function OrElse(s: string, default_: string): string {
    if s == "" then default_ else s
  }

  function CleanContent(c: Content): Content {
    c.(documentType := "maldives_national_id", countryCode := "MDV",
       nationalId := ToUpper(TrimSpace(c.nationalId)), serialNumber := TrimSpace(c.serialNumber),
       name := TrimBoth(c.name), commonName := TrimBoth(c.commonName), sex := ToUpper(TrimSpace(c.sex)),
       source := TrimSpace(c.source), extractionMethod := TrimSpace(c.extractionMethod),
       verificationStatus := ToLower(TrimSpace(c.verificationStatus)), verifiedBy := TrimSpace(c.verifiedBy),
       frontImageRef := TrimSpace(c.frontImageRef), backImageRef := TrimSpace(c.backImageRef))
  }

  function FillDefaults(c: Content): Content {
    c.(source := OrElse(c.source, "manual-admin"), extractionMethod := OrElse(c.extractionMethod, "manual"),
       verificationStatus := OrElse(c.verificationStatus, "unverified"))
  }

  function NormaliseContent(c: Content): Content {
    FillDefaults(CleanContent(c))
  }

  function Normalise(d: Document): Document {
    d.(tenantId := TrimSpace(d.tenantId), personId := TrimSpace(d.personId), documentId := TrimSpace(d.documentId),
       content := NormaliseContent(d.content))
  }

  // What a normalised document must meet.
  predicate AcceptableContent(c: Content) {
    c.nationalId != "" && (c.name.english != "" || c.name.dhivehi != "") &&
    c.verificationStatus in {"unverified", "verified", "rejected"} &&
    (c.dateOfBirth != "" ==> ValidIsoDate(c.dateOfBirth)) && (c.expiryDate != "" ==> ValidIsoDate(c.expiryDate))
  }

  predicate Acceptable(d: Document) {
    d.tenantId != "" && d.personId != "" && AcceptableContent(d.content)
  }

  lemma TextNormal(s: string)
    ensures ToUpper(TrimSpace(ToUpper(TrimSpace(s)))) == ToUpper(TrimSpace(s))
    ensures ToLower(TrimSpace(ToLower(TrimSpace(s)))) == ToLower(TrimSpace(s))
  {
    CaseIdempotent(TrimSpace(s));
  }

  lemma DefaultsNormal()
    ensures TrimSpace("manual-admin") == "manual-admin" && TrimSpace("manual") == "manual"
    ensures ToLower(TrimSpace("unverified")) == "unverified"
  {
    assert Trimmed("manual-admin") && Trimmed("manual") && Trimmed("unverified");
    assert ToLower("unverified") == "unverified";
  }

  // Normalising a document that has been normalised changes nothing.
  lemma NormaliseTwice(d: Document)
    ensures Normalise(Normalise(d)) == Normalise(d)
  {
    var c := d.content;
    TextNormal(c.nationalId);
    TextNormal(c.sex);
    TextNormal(c.verificationStatus);
    DefaultsNormal();
    hide TrimSpace, ToUpper, ToLower;
  }

  // ---------- what the store does ----------

  // nextId counts the ObjectIDs handed out so far.
  datatype Docs = Docs(docs: seq<Document>, history: seq<Snapshot>, nextId: nat)

  function DocAt(docs: seq<Document>, tenantId: string, documentId: string): (i: int)
    ensures -1 <= i < |docs|
    ensures 0 <= i ==> docs[i].tenantId == tenantId && docs[i].documentId == documentId
    ensures i < 0 ==> forall j :: 0 <= j < |docs| ==>
      !(docs[j].tenantId == tenantId && docs[j].documentId == documentId)
  {
    if docs == [] then -1
    else
      var n := |docs| - 1;
      var i := DocAt(docs[..n], tenantId, documentId);
      if 0 <= i then i else if docs[n].tenantId == tenantId && docs[n].documentId == documentId then n else -1
  }

  function DocumentId(n: nat): string {
    "doc_" + Hex(n)
  }

  predicate IsNew(d: Document) {
    TrimSpace(d.documentId) == ""
  }

  function First(d: Document, nextId: nat, now: int): Document {
    d.(id := nextId, documentId := DocumentId(nextId + 1), version := 1, createdAt := now, updatedAt := now)
  }

  function Next(d: Document, existing: Document, now: int): Document {
    d.(id := existing.id, createdAt := existing.createdAt, version := existing.version + 1, updatedAt := now)
  }

  // Inserts a new document, or replaces the stored one that has its key.
  function Put(s: Docs, d: Document, isNew: bool): Docs {
    if isNew then s.(docs := s.docs + [d])
    else
      var i := DocAt(s.docs, d.tenantId, d.documentId);
      if i < 0 then s else s.(docs := s.docs[i := d])
  }

  function EventOf(d: Document, isNew: bool, actor: string): Snapshot {
    Snapshot(d.tenantId, d.documentId, d.personId, if isNew then "created" else "updated", TrimSpace(actor),
             d.version, d, d.updatedAt)
  }

  // The key of the unique index identity_document_history_version.
  predicate SameVersion(a: Snapshot, b: Snapshot) {
    a.tenantId == b.tenantId && a.documentId == b.documentId && a.version == b.version
  }

  predicate VersionTaken(history: seq<Snapshot>, h: Snapshot) {
    exists k :: 0 <= k < |history| && SameVersion(history[k], h)
  }

  function Log(s: Docs, h: Snapshot): Docs {
    if VersionTaken(s.history, h) then s else s.(history := s.history + [h])
  }

  // ---------- one save after the other ----------

  // How far a save gets: not to the document, not to the history, or all the way.
  datatype Reach = NotStored | NotLogged | Stored

  // known is what counting the tenant's people with the personId says.
  datatype Save = Save(document: Document, actor: string, now: int, known: bool, reach: Reach)

  function PutAndLog(s: Docs, d: Document, isNew: bool, actor: string, reach: Reach): Docs {
    var put := Put(s, d, isNew);
    if reach == Stored then Log(put, EventOf(d, isNew, actor)) else put
  }

  // What the store makes of a document as it is given.
  function StoreSave(s: Docs, op: Save): Docs {
    var d := op.document;
    if !op.known || op.reach == NotStored then s
    else if IsNew(d) then PutAndLog(s.(nextId := s.nextId + 2), First(d, s.nextId, op.now), true, op.actor, op.reach)
    else
      var i := DocAt(s.docs, d.tenantId, d.documentId);
      if i < 0 then s else PutAndLog(s, Next(d, s.docs[i], op.now), false, op.actor, op.reach)
  }

  function SaveStep(s: Docs, op: Save): Docs {
    var d := Normalise(op.document);
    if Acceptable(d) then StoreSave(s, op.(document := d)) else s
  }

  function SaveAll(s: Docs, ops: seq<Save>): Docs
    decreases |ops|
  {
    if ops == [] then s else SaveAll(SaveStep(s, ops[0]), ops[1..])
  }

  const Empty: Docs := Docs([], [], 0)

  // ---------- a document and its history ----------

  function HistoryOf(history: seq<Snapshot>, tenantId: string, documentId: string): seq<Snapshot> {
    if history == [] then []
    else
      var n := |history| - 1;
      HistoryOf(history[..n], tenantId, documentId) +
      (if history[n].tenantId == tenantId && history[n].documentId == documentId then [history[n]] else [])
  }

  // The snapshots were all taken of this document, and say which of its versions they are.
  ghost predicate Describes(log: seq<Snapshot>, d: Document) {
    forall k :: 0 <= k < |log| ==>
      1 <= log[k].version <= d.version && log[k].document.version == log[k].version &&
      log[k].document.id == d.id && log[k].document.documentId == d.documentId &&
      log[k].document.createdAt == d.createdAt &&
      log[k].eventType == (if log[k].version == 1 then "created" else "updated")
  }

  ghost predicate Rising(log: seq<Snapshot>) {
    forall j, k :: 0 <= j < k < |log| ==> log[j].version < log[k].version
  }

  // Every version has its snapshot, and the last one is the document itself.
  ghost predicate Complete(log: seq<Snapshot>, d: Document) {
    |log| == d.version && (forall k :: 0 <= k < |log| ==> log[k].version == k + 1) &&
    (log != [] ==> log[|log| - 1].document == d)
  }

  ghost predicate Accounted(history: seq<Snapshot>, d: Document, complete: bool) {
    var log := HistoryOf(history, d.tenantId, d.documentId);
    Describes(log, d) && Rising(log) && (complete ==> Complete(log, d))
  }

  predicate IssuedTo(documentId: string, nextId: nat) {
    4 <= |documentId| && documentId == DocumentId(FromHex(documentId[4..])) && FromHex(documentId[4..]) < nextId
  }

  // A stored document went through the service's checks.
  predicate Sound(d: Document, nextId: nat) {
    Normalise(d) == d && Acceptable(d) && 1 <= d.version && d.documentId == DocumentId(d.id + 1) && d.id + 1 < nextId
  }

  ghost predicate IdsUnique(docs: seq<Document>) {
    forall i, j :: 0 <= i < j < |docs| ==> docs[i].id != docs[j].id
  }

  ghost predicate Inv(s: Docs, complete: bool) {
    (forall i :: 0 <= i < |s.docs| ==> Sound(s.docs[i], s.nextId) && Accounted(s.history, s.docs[i], complete)) &&
    IdsUnique(s.docs) &&
    (forall k :: 0 <= k < |s.history| ==> IssuedTo(s.history[k].documentId, s.nextId))
  }

  // ---------- keys ----------

  lemma DocumentIdIssued(n: nat, nextId: nat)
    ensures IssuedTo(DocumentId(n), nextId) <==> n < nextId
    ensures TrimSpace(DocumentId(n)) == DocumentId(n) != ""
  {
    HexRoundTrip(n);
    HexTrimmed(n);
    var s := DocumentId(n);
    assert s[4..] == Hex(n) && s[0] == 'd' && s[|s| - 1] == Hex(n)[|Hex(n)| - 1];
  }

  lemma DocumentIdInjective(m: nat, n: nat)
    requires DocumentId(m) == DocumentId(n)
    ensures m == n
  {
    HexRoundTrip(m);
    HexRoundTrip(n);
    assert DocumentId(m)[4..] == Hex(m) && DocumentId(n)[4..] == Hex(n);
  }

  lemma IssuedLonger(documentId: string, a: nat, b: nat)
    requires IssuedTo(documentId, a) && a <= b
    ensures IssuedTo(documentId, b)
  {
  }

  // ---------- one more snapshot ----------

  lemma HistoryAppend(history: seq<Snapshot>, h: Snapshot, tenantId: string, documentId: string)
    ensures h.tenantId == tenantId && h.documentId == documentId ==>
      HistoryOf(history + [h], tenantId, documentId) == HistoryOf(history, tenantId, documentId) + [h]
    ensures !(h.tenantId == tenantId && h.documentId == documentId) ==>
      HistoryOf(history + [h], tenantId, documentId) == HistoryOf(history, tenantId, documentId)
  {
    assert (history + [h])[..|history|] == history;
  }

  lemma {:induction false} NoHistory(history: seq<Snapshot>, tenantId: string, documentId: string)
    requires forall k :: 0 <= k < |history| ==> history[k].documentId != documentId
    ensures HistoryOf(history, tenantId, documentId) == []
    decreases |history|
  {
    if history != [] {
      NoHistory(history[..|history| - 1], tenantId, documentId);
    }
  }

  // A version later than all that are logged is free.
  lemma {:induction false} LaterIsFree(history: seq<Snapshot>, h: Snapshot)
    requires forall k :: 0 <= k < |HistoryOf(history, h.tenantId, h.documentId)| ==>
      HistoryOf(history, h.tenantId, h.documentId)[k].version < h.version
    ensures !VersionTaken(history, h)
    decreases |history|
  {
    if history != [] {
      var n := |history| - 1;
      var front, log := HistoryOf(history[..n], h.tenantId, h.documentId), HistoryOf(history, h.tenantId, h.documentId);
      assert forall k :: 0 <= k < |front| ==> front[k] == log[k];
      LaterIsFree(history[..n], h);
      assert SameVersion(history[n], h) ==> log[|front|] == history[n];
      forall k | 0 <= k < |history| ensures !SameVersion(history[k], h) {
        assert k < n ==> history[..n][k] == history[k];
      }
    }
  }

  // The log of a document after a save of it.
  lemma LogAfter(log: seq<Snapshot>, d: Document, d': Document, isNew: bool, actor: string, complete: bool)
    requires Describes(log, d) && Rising(log) && (complete ==> Complete(log, d))
    requires d'.id == d.id && d'.documentId == d.documentId && d'.createdAt == d.createdAt &&
      d'.version == d.version + 1
    requires isNew <==> d'.version == 1
    requires 0 <= d.version
    ensures Describes(log, d') && Rising(log)
    ensures var all := log + [EventOf(d', isNew, actor)];
      Describes(all, d') && Rising(all) && (complete ==> Complete(all, d'))
  {
  }

  ghost predicate Logs(s: Docs, t: Docs, d: Document, isNew: bool, actor: string, reach: Reach) {
    t.history == if reach == Stored then s.history + [EventOf(d, isNew, actor)] else s.history
  }

  lemma AccountedAfter(s: Docs, t: Docs, d: Document, d': Document, isNew: bool, actor: string, reach: Reach,
      complete: bool)
    requires Accounted(s.history, d, complete) && Logs(s, t, d', isNew, actor, reach) && (complete ==> reach == Stored)
    requires d'.tenantId == d.tenantId && d'.documentId == d.documentId && d'.id == d.id && d'.createdAt == d.createdAt
    requires d'.version == d.version + 1 && 0 <= d.version && (isNew <==> d'.version == 1)
    ensures Accounted(t.history, d', complete)
  {
    hide HistoryOf, Describes, Rising, Complete;
    LogAfter(HistoryOf(s.history, d.tenantId, d.documentId), d, d', isNew, actor, complete);
    HistoryAppend(s.history, EventOf(d', isNew, actor), d.tenantId, d.documentId);
  }

  lemma AccountedApart(s: Docs, t: Docs, e: Document, d: Document, isNew: bool, actor: string, reach: Reach,
      complete: bool)
    requires Accounted(s.history, e, complete) && Logs(s, t, d, isNew, actor, reach) && d.documentId != e.documentId
    ensures Accounted(t.history, e, complete)
  {
    hide HistoryOf, Describes, Rising, Complete;
    HistoryAppend(s.history, EventOf(d, isNew, actor), e.tenantId, e.documentId);
  }

  // ---------- one save ----------

  // The index never refuses the snapshot of a save that nothing interrupts.
  lemma LogAccepted(s: Docs, d: Document, d': Document, isNew: bool, actor: string, complete: bool)
    requires Accounted(s.history, d, complete)
    requires d'.tenantId == d.tenantId && d'.documentId == d.documentId && d'.version == d.version + 1
    ensures !VersionTaken(s.history, EventOf(d', isNew, actor))
  {
    hide HistoryOf, Rising, Complete;
    LaterIsFree(s.history, EventOf(d', isNew, actor));
  }

  lemma UnknownAccounted(s: Docs, d: Document, complete: bool)
    requires Inv(s, complete) && !IssuedTo(d.documentId, s.nextId) && d.version == 0
    ensures Accounted(s.history, d, complete)
  {
    hide HistoryOf, Normalise, Acceptable, Accounted;
    NoHistory(s.history, d.tenantId, d.documentId);
    NothingAccounted(s.history, d, complete);
  }

  lemma NothingAccounted(history: seq<Snapshot>, d: Document, complete: bool)
    requires HistoryOf(history, d.tenantId, d.documentId) == [] && d.version == 0
    ensures Accounted(history, d, complete)
  {
  }

  lemma StillSound(d: Document, a: nat, b: nat)
    requires Sound(d, a) && a <= b
    ensures Sound(d, b)
  {
  }

  lemma FirstSound(d: Document, nextId: nat, now: int)
    requires Normalise(d) == d && Acceptable(d)
    ensures Sound(First(d, nextId, now), nextId + 2)
  {
    hide TrimSpace, Normalise, Acceptable, DocumentId;
    DocumentIdIssued(nextId + 1, nextId + 2);
    RenamedNormal(d, First(d, nextId, now));
  }

  lemma RenamedNormal(d: Document, e: Document)
    requires Normalise(d) == d && Acceptable(d) && TrimSpace(e.documentId) == e.documentId
    requires e.tenantId == d.tenantId && e.personId == d.personId && e.content == d.content
    ensures Normalise(e) == e && Acceptable(e)
  {
    hide TrimSpace, NormaliseContent, AcceptableContent;
  }

  lemma InsertKeepsInv(s: Docs, d: Document, now: int, actor: string, reach: Reach, complete: bool)
    requires Inv(s, complete) && Normalise(d) == d && Acceptable(d) && (complete ==> reach == Stored)
    ensures var t := PutAndLog(s.(nextId := s.nextId + 2), First(d, s.nextId, now), true, actor, reach);
      Inv(t, complete) && t.docs == s.docs + [First(d, s.nextId, now)]
  {
    hide Normalise, Acceptable, Accounted, VersionTaken, DocumentId, IssuedTo, HistoryOf;
    var d' := First(d, s.nextId, now);
    var zero := d'.(version := 0);
    var t := PutAndLog(s.(nextId := s.nextId + 2), d', true, actor, reach);
    DocumentIdIssued(s.nextId + 1, s.nextId);
    DocumentIdIssued(s.nextId + 1, s.nextId + 2);
    UnknownAccounted(s, zero, complete);
    LogAccepted(s, zero, d', true, actor, complete);
    FirstSound(d, s.nextId, now);
    AccountedAfter(s, t, zero, d', true, actor, reach, complete);
    forall i | 0 <= i < |t.docs| ensures Sound(t.docs[i], t.nextId) && Accounted(t.history, t.docs[i], complete) {
      if i < |s.docs| {
        StillSound(s.docs[i], s.nextId, t.nextId);
        KeyApart(s.docs[i].id + 1, s.nextId + 1);
        AccountedApart(s, t, s.docs[i], d', true, actor, reach, complete);
      }
    }
    forall k | 0 <= k < |t.history| ensures IssuedTo(t.history[k].documentId, t.nextId) {
      if k < |s.history| {
        IssuedLonger(s.history[k].documentId, s.nextId, t.nextId);
      }
    }
  }

  lemma KeyApart(m: nat, n: nat)
    requires m != n
    ensures DocumentId(m) != DocumentId(n)
  {
    if DocumentId(m) == DocumentId(n) {
      DocumentIdInjective(m, n);
    }
  }

  lemma NextSound(d: Document, existing: Document, nextId: nat, now: int)
    requires Normalise(d) == d && Acceptable(d) && Sound(existing, nextId) && d.documentId == existing.documentId
    ensures Sound(Next(d, existing, now), nextId)
  {
    hide TrimSpace, NormaliseContent, AcceptableContent, DocumentId;
  }

  lemma ReplaceKeepsInv(s: Docs, d: Document, i: nat, now: int, actor: string, reach: Reach, complete: bool)
    requires Inv(s, complete) && Normalise(d) == d && Acceptable(d) && (complete ==> reach == Stored)
    requires i < |s.docs| && i == DocAt(s.docs, d.tenantId, d.documentId)
    ensures var t := PutAndLog(s, Next(d, s.docs[i], now), false, actor, reach);
      Inv(t, complete) && t.docs == s.docs[i := Next(d, s.docs[i], now)]
  {
    hide Normalise, Acceptable, Accounted, VersionTaken, DocumentId, IssuedTo, HistoryOf;
    var d' := Next(d, s.docs[i], now);
    var t := PutAndLog(s, d', false, actor, reach);
    LogAccepted(s, s.docs[i], d', false, actor, complete);
    NextSound(d, s.docs[i], s.nextId, now);
    AccountedAfter(s, t, s.docs[i], d', false, actor, reach, complete);
    DocumentIdIssued(s.docs[i].id + 1, s.nextId);
    forall j | 0 <= j < |t.docs| ensures Sound(t.docs[j], t.nextId) && Accounted(t.history, t.docs[j], complete) {
      if j != i {
        KeyApart(s.docs[j].id + 1, s.docs[i].id + 1);
        AccountedApart(s, t, s.docs[j], d', false, actor, reach, complete);
      }
    }
  }

  // Documents stay where they are, and keep what identifies them.
  ghost predicate KeepsIdentity(a: seq<Document>, b: seq<Document>) {
    |a| <= |b| &&
    forall i :: 0 <= i < |a| ==>
      b[i].id == a[i].id && b[i].tenantId == a[i].tenantId && b[i].documentId == a[i].documentId &&
      b[i].createdAt == a[i].createdAt && a[i].version <= b[i].version
  }

  lemma SaveKeepsInv(s: Docs, op: Save, complete: bool)
    requires Inv(s, complete) && (complete ==> op.reach != NotLogged)
    ensures Inv(SaveStep(s, op), complete) && KeepsIdentity(s.docs, SaveStep(s, op).docs)
  {
    var d := Normalise(op.document);
    NormaliseTwice(op.document);
    hide Normalise, Inv, PutAndLog;
    if Acceptable(d) && op.known && op.reach != NotStored {
      if IsNew(d) {
        InsertKeepsInv(s, d, op.now, op.actor, op.reach, complete);
      } else {
        var i := DocAt(s.docs, d.tenantId, d.documentId);
        if 0 <= i {
          ReplaceKeepsInv(s, d, i, op.now, op.actor, op.reach, complete);
        }
      }
    }
  }

  // ---------- every sequence of saves ----------

  lemma {:induction false} SavesKeepInv(s: Docs, ops: seq<Save>, complete: bool)
    requires Inv(s, complete) && (complete ==> forall k :: 0 <= k < |ops| ==> ops[k].reach != NotLogged)
    ensures Inv(SaveAll(s, ops), complete) && KeepsIdentity(s.docs, SaveAll(s, ops).docs)
    decreases |ops|
  {
    hide Inv, SaveStep;
    if ops != [] {
      SaveKeepsInv(s, ops[0], complete);
      SavesKeepInv(SaveStep(s, ops[0]), ops[1..], complete);
    }
  }

  lemma EmptyInv(complete: bool)
    ensures Inv(Empty, complete)
  {
  }

  // Versions 1 to n in order, all of one document, up to what it is now.
  ghost predicate FullLog(log: seq<Snapshot>, d: Document) {
    |log| == d.version && 1 <= d.version && log[d.version - 1].document == d &&
    forall k :: 0 <= k < |log| ==>
      log[k].version == k + 1 && log[k].eventType == (if k == 0 then "created" else "updated") &&
      log[k].document.id == d.id && log[k].document.documentId == d.documentId &&
      log[k].document.createdAt == d.createdAt
  }

  lemma CompleteIsFull(log: seq<Snapshot>, d: Document)
    requires Describes(log, d) && Complete(log, d) && 1 <= d.version
    ensures FullLog(log, d)
  {
  }

  /** When every save that stores its document also logs it, a document's history is its versions
      1 to n in order: a "created" event and then "updated" ones, all of the same id, documentId and
      createdAt, the last of them the document as it is. */
  lemma HistoryIsComplete(ops: seq<Save>, i: nat)
    requires forall k :: 0 <= k < |ops| ==> ops[k].reach != NotLogged
    requires i < |SaveAll(Empty, ops).docs|
    ensures var s := SaveAll(Empty, ops);
      FullLog(HistoryOf(s.history, s.docs[i].tenantId, s.docs[i].documentId), s.docs[i])
  {
    hide SaveAll, HistoryOf, Normalise, Acceptable, Rising, Describes, Complete, FullLog;
    EmptyInv(true);
    SavesKeepInv(Empty, ops, true);
    var s := SaveAll(Empty, ops);
    var d := s.docs[i];
    assert Sound(d, s.nextId) && Accounted(s.history, d, true);
    CompleteIsFull(HistoryOf(s.history, d.tenantId, d.documentId), d);
  }

  // When snapshots may be lost, versions still never repeat and never pass the live document's.
  lemma HistoryNeverRunsAhead(ops: seq<Save>, i: nat)
    requires i < |SaveAll(Empty, ops).docs|
    ensures var s := SaveAll(Empty, ops);
      var d := s.docs[i];
      var log := HistoryOf(s.history, d.tenantId, d.documentId);
      Rising(log) && forall k :: 0 <= k < |log| ==> 1 <= log[k].version <= d.version
  {
    hide SaveAll, HistoryOf, Normalise, Acceptable, Rising;
    EmptyInv(false);
    SavesKeepInv(Empty, ops, false);
    var s := SaveAll(Empty, ops);
    assert Accounted(s.history, s.docs[i], false);
  }

  /** Saving a stored document again, as it is, changes its version and its updatedAt and nothing
      else. */
  lemma ResaveChangesVersionOnly(ops: seq<Save>, i: nat, actor: string, now: int, reach: Reach)
    requires i < |SaveAll(Empty, ops).docs| && reach != NotStored
    ensures var s := SaveAll(Empty, ops);
      var d := s.docs[i];
      SaveStep(s, Save(d, actor, now, true, reach)).docs == s.docs[i := d.(version := d.version + 1, updatedAt := now)]
  {
    hide SaveAll, SaveStep, Inv, Sound;
    EmptyInv(false);
    SavesKeepInv(Empty, ops, false);
    var s := SaveAll(Empty, ops);
    DocAtIs(s, i);
    ResaveSound(s, s.docs[i], i, actor, now, reach);
  }

  lemma DocAtIs(s: Docs, i: nat)
    requires Inv(s, false) && i < |s.docs|
    ensures DocAt(s.docs, s.docs[i].tenantId, s.docs[i].documentId) == i && Sound(s.docs[i], s.nextId)
  {
    hide Normalise, Acceptable, DocumentId, Accounted;
    var j := DocAt(s.docs, s.docs[i].tenantId, s.docs[i].documentId);
    assert Sound(s.docs[i], s.nextId) && Sound(s.docs[j], s.nextId);
    if s.docs[j].id != s.docs[i].id {
      KeyApart(s.docs[j].id + 1, s.docs[i].id + 1);
    }
  }

  lemma ResaveSound(s: Docs, d: Document, i: nat, actor: string, now: int, reach: Reach)
    requires i < |s.docs| && s.docs[i] == d && Sound(d, s.nextId) && DocAt(s.docs, d.tenantId, d.documentId) == i &&
      reach != NotStored
    ensures SaveStep(s, Save(d, actor, now, true, reach)).docs ==
      s.docs[i := d.(version := d.version + 1, updatedAt := now)]
  {
    hide Normalise, Acceptable, DocumentId, EventOf, VersionTaken, IssuedTo, TrimSpace, DocAt;
    DocumentIdIssued(d.id + 1, s.nextId);
    var next := Next(d, d, now);
    assert next == d.(version := d.version + 1, updatedAt := now);
    assert Put(s, next, false).docs == s.docs[i := next];
  }
}
