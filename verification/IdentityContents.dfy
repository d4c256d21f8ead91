/** What a saved identity document says: every stored version, and every snapshot, holds what the
    caller of the save that stored it gave, normalised; and which texts are dates. */
module IdentityContents {
  import opened Text
  import opened IdentityDocuments

  // ---------- what the caller gave ----------

  // A text without the white space around it, or the default when it has nothing else.
  function GivenOr(s: string, default_: string): string {
    if AllSpace(s) then default_ else TrimSpace(s)
  }

  // What the document says of what the caller gave, field by field.
  predicate SaysWhatGiven(c: Content, given: Content) {
    c.nationalId == ToUpper(TrimSpace(given.nationalId)) && c.serialNumber == TrimSpace(given.serialNumber) &&
    c.name.english == TrimSpace(given.name.english) && c.name.dhivehi == TrimSpace(given.name.dhivehi) &&
    c.commonName.english == TrimSpace(given.commonName.english) &&
    c.commonName.dhivehi == TrimSpace(given.commonName.dhivehi) &&
    c.sex == ToUpper(TrimSpace(given.sex)) && c.dateOfBirth == given.dateOfBirth && c.expiryDate == given.expiryDate &&
    c.source == GivenOr(given.source, "manual-admin") &&
    c.extractionMethod == GivenOr(given.extractionMethod, "manual") &&
    c.verificationStatus == ToLower(GivenOr(given.verificationStatus, "unverified")) &&
    c.verifiedBy == TrimSpace(given.verifiedBy) && c.frontImageRef == TrimSpace(given.frontImageRef) &&
    c.backImageRef == TrimSpace(given.backImageRef) && c.carried == given.carried &&
    c.documentType == "maldives_national_id" && c.countryCode == "MDV"
  }

  lemma GivenOrElse(s: string, default_: string)
    ensures OrElse(TrimSpace(s), default_) == GivenOr(s, default_)
  {
    BlankIffAllSpace(s);
  }

  lemma LowerOrElse(s: string)
    ensures OrElse(ToLower(TrimSpace(s)), "unverified") == ToLower(GivenOr(s, "unverified"))
  {
    BlankIffAllSpace(s);
    assert ToLower("unverified") == "unverified" && ToLower("") == "";
  }

  lemma NormalisedSays(d: Document)
    ensures var n := Normalise(d);
      SaysWhatGiven(n.content, d.content) && n.tenantId == TrimSpace(d.tenantId) &&
      n.personId == TrimSpace(d.personId) && n.documentId == TrimSpace(d.documentId)
  {
    GivenOrElse(d.content.source, "manual-admin");
    GivenOrElse(d.content.extractionMethod, "manual");
    LowerOrElse(d.content.verificationStatus);
    hide TrimSpace, OrElse, GivenOr, ToUpper, ToLower;
  }

  // What the caller has to give: who it is about, a national id, a name, a status that exists and
  // dates of the calendar. Every other field may be left out.
  predicate EnoughGiven(d: Document) {
    var c := d.content;
    !AllSpace(d.tenantId) && !AllSpace(d.personId) && !AllSpace(c.nationalId) &&
    (!AllSpace(c.name.english) || !AllSpace(c.name.dhivehi)) &&
    (AllSpace(c.verificationStatus) ||
     ToLower(TrimSpace(c.verificationStatus)) in {"unverified", "verified", "rejected"}) &&
    (c.dateOfBirth != "" ==> ValidIsoDate(c.dateOfBirth)) && (c.expiryDate != "" ==> ValidIsoDate(c.expiryDate))
  }

  lemma AcceptableIffGiven(d: Document)
    ensures Acceptable(Normalise(d)) <==> EnoughGiven(d)
  {
    hide TrimSpace, AllSpace, ValidIsoDate;
    BlankIffAllSpace(d.tenantId);
    BlankIffAllSpace(d.personId);
    BlankIffAllSpace(d.content.nationalId);
    BlankIffAllSpace(d.content.name.english);
    BlankIffAllSpace(d.content.name.dhivehi);
    BlankIffAllSpace(d.content.verificationStatus);
    assert ToLower("unverified") == "unverified" && ToLower("") == "";
  }

  // ---------- what one save stores ----------

  // The document that a save leaves behind, of what its caller gave.
  predicate SaidBy(d: Document, given: Document, now: int) {
    SaysWhatGiven(d.content, given.content) && d.tenantId == TrimSpace(given.tenantId) &&
    d.personId == TrimSpace(given.personId) && d.updatedAt == now
  }

  // Where it is put: behind the others when it is new, in the place of the version before otherwise.
  ghost predicate PutAs(before: seq<Document>, after: seq<Document>, d: Document, isNew: bool) {
    if isNew then d.version == 1 && d.createdAt == d.updatedAt && after == before + [d]
    else exists i :: 0 <= i < |before| && Supersedes(d, before[i]) && after == before[i := d]
  }

  predicate Supersedes(d: Document, old_: Document) {
    d.tenantId == old_.tenantId && d.documentId == old_.documentId && d.id == old_.id &&
    d.createdAt == old_.createdAt && d.version == old_.version + 1
  }

  // The snapshot taken of it.
  predicate SnapshotOf(h: Snapshot, d: Document, isNew: bool, actor: string) {
    h.document == d && h.tenantId == d.tenantId && h.documentId == d.documentId && h.personId == d.personId &&
    h.version == d.version && h.createdAt == d.updatedAt && h.actor == TrimSpace(actor) &&
    h.eventType == (if isNew then "created" else "updated")
  }

  lemma EventIsSnapshot(d: Document, isNew: bool, actor: string)
    ensures SnapshotOf(EventOf(d, isNew, actor), d, isNew, actor)
  {
  }

  // ---------- which save stored which version ----------

  // The position that a save stores to, or -1: behind the documents for a new one.
  function Target(s: Docs, op: Save): (i: int)
    ensures -1 <= i <= |s.docs|
  {
    if !op.known || op.reach == NotStored || !EnoughGiven(op.document) then -1
    else if AllSpace(op.document.documentId) then |s.docs|
    else DocAt(s.docs, TrimSpace(op.document.tenantId), TrimSpace(op.document.documentId))
  }

  // The log is as it was, or has the one snapshot more.
  ghost predicate LoggedOnce(before: seq<Snapshot>, after: seq<Snapshot>, d: Document, isNew: bool, actor: string) {
    after == before ||
    (|after| == |before| + 1 && after[..|before|] == before && SnapshotOf(after[|before|], d, isNew, actor))
  }

  /** A save that has a target stores there what its caller gave and touches no other document; one
      that has none changes nothing. */
  lemma SaveTells(s: Docs, op: Save) returns (d: Document)
    ensures var t, i := SaveStep(s, op), Target(s, op);
      if i < 0 then t == s
      else
        SaidBy(d, op.document, op.now) && PutAs(s.docs, t.docs, d, i == |s.docs|) &&
        t.docs == (if i == |s.docs| then s.docs + [d] else s.docs[i := d]) &&
        (i < |s.docs| ==> Supersedes(d, s.docs[i])) &&
        LoggedOnce(s.history, t.history, d, i == |s.docs|, op.actor) &&
        (i == |s.docs| ==> d.documentId == DocumentId(s.nextId + 1))
  {
    hide Normalise, Acceptable, EnoughGiven, SaysWhatGiven, TrimSpace, AllSpace, VersionTaken, DocumentId, EventOf,
      DocAt, SnapshotOf;
    var n, i := Normalise(op.document), Target(s, op);
    NormalisedSays(op.document);
    AcceptableIffGiven(op.document);
    BlankIffAllSpace(op.document.documentId);
    TrimOnce(op.document.documentId);
    d := if i < 0 || i == |s.docs| then First(n, s.nextId, op.now) else Next(n, s.docs[i], op.now);
    EventIsSnapshot(d, i == |s.docs|, op.actor);
    DocAtKey(s.docs, n.tenantId, n.documentId);
    if 0 <= i {
      LogsOnce(s, d, i == |s.docs|, op.actor);
    }
  }

  lemma TrimOnce(s: string)
    ensures TrimSpace(TrimSpace(s)) == TrimSpace(s)
  {
  }

  lemma DocAtKey(docs: seq<Document>, tenantId: string, documentId: string)
    ensures var i := DocAt(docs, tenantId, documentId);
      -1 <= i < |docs| && (0 <= i ==> docs[i].tenantId == tenantId && docs[i].documentId == documentId)
  {
  }

  lemma LogsOnce(s: Docs, d: Document, isNew: bool, actor: string)
    ensures LoggedOnce(s.history, Log(s, EventOf(d, isNew, actor)).history, d, isNew, actor)
  {
    hide EventOf, VersionTaken, SnapshotOf;
    EventIsSnapshot(d, isNew, actor);
  }

  // The saves that stored to the document at position i, in order.
  function SavesTo(ops: seq<Save>, i: nat): seq<Save>
    decreases |ops|
  {
    if ops == [] then []
    else
      var n := |ops| - 1;
      SavesTo(ops[..n], i) + (if Target(SaveAll(Empty, ops[..n]), ops[n]) == i then [ops[n]] else [])
  }

  // The document is the last of the saves, and every snapshot the one whose version it bears.
  ghost predicate Told(d: Document, log: seq<Snapshot>, saves: seq<Save>) {
    1 <= |saves| == d.version && SaidBy(d, saves[|saves| - 1].document, saves[|saves| - 1].now) &&
    forall k :: 0 <= k < |log| ==> 1 <= log[k].version <= |saves| && LoggedBy(log[k], saves[log[k].version - 1])
  }

  predicate LoggedBy(h: Snapshot, op: Save) {
    SaidBy(h.document, op.document, op.now) && h.personId == TrimSpace(op.document.personId) &&
    h.actor == TrimSpace(op.actor) && h.document.version == h.version
  }

  lemma {:induction false} SaveAllSnoc(s: Docs, ops: seq<Save>)
    requires ops != []
    ensures SaveAll(s, ops) == SaveStep(SaveAll(s, ops[..|ops| - 1]), ops[|ops| - 1])
    decreases |ops|
  {
    hide SaveStep;
    var n := |ops| - 1;
    if n == 0 {
      assert ops[1..] == [] && ops[..0] == [];
    } else {
      SaveAllSnoc(SaveStep(s, ops[0]), ops[1..]);
      assert ops[1..][..n - 1] == ops[..n][1..];
    }
  }

  // The document after a save to it, and its log.
  lemma ToldOn(log: seq<Snapshot>, log': seq<Snapshot>, saves: seq<Save>, d: Document, d': Document, op: Save,
               isNew: bool)
    requires if isNew then saves == [] && log == [] && d'.version == 1
      else Told(d, log, saves) && d'.version == d.version + 1
    requires SaidBy(d', op.document, op.now) && LoggedOnce(log, log', d', isNew, op.actor)
    ensures Told(d', log', saves + [op])
  {
    hide SaidBy, LoggedBy, SnapshotOf;
    var all, n := saves + [op], |log|;
    assert forall k :: 0 <= k < |saves| ==> all[k] == saves[k];
    if log' != log {
      SnapshotLogged(log'[n], d', op, isNew);
    }
    forall k | 0 <= k < |log'| ensures 1 <= log'[k].version <= |all| && LoggedBy(log'[k], all[log'[k].version - 1]) {
      if k < n {
        assert log'[k] == log'[..n][k] == log[k];
      }
    }
  }

  lemma SnapshotLogged(h: Snapshot, d: Document, op: Save, isNew: bool)
    requires SaidBy(d, op.document, op.now) && SnapshotOf(h, d, isNew, op.actor)
    ensures LoggedBy(h, op) && h.version == d.version
  {
  }

  // The log of one document after one more snapshot, of it or of another.
  lemma LogOf(before: seq<Snapshot>, after: seq<Snapshot>, d: Document, isNew: bool, actor: string, e: Document)
    requires LoggedOnce(before, after, d, isNew, actor)
    ensures var a, b := HistoryOf(before, e.tenantId, e.documentId), HistoryOf(after, e.tenantId, e.documentId);
      (e.tenantId == d.tenantId && e.documentId == d.documentId ==> LoggedOnce(a, b, d, isNew, actor)) &&
      (e.documentId != d.documentId ==> a == b)
  {
    hide HistoryOf;
    if after != before {
      var h := after[|before|];
      assert after == before + [h];
      HistoryAppend(before, h, e.tenantId, e.documentId);
    }
  }

  ghost predicate AllTold(s: Docs, ops: seq<Save>) {
    forall i: nat ::
      if i < |s.docs| then Told(s.docs[i], LogAt(s, i), SavesTo(ops, i)) else SavesTo(ops, i) == []
  }

  // The snapshots of the document at position i.
  function LogAt(s: Docs, i: nat): seq<Snapshot>
    requires i < |s.docs|
  {
    HistoryOf(s.history, s.docs[i].tenantId, s.docs[i].documentId)
  }

  lemma KeysApart(s: Docs, i: nat, j: nat)
    requires Inv(s, false) && i < |s.docs| && j < |s.docs| && i != j
    ensures s.docs[i].documentId != s.docs[j].documentId
  {
    hide Normalise, Acceptable, DocumentId, Accounted;
    assert Sound(s.docs[i], s.nextId) && Sound(s.docs[j], s.nextId);
    KeyApart(s.docs[i].id + 1, s.docs[j].id + 1);
  }

  lemma NewKeyUnused(s: Docs, tenantId: string)
    requires Inv(s, false)
    ensures forall i :: 0 <= i < |s.docs| ==> s.docs[i].documentId != DocumentId(s.nextId + 1)
    ensures HistoryOf(s.history, tenantId, DocumentId(s.nextId + 1)) == []
  {
    hide Normalise, Acceptable, DocumentId, Accounted, IssuedTo, HistoryOf;
    DocumentIdIssued(s.nextId + 1, s.nextId);
    forall i | 0 <= i < |s.docs| ensures s.docs[i].documentId != DocumentId(s.nextId + 1) {
      assert Sound(s.docs[i], s.nextId);
      KeyApart(s.docs[i].id + 1, s.nextId + 1);
    }
    NoHistory(s.history, tenantId, DocumentId(s.nextId + 1));
  }

  lemma AllToldOn(s: Docs, t: Docs, ops: seq<Save>, op: Save, more: seq<Save>)
    requires Inv(s, false) && AllTold(s, ops) && s == SaveAll(Empty, ops) && t == SaveStep(s, op) && more == ops + [op]
    ensures AllTold(t, more)
  {
    hide Inv, SaveAll, SaveStep, HistoryOf, Told, Target, SaidBy, DocumentId, LoggedOnce, EnoughGiven;
    assert more[..|ops|] == ops;
    var d := SaveTells(s, op);
    forall i: nat
      ensures if i < |t.docs| then Told(t.docs[i], LogAt(t, i), SavesTo(more, i)) else SavesTo(more, i) == []
    {
      if i < |t.docs| {
        ToldAt(s, t, ops, op, d, i);
      }
    }
  }

  lemma ToldAt(s: Docs, t: Docs, ops: seq<Save>, op: Save, d: Document, i: nat)
    requires Inv(s, false) && AllTold(s, ops) && s == SaveAll(Empty, ops) && i < |t.docs|
    requires var j := Target(s, op);
      if j < 0 then t == s
      else
        SaidBy(d, op.document, op.now) && PutAs(s.docs, t.docs, d, j == |s.docs|) &&
        t.docs == (if j == |s.docs| then s.docs + [d] else s.docs[j := d]) &&
        (j < |s.docs| ==> Supersedes(d, s.docs[j])) &&
        LoggedOnce(s.history, t.history, d, j == |s.docs|, op.actor) &&
        (j == |s.docs| ==> d.documentId == DocumentId(s.nextId + 1))
    ensures Told(t.docs[i], LogAt(t, i), SavesTo(ops, i) + (if Target(s, op) == i then [op] else []))
  {
    hide Inv, SaveAll, HistoryOf, Told, Target, SaidBy, DocumentId, LoggedOnce, EnoughGiven, SavesTo;
    var j := Target(s, op);
    var saves := SavesTo(ops, i);
    if j < 0 {
      assert saves + [] == saves;
    } else if i == j {
      LogOf(s.history, t.history, d, j == |s.docs|, op.actor, d);
      if j == |s.docs| {
        NewKeyUnused(s, d.tenantId);
        ToldOn([], LogAt(t, i), saves, d, d, op, true);
      } else {
        ToldOn(LogAt(s, i), LogAt(t, i), saves, s.docs[i], d, op, false);
      }
    } else {
      assert saves + [] == saves;
      if j == |s.docs| {
        NewKeyUnused(s, d.tenantId);
      } else {
        KeysApart(s, i, j);
      }
      LogOf(s.history, t.history, d, j == |s.docs|, op.actor, s.docs[i]);
    }
  }

  /** After any sequence of saves, of which some may fail or lose their snapshot: version n of a
      document is what the n-th save that stored to it was given. The live document says what the
      last of them said, and every snapshot what the save of its version did. */
  lemma {:induction false} VersionsSayWhatWasSaved(ops: seq<Save>, i: nat)
    ensures var s := SaveAll(Empty, ops);
      if i < |s.docs| then
        Told(s.docs[i], HistoryOf(s.history, s.docs[i].tenantId, s.docs[i].documentId), SavesTo(ops, i))
      else SavesTo(ops, i) == []
    decreases |ops|, 1
  {
    hide Told, HistoryOf;
    EveryVersion(ops);
  }

  lemma {:induction false} EveryVersion(ops: seq<Save>)
    ensures AllTold(SaveAll(Empty, ops), ops)
    decreases |ops|, 0
  {
    hide Inv, SaveStep, Told, LogAt, Target;
    if ops != [] {
      var n := |ops| - 1;
      EveryVersion(ops[..n]);
      SaveAllSnoc(Empty, ops);
      EmptyInv(false);
      SavesKeepInv(Empty, ops[..n], false);
      assert ops == ops[..n] + [ops[n]];
      AllToldOn(SaveAll(Empty, ops[..n]), SaveAll(Empty, ops), ops[..n], ops[n], ops);
    }
  }

  // ---------- dates ----------

  // n in so many decimal digits.
  function Written(n: nat, width: nat): (s: string)
    ensures |s| == width && forall i :: 0 <= i < width ==> IsDigit(s[i])
  {
    if width == 0 then "" else Written(n / 10, width - 1) + [('0' as int + n % 10) as char]
  }

  function Power10(width: nat): nat {
    if width == 0 then 1 else 10 * Power10(width - 1)
  }

  lemma {:induction false} NumberOfWritten(n: nat, width: nat)
    requires n < Power10(width)
    ensures Number(Written(n, width)) == n
  {
    if width != 0 {
      NumberOfWritten(n / 10, width - 1);
      var s := Written(n, width);
      assert s[..width - 1] == Written(n / 10, width - 1);
    }
  }

  lemma {:induction false} WrittenOfNumber(s: string)
    requires forall i :: 0 <= i < |s| ==> IsDigit(s[i])
    ensures Number(s) < Power10(|s|) && Written(Number(s), |s|) == s
  {
    if s != "" {
      var n := |s| - 1;
      WrittenOfNumber(s[..n]);
      assert s == s[..n] + [s[n]];
    }
  }

  function DateText(y: nat, m: nat, d: nat): string {
    Written(y, 4) + "-" + Written(m, 2) + "-" + Written(d, 2)
  }

  // The days of the months but February: 31 and 30 by turns, starting over in August.
  predicate DayExists(y: nat, m: nat, d: nat) {
    1 <= m <= 12 && 1 <= d &&
    (m != 2 ==> d <= 30 + (m + m / 8) % 2) &&
    (m == 2 ==> d <= 28 || (d == 29 && LeapsTo(y + 1) == LeapsTo(y) + 1))
  }

  // How many leap years come before the year, by the rule of the Gregorian calendar.
  function LeapsTo(y: nat): int {
    (y + 3) / 4 - (y + 99) / 100 + (y + 399) / 400
  }

  lemma MultiplesTo(y: nat, k: nat)
    requires k == 4 || k == 100 || k == 400
    ensures (y + k) / k - (y + k - 1) / k == if y % k == 0 then 1 else 0
  {
    var q, r := y / k, y % k;
    assert y == k * q + r;
    assert (y + k) / k == q + 1;
    assert (y + k - 1) / k == if r == 0 then q else q + 1;
  }

  lemma MultipleOf(q: nat, k: nat)
    requires k == 4 || k == 100
    ensures q * k % k == 0
  {
  }

  lemma Hundreds(y: nat)
    ensures y % 400 == 0 ==> y % 100 == 0
    ensures y % 100 == 0 ==> y % 4 == 0
  {
    MultipleOf(y / 400 * 4, 100);
    MultipleOf(y / 100 * 25, 4);
  }

  lemma LeapCounts(y: nat)
    ensures LeapsTo(y + 1) - LeapsTo(y) == if Leap(y) then 1 else 0
  {
    MultiplesTo(y, 4);
    MultiplesTo(y, 100);
    MultiplesTo(y, 400);
    Hundreds(y);
  }

  lemma DateTextParts(y: nat, m: nat, d: nat)
    requires y < 10000 && m < 100 && d < 100
    ensures var s := DateText(y, m, d);
      |s| == 10 && s[4] == '-' && s[7] == '-' && Number(s[..4]) == y && Number(s[5..7]) == m && Number(s[8..]) == d &&
      forall i :: 0 <= i < 10 && i != 4 && i != 7 ==> IsDigit(s[i])
  {
    hide Written, Number;
    assert Power10(2) == 100 && Power10(4) == 10000;
    NumberOfWritten(y, 4);
    NumberOfWritten(m, 2);
    NumberOfWritten(d, 2);
    var s, a, b, c := DateText(y, m, d), Written(y, 4), Written(m, 2), Written(d, 2);
    assert s[..4] == a && s[5..7] == b && s[8..] == c;
    assert forall i :: 0 <= i < 4 ==> s[i] == a[i];
    assert forall i :: 5 <= i < 7 ==> s[i] == b[i - 5];
    assert forall i :: 8 <= i < 10 ==> s[i] == c[i - 8];
  }

  ghost predicate IsDate(s: string) {
    exists y: nat, m: nat, d: nat :: y < 10000 && DayExists(y, m, d) && s == DateText(y, m, d)
  }

  /** The dates that are accepted are exactly the days of the Gregorian calendar up to the year 9999,
      written with four, two and two digits. */
  lemma ValidIffDate(s: string)
    ensures ValidIsoDate(s) <==> IsDate(s)
  {
    hide Number, Written, LeapsTo, Leap;
    if ValidIsoDate(s) {
      var y, m, d := Number(s[..4]), Number(s[5..7]), Number(s[8..]);
      LeapCounts(y);
      WrittenOfNumber(s[..4]);
      WrittenOfNumber(s[5..7]);
      WrittenOfNumber(s[8..]);
      assert Power10(4) == 10000;
      assert s == s[..4] + [s[4]] + s[5..7] + [s[7]] + s[8..];
      assert DayExists(y, m, d);
    }
    if IsDate(s) {
      var y: nat, m: nat, d: nat :| y < 10000 && DayExists(y, m, d) && s == DateText(y, m, d);
      LeapCounts(y);
      DateTextParts(y, m, d);
    }
  }
}
