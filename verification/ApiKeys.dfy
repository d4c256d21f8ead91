/** Tenants and their API keys (store/tenant.go): slugs, the text of a key, and which keys a tenant's
    requests may present after any sequence of operations. */
module ApiKeys {
  import opened Text

  // ---------- slugs ----------

  predicate IsSlugChar(c: char) {
    'a' <= c <= 'z' || '0' <= c <= '9' || c == '-'
  }

  predicate IsSlug(s: string) {
    s != "" && forall i :: 0 <= i < |s| ==> IsSlugChar(s[i])
  }

  function NormalizeSlug(slug: string): (r: string)
    ensures r == "" || IsSlug(r)
  {
    var s := ReplaceAll(TrimSpace(ToLower(slug)), ' ', '-');
    if IsSlug(s) then s else ""
  }

  lemma LowerSlug(s: string)
    requires IsSlug(s)
    ensures ToLower(s) == s && Trimmed(s) && ReplaceAll(s, ' ', '-') == s
  {
    assert IsSlugChar(s[0]) && IsSlugChar(s[|s| - 1]);
    forall i | 0 <= i < |s| ensures LowerChar(s[i]) == s[i] && s[i] != ' ' {
      assert IsSlugChar(s[i]);
    }
  }

  // The slugs that normalising leaves alone are its own results.
  lemma NormalizeSlugFixes(s: string)
    ensures NormalizeSlug(s) == s <==> s == "" || IsSlug(s)
    ensures NormalizeSlug(NormalizeSlug(s)) == NormalizeSlug(s)
  {
    if IsSlug(s) {
      LowerSlug(s);
    }
    if IsSlug(NormalizeSlug(s)) {
      LowerSlug(NormalizeSlug(s));
    }
    assert ToLower("") == "" && ReplaceAll("", ' ', '-') == "";
  }

  // ---------- the text of a key ----------

  type Byte = b: nat | b < 256

  // The URL and filename safe alphabet of section 5 of RFC 4648.
  predicate IsBase64Url(c: char) {
    'A' <= c <= 'Z' || 'a' <= c <= 'z' || '0' <= c <= '9' || c == '-' || c == '_'
  }

  function Letter(n: nat): (c: char)
    requires n < 64
    ensures IsBase64Url(c)
  {
    if n < 26 then 'A' + n as char
    else if n < 52 then 'a' + (n - 26) as char
    else if n < 62 then '0' + (n - 52) as char
    else if n == 62 then '-'
    else '_'
  }

  // Three bytes are four letters.
  function Letters(a: nat, b: nat, c: nat): (s: string)
    requires a < 256 && b < 256 && c < 256
    ensures |s| == 4 && forall i :: 0 <= i < 4 ==> IsBase64Url(s[i])
  {
    [Letter(a / 4), Letter(a % 4 * 16 + b / 16), Letter(b % 16 * 4 + c / 64), Letter(c % 64)]
  }

  // RawURLEncoding of whole groups of three bytes, which never needs padding.
  function EncodeToString(bytes: seq<Byte>): (s: string)
    requires |bytes| % 3 == 0
    ensures 3 * |s| == 4 * |bytes|
    ensures forall i :: 0 <= i < |s| ==> IsBase64Url(s[i])
    decreases |bytes|
  {
    if bytes == [] then "" else Letters(bytes[0], bytes[1], bytes[2]) + EncodeToString(bytes[3..])
  }

  type SecretBytes = b: seq<Byte> | |b| == 24 witness seq(24, _ => 0)

  function KeyId(n: nat): string {
    "key_" + Hex(n)
  }

  function FullSecret(n: nat, bytes: SecretBytes): string {
    KeyId(n) + "." + EncodeToString(bytes)
  }

  // What comes before and after the first dot.
  function Cut(s: string): Option<(string, string)> {
    if s == "" then None
    else if s[0] == '.' then Some(("", s[1..]))
    else
      match Cut(s[1..])
      case None => None
      case Some(parts) => Some(([s[0]] + parts.0, parts.1))
  }

  lemma {:induction false} CutAtDot(a: string, b: string)
    requires '.' !in a
    ensures Cut(a + "." + b) == Some((a, b))
    decreases |a|
  {
    var s := a + "." + b;
    if a == "" {
      assert s[1..] == b;
    } else {
      assert s[1..] == a[1..] + "." + b;
      assert [a[0]] + a[1..] == a;
      CutAtDot(a[1..], b);
    }
  }

  /** Cutting an issued key at the dot gives back its id and its secret, and trimming it changes
      nothing. */
  lemma CutIssuedKey(n: nat, bytes: SecretBytes)
    ensures Cut(FullSecret(n, bytes)) == Some((KeyId(n), EncodeToString(bytes)))
    ensures TrimSpace(FullSecret(n, bytes)) == FullSecret(n, bytes)
    ensures HasPrefix(KeyId(n), "key_") && EncodeToString(bytes) != "" && TrimSpace(KeyId(n)) == KeyId(n)
  {
    hide Cut, TrimSpace, EncodeToString, Hex;
    HexTrimmed(n);
    var id, secret := KeyId(n), EncodeToString(bytes);
    assert id[..4] == "key_";
    assert id[0] == 'k' && id[|id| - 1] == Hex(n)[|Hex(n)| - 1];
    CutAtDot(id, secret);
    var full := FullSecret(n, bytes);
    assert full[0] == 'k' && full[|full| - 1] == secret[|secret| - 1];
    assert IsBase64Url(secret[|secret| - 1]);
  }

  lemma KeyIdInjective(m: nat, n: nat)
    requires KeyId(m) == KeyId(n)
    ensures m == n
  {
    HexRoundTrip(m);
    HexRoundTrip(n);
    assert KeyId(m)[4..] == Hex(m) && KeyId(n)[4..] == Hex(n);
  }

  // ---------- tenants and keys ----------

  datatype Tenant = Tenant(slug: string, name: string)

  // SHA-256, taken as injective.
  datatype Digest = Sha256(text: string)

  datatype Key = Key(tenantId: string, keyId: string, hash: Digest, keyLabel: string, revoked: bool)

  datatype Registry = Registry(tenants: seq<Tenant>, keys: seq<Key>, nextId: nat)

  // bytes are what the random source gave for the key.
  datatype Operation =
    | CreateTenant(slug: string, name: string)
    | UpdateTenantName(slug: string, name: string)
    | IssueAPIKey(slug: string, keyLabel: string, bytes: SecretBytes)
    | RevokeAPIKey(slug: string, keyId: string)

  function TenantAt(tenants: seq<Tenant>, slug: string): (i: int)
    ensures -1 <= i < |tenants|
    ensures 0 <= i ==> tenants[i].slug == slug
    ensures i < 0 ==> forall j :: 0 <= j < |tenants| ==> tenants[j].slug != slug
  {
    if tenants == [] then -1
    else
      var n := |tenants| - 1;
      var i := TenantAt(tenants[..n], slug);
      if 0 <= i then i else if tenants[n].slug == slug then n else -1
  }

  predicate HasKey(k: Key, slug: string, keyId: string) {
    k.tenantId == slug && k.keyId == keyId
  }

  function KeyAt(keys: seq<Key>, slug: string, keyId: string): (i: int)
    ensures -1 <= i < |keys|
    ensures 0 <= i ==> HasKey(keys[i], slug, keyId)
    ensures i < 0 ==> forall j :: 0 <= j < |keys| ==> !HasKey(keys[j], slug, keyId)
  {
    if keys == [] then -1
    else
      var n := |keys| - 1;
      var i := KeyAt(keys[..n], slug, keyId);
      if 0 <= i then i else if HasKey(keys[n], slug, keyId) then n else -1
  }

  // The first key that the filter of RevokeAPIKey accepts, or -1.
  function UnrevokedAt(keys: seq<Key>, slug: string, keyId: string): (i: int)
    ensures -1 <= i < |keys|
    ensures 0 <= i ==> HasKey(keys[i], slug, keyId) && !keys[i].revoked
    ensures forall j :: 0 <= j < (if i < 0 then |keys| else i) ==> !(HasKey(keys[j], slug, keyId) && !keys[j].revoked)
  {
    if keys == [] then -1
    else
      var n := |keys| - 1;
      var i := UnrevokedAt(keys[..n], slug, keyId);
      if 0 <= i then i else if HasKey(keys[n], slug, keyId) && !keys[n].revoked then n else -1
  }

  function Create(s: Registry, slug: string, name: string): Result<Registry> {
    var slug' := NormalizeSlug(slug);
    var name' := TrimSpace(name);
    if slug' == "" then Err("store: tenant slug is required and must be lowercase alphanumeric or hyphen")
    else if 0 <= TenantAt(s.tenants, slug') then Err("store: tenant slug already exists")
    else Ok(s.(tenants := s.tenants + [Tenant(slug', if name' == "" then ToUpper(slug') else name')]))
  }

  function Rename(s: Registry, slug: string, name: string): Result<Registry> {
    var slug' := NormalizeSlug(slug);
    var name' := TrimSpace(name);
    var i := TenantAt(s.tenants, slug');
    if slug' == "" || name' == "" then Err("store: tenant slug and name are required")
    else if i < 0 then Err("store: tenant not found")
    else Ok(s.(tenants := s.tenants[i := s.tenants[i].(name := name')]))
  }

  function NewKey(slug: string, n: nat, bytes: SecretBytes, keyLabel: string): Key {
    Key(slug, KeyId(n), Sha256(FullSecret(n, bytes)), TrimSpace(keyLabel), false)
  }

  function Issue(s: Registry, slug: string, keyLabel: string, bytes: SecretBytes): Result<Registry> {
    var slug' := NormalizeSlug(slug);
    if slug' == "" then Err("store: tenant slug required")
    else if TenantAt(s.tenants, slug') < 0 then Err("store: tenant not found")
    else Ok(s.(keys := s.keys + [NewKey(slug', s.nextId, bytes, keyLabel)], nextId := s.nextId + 1))
  }

  function Revoke(s: Registry, slug: string, keyId: string): Result<Registry> {
    var slug', keyId' := NormalizeSlug(slug), TrimSpace(keyId);
    var i := UnrevokedAt(s.keys, slug', keyId');
    if slug' == "" || !HasPrefix(keyId', "key_") then Err("store: tenant and key ID are required")
    else if i < 0 then Err("store: active API key not found")
    else Ok(s.(keys := s.keys[i := s.keys[i].(revoked := true)]))
  }

  predicate Verifies(s: Registry, tenantId: string, apiKey: string) {
    var slug := NormalizeSlug(tenantId);
    match Cut(TrimSpace(apiKey))
    case None => false
    case Some((keyId, secret)) =>
      slug != "" && HasPrefix(keyId, "key_") && secret != "" &&
      var i := KeyAt(s.keys, slug, keyId);
      0 <= i && !s.keys[i].revoked && s.keys[i].hash == Sha256(apiKey)
  }

  // An operation that fails changes nothing.
  function OrSame(r: Result<Registry>, s: Registry): Registry {
    match r
    case Ok(t) => t
    case Err(_) => s
  }

  function Step(s: Registry, op: Operation): Registry {
    match op
    case CreateTenant(slug, name) => OrSame(Create(s, slug, name), s)
    case UpdateTenantName(slug, name) => OrSame(Rename(s, slug, name), s)
    case IssueAPIKey(slug, keyLabel, bytes) => OrSame(Issue(s, slug, keyLabel, bytes), s)
    case RevokeAPIKey(slug, keyId) => OrSame(Revoke(s, slug, keyId), s)
  }

  const Empty: Registry := Registry([], [], 0)

  function Run(ops: seq<Operation>): Registry {
    if ops == [] then Empty else Step(Run(ops[..|ops| - 1]), ops[|ops| - 1])
  }

  // ---------- what happened to a key, read off the operations ----------

  // The j-th operation issued the key to the tenant.
  ghost predicate IssuedAt(ops: seq<Operation>, j: int, slug: string, apiKey: string) {
    0 <= j < |ops| && ops[j].IssueAPIKey? && NormalizeSlug(ops[j].slug) == slug != "" &&
    0 <= TenantAt(Run(ops[..j]).tenants, slug) && apiKey == FullSecret(Run(ops[..j]).nextId, ops[j].bytes)
  }

  // The m-th operation revokes a key by its id.
  predicate RevokesAt(ops: seq<Operation>, m: int, slug: string, keyId: string) {
    0 <= m < |ops| && ops[m].RevokeAPIKey? && NormalizeSlug(ops[m].slug) == slug && TrimSpace(ops[m].keyId) == keyId
  }

  function IdOf(apiKey: string): string {
    match Cut(apiKey)
    case None => ""
    case Some(parts) => parts.0
  }

  // Issued to the tenant, and not revoked since.
  ghost predicate Outstanding(ops: seq<Operation>, slug: string, apiKey: string) {
    exists j :: IssuedAt(ops, j, slug, apiKey) && forall m :: j < m ==> !RevokesAt(ops, m, slug, IdOf(apiKey))
  }

  // ---------- the invariant of the collection ----------

  ghost predicate KeyInv(k: Key, nextId: nat) {
    IsSlug(k.tenantId) &&
    exists n: nat, bytes: SecretBytes :: n < nextId && k.keyId == KeyId(n) && k.hash == Sha256(FullSecret(n, bytes))
  }

  ghost predicate Inv(s: Registry) {
    (forall i :: 0 <= i < |s.keys| ==> KeyInv(s.keys[i], s.nextId)) &&
    (forall i, j :: 0 <= i < j < |s.keys| ==> s.keys[i].keyId != s.keys[j].keyId)
  }

  // A key that a request of the tenant may present.
  ghost predicate Active(s: Registry, slug: string, apiKey: string) {
    exists i :: 0 <= i < |s.keys| && s.keys[i].tenantId == slug && s.keys[i].hash == Sha256(apiKey) &&
      !s.keys[i].revoked
  }

  lemma KeyInvGrows(k: Key, a: nat, b: nat)
    requires KeyInv(k, a) && a <= b
    ensures KeyInv(k, b)
  {
    hide KeyId, FullSecret;
    var n: nat, bytes: SecretBytes :| n < a && k.keyId == KeyId(n) && k.hash == Sha256(FullSecret(n, bytes));
    assert n < b && k.keyId == KeyId(n) && k.hash == Sha256(FullSecret(n, bytes));
  }

  lemma KeyIdFresh(k: Key, nextId: nat)
    requires KeyInv(k, nextId)
    ensures k.keyId != KeyId(nextId)
  {
    var n: nat, bytes: SecretBytes :| n < nextId && k.keyId == KeyId(n) && k.hash == Sha256(FullSecret(n, bytes));
    if k.keyId == KeyId(nextId) {
      KeyIdInjective(n, nextId);
    }
  }

  lemma NewKeyInv(slug: string, n: nat, bytes: SecretBytes, keyLabel: string)
    requires IsSlug(slug)
    ensures KeyInv(NewKey(slug, n, bytes, keyLabel), n + 1)
  {
    hide KeyId, FullSecret, IsSlug;
  }

  lemma StepKeepsInv(s: Registry, op: Operation)
    requires Inv(s)
    ensures Inv(Step(s, op))
  {
    hide KeyInv, NormalizeSlug, TrimSpace, HasPrefix, KeyId, FullSecret, IsSlug;
    var t := Step(s, op);
    match op {
      case CreateTenant(slug, name) =>
      case UpdateTenantName(slug, name) =>
      case IssueAPIKey(slug, keyLabel, bytes) =>
        if t != s {
          NewKeyInv(NormalizeSlug(slug), s.nextId, bytes, keyLabel);
          forall i | 0 <= i < |s.keys| ensures KeyInv(s.keys[i], t.nextId) && s.keys[i].keyId != KeyId(s.nextId) {
            KeyInvGrows(s.keys[i], s.nextId, t.nextId);
            KeyIdFresh(s.keys[i], s.nextId);
          }
        }
      case RevokeAPIKey(slug, keyId) =>
        var i := UnrevokedAt(s.keys, NormalizeSlug(slug), TrimSpace(keyId));
        if 0 <= i { RevokedInv(s.keys[i], s.nextId); }
    }
  }

  lemma RevokedInv(k: Key, nextId: nat)
    requires KeyInv(k, nextId)
    ensures KeyInv(k.(revoked := true), nextId)
  {
    hide KeyId, FullSecret, IsSlug;
  }

  lemma {:induction false} RunInv(ops: seq<Operation>)
    ensures Inv(Run(ops))
    decreases |ops|
  {
    hide Inv, Step;
    if ops == [] {
      EmptyInv();
    } else {
      RunInv(ops[..|ops| - 1]);
      StepKeepsInv(Run(ops[..|ops| - 1]), ops[|ops| - 1]);
    }
  }

  lemma EmptyInv()
    ensures Inv(Empty)
  {
  }

  // ---------- verifying is looking for an active key ----------

  // The id that is stored beside a digest is the one that the key's own text begins with.
  lemma StoredId(k: Key, nextId: nat, apiKey: string)
    requires KeyInv(k, nextId) && k.hash == Sha256(apiKey)
    ensures k.keyId == IdOf(apiKey) == TrimSpace(k.keyId) && TrimSpace(apiKey) == apiKey && HasPrefix(k.keyId, "key_")
    ensures Cut(apiKey).Some? && Cut(apiKey).value.1 != ""
  {
    hide KeyId, FullSecret, IsSlug;
    var n: nat, bytes: SecretBytes :| n < nextId && k.keyId == KeyId(n) && k.hash == Sha256(FullSecret(n, bytes));
    CutIssuedKey(n, bytes);
  }

  lemma VerifiesIffActive(s: Registry, tenantId: string, apiKey: string)
    requires Inv(s)
    ensures Verifies(s, tenantId, apiKey) <==> Active(s, NormalizeSlug(tenantId), apiKey)
  {
    hide KeyInv, NormalizeSlug, TrimSpace, HasPrefix, Cut;
    var slug := NormalizeSlug(tenantId);
    if Active(s, slug, apiKey) {
      var i :| 0 <= i < |s.keys| && s.keys[i].tenantId == slug && s.keys[i].hash == Sha256(apiKey) &&
        !s.keys[i].revoked;
      StoredId(s.keys[i], s.nextId, apiKey);
      SlugNotEmpty(s.keys[i], s.nextId);
      assert HasKey(s.keys[i], slug, IdOf(apiKey));
      assert KeyAt(s.keys, slug, IdOf(apiKey)) == i;
    }
  }

  lemma SlugNotEmpty(k: Key, nextId: nat)
    requires KeyInv(k, nextId)
    ensures k.tenantId != ""
  {
  }

  // ---------- one operation ----------

  lemma ActiveAfterIssue(s: Registry, op: Operation, slug: string, apiKey: string)
    requires op.IssueAPIKey?
    ensures var made := NormalizeSlug(op.slug) == slug != "" && 0 <= TenantAt(s.tenants, slug) &&
      apiKey == FullSecret(s.nextId, op.bytes);
      Active(Step(s, op), slug, apiKey) <==> Active(s, slug, apiKey) || made
  {
    hide NormalizeSlug, FullSecret, KeyId, TrimSpace;
    var t := Step(s, op);
    if Active(s, slug, apiKey) {
      var i :| 0 <= i < |s.keys| && s.keys[i].tenantId == slug && s.keys[i].hash == Sha256(apiKey) &&
        !s.keys[i].revoked;
      assert t.keys[i] == s.keys[i];
    }
    if Active(t, slug, apiKey) {
      var i :| 0 <= i < |t.keys| && t.keys[i].tenantId == slug && t.keys[i].hash == Sha256(apiKey) &&
        !t.keys[i].revoked;
      assert i < |s.keys| ==> t.keys[i] == s.keys[i];
    }
    if t != s {
      assert t.keys[|s.keys|] == NewKey(NormalizeSlug(op.slug), s.nextId, op.bytes, op.keyLabel);
    }
  }

  lemma RevokeTells(s: Registry, op: Operation, n: int)
    requires op.RevokeAPIKey? && n == UnrevokedAt(s.keys, NormalizeSlug(op.slug), TrimSpace(op.keyId))
    ensures Step(s, op).keys ==
      if NormalizeSlug(op.slug) == "" || !HasPrefix(TrimSpace(op.keyId), "key_") || n < 0 then s.keys
      else s.keys[n := s.keys[n].(revoked := true)]
  {
    hide NormalizeSlug, TrimSpace, HasPrefix, UnrevokedAt;
  }

  lemma ActiveAfterRevoke(s: Registry, op: Operation, slug: string, apiKey: string)
    requires Inv(s) && op.RevokeAPIKey?
    ensures Active(Step(s, op), slug, apiKey) <==>
      Active(s, slug, apiKey) && !(NormalizeSlug(op.slug) == slug && TrimSpace(op.keyId) == IdOf(apiKey))
  {
    hide NormalizeSlug, KeyInv, TrimSpace, HasPrefix, IdOf, Step;
    var t := Step(s, op);
    var n := UnrevokedAt(s.keys, NormalizeSlug(op.slug), TrimSpace(op.keyId));
    RevokeTells(s, op, n);
    if Active(s, slug, apiKey) {
      var i :| 0 <= i < |s.keys| && s.keys[i].tenantId == slug && s.keys[i].hash == Sha256(apiKey) &&
        !s.keys[i].revoked;
      StoredId(s.keys[i], s.nextId, apiKey);
      SlugNotEmpty(s.keys[i], s.nextId);
      assert NormalizeSlug(op.slug) == slug && TrimSpace(op.keyId) == IdOf(apiKey) ==>
        HasKey(s.keys[i], NormalizeSlug(op.slug), TrimSpace(op.keyId));
      assert i != n ==> t.keys[i] == s.keys[i];
    }
    if Active(t, slug, apiKey) {
      var i :| 0 <= i < |t.keys| && t.keys[i].tenantId == slug && t.keys[i].hash == Sha256(apiKey) &&
        !t.keys[i].revoked;
      StoredId(s.keys[i], s.nextId, apiKey);
      SlugNotEmpty(s.keys[i], s.nextId);
      assert t.keys[i] == s.keys[i];
    }
  }

  // An earlier issue is the same whether or not later operations are counted.
  lemma IssuedAtFront(ops: seq<Operation>, j: int, slug: string, apiKey: string)
    requires ops != [] && j < |ops| - 1
    ensures IssuedAt(ops, j, slug, apiKey) <==> IssuedAt(ops[..|ops| - 1], j, slug, apiKey)
  {
    hide NormalizeSlug, FullSecret;
    if 0 <= j {
      assert ops[..|ops| - 1][..j] == ops[..j];
    }
  }

  lemma OutstandingNext(ops: seq<Operation>, slug: string, apiKey: string)
    requires ops != []
    ensures var n := |ops| - 1;
      Outstanding(ops, slug, apiKey) <==>
      IssuedAt(ops, n, slug, apiKey) ||
      (Outstanding(ops[..n], slug, apiKey) && !RevokesAt(ops, n, slug, IdOf(apiKey)))
  {
    hide IssuedAt, NormalizeSlug, TrimSpace, IdOf;
    var n := |ops| - 1;
    forall m | 0 <= m < n
      ensures RevokesAt(ops, m, slug, IdOf(apiKey)) <==> RevokesAt(ops[..n], m, slug, IdOf(apiKey))
    {
    }
    if Outstanding(ops, slug, apiKey) {
      var j :| IssuedAt(ops, j, slug, apiKey) && forall m :: j < m ==> !RevokesAt(ops, m, slug, IdOf(apiKey));
      IssuedInRange(ops, j, slug, apiKey);
      if j < n {
        IssuedAtFront(ops, j, slug, apiKey);
        assert !RevokesAt(ops, n, slug, IdOf(apiKey));
      }
    }
    if Outstanding(ops[..n], slug, apiKey) && !RevokesAt(ops, n, slug, IdOf(apiKey)) {
      var j :| IssuedAt(ops[..n], j, slug, apiKey) && forall m :: j < m ==> !RevokesAt(ops[..n], m, slug, IdOf(apiKey));
      IssuedInRange(ops[..n], j, slug, apiKey);
      IssuedAtFront(ops, j, slug, apiKey);
    }
    if IssuedAt(ops, n, slug, apiKey) {
      assert forall m :: n < m ==> !RevokesAt(ops, m, slug, IdOf(apiKey));
    }
  }

  lemma IssuedInRange(ops: seq<Operation>, j: int, slug: string, apiKey: string)
    requires IssuedAt(ops, j, slug, apiKey)
    ensures 0 <= j < |ops| && ops[j].IssueAPIKey?
  {
  }

  lemma {:induction false} ActiveIffOutstanding(ops: seq<Operation>, slug: string, apiKey: string)
    ensures Active(Run(ops), slug, apiKey) <==> Outstanding(ops, slug, apiKey)
    decreases |ops|
  {
    if ops == [] {
    } else {
      var n := |ops| - 1;
      var s, op := Run(ops[..n]), ops[n];
      ActiveIffOutstanding(ops[..n], slug, apiKey);
      OutstandingNext(ops, slug, apiKey);
      RunInv(ops[..n]);
      hide Inv, Outstanding, Active, NormalizeSlug, TrimSpace, FullSecret, IdOf;
      assert Run(ops) == Step(s, op);
      match op {
        case CreateTenant(_, _) => KeysAlone(s, op, slug, apiKey);
        case UpdateTenantName(_, _) => KeysAlone(s, op, slug, apiKey);
        case IssueAPIKey(_, _, _) => ActiveAfterIssue(s, op, slug, apiKey);
        case RevokeAPIKey(_, _) => ActiveAfterRevoke(s, op, slug, apiKey);
      }
    }
  }

  lemma KeysAlone(s: Registry, op: Operation, slug: string, apiKey: string)
    requires op.CreateTenant? || op.UpdateTenantName?
    ensures Active(Step(s, op), slug, apiKey) <==> Active(s, slug, apiKey)
  {
    hide NormalizeSlug, TrimSpace;
  }

  // ---------- every sequence of operations ----------

  /** After any sequence of operations, VerifyAPIKey accepts a key for a tenant if and only if that
      very text was issued to the tenant's normalised slug and no later operation revoked it. A key
      with white space around it is therefore never accepted, although the lookup trims it. */
  lemma VerifiesIffOutstanding(ops: seq<Operation>, tenantId: string, apiKey: string)
    ensures Verifies(Run(ops), tenantId, apiKey) <==> Outstanding(ops, NormalizeSlug(tenantId), apiKey)
  {
    hide Run, Verifies, Outstanding, Active, Inv, NormalizeSlug;
    RunInv(ops);
    VerifiesIffActive(Run(ops), tenantId, apiKey);
    ActiveIffOutstanding(ops, NormalizeSlug(tenantId), apiKey);
  }

  // Every spelling of a slug stands for the same tenant.
  lemma SpellingsAgree(ops: seq<Operation>, a: string, b: string, apiKey: string)
    requires NormalizeSlug(a) == NormalizeSlug(b)
    ensures Verifies(Run(ops), a, apiKey) <==> Verifies(Run(ops), b, apiKey)
    ensures Verifies(Run(ops), a, apiKey) <==> Verifies(Run(ops), NormalizeSlug(a), apiKey)
  {
    NormalizeSlugFixes(a);
    hide Run, NormalizeSlug, TrimSpace;
  }

  // ---------- tenants ----------

  ghost predicate SlugsUnique(tenants: seq<Tenant>) {
    (forall i :: 0 <= i < |tenants| ==> IsSlug(tenants[i].slug) && tenants[i].name != "") &&
    forall i, j :: 0 <= i < j < |tenants| ==> tenants[i].slug != tenants[j].slug
  }

  predicate KeepsSlugs(a: seq<Tenant>, b: seq<Tenant>) {
    |a| <= |b| && forall i :: 0 <= i < |a| ==> b[i].slug == a[i].slug
  }

  // Slugs are well-formed and unique, names are never empty, and a tenant keeps its slug for good.
  lemma {:induction false} TenantsKeepSlugs(ops: seq<Operation>, k: nat)
    requires k <= |ops|
    ensures SlugsUnique(Run(ops).tenants) && KeepsSlugs(Run(ops[..k]).tenants, Run(ops).tenants)
    decreases |ops|
  {
    hide Step, SlugsUnique;
    if ops == [] {
      assert ops[..k] == ops;
      assert SlugsUnique(Run(ops).tenants) by {
        NoTenants();
      }
    } else {
      var n := |ops| - 1;
      TenantsKeepSlugs(ops[..n], if k <= n then k else n);
      StepKeepsSlugs(Run(ops[..n]), ops[n]);
      assert Run(ops) == Step(Run(ops[..n]), ops[n]);
      hide Run;
      assert k <= n ==> ops[..n][..k] == ops[..k];
      assert k == |ops| ==> ops[..k] == ops;
    }
  }

  lemma NoTenants()
    ensures SlugsUnique(Empty.tenants)
  {
  }

  lemma StepKeepsSlugs(s: Registry, op: Operation)
    requires SlugsUnique(s.tenants)
    ensures SlugsUnique(Step(s, op).tenants) && KeepsSlugs(s.tenants, Step(s, op).tenants)
  {
    hide NormalizeSlug, TrimSpace, IsSlug, FullSecret;
  }
}
