/** The tenants and keys collections of the MongoDB store (store/tenant.go). A call that cannot
    reach the database changes nothing. */
module TenantStore {
  import opened Connections
  import opened Text
  import opened ApiKeys
  import opened ApiKeySpellings

  // A text names a tenant of the collection.
  ghost predicate Names(text: string, tenants: seq<Tenant>, slug: string) {
    Spells(text, slug) && exists t :: t in tenants && t.slug == slug
  }

  lemma NamesIff(text: string, tenants: seq<Tenant>, slug: string)
    ensures Names(text, tenants, slug) <==> NormalizeSlug(text) == slug != "" && 0 <= TenantAt(tenants, slug)
  {
    hide NormalizeSlug, Spells;
    NormalizeSlugIff(text, slug);
    SpelledOnly(text);
    var i := TenantAt(tenants, slug);
    assert 0 <= i ==> tenants[i] in tenants;
  }

  lemma NamesOnly(text: string, tenants: seq<Tenant>)
    ensures forall w :: Names(text, tenants, w) ==> w == NormalizeSlug(text)
  {
    hide NormalizeSlug, Spells;
    SpelledOnly(text);
  }

  // A slug that can be created.
  lemma NewSlugIff(text: string, tenants: seq<Tenant>)
    ensures NormalizeSlug(text) != "" ==> Spells(text, NormalizeSlug(text))
    ensures (exists w :: Spells(text, w) && forall t :: t in tenants ==> t.slug != w) <==>
      NormalizeSlug(text) != "" && forall i :: 0 <= i < |tenants| ==> tenants[i].slug != NormalizeSlug(text)
  {
    hide NormalizeSlug, Spells;
    NormalizeSlugIff(text, NormalizeSlug(text));
    SpelledOnly(text);
    assert forall i :: 0 <= i < |tenants| ==> tenants[i] in tenants;
  }

  // A stored key that the operation or the request is about.
  ghost predicate Meets(k: Key, text: string, apiKey: string) {
    Spells(text, k.tenantId) && k.hash == Sha256(apiKey) && !k.revoked
  }

  // The keys that a revocation is about: text spells the tenant, and the id is one of a key.
  ghost predicate Revocable(k: Key, text: string, keyId: string) {
    Spells(text, k.tenantId) && k.keyId == TrimSpace(keyId) && HasPrefix(TrimSpace(keyId), "key_") && !k.revoked
  }

  lemma ActiveIffMeets(s: Registry, text: string, apiKey: string)
    requires Inv(s)
    ensures Verifies(s, text, apiKey) <==> exists k :: k in s.keys && Meets(k, text, apiKey)
  {
    hide NormalizeSlug, Spells, Verifies;
    VerifiesIffActive(s, text, apiKey);
    SpelledOnly(text);
    if Active(s, NormalizeSlug(text), apiKey) {
      var i :| 0 <= i < |s.keys| && s.keys[i].tenantId == NormalizeSlug(text) && s.keys[i].hash == Sha256(apiKey) &&
        !s.keys[i].revoked;
      SlugNotEmpty(s.keys[i], s.nextId);
      NormalizeSlugIff(text, s.keys[i].tenantId);
      assert Meets(s.keys[i], text, apiKey);
    }
    if k :| k in s.keys && Meets(k, text, apiKey) {
      var i :| 0 <= i < |s.keys| && s.keys[i] == k;
    }
  }

  class MongoStore {
    var tenants: seq<Tenant>
    var keys: seq<Key>
    var nextId: nat

    const conn: Connection

    ghost function Contents(): Registry
      reads this
    {
      Registry(tenants, keys, nextId)
    }

    constructor (conn: Connection)
      ensures Contents() == Empty && this.conn == conn
    {
      tenants, keys, nextId := [], [], 0;
      this.conn := conn;
    }

    method CreateTenant(slug: string, name: string) returns (r: Result<Tenant>)
      modifies conn`calls, this`tenants
      ensures r.Ok? ==> Create(old(Contents()), slug, name) == Ok(Contents()) && tenants == old(tenants) + [r.value]
      ensures r.Err? ==> Contents() == old(Contents()) && (conn.Healthy() ==> Create(Contents(), slug, name).Err?)
      ensures r.Ok? ==>
        Spells(slug, r.value.slug) &&
        r.value.name == (if AllSpace(name) then ToUpper(r.value.slug) else TrimSpace(name))
      ensures conn.Healthy() ==>
        (r.Ok? <==> exists w :: Spells(slug, w) && forall t :: t in old(tenants) ==> t.slug != w)
    {
      NewSlugIff(slug, tenants);
      BlankIffAllSpace(name);
      hide NormalizeSlug, TrimSpace, AllSpace, Spells;
      var normal := NormalizeSlug(slug);
      if normal == "" {
        return Err("store: tenant slug is required and must be lowercase alphanumeric or hyphen");
      }
      var shown := TrimSpace(name);
      if shown == "" {
        shown := ToUpper(normal);
      }
      var tenant := Tenant(normal, shown);
      var ok := conn.Call();
      if !ok {
        return Err("store: create tenant");
      }
      if exists i :: 0 <= i < |tenants| && tenants[i].slug == normal {
        return Err("store: tenant slug already exists");
      }
      tenants := tenants + [tenant];
      r := Ok(tenant);
    }

    method UpdateTenantName(slug: string, name: string) returns (r: Result<Tenant>)
      modifies conn`calls, this`tenants
      ensures r.Ok? ==>
        Rename(old(Contents()), slug, name) == Ok(Contents()) &&
        r.value in tenants && r.value.slug == NormalizeSlug(slug) && r.value.name == TrimSpace(name)
      ensures r.Err? ==> Contents() == old(Contents()) && (conn.Healthy() ==> Rename(Contents(), slug, name).Err?)
      ensures r.Ok? ==>
        exists i :: 0 <= i < |old(tenants)| && Spells(slug, old(tenants)[i].slug) &&
          tenants == old(tenants)[i := Tenant(old(tenants)[i].slug, TrimSpace(name))]
      ensures conn.Healthy() ==> (r.Ok? <==> !AllSpace(name) && exists w :: Names(slug, old(tenants), w))
    {
      NamesIff(slug, tenants, NormalizeSlug(slug));
      NamesOnly(slug, tenants);
      BlankIffAllSpace(name);
      hide NormalizeSlug, TrimSpace, AllSpace, Spells;
      var normal, shown := NormalizeSlug(slug), TrimSpace(name);
      if normal == "" || shown == "" {
        return Err("store: tenant slug and name are required");
      }
      var ok := conn.Call();
      if !ok {
        return Err("store: update tenant");
      }
      var i := TenantAt(tenants, normal);
      if i < 0 {
        return Err("store: tenant not found");
      }
      tenants := tenants[i := tenants[i].(name := shown)];
      r := Ok(tenants[i]);
    }

    // Returns the id and the cleartext of the new key.
    method IssueAPIKey(slug: string, keyLabel: string, bytes: SecretBytes) returns (r: Result<(string, string)>)
      modifies conn`calls, this`keys, this`nextId
      ensures r.Ok? ==> Issue(old(Contents()), slug, keyLabel, bytes) == Ok(Contents())
      ensures r.Ok? ==> r.value == (KeyId(old(nextId)), FullSecret(old(nextId), bytes))
      ensures r.Err? ==>
        Contents() == old(Contents()) && (conn.Healthy() ==> Issue(Contents(), slug, keyLabel, bytes).Err?)
      ensures r.Ok? ==>
        |keys| == |old(keys)| + 1 && keys[..|old(keys)|] == old(keys) &&
        var k := keys[|old(keys)|];
        Names(slug, tenants, k.tenantId) && Meets(k, slug, r.value.1) && k.keyId == r.value.0 &&
        k.keyLabel == TrimSpace(keyLabel) && r.value.1 == r.value.0 + "." + EncodeToString(bytes)
      ensures conn.Healthy() ==> (r.Ok? <==> exists w :: Names(slug, tenants, w))
    {
      NamesIff(slug, tenants, NormalizeSlug(slug));
      NamesOnly(slug, tenants);
      hide NormalizeSlug, TrimSpace, Spells, EncodeToString, KeyId;
      var normal := NormalizeSlug(slug);
      if normal == "" {
        return Err("store: tenant slug required");
      }
      var ok := conn.Call();
      if !ok {
        return Err("store: find tenant");
      }
      var i := TenantAt(tenants, normal);
      if i < 0 {
        return Err("store: tenant not found");
      }
      var keyId := KeyId(nextId);
      var secret := EncodeToString(bytes);
      var fullSecret := keyId + "." + secret;
      var record := Key(tenants[i].slug, keyId, Sha256(fullSecret), TrimSpace(keyLabel), false);
      ok := conn.Call();
      if !ok {
        return Err("store: insert key");
      }
      keys, nextId := keys + [record], nextId + 1;
      r := Ok((keyId, fullSecret));
    }

    method VerifyAPIKey(tenantId: string, apiKey: string) returns (err: Option<string>)
      modifies conn`calls
      ensures err.None? ==> Verifies(Contents(), tenantId, apiKey)
      ensures conn.Healthy() ==> (err.None? <==> Verifies(Contents(), tenantId, apiKey))
      ensures Inv(Contents()) && conn.Healthy() ==>
        (err.None? <==> exists k :: k in keys && Meets(k, tenantId, apiKey))
    {
      if Inv(Contents()) { ActiveIffMeets(Contents(), tenantId, apiKey); }
      hide NormalizeSlug, TrimSpace, HasPrefix, Cut, Spells, Inv;
      var slug := NormalizeSlug(tenantId);
      var cut := Cut(TrimSpace(apiKey));
      if slug == "" || cut.None? {
        return Some("store: invalid API key");
      }
      var (keyId, secret) := cut.value;
      if !HasPrefix(keyId, "key_") || secret == "" {
        return Some("store: invalid API key");
      }
      var ok := conn.Call();
      if !ok {
        return Some("store: find API key");
      }
      var i := KeyAt(keys, slug, keyId);
      if i < 0 {
        return Some("store: invalid API key");
      }
      if keys[i].revoked {
        return Some("store: invalid API key");
      }
      var actual := Sha256(apiKey);
      if actual != keys[i].hash {
        return Some("store: invalid API key");
      }
      err := None;
    }

    // Revokes the first unrevoked key that the filter accepts.
    method RevokeAPIKey(tenantId: string, keyId: string) returns (err: Option<string>)
      modifies conn`calls, this`keys
      ensures err.None? ==> Revoke(old(Contents()), tenantId, keyId) == Ok(Contents())
      ensures err.Some? ==>
        Contents() == old(Contents()) && (conn.Healthy() ==> Revoke(Contents(), tenantId, keyId).Err?)
      ensures err.None? ==>
        exists i :: 0 <= i < |old(keys)| && Revocable(old(keys)[i], tenantId, keyId) &&
          keys == old(keys)[i := old(keys)[i].(revoked := true)]
      ensures conn.Healthy() ==> (err.None? <==> exists k :: k in old(keys) && Revocable(k, tenantId, keyId))
    {
      NormalizeSlugIff(tenantId, NormalizeSlug(tenantId));
      SpelledOnly(tenantId);
      hide NormalizeSlug, TrimSpace, HasPrefix, Spells;
      var slug, id := NormalizeSlug(tenantId), TrimSpace(keyId);
      if slug == "" || !HasPrefix(id, "key_") {
        return Some("store: tenant and key ID are required");
      }
      var ok := conn.Call();
      if !ok {
        return Some("store: revoke API key");
      }
      for i := 0 to |keys|
        invariant keys == old(keys) && nextId == old(nextId) && tenants == old(tenants)
        invariant forall j :: 0 <= j < i ==> !(HasKey(keys[j], slug, id) && !keys[j].revoked)
      {
        assert keys[i] in keys;
        if HasKey(keys[i], slug, id) && !keys[i].revoked {
          assert Revocable(keys[i], tenantId, keyId);
          keys := keys[i := keys[i].(revoked := true)];
          return None;
        }
      }
      err := Some("store: active API key not found");
    }
  }
}
