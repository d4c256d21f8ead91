/** How a tenant's slug may be spelled in a request, and what that means for its keys. */
module ApiKeySpellings {
  import opened Text
  import opened ApiKeys

  // ---------- spellings of a slug ----------

  // A character of a spelling, and the one of the slug that it stands for: letters may be capitals
  // and hyphens may be blanks.
  predicate FoldsChar(c: char, d: char) {
    IsSlugChar(d) &&
    (c == d || ('A' <= c <= 'Z' && 'a' <= d <= 'z' && c as int - 'A' as int == d as int - 'a' as int) ||
     (c == ' ' && d == '-'))
  }

  predicate Folds(m: string, w: string) {
    |m| == |w| && m != "" && Trimmed(m) && forall i :: 0 <= i < |m| ==> FoldsChar(m[i], w[i])
  }

  ghost predicate Padded(text: string, a: string, m: string, b: string) {
    AllSpace(a) && AllSpace(b) && text == a + m + b
  }

  // The text spells the slug, with any white space around it.
  ghost predicate Spells(text: string, w: string) {
    exists a, m, b :: Padded(text, a, m, b) && Folds(m, w)
  }

  lemma LowerPadded(a: string, m: string, b: string)
    requires AllSpace(a) && AllSpace(b) && Trimmed(m) && m != ""
    ensures TrimSpace(ToLower(a + m + b)) == ToLower(m)
  {
    CaseKeepsSpace(m[0]);
    CaseKeepsSpace(m[|m| - 1]);
    forall i | 0 <= i < |a| ensures IsSpace(ToLower(a)[i]) {
      CaseKeepsSpace(a[i]);
    }
    forall i | 0 <= i < |b| ensures IsSpace(ToLower(b)[i]) {
      CaseKeepsSpace(b[i]);
    }
    assert ToLower(a + m + b) == ToLower(a) + ToLower(m) + ToLower(b);
    TrimPadded(ToLower(a), ToLower(m), ToLower(b));
  }

  lemma FoldsIff(m: string, w: string)
    requires m != "" && Trimmed(m)
    ensures Folds(m, w) <==> ReplaceAll(ToLower(m), ' ', '-') == w && IsSlug(w)
  {
    var s := ReplaceAll(ToLower(m), ' ', '-');
    forall i | 0 <= i < |m| && i < |w| ensures FoldsChar(m[i], w[i]) <==> s[i] == w[i] && IsSlugChar(w[i]) {
      FoldsCharIff(m[i], w[i]);
    }
    hide FoldsChar, IsSlugChar, LowerChar;
    if Folds(m, w) {
      assert s == w;
    }
  }

  lemma FoldsCharIff(c: char, d: char)
    ensures FoldsChar(c, d) <==> (if LowerChar(c) == ' ' then '-' else LowerChar(c)) == d && IsSlugChar(d)
  {
  }

  /** Normalising a text gives the slug that it spells, and "" exactly when it spells none. */
  lemma NormalizeSlugIff(text: string, w: string)
    ensures w != "" ==> (NormalizeSlug(text) == w <==> Spells(text, w))
    ensures NormalizeSlug(text) == "" <==> forall v :: !Spells(text, v)
  {
    SpelledSlug(text, w);
    SpelledOnly(text);
    if NormalizeSlug(text) != "" {
      SpelledSlug(text, NormalizeSlug(text));
    }
  }

  lemma SpelledOnly(text: string)
    ensures forall v :: Spells(text, v) ==> NormalizeSlug(text) == v != ""
  {
    hide NormalizeSlug, IsSlug, Folds, Spells;
    forall v | Spells(text, v) ensures NormalizeSlug(text) == v != "" {
      SpelledSlug(text, v);
    }
  }

  lemma SpelledSlug(text: string, w: string)
    ensures Spells(text, w) ==> NormalizeSlug(text) == w != ""
    ensures w != "" && NormalizeSlug(text) == w ==> Spells(text, w)
  {
    hide IsSlug, TrimSpace, ToLower, ReplaceAll;
    if Spells(text, w) {
      var a, m, b :| Padded(text, a, m, b) && Folds(m, w);
      LowerPadded(a, m, b);
      FoldsIff(m, w);
    }
    if w != "" && NormalizeSlug(text) == w {
      var a, b := TrimParts(text);
      var m := TrimSpace(text);
      assert ToLower("") == "" && ReplaceAll("", ' ', '-') == "";
      if m == "" {
        NothingSpelled(text);
      } else {
        LowerPadded(a, m, b);
        FoldsIff(m, w);
        assert Padded(text, a, m, b);
      }
    }
  }

  lemma NothingSpelled(text: string)
    requires TrimSpace(text) == ""
    ensures NormalizeSlug(text) == ""
  {
    BlankIffAllSpace(text);
    forall i | 0 <= i < |text| ensures IsSpace(ToLower(text)[i]) {
      CaseKeepsSpace(text[i]);
    }
    BlankIffAllSpace(ToLower(text));
  }

  // ---------- keys ----------

  /** After any sequence of operations a key is accepted for every spelling of the slug that it was
      issued to and is not revoked for, and for no other text. */
  lemma AcceptedIffSpelled(ops: seq<Operation>, text: string, apiKey: string)
    ensures Verifies(Run(ops), text, apiKey) <==> exists w :: Spells(text, w) && Outstanding(ops, w, apiKey)
  {
    hide Run, Verifies, Outstanding, NormalizeSlug, Spells;
    VerifiesIffOutstanding(ops, text, apiKey);
    NormalizeSlugIff(text, NormalizeSlug(text));
    SpelledOnly(text);
    if Outstanding(ops, NormalizeSlug(text), apiKey) {
      OutstandingSlug(ops, NormalizeSlug(text), apiKey);
    }
  }

  lemma OutstandingSlug(ops: seq<Operation>, slug: string, apiKey: string)
    requires Outstanding(ops, slug, apiKey)
    ensures slug != ""
  {
    hide FullSecret, NormalizeSlug;
    var j :| IssuedAt(ops, j, slug, apiKey);
  }

  // A key is issued to, and revoked for, whatever slug the text of the operation spells.
  lemma IssuedIffSpelled(ops: seq<Operation>, j: nat, slug: string, apiKey: string)
    requires j < |ops| && slug != ""
    ensures IssuedAt(ops, j, slug, apiKey) <==>
      ops[j].IssueAPIKey? && Spells(ops[j].slug, slug) && (exists t :: t in Run(ops[..j]).tenants && t.slug == slug) &&
      apiKey == KeyId(Run(ops[..j]).nextId) + "." + EncodeToString(ops[j].bytes)
    ensures RevokesAt(ops, j, slug, IdOf(apiKey)) <==>
      ops[j].RevokeAPIKey? && Spells(ops[j].slug, slug) && TrimSpace(ops[j].keyId) == IdOf(apiKey)
  {
    hide Run, EncodeToString, KeyId, NormalizeSlug, Spells, TrimSpace, IdOf;
    NormalizeSlugIff(ops[j].slug, slug);
    var tenants := Run(ops[..j]).tenants;
    var i := TenantAt(tenants, slug);
    assert 0 <= i ==> tenants[i] in tenants;
  }

  // ---------- the letters of a secret ----------

  // The value of a letter, by table 2 of RFC 4648: capitals, small letters, digits, '-' and '_'.
  function ValueOf(c: char): nat {
    if 'A' <= c <= 'Z' then (c - 'A') as nat
    else if 'a' <= c <= 'z' then 26 + (c - 'a') as nat
    else if '0' <= c <= '9' then 52 + (c - '0') as nat
    else if c == '-' then 62
    else 63
  }

  function Decode(s: string): seq<int> {
    if |s| < 4 then []
    else
      var a, b, c, d := ValueOf(s[0]), ValueOf(s[1]), ValueOf(s[2]), ValueOf(s[3]);
      [a * 4 + b / 16, b % 16 * 16 + c / 4, c % 4 * 64 + d] + Decode(s[4..])
  }

  lemma LetterValue(n: nat)
    requires n < 64
    ensures ValueOf(Letter(n)) == n
  {
  }

  lemma BitsRejoin(a: nat, b: nat, c: nat)
    requires a < 256 && b < 256 && c < 256
    ensures var v, w, x, y := a / 4, a % 4 * 16 + b / 16, b % 16 * 4 + c / 64, c % 64;
      w < 64 && x < 64 && v * 4 + w / 16 == a && w % 16 * 16 + x / 4 == b && x % 4 * 64 + y == c
  {
    assert (a % 4 * 16 + b / 16) / 16 == a % 4;
    assert (b % 16 * 4 + c / 64) / 4 == b % 16;
  }

  lemma GroupDecodes(a: nat, b: nat, c: nat)
    requires a < 256 && b < 256 && c < 256
    ensures Decode(Letters(a, b, c)) == [a, b, c]
  {
    hide ValueOf, Letter, Decode;
    BitsRejoin(a, b, c);
    LetterValue(a / 4);
    LetterValue(a % 4 * 16 + b / 16);
    LetterValue(b % 16 * 4 + c / 64);
    LetterValue(c % 64);
    DecodeFour(Letters(a, b, c));
  }

  lemma DecodeFour(s: string)
    requires |s| == 4
    ensures var a, b, c, d := ValueOf(s[0]), ValueOf(s[1]), ValueOf(s[2]), ValueOf(s[3]);
      Decode(s) == [a * 4 + b / 16, b % 16 * 16 + c / 4, c % 4 * 64 + d]
  {
    hide ValueOf;
    assert s[4..] == "";
  }

  /** No two secrets are written alike: the letters read back as the bytes. */
  lemma {:induction false} EncodedDecodes(bytes: seq<Byte>)
    requires |bytes| % 3 == 0
    ensures Decode(EncodeToString(bytes)) == bytes
    decreases |bytes|
  {
    hide Decode, Letters;
    if bytes == [] {
      NothingDecodes();
    } else {
      EncodedDecodes(bytes[3..]);
      GroupDecodes(bytes[0], bytes[1], bytes[2]);
      DecodeGroup(Letters(bytes[0], bytes[1], bytes[2]), EncodeToString(bytes[3..]));
      assert bytes == [bytes[0], bytes[1], bytes[2]] + bytes[3..];
    }
  }

  lemma NothingDecodes()
    ensures Decode("") == []
  {
  }

  lemma DecodeGroup(four: string, rest: string)
    requires |four| == 4
    ensures Decode(four + rest) == Decode(four) + Decode(rest)
  {
    hide ValueOf;
    assert (four + rest)[4..] == rest && four[4..] == "";
  }
}
