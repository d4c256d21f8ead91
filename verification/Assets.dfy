/** The asset collections and what each store call does to them. */
module Assets {
  import opened Text
  import opened AssetNumbers

  // The descriptive fields of an asset, which no operation looks at.
  datatype Details = Details(
    description1: string, quantity: int, originalValue: real, currency: string,
    depreciationMethod: string, barcodeId: string, createdBy: string)

  // group is the office, year, category and type that the number was printed from.
  datatype Asset = Asset(
    assetNo: string, tenantId: string, group: Group, serialIncrement: string,
    location: string, status: string, details: Details)

  datatype AssetLink = AssetLink(assetNo: string, tenantId: string, source: string, externalId: string)

  datatype AssetHistory = AssetHistory(
    assetNo: string, tenantId: string, eventType: string,
    fromLocation: string, toLocation: string, performedBy: string, notes: string)

  // ---------- generating a number ----------

  predicate InGroup(a: Asset, tenantId: string, g: Group) {
    a.tenantId == tenantId && a.group == g
  }

  /** FindOne sorted by serialIncrement, descending: some asset of the tenant's group whose serial
      no other sorts after, or none when the group is empty. */
  ghost predicate FindLast(assets: seq<Asset>, tenantId: string, g: Group, last: Option<Asset>) {
    match last
    case None => forall a :: a in assets ==> !InGroup(a, tenantId, g)
    case Some(l) =>
      l in assets && InGroup(l, tenantId, g) &&
      forall a :: a in assets && InGroup(a, tenantId, g) ==> Sorts(a.serialIncrement, l.serialIncrement)
  }

  predicate Taken(assets: seq<Asset>, assetNo: string) {
    exists a :: a in assets && a.assetNo == assetNo
  }

  function NextSerial(last: Option<Asset>): Option<int> {
    match last
    case None => Some(1)
    case Some(l) => (match Atoi(l.serialIncrement) case None => None case Some(n) => Some(n + 1))
  }

  // Whether the number is free is asked of all tenants.
  function GenerateAssetNumber(assets: seq<Asset>, g: Group, last: Option<Asset>): Result<string> {
    match NextSerial(last)
    case None => Err("store: parse serial increment")
    case Some(n) => if Taken(assets, Print(g, n)) then Err("store: asset number already exists") else Ok(Print(g, n))
  }

  // ---------- inserting and updating ----------

  // The unique index assets_number.
  function CreateAsset(assets: seq<Asset>, a: Asset): Result<seq<Asset>> {
    if Taken(assets, a.assetNo) then Err("store: insert asset: duplicate key assets_number") else Ok(assets + [a])
  }

  function AssetAt(assets: seq<Asset>, tenantId: string, assetNo: string): (i: int)
    ensures -1 <= i < |assets|
    ensures 0 <= i ==> assets[i].tenantId == tenantId && assets[i].assetNo == assetNo
    ensures i < 0 ==> forall j :: 0 <= j < |assets| ==>
      !(assets[j].tenantId == tenantId && assets[j].assetNo == assetNo)
  {
    if assets == [] then -1
    else
      var n := |assets| - 1;
      var i := AssetAt(assets[..n], tenantId, assetNo);
      if 0 <= i then i else if assets[n].tenantId == tenantId && assets[n].assetNo == assetNo then n else -1
  }

  // The whole document is written over the stored one.
  function UpdateAsset(assets: seq<Asset>, a: Asset): Result<seq<Asset>> {
    var i := AssetAt(assets, a.tenantId, a.assetNo);
    if i < 0 then Err("store: asset not found") else Ok(assets[i := a])
  }

  // ---------- the serials of a group ----------

  // Number and serial of the group's assets, in the order in which they were created.
  function Numbers(assets: seq<Asset>, tenantId: string, g: Group): seq<(string, string)> {
    if assets == [] then []
    else
      var n := |assets| - 1;
      Numbers(assets[..n], tenantId, g) +
      (if InGroup(assets[n], tenantId, g) then [(assets[n].assetNo, assets[n].serialIncrement)] else [])
  }

  // The n-th asset of a group carries serial n, for n up to 10000.
  ghost predicate Dense(assets: seq<Asset>, tenantId: string, g: Group) {
    var numbers := Numbers(assets, tenantId, g);
    |numbers| <= 10000 && forall k :: 0 <= k < |numbers| ==> numbers[k] == (Print(g, k + 1), SerialText(k + 1))
  }

  ghost predicate NumbersUnique(assets: seq<Asset>) {
    forall i, j :: 0 <= i < j < |assets| ==> assets[i].assetNo != assets[j].assetNo
  }

  lemma NumbersAppend(assets: seq<Asset>, a: Asset, tenantId: string, g: Group)
    ensures Numbers(assets + [a], tenantId, g) ==
      Numbers(assets, tenantId, g) + (if InGroup(a, tenantId, g) then [(a.assetNo, a.serialIncrement)] else [])
  {
    assert (assets + [a])[..|assets|] == assets;
  }

  lemma {:induction false} NumberAt(assets: seq<Asset>, tenantId: string, g: Group, i: nat) returns (k: nat)
    requires i < |assets| && InGroup(assets[i], tenantId, g)
    ensures k < |Numbers(assets, tenantId, g)|
    ensures Numbers(assets, tenantId, g)[k] == (assets[i].assetNo, assets[i].serialIncrement)
    decreases |assets|
  {
    var n := |assets| - 1;
    if i == n {
      k := |Numbers(assets[..n], tenantId, g)|;
    } else {
      k := NumberAt(assets[..n], tenantId, g, i);
    }
  }

  lemma {:induction false} AssetOfNumber(assets: seq<Asset>, tenantId: string, g: Group, k: nat) returns (i: nat)
    requires k < |Numbers(assets, tenantId, g)|
    ensures i < |assets| && InGroup(assets[i], tenantId, g)
    ensures Numbers(assets, tenantId, g)[k] == (assets[i].assetNo, assets[i].serialIncrement)
    decreases |assets|
  {
    var n := |assets| - 1;
    if k < |Numbers(assets[..n], tenantId, g)| {
      i := AssetOfNumber(assets[..n], tenantId, g, k);
    } else {
      i := n;
    }
  }

  // Overwriting a document that keeps its number and group moves no serial.
  lemma {:induction false} NumbersUpdate(assets: seq<Asset>, i: nat, a: Asset, tenantId: string, g: Group)
    requires i < |assets| && a.tenantId == assets[i].tenantId && a.group == assets[i].group
    requires a.assetNo == assets[i].assetNo && a.serialIncrement == assets[i].serialIncrement
    ensures Numbers(assets[i := a], tenantId, g) == Numbers(assets, tenantId, g)
    decreases |assets|
  {
    var n := |assets| - 1;
    if i == n {
      assert assets[i := a][..n] == assets[..n];
    } else {
      assert assets[i := a][..n] == assets[..n][i := a];
      NumbersUpdate(assets[..n], i, a, tenantId, g);
    }
  }

  // ---------- what the allocator computes ----------

  lemma TakenByGroup(assets: seq<Asset>, tenantId: string, g: Group, serial: int)
    requires Dense(assets, tenantId, g) && 1 <= serial <= |Numbers(assets, tenantId, g)|
    ensures Taken(assets, Print(g, serial))
  {
    var i := AssetOfNumber(assets, tenantId, g, serial - 1);
    assert assets[i] in assets;
  }

  lemma {:induction false} NoneInGroup(assets: seq<Asset>, tenantId: string, g: Group)
    requires forall a :: a in assets ==> !InGroup(a, tenantId, g)
    ensures Numbers(assets, tenantId, g) == []
    decreases |assets|
  {
    if assets != [] {
      NoneInGroup(assets[..|assets| - 1], tenantId, g);
    }
  }

  lemma LastOfDense(assets: seq<Asset>, tenantId: string, g: Group, l: Asset)
    requires Dense(assets, tenantId, g) && FindLast(assets, tenantId, g, Some(l))
    ensures var n := |Numbers(assets, tenantId, g)|;
      1 <= n && l.serialIncrement == Four(if n <= 9999 then n else 9999)
  {
    hide Numbers, Four, Sorts, SerialText, Print;
    var numbers := Numbers(assets, tenantId, g);
    var i :| 0 <= i < |assets| && assets[i] == l;
    var k := NumberAt(assets, tenantId, g, i);
    var top := if |numbers| <= 9999 then |numbers| else 9999;
    var j := AssetOfNumber(assets, tenantId, g, top - 1);
    assert assets[j] in assets;
    assert Sorts(Four(top), l.serialIncrement);
    if k + 1 <= 9999 {
      FourSorts(top, k + 1);
    } else {
      FourZero();
      FourSorts(top, 0);
    }
  }

  lemma FourZero()
    ensures Four(0) == "0000"
  {
  }

  lemma NextOfDense(assets: seq<Asset>, tenantId: string, g: Group, last: Option<Asset>)
    requires Dense(assets, tenantId, g) && FindLast(assets, tenantId, g, last)
    ensures var n := |Numbers(assets, tenantId, g)|;
      NextSerial(last) == Some(if n <= 9999 then n + 1 else 10000)
  {
    hide Print, SerialText, Sorts, Numbers;
    var n := |Numbers(assets, tenantId, g)|;
    if last.None? {
      NoneInGroup(assets, tenantId, g);
    } else {
      LastOfDense(assets, tenantId, g, last.value);
      AtoiFour(if n <= 9999 then n else 9999);
    }
  }

  /** On serials 1 to n the string-sorted maximum is the numeric maximum, so the allocator proposes
      n + 1 while it is free; with 10000 assets in the group it can only refuse. */
  lemma GenerateProposesNext(assets: seq<Asset>, tenantId: string, g: Group, last: Option<Asset>)
    requires Dense(assets, tenantId, g) && FindLast(assets, tenantId, g, last)
    ensures var n := |Numbers(assets, tenantId, g)|;
      var r := GenerateAssetNumber(assets, g, last);
      (n <= 9999 ==>
        r == if Taken(assets, Print(g, n + 1)) then Err("store: asset number already exists")
             else Ok(Print(g, n + 1))) &&
      (n == 10000 ==> r.Err?)
  {
    hide Numbers, Print, SerialText, Taken;
    NextOfDense(assets, tenantId, g, last);
    if |Numbers(assets, tenantId, g)| == 10000 {
      TakenByGroup(assets, tenantId, g, 10000);
    }
  }
}
