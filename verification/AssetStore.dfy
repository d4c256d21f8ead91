/** The asset collections of the MongoDB store. Every method is one store call, GenerateAssetNumber
    two; a call may fail, and then it has changed nothing. */
module AssetStore {
  import opened Connections
  import opened Text
  import opened AssetNumbers
  import opened Assets

  // ---------- the last asset of a group ----------

  lemma {:induction false} SortsSelf(a: string)
    ensures Sorts(a, a)
    decreases a
  {
    if a != "" {
      SortsSelf(a[1..]);
    }
  }

  lemma {:induction false} SortsTotal(a: string, b: string)
    ensures Sorts(a, b) || Sorts(b, a)
    decreases a
  {
    if a != "" && b != "" {
      SortsTotal(a[1..], b[1..]);
    }
  }

  lemma {:induction false} SortsTransitive(a: string, b: string, c: string)
    requires Sorts(a, b) && Sorts(b, c)
    ensures Sorts(a, c)
    decreases a
  {
    if a != "" && a[0] == b[0] == c[0] {
      SortsTransitive(a[1..], b[1..], c[1..]);
    }
  }

  // The asset of the tenant's group that the sort puts first.
  function LastInGroup(assets: seq<Asset>, tenantId: string, g: Group): (last: Option<Asset>)
    ensures FindLast(assets, tenantId, g, last)
  {
    if assets == [] then None
    else
      var n := |assets| - 1;
      var last := LastInGroup(assets[..n], tenantId, g);
      LastOfLonger(assets, tenantId, g, last);
      if InGroup(assets[n], tenantId, g) &&
        (last.None? || !Sorts(assets[n].serialIncrement, last.value.serialIncrement))
      then Some(assets[n])
      else last
  }

  lemma LastOfLonger(assets: seq<Asset>, tenantId: string, g: Group, last: Option<Asset>)
    requires assets != [] && FindLast(assets[..|assets| - 1], tenantId, g, last)
    ensures var a := assets[|assets| - 1];
      FindLast(assets, tenantId, g,
        if InGroup(a, tenantId, g) && (last.None? || !Sorts(a.serialIncrement, last.value.serialIncrement)) then Some(a)
        else last)
  {
    hide Sorts;
    var n := |assets| - 1;
    var a := assets[n];
    assert assets == assets[..n] + [a];
    SortsSelf(a.serialIncrement);
    if last.Some? {
      SortsTotal(a.serialIncrement, last.value.serialIncrement);
      if !Sorts(a.serialIncrement, last.value.serialIncrement) {
        forall b | b in assets[..n] && InGroup(b, tenantId, g) ensures Sorts(b.serialIncrement, a.serialIncrement) {
          SortsTransitive(b.serialIncrement, last.value.serialIncrement, a.serialIncrement);
        }
      }
    }
  }

  class MongoStore {
    var assets: seq<Asset>
    var links: seq<AssetLink>
    var history: seq<AssetHistory>

    const conn: Connection

    constructor (conn: Connection)
      ensures assets == [] && links == [] && history == [] && this.conn == conn
    {
      assets, links, history := [], [], [];
      this.conn := conn;
    }

    method GenerateAssetNumber(tenantId: string, g: Group) returns (r: Result<string>)
      modifies conn`calls
      ensures r.Ok? ==> Assets.GenerateAssetNumber(assets, g, LastInGroup(assets, tenantId, g)) == r
      ensures r.Err? && conn.Healthy() ==> Assets.GenerateAssetNumber(assets, g, LastInGroup(assets, tenantId, g)).Err?
    {
      var ok := conn.Call();
      if !ok {
        return Err("store: find last asset");
      }
      var nextSerial: int;
      var last := LastInGroup(assets, tenantId, g);
      if last.None? {
        nextSerial := 1;
      } else {
        var currentSerial := Atoi(last.value.serialIncrement);
        if currentSerial.None? {
          return Err("store: parse serial increment");
        }
        nextSerial := currentSerial.value + 1;
      }
      var assetNo := Print(g, nextSerial);
      ok := conn.Call();
      if !ok {
        return Err("store: check asset number uniqueness");
      }
      if exists i :: 0 <= i < |assets| && assets[i].assetNo == assetNo {
        return Err("store: asset number already exists");
      }
      r := Ok(assetNo);
    }

    method CreateAsset(a: Asset) returns (r: Result<()>)
      modifies conn`calls, this`assets
      ensures r.Ok? ==> Assets.CreateAsset(old(assets), a) == Ok(assets)
      ensures r.Err? ==> assets == old(assets) && (conn.Healthy() ==> Taken(assets, a.assetNo))
    {
      var ok := conn.Call();
      if !ok {
        return Err("store: insert asset");
      }
      if exists i :: 0 <= i < |assets| && assets[i].assetNo == a.assetNo {
        return Err("store: insert asset: duplicate key assets_number");
      }
      assets := assets + [a];
      r := Ok(());
    }

    method UpdateAsset(a: Asset) returns (r: Result<()>)
      modifies conn`calls, this`assets
      ensures r.Ok? ==> Assets.UpdateAsset(old(assets), a) == Ok(assets)
      ensures r.Err? ==> assets == old(assets) && (conn.Healthy() ==> Assets.UpdateAsset(assets, a).Err?)
    {
      var ok := conn.Call();
      if !ok {
        return Err("store: update asset");
      }
      var i := AssetAt(assets, a.tenantId, a.assetNo);
      if i < 0 {
        return Err("store: asset not found");
      }
      assets := assets[i := a];
      r := Ok(());
    }

    method GetAssetByNumber(tenantId: string, assetNo: string) returns (r: Result<Option<Asset>>)
      modifies conn`calls
      ensures r.Ok? ==>
        var i := AssetAt(assets, tenantId, assetNo);
        r.value == if i < 0 then None else Some(assets[i])
      ensures r.Err? ==> !conn.Healthy()
    {
      var ok := conn.Call();
      if !ok {
        return Err("store: get asset by number");
      }
      var i := AssetAt(assets, tenantId, assetNo);
      r := Ok(if i < 0 then None else Some(assets[i]));
    }

    method CreateAssetLink(link: AssetLink) returns (r: Result<()>)
      modifies conn`calls, this`links
      ensures links == if r.Ok? then old(links) + [link] else old(links)
      ensures conn.Healthy() ==> r.Ok?
    {
      var ok := conn.Call();
      if !ok {
        return Err("store: insert asset link");
      }
      links := links + [link];
      r := Ok(());
    }

    method GetAssetLinks(tenantId: string, assetNo: string) returns (r: Result<seq<AssetLink>>)
      modifies conn`calls
      ensures r.Ok? ==> forall l :: l in r.value <==> l in links && l.tenantId == tenantId && l.assetNo == assetNo
      ensures r.Err? ==> !conn.Healthy()
    {
      var ok := conn.Call();
      if !ok {
        return Err("store: find asset links");
      }
      var found: seq<AssetLink> := [];
      for i := 0 to |links|
        invariant forall l :: l in found <==> l in links[..i] && l.tenantId == tenantId && l.assetNo == assetNo
      {
        assert links[..i + 1] == links[..i] + [links[i]];
        if links[i].tenantId == tenantId && links[i].assetNo == assetNo {
          found := found + [links[i]];
        }
      }
      assert links[..|links|] == links;
      r := Ok(found);
    }

    method CreateAssetHistory(event: AssetHistory) returns (r: Result<()>)
      modifies conn`calls, this`history
      ensures history == if r.Ok? then old(history) + [event] else old(history)
      ensures conn.Healthy() ==> r.Ok?
    {
      var ok := conn.Call();
      if !ok {
        return Err("store: insert asset history");
      }
      history := history + [event];
      r := Ok(());
    }
  }
}
