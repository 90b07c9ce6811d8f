/** The marketplace catalog (chaincode/sharing-cc): gems with a price, and an
    index of every created gem's ID kept under the key "gems" of the same
    key space as the gems themselves. Creating a gem writes two keys one
    after the other, with no rollback if the second step fails. */
module Catalog {
  import opened Records
  import opened WorldState

  /** The key of the index. */
  const GemIndexName := "gems"

  /** The names `Invoke` dispatches on. */
  predicate IsCatalogFunction(name: string)
  {
    name == "createGem" || name == "updateGemPrice" || name == "getAllGems" || name == "query"
  }

  /** `Init`: store the empty index, whatever was there before. The source
      marshals a nil slice, i.e. JSON `null`, which reads back as no IDs. */
  function Init(l: Ledger): (o: Outcome)
    ensures o.response == Ok(Empty)
    ensures WritesOnly(l, o.ledger, GemIndexName)
    ensures GetIndex(o.ledger, GemIndexName) == Success([])
  {
    Outcome(Ok(Empty), l[GemIndexName := IndexRecord([])])
  }

  /** `GetIndex(stub, name)`: the IDs stored under `name`. Absent or
      undecodable bytes are an error, never an empty index. */
  function GetIndex(l: Ledger, name: string): (r: Result<seq<string>, Error>)
    ensures r.Success? <==> name in l && l[name].IndexRecord?
    ensures r.Success? ==> l[name] == IndexRecord(r.value)
    ensures r.Failure? ==> r.error == IndexUndecodable(name, Fault(Get(l, name)))
  {
    match DecodeIndex(Get(l, name))
    case Failure(e) => Failure(IndexUndecodable(name, e))
    case Success(ids) => Success(ids)
  }

  /** `GetState(key)` followed by `json.Unmarshal` into a catalog `Gem`. */
  function LoadCatalogGem(l: Ledger, key: string): (r: Result<CatalogGem, Error>)
    ensures r.Success? <==> Listed(l, key)
    ensures r.Success? ==> l[key] == CatalogRecord(r.value)
    ensures r.Failure? ==> r.error == Undecodable(Fault(Get(l, key)))
  {
    match DecodeCatalogGem(Get(l, key))
    case Failure(e) => Failure(Undecodable(e))
    case Success(g) => Success(g)
  }

  /** A catalog gem can be read back from `key`. */
  predicate Listed(l: Ledger, key: string)
  {
    key in l && l[key].CatalogRecord?
  }

  /** The gem `createGem` persists for a decoded payload. */
  function Created(g: CatalogGem, env: Env): CatalogGem
  {
    g.(createdAt := TxTime(env))
  }

  /** The two sequential writes of `createGem` for an already decoded gem:
      first the record under its ID, then the index, read back after the
      first write, with the ID appended. */
  function CreateGemRecord(l: Ledger, g: CatalogGem, env: Env): (o: Outcome)
    ensures var stamped := Created(g, env);
            var afterRecord := l[g.id := CatalogRecord(stamped)];
            && (o.response.Ok? <==> g.id != GemIndexName && GetIndex(l, GemIndexName).Success?)
            && (o.response.Ok? ==>
                  && o.response.payload == Empty
                  && o.ledger == afterRecord[GemIndexName := IndexRecord(GetIndex(l, GemIndexName).value + [g.id])])
            && (o.response.Err? ==> o.ledger == afterRecord && o.response.error.IndexUndecodable?)
  {
    var stamped := Created(g, env);
    var afterRecord := l[stamped.id := CatalogRecord(stamped)];
    match GetIndex(afterRecord, GemIndexName)
    case Failure(e) => Outcome(Err(e), afterRecord)
    case Success(index) =>
      Outcome(Ok(Empty), afterRecord[GemIndexName := IndexRecord(index + [stamped.id])])
  }

  /** `createGem(payload)`: decode the payload, then the two writes of
      `CreateGemRecord`. A payload that does not decode writes nothing. */
  function CreateGem(l: Ledger, args: seq<string>, env: Env): (o: Outcome)
    requires |args| >= 1
    ensures !env.parseJson(args[0]).CatalogRecord? ==>
              o == Outcome(Err(Undecodable(Fault(Some(env.parseJson(args[0]))))), l)
    ensures env.parseJson(args[0]).CatalogRecord? ==>
              o == CreateGemRecord(l, env.parseJson(args[0]).item, env)
  {
    match DecodeCatalogGem(Some(env.parseJson(args[0])))
    case Failure(e) => Outcome(Err(Undecodable(e)), l)
    case Success(g) => CreateGemRecord(l, g, env)
  }

  /** A fully successful creation appends the ID to the index, leaves every
      key but the record and the index alone, and stores the stamped gem. */
  lemma CreateAppendsToIndex(l: Ledger, g: CatalogGem, env: Env)
    requires g.id != GemIndexName
    requires GetIndex(l, GemIndexName).Success?
    ensures var o := CreateGemRecord(l, g, env);
            var index := GetIndex(l, GemIndexName).value;
            && o.response.Ok?
            && GetIndex(o.ledger, GemIndexName) == Success(index + [g.id])
            && Listed(o.ledger, g.id) && o.ledger[g.id].item.createdAt == TxTime(env)
            && o.ledger[g.id].item.(createdAt := g.createdAt) == g
            && forall k :: k in l && k != g.id && k != GemIndexName ==> k in o.ledger && o.ledger[k] == l[k]
  {
  }

  /** The index is never deduplicated: creating an ID that is already listed
      lists it once more. */
  lemma CreateDuplicatesIndexEntry(l: Ledger, g: CatalogGem, env: Env)
    requires GetIndex(l, GemIndexName).Success?
    requires g.id in GetIndex(l, GemIndexName).value
    requires g.id != GemIndexName
    ensures var index := GetIndex(l, GemIndexName).value;
            var after := GetIndex(CreateGemRecord(l, g, env).ledger, GemIndexName);
            && after.Success?
            && multiset(after.value)[g.id] == multiset(index)[g.id] + 1
            && multiset(after.value)[g.id] >= 2
  {
  }

  /** When the index cannot be read, creation reports the error but the
      record written first stays: a gem that no listing reaches. */
  lemma OrphanedRecord(l: Ledger, g: CatalogGem, env: Env)
    requires g.id != GemIndexName
    requires GetIndex(l, GemIndexName).Failure?
    ensures var o := CreateGemRecord(l, g, env);
            && o.response == Err(IndexUndecodable(GemIndexName, Fault(Get(l, GemIndexName))))
            && Listed(o.ledger, g.id)
            && o.ledger[g.id] == CatalogRecord(Created(g, env))
            && GetIndex(o.ledger, GemIndexName).Failure?
  {
  }

  /** A gem whose ID is "gems" overwrites the index with itself: the call
      then fails to read the index back, and the index is gone. */
  lemma GemNamedGemsClobbersIndex(l: Ledger, g: CatalogGem, env: Env)
    requires g.id == GemIndexName
    ensures var o := CreateGemRecord(l, g, env);
            && o.response == Err(IndexUndecodable(GemIndexName, WrongShape("catalog gem")))
            && o.ledger[GemIndexName] == CatalogRecord(Created(g, env))
            && GetIndex(o.ledger, GemIndexName).Failure?
  {
  }

  /** `updateGemPrice(id, price)`: replace the price by whatever
      `ParseFloat` returned and stamp the update time. The parse error is
      dropped, so text that is not a number sets whatever value the parser
      yields (0 in Go). A NaN or infinite result gets through the parse but
      not `json.Marshal`, so the call then fails before writing. A missing
      or undecodable record fails first. */
  function UpdateGemPrice(l: Ledger, args: seq<string>, env: Env): (o: Outcome)
    requires |args| >= 2
    ensures o.response.Ok? <==> Listed(l, args[0]) && env.parseFloat(args[1]).Finite?
    ensures o.response.Err? ==> o.ledger == l
    ensures !Listed(l, args[0]) ==> o.response == Err(Undecodable(Fault(Get(l, args[0]))))
    ensures Listed(l, args[0]) && env.parseFloat(args[1]).NonFinite? ==>
              var text := FormatSpecial(env.parseFloat(args[1]).special);
              && o.response == Err(UnsupportedValue(text))
              && Message(o.response.error) == "json: unsupported value: " + text
              && text in {"NaN", "+Inf", "-Inf"}
    ensures o.response.Ok? ==>
              var g := l[args[0]].item;
              && o.response.payload == Empty
              && WritesOnly(l, o.ledger, g.id)
              && o.ledger[g.id].CatalogRecord?
              && var s := o.ledger[g.id].item;
                 && s.price == env.parseFloat(args[1]).value
                 && s.updatedAt == TxTime(env)
                 && s.(price := g.price, updatedAt := g.updatedAt) == g
  {
    match LoadCatalogGem(l, args[0])
    case Failure(e) => Outcome(Err(e), l)
    case Success(gem) =>
      match env.parseFloat(args[1])
      case NonFinite(special) => Outcome(Err(UnsupportedValue(FormatSpecial(special))), l)
      case Finite(price) =>
        var repriced := gem.(price := price, updatedAt := TxTime(env));
        Outcome(Ok(Empty), l[repriced.id := CatalogRecord(repriced)])
  }

  /** The loop of `getAllGems`: load every ID in order, stopping at the
      first one that does not decode. On success there is one gem per ID,
      duplicates included, each the record stored under that ID; on failure
      the error is that of the first undecodable ID. */
  function LoadAll(l: Ledger, ids: seq<string>): (r: Result<seq<CatalogGem>, Error>)
    ensures r.Success? <==> forall i :: 0 <= i < |ids| ==> Listed(l, ids[i])
    ensures r.Success? ==>
              && |r.value| == |ids|
              && forall i :: 0 <= i < |ids| ==> l[ids[i]] == CatalogRecord(r.value[i])
    ensures r.Failure? ==>
              exists i ::
                && 0 <= i < |ids|
                && !Listed(l, ids[i])
                && (forall j :: 0 <= j < i ==> Listed(l, ids[j]))
                && r.error == Undecodable(Fault(Get(l, ids[i])))
    decreases |ids|
  {
    if ids == [] then Success([])
    else
      match LoadCatalogGem(l, ids[0])
      case Failure(e) =>
        assert !Listed(l, ids[0]);
        Failure(e)
      case Success(g) =>
        match LoadAll(l, ids[1..])
        case Failure(e) =>
          ghost var i :| 0 <= i < |ids[1..]| && !Listed(l, ids[1..][i])
                         && (forall j :: 0 <= j < i ==> Listed(l, ids[1..][j]))
                         && e == Undecodable(Fault(Get(l, ids[1..][i])));
          assert !Listed(l, ids[i + 1]);
          assert forall j :: 0 <= j < i + 1 ==> Listed(l, ids[j]) by {
            forall j | 0 <= j < i + 1 ensures Listed(l, ids[j]) {
              if j > 0 { assert ids[j] == ids[1..][j - 1]; }
            }
          }
          Failure(e)
        case Success(rest) =>
          assert forall i :: 1 <= i < |ids| ==> ids[i] == ids[1..][i - 1];
          Success([g] + rest)
  }

  /** `getAllGems()`: the gems the index lists, in index order. Any failure,
      of the index or of one entry, fails the whole listing. Nothing is
      written. */
  function GetAllGems(l: Ledger): (r: Response)
    ensures r.Ok? <==>
              && GetIndex(l, GemIndexName).Success?
              && forall i :: 0 <= i < |GetIndex(l, GemIndexName).value| ==>
                   Listed(l, GetIndex(l, GemIndexName).value[i])
    ensures r.Ok? ==>
              var index := GetIndex(l, GemIndexName).value;
              && r.payload.GemList?
              && |r.payload.gems| == |index|
              && forall i :: 0 <= i < |index| ==> l[index[i]] == CatalogRecord(r.payload.gems[i])
  {
    match GetIndex(l, GemIndexName)
    case Failure(e) => Err(e)
    case Success(index) =>
      match LoadAll(l, index)
      case Failure(e) => Err(e)
      case Success(gems) => Ok(GemList(gems))
  }

  /** The chaincode's `Invoke`: dispatch on the function name. Reads and
      unknown names leave the ledger untouched; only `createGem` and
      `updateGemPrice` write. */
  function Invoke(l: Ledger, name: string, args: seq<string>, env: Env): (o: Outcome)
    ensures !IsCatalogFunction(name) ==>
              o == Outcome(Err(UnknownFunction), l) && Message(o.response.error) == "Invalid invoke function name"
    ensures name == "getAllGems" ==> o == Outcome(GetAllGems(l), l)
    ensures name == "query" ==> o == Outcome(Query(l, args), l)
    ensures name == "updateGemPrice" && o.response.Err? ==> o.ledger == l
  {
    if name == "createGem" then
      if |args| < 1 then Outcome(Err(ArgumentMissing(0)), l) else CreateGem(l, args, env)
    else if name == "updateGemPrice" then
      if |args| < 1 then Outcome(Err(ArgumentMissing(0)), l)
      else if |args| < 2 then
        // the source decodes the record before it reads args[1]
        match LoadCatalogGem(l, args[0])
        case Failure(e) => Outcome(Err(e), l)
        case Success(_) => Outcome(Err(ArgumentMissing(1)), l)
      else UpdateGemPrice(l, args, env)
    else if name == "getAllGems" then
      Outcome(GetAllGems(l), l)
    else if name == "query" then
      Outcome(Query(l, args), l)
    else
      Outcome(Err(UnknownFunction), l)
  }

  /** The IDs of `gems`, in order. */
  function Ids(gems: seq<CatalogGem>): (ids: seq<string>)
    ensures |ids| == |gems|
    ensures forall i :: 0 <= i < |gems| ==> ids[i] == gems[i].id
  {
    if gems == [] then [] else [gems[0].id] + Ids(gems[1..])
  }

  /** The ledger after creating `gems` one after another. */
  function CreateAll(l: Ledger, gems: seq<CatalogGem>, env: Env): Ledger
    decreases |gems|
  {
    if gems == [] then l
    else CreateAll(CreateGemRecord(l, gems[0], env).ledger, gems[1..], env)
  }

  /** IDs pairwise distinct and none of them the index key. */
  predicate FreshIds(gems: seq<CatalogGem>)
  {
    && (forall i, j :: 0 <= i < j < |gems| ==> gems[i].id != gems[j].id)
    && (forall i :: 0 <= i < |gems| ==> gems[i].id != GemIndexName)
  }

  /** Creating gems, none with the index's own key, on top of a readable
      index appends their IDs in creation order, duplicates included. */
  lemma {:induction false} CreateAllExtendsIndex(l: Ledger, gems: seq<CatalogGem>, env: Env)
    requires GetIndex(l, GemIndexName).Success?
    requires forall i :: 0 <= i < |gems| ==> gems[i].id != GemIndexName
    ensures GetIndex(CreateAll(l, gems, env), GemIndexName)
         == Success(GetIndex(l, GemIndexName).value + Ids(gems))
    decreases |gems|
  {
    var index := GetIndex(l, GemIndexName).value;
    if gems == [] {
      assert index + Ids(gems) == index;
    } else {
      var g := gems[0];
      var l1 := CreateGemRecord(l, g, env).ledger;
      CreateAppendsToIndex(l, g, env);
      assert forall i :: 0 <= i < |gems[1..]| ==> gems[1..][i] == gems[i + 1];
      CreateAllExtendsIndex(l1, gems[1..], env);
      var rest := Ids(gems[1..]);
      assert Ids(gems) == [g.id] + rest;
      AppendAssociates(index, [g.id], rest);
    }
  }

  lemma AppendAssociates<T>(a: seq<T>, b: seq<T>, c: seq<T>)
    ensures a + (b + c) == (a + b) + c
  {
  }

  /** With fresh IDs, every created gem is still stored, stamped, under its
      ID once all the creations are done. */
  lemma {:induction false} CreateAllStoresEach(l: Ledger, gems: seq<CatalogGem>, env: Env)
    requires FreshIds(gems)
    ensures var after := CreateAll(l, gems, env);
            forall i :: 0 <= i < |gems| ==>
              gems[i].id in after && after[gems[i].id] == CatalogRecord(Created(gems[i], env))
    decreases |gems|
  {
    if gems != [] {
      var g := gems[0];
      var l1 := CreateGemRecord(l, g, env).ledger;
      assert forall i :: 0 <= i < |gems[1..]| ==> gems[1..][i] == gems[i + 1];
      assert FreshIds(gems[1..]);
      CreateAllStoresEach(l1, gems[1..], env);
      var after := CreateAll(l, gems, env);
      assert after == CreateAll(l1, gems[1..], env);
      forall i | 0 <= i < |gems|
        ensures gems[i].id in after && after[gems[i].id] == CatalogRecord(Created(gems[i], env))
      {
        if i > 0 {
          assert gems[i] == gems[1..][i - 1];
        } else {
          assert g.id in l1 && l1[g.id] == CatalogRecord(Created(g, env));
          CreateAllKeepsOthers(l1, gems[1..], env, g.id);
        }
      }
    }
  }

  /** Creating gems none of which has ID `key` leaves `key` alone. */
  lemma {:induction false} CreateAllKeepsOthers(l: Ledger, gems: seq<CatalogGem>, env: Env, key: string)
    requires key != GemIndexName && key in l
    requires forall i :: 0 <= i < |gems| ==> gems[i].id != key
    ensures key in CreateAll(l, gems, env) && CreateAll(l, gems, env)[key] == l[key]
    decreases |gems|
  {
    if gems != [] {
      var l1 := CreateGemRecord(l, gems[0], env).ledger;
      assert key in l1 && l1[key] == l[key];
      assert forall i :: 0 <= i < |gems[1..]| ==> gems[1..][i] == gems[i + 1];
      CreateAllKeepsOthers(l1, gems[1..], env, key);
    }
  }

  /** After `Init`, creating gems with fresh IDs and listing them returns
      exactly those gems, stamped, in creation order. */
  lemma ListingFollowsCreationOrder(l: Ledger, gems: seq<CatalogGem>, env: Env)
    requires FreshIds(gems)
    ensures var r := GetAllGems(CreateAll(Init(l).ledger, gems, env));
            && r.Ok? && r.payload.GemList?
            && |r.payload.gems| == |gems|
            && forall i :: 0 <= i < |gems| ==> r.payload.gems[i] == Created(gems[i], env)
  {
    var l0 := Init(l).ledger;
    CreateAllExtendsIndex(l0, gems, env);
    CreateAllStoresEach(l0, gems, env);
    var after := CreateAll(l0, gems, env);
    var index := GetIndex(after, GemIndexName).value;
    assert index == Ids(gems) by {
      assert GetIndex(l0, GemIndexName).value == [];
    }
    assert forall i :: 0 <= i < |index| ==> Listed(after, index[i]);
  }

  /** The end-to-end market scenario: after `Init`, create c1 and c2, then
      reprice c1 with the text "150.5"; the listing has both, c1 carrying the
      parsed price. */
  lemma MarketScenario(l: Ledger, p1: string, p2: string, env: Env)
    requires env.parseJson(p1).CatalogRecord? && env.parseJson(p1).item.id == "c1"
    requires env.parseJson(p2).CatalogRecord? && env.parseJson(p2).item.id == "c2"
    requires env.parseFloat("150.5") == Finite(150.5)
    ensures var o1 := Invoke(Init(l).ledger, "createGem", [p1], env);
            var o2 := Invoke(o1.ledger, "createGem", [p2], env);
            var o3 := Invoke(o2.ledger, "updateGemPrice", ["c1", "150.5"], env);
            var r := Invoke(o3.ledger, "getAllGems", [], env).response;
            && o1.response.Ok? && o2.response.Ok? && o3.response.Ok?
            && r.Ok? && r.payload.GemList? && |r.payload.gems| == 2
            && r.payload.gems[0].id == "c1" && r.payload.gems[1].id == "c2"
            && r.payload.gems[0].price == 150.5
            && r.payload.gems[1] == Created(env.parseJson(p2).item, env)
  {
  }

  /** The ID of a catalog gem; the index carries none. */
  function CatalogGemId(v: Stored): (id: Option<string>)
    ensures id.Some? <==> v.CatalogRecord?
    ensures id.Some? ==> id.value == v.item.id
  {
    if v.CatalogRecord? then Some(v.item.id) else None
  }

  /** Every catalog gem sits under its own ID. The catalog writes a record
      only under that record's ID, so this always holds of what it wrote. */
  predicate CatalogWellKeyed(l: Ledger)
  {
    KeyedBy(l, CatalogGemId)
  }

  /** The one invocation that destroys a readable index: creating a gem
      whose ID is the index key. */
  predicate ClobbersIndex(name: string, args: seq<string>, env: Env)
  {
    && name == "createGem" && |args| >= 1
    && env.parseJson(args[0]).CatalogRecord?
    && env.parseJson(args[0]).item.id == GemIndexName
  }

  /** Every invocation keeps catalog gems under their own IDs. */
  lemma InvokePreservesCatalogWellKeyed(l: Ledger, name: string, args: seq<string>, env: Env)
    requires CatalogWellKeyed(l)
    ensures CatalogWellKeyed(Invoke(l, name, args, env).ledger)
  {
  }

  /** In a well-keyed catalog whose listing succeeds, every invocation but
      the creation of a gem named "gems" leaves a listing that still
      succeeds: price updates rewrite listed gems in place, and creations
      add a readable record before appending its ID. */
  lemma InvokeKeepsListingReadable(l: Ledger, name: string, args: seq<string>, env: Env)
    requires CatalogWellKeyed(l)
    requires GetAllGems(l).Ok?
    requires !ClobbersIndex(name, args, env)
    ensures GetAllGems(Invoke(l, name, args, env).ledger).Ok?
  {
  }
}
