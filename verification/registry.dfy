/** The asset registry (chaincode/private-cc): issue a gem, certify it, and
    transfer it, keeping the chain of previous owners. Each operation is a
    transition from a ledger to an `Outcome`. */
module Registry {
  import opened Records
  import opened WorldState

  const ISSUED := "ISSUED"
  const CERTIFIED := "CERTIFIED"

  /** The names `Invoke` dispatches on. */
  predicate IsRegistryFunction(name: string)
  {
    name == "issueGem" || name == "certifyGem" || name == "updateOwnership" || name == "query"
  }

  /** The ID of a registry gem; other values carry none the registry reads. */
  function GemId(v: Stored): (id: Option<string>)
    ensures id.Some? <==> v.RegistryRecord?
    ensures id.Some? ==> id.value == v.gem.id
  {
    if v.RegistryRecord? then Some(v.gem.id) else None
  }

  /** Every registry gem sits under its own ID. Keys the registry writes
      itself always satisfy this; `certifyGem` and `updateOwnership` read
      `args[0]` but write to the decoded record's ID, so the two agree only
      in a ledger like this. */
  predicate WellKeyed(l: Ledger)
  {
    KeyedBy(l, GemId)
  }

  /** `GetState(key)` followed by `json.Unmarshal` into a `Gem`. */
  function LoadGem(l: Ledger, key: string): (r: Result<Gem, Error>)
    ensures r.Success? <==> key in l && l[key].RegistryRecord?
    ensures r.Success? ==> l[key].gem == r.value
    ensures r.Failure? ==> r.error == Undecodable(Fault(Get(l, key)))
  {
    match DecodeGem(Get(l, key))
    case Failure(e) => Failure(Undecodable(e))
    case Success(g) => Success(g)
  }

  /** `issueGem(payload)`: store the payload's gem under its own ID with
      status ISSUED and the transaction time as creation time. Nothing is
      looked up first, so a gem already issued under that ID is replaced. */
  function IssueGem(l: Ledger, args: seq<string>, env: Env): (o: Outcome)
    requires |args| >= 1
    ensures o.response.Ok? <==> env.parseJson(args[0]).RegistryRecord?
    ensures o.response.Err? ==>
              o.ledger == l && o.response.error == Undecodable(Fault(Some(env.parseJson(args[0]))))
    ensures o.response.Ok? ==>
              var g := env.parseJson(args[0]).gem;
              && o.response.payload == Empty
              && WritesOwnRecord(l, o.ledger, g.id, GemId)
              && var s := o.ledger[g.id].gem;
                 && s.status == ISSUED
                 && s.createdAt == TxTime(env)
                 && s.(status := g.status, createdAt := g.createdAt) == g
  {
    match DecodeGem(Some(env.parseJson(args[0])))
    case Failure(e) => Outcome(Err(Undecodable(e)), l)
    case Success(gem) =>
      var issued := gem.(status := ISSUED, createdAt := TxTime(env));
      Outcome(Ok(Empty), l[issued.id := RegistryRecord(issued)])
  }

  /** `certifyGem(id)`: mark the gem stored under `id` CERTIFIED and stamp the
      update time. The prior status is not checked. The record is written
      back under its own ID field, which need not be `id`. */
  function CertifyGem(l: Ledger, args: seq<string>, env: Env): (o: Outcome)
    requires |args| >= 1
    ensures o.response.Ok? <==> args[0] in l && l[args[0]].RegistryRecord?
    ensures o.response.Err? ==>
              o.ledger == l && o.response.error == Undecodable(Fault(Get(l, args[0])))
    ensures o.response.Ok? ==>
              var g := l[args[0]].gem;
              && o.response.payload == Empty
              && WritesOwnRecord(l, o.ledger, g.id, GemId)
              && var s := o.ledger[g.id].gem;
                 && s.status == CERTIFIED
                 && s.updatedAt == TxTime(env)
                 && s.(status := g.status, updatedAt := g.updatedAt) == g
  {
    match LoadGem(l, args[0])
    case Failure(e) => Outcome(Err(e), l)
    case Success(gem) =>
      var certified := gem.(status := CERTIFIED, updatedAt := TxTime(env));
      Outcome(Ok(Empty), l[certified.id := RegistryRecord(certified)])
  }

  /** `updateOwnership(id, newOwner)`: push the current owner onto the
      provenance chain, then make `newOwner` the owner. Any status permits
      it, and `newOwner` may equal the current owner. */
  function UpdateOwnership(l: Ledger, args: seq<string>, env: Env): (o: Outcome)
    requires |args| >= 2
    ensures o.response.Ok? <==> args[0] in l && l[args[0]].RegistryRecord?
    ensures o.response.Err? ==>
              o.ledger == l && o.response.error == Undecodable(Fault(Get(l, args[0])))
    ensures o.response.Ok? ==>
              var g := l[args[0]].gem;
              && o.response.payload == Empty
              && WritesOwnRecord(l, o.ledger, g.id, GemId)
              && var s := o.ledger[g.id].gem;
                 && s.ownerId == args[1]
                 && |s.previousOwners| == |g.previousOwners| + 1
                 && g.previousOwners <= s.previousOwners
                 && s.previousOwners[|g.previousOwners|] == g.ownerId
                 && s.updatedAt == TxTime(env)
                 && s.(ownerId := g.ownerId, previousOwners := g.previousOwners, updatedAt := g.updatedAt) == g
  {
    match LoadGem(l, args[0])
    case Failure(e) => Outcome(Err(e), l)
    case Success(gem) =>
      var transferred := gem.(previousOwners := gem.previousOwners + [gem.ownerId],
                              ownerId := args[1],
                              updatedAt := TxTime(env));
      Outcome(Ok(Empty), l[transferred.id := RegistryRecord(transferred)])
  }

  /** The chaincode's `Invoke`: dispatch on the function name. A missing
      argument, where the source would index past the end of `args`, is
      reported as an error. An unknown name and every failure leave the
      ledger as it was; a success writes one key, the written record's own
      ID. */
  function Invoke(l: Ledger, name: string, args: seq<string>, env: Env): (o: Outcome)
    ensures !IsRegistryFunction(name) ==>
              o == Outcome(Err(UnknownFunction), l) && Message(o.response.error) == "Invalid invoke function name"
    ensures o.response.Err? ==> o.ledger == l
    ensures name == "query" ==> o == Outcome(Query(l, args), l)
    ensures o.ledger == l || exists key :: WritesOwnRecord(l, o.ledger, key, GemId)
  {
    if name == "issueGem" then
      if |args| < 1 then Outcome(Err(ArgumentMissing(0)), l) else IssueGem(l, args, env)
    else if name == "certifyGem" then
      if |args| < 1 then Outcome(Err(ArgumentMissing(0)), l)
      else CertifyGem(l, args, env)
    else if name == "updateOwnership" then
      if |args| < 1 then Outcome(Err(ArgumentMissing(0)), l)
      else if |args| < 2 then
        // the source reads args[0] first: a bad record fails before args[1] is touched
        match LoadGem(l, args[0])
        case Failure(e) => Outcome(Err(e), l)
        case Success(_) => Outcome(Err(ArgumentMissing(1)), l)
      else UpdateOwnership(l, args, env)
    else if name == "query" then
      Outcome(Query(l, args), l)
    else
      Outcome(Err(UnknownFunction), l)
  }

  /** Every write the registry performs keeps gems under their own IDs. */
  lemma InvokePreservesWellKeyed(l: Ledger, name: string, args: seq<string>, env: Env)
    requires WellKeyed(l)
    ensures WellKeyed(Invoke(l, name, args, env).ledger)
  {
  }

  /** Apart from a re-issue, no operation shortens a gem's provenance chain,
      reverts CERTIFIED, or touches its identity, description or creation
      time: in a well-keyed ledger the record under each key only grows. */
  lemma HistoryAppendOnly(l: Ledger, name: string, args: seq<string>, env: Env, k: string)
    requires WellKeyed(l)
    requires name != "issueGem"
    requires k in l && l[k].RegistryRecord?
    ensures var o := Invoke(l, name, args, env);
            && k in o.ledger && o.ledger[k].RegistryRecord?
            && var before, after := l[k].gem, o.ledger[k].gem;
               && before.previousOwners <= after.previousOwners
               && (before.status == CERTIFIED ==> after.status == CERTIFIED)
               && after.id == before.id
               && after.colour == before.colour
               && after.description == before.description
               && after.createdAt == before.createdAt
  {
  }

  /** A re-issue is the one step that rewrites history: whatever was stored
      under the ID, certified or transferred, is replaced by the payload
      with status ISSUED and that payload's own provenance chain. */
  lemma ReissueReplacesHistory(l: Ledger, payload: string, env: Env)
    requires env.parseJson(payload).RegistryRecord?
    requires var g := env.parseJson(payload).gem; g.id in l && l[g.id].RegistryRecord?
    ensures var g := env.parseJson(payload).gem;
            var after := Invoke(l, "issueGem", [payload], env).ledger[g.id].gem;
            && after.status == ISSUED
            && after.previousOwners == g.previousOwners
            && after.ownerId == g.ownerId
  {
  }

  /** Two transfers in a row, to `a` then `b`: `b` owns the gem and the
      chain ends with the original owner followed by `a`. No status is
      required for either step. */
  lemma TwoTransfers(l: Ledger, id: string, a: string, b: string, env1: Env, env2: Env)
    requires id in l && l[id].RegistryRecord? && l[id].gem.id == id
    ensures var o1 := Invoke(l, "updateOwnership", [id, a], env1);
            var o2 := Invoke(o1.ledger, "updateOwnership", [id, b], env2);
            var g := l[id].gem;
            && o1.response.Ok? && o2.response.Ok?
            && id in o2.ledger && o2.ledger[id].RegistryRecord?
            && o2.ledger[id].gem.ownerId == b
            && o2.ledger[id].gem.previousOwners == g.previousOwners + [g.ownerId, a]
            && o2.ledger[id].gem.status == g.status
  {
  }

  /** The end-to-end provenance scenario: issue `g1` (colour blue), certify
      it, transfer it to alice and then to bob; a query shows bob as owner,
      the original owner then alice as previous owners, and CERTIFIED. */
  lemma ProvenanceScenario(l: Ledger, payload: string, env: Env)
    requires env.parseJson(payload).RegistryRecord?
    requires env.parseJson(payload).gem.id == "g1"
    requires env.parseJson(payload).gem.colour == "blue"
    ensures var g := env.parseJson(payload).gem;
            var o1 := Invoke(l, "issueGem", [payload], env);
            var o2 := Invoke(o1.ledger, "certifyGem", ["g1"], env);
            var o3 := Invoke(o2.ledger, "updateOwnership", ["g1", "alice"], env);
            var o4 := Invoke(o3.ledger, "updateOwnership", ["g1", "bob"], env);
            var q := Invoke(o4.ledger, "query", ["g1"], env).response;
            && q.Ok? && q.payload.Bytes? && q.payload.value.RegistryRecord?
            && var s := q.payload.value.gem;
               && s.ownerId == "bob"
               && s.previousOwners == g.previousOwners + [g.ownerId, "alice"]
               && s.status == CERTIFIED
               && s.colour == "blue"
               && s.createdAt == TxTime(env)
  {
  }

  /** Issuing and then querying the payload's ID returns the issued gem:
      the payload's fields, status ISSUED, created at the transaction time. */
  lemma IssueThenQuery(l: Ledger, payload: string, env: Env)
    requires env.parseJson(payload).RegistryRecord?
    ensures var g := env.parseJson(payload).gem;
            var o := Invoke(l, "issueGem", [payload], env);
            var q := Invoke(o.ledger, "query", [g.id], env).response;
            && q.Ok? && q.payload.Bytes? && q.payload.value.RegistryRecord?
            && var s := q.payload.value.gem;
               && s.status == ISSUED
               && s.createdAt == TxTime(env)
               && s.(status := g.status, createdAt := g.createdAt) == g
  {
  }

  /** In a well-keyed ledger, certifying a stored gem and then querying the
      same key returns it CERTIFIED with the transaction time as update
      time, whatever its status was. */
  lemma CertifyThenQuery(l: Ledger, id: string, env: Env)
    requires WellKeyed(l)
    requires id in l && l[id].RegistryRecord?
    ensures var o := Invoke(l, "certifyGem", [id], env);
            var q := Invoke(o.ledger, "query", [id], env).response;
            && q.Ok? && q.payload.Bytes? && q.payload.value.RegistryRecord?
            && var s := q.payload.value.gem;
               && s.status == CERTIFIED
               && s.updatedAt == TxTime(env)
               && s.(status := l[id].gem.status, updatedAt := l[id].gem.updatedAt) == l[id].gem
  {
  }
}
