/** The trade ledger (chaincode/trading-cc): record a trade under its ID.
    The record is encoded before the transaction time is assigned to it, so
    what is stored is the payload's trade exactly as decoded, and the clock
    plays no part. */
module Trades {
  import opened Records
  import opened WorldState

  /** The names `Invoke` dispatches on. */
  predicate IsTradeFunction(name: string)
  {
    name == "createTrade" || name == "query"
  }

  /** `createTrade(payload)`: decode the trade, encode it, set its timestamp
      (too late to reach the encoding), and store the encoding under the
      trade's ID. No prior value is looked up, and neither the gem nor the
      parties are checked to exist. */
  function CreateTrade(l: Ledger, args: seq<string>, env: Env): (o: Outcome)
    requires |args| >= 1
    ensures o.response.Ok? <==> env.parseJson(args[0]).TradeRecord?
    ensures o.response.Err? ==>
              o.ledger == l && o.response.error == Undecodable(Fault(Some(env.parseJson(args[0]))))
    ensures o.response.Ok? ==>
              var t := env.parseJson(args[0]).trade;
              && o.response.payload == Empty
              && WritesOnly(l, o.ledger, t.id)
              && o.ledger[t.id] == env.parseJson(args[0])
              && o.ledger[t.id].trade.timestamp == t.timestamp
  {
    match DecodeTrade(Some(env.parseJson(args[0])))
    case Failure(e) => Outcome(Err(Undecodable(e)), l)
    case Success(trade) =>
      var tradeAsBytes := TradeRecord(trade);
      var stamped := trade.(timestamp := TxTime(env));
      Outcome(Ok(Empty), l[stamped.id := tradeAsBytes])
  }

  /** The stored timestamp is the transaction time only when the payload
      already carried it: a payload without a timestamp is stored with Go's
      zero time. */
  lemma StoredTimestampIsPayloads(l: Ledger, payload: string, env: Env)
    requires env.parseJson(payload).TradeRecord?
    ensures var t := env.parseJson(payload).trade;
            var o := CreateTrade(l, [payload], env);
            && (o.ledger[t.id].trade.timestamp == TxTime(env) <==> t.timestamp == TxTime(env))
            && (t.timestamp == ZeroTime ==> o.ledger[t.id].trade.timestamp == ZeroTime)
  {
  }

  /** Recording a trade gives the same outcome whatever the transaction
      time: the assigned timestamp never reaches the ledger. */
  lemma CreateTradeIgnoresClock(l: Ledger, args: seq<string>, env: Env, later: int)
    requires |args| >= 1
    ensures CreateTrade(l, args, env) == CreateTrade(l, args, env.(now := later))
  {
  }

  /** The chaincode's `Invoke`: dispatch on the function name. Every failure
      and every query leaves the ledger unchanged; a success writes the one
      key named by the recorded trade's ID, holding that trade. */
  function Invoke(l: Ledger, name: string, args: seq<string>, env: Env): (o: Outcome)
    ensures !IsTradeFunction(name) ==>
              o == Outcome(Err(UnknownFunction), l) && Message(o.response.error) == "Invalid invoke function name"
    ensures name == "query" ==> o == Outcome(Query(l, args), l)
    ensures o.response.Err? ==> o.ledger == l
    ensures name == "createTrade" && o.response.Ok? ==>
              exists key :: WritesOwnRecord(l, o.ledger, key, TradeId)
  {
    if name == "createTrade" then
      if |args| < 1 then Outcome(Err(ArgumentMissing(0)), l)
      else
        var o := CreateTrade(l, args, env);
        assert o.response.Ok? ==> WritesOwnRecord(l, o.ledger, env.parseJson(args[0]).trade.id, TradeId);
        o
    else if name == "query" then
      Outcome(Query(l, args), l)
    else
      Outcome(Err(UnknownFunction), l)
  }

  /** The end-to-end trade scenario: record t1 (gem c1, alice to bob, price
      99.0) and query it back; the stored trade is the payload's, with the
      payload's own timestamp. No gem c1 needs to exist. */
  lemma TradeScenario(l: Ledger, payload: string, env: Env)
    requires env.parseJson(payload) == TradeRecord(Trade("t1", "c1", "alice", "bob", 99.0, ZeroTime))
    ensures var o := Invoke(l, "createTrade", [payload], env);
            && o.response.Ok?
            && Invoke(o.ledger, "query", ["t1"], env).response
               == Ok(Bytes(TradeRecord(Trade("t1", "c1", "alice", "bob", 99.0, ZeroTime))))
  {
  }

  /** The ID of a trade. */
  function TradeId(v: Stored): (id: Option<string>)
    ensures id.Some? <==> v.TradeRecord?
    ensures id.Some? ==> id.value == v.trade.id
  {
    if v.TradeRecord? then Some(v.trade.id) else None
  }

  /** Every trade sits under its own ID. */
  predicate TradeWellKeyed(l: Ledger)
  {
    KeyedBy(l, TradeId)
  }

  /** Every invocation keeps trades under their own IDs. */
  lemma InvokePreservesTradeWellKeyed(l: Ledger, name: string, args: seq<string>, env: Env)
    requires TradeWellKeyed(l)
    ensures TradeWellKeyed(Invoke(l, name, args, env).ledger)
  {
  }

  /** Recording a trade and then querying its ID returns exactly the decoded
      payload, whatever was stored under that ID before. */
  lemma CreateThenQuery(l: Ledger, payload: string, env: Env)
    requires env.parseJson(payload).TradeRecord?
    ensures var t := env.parseJson(payload).trade;
            var o := Invoke(l, "createTrade", [payload], env);
            Invoke(o.ledger, "query", [t.id], env).response == Ok(Bytes(TradeRecord(t)))
  {
  }
}
