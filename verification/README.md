# Marvelous gems chaincode model

A Dafny model of the three Hyperledger Fabric chaincodes of the marvelous-gems
repository. Each chaincode is a sequential state machine over its own
key-value world state. The model represents that world state as a
`map<string, Stored>`. `Stored` is the abstract value a key holds:

- a registry gem,
- a catalog gem,
- an index of gem IDs,
- a trade,
- or `Malformed` bytes.

Every operation is a pure function from a ledger, the invocation's string
arguments and an `Env` to an `Outcome`, which is a response plus the new
ledger. `Env` is what the transaction supplies from outside: its time in
seconds, the JSON reading of an argument string, and `strconv.ParseFloat`
with its error dropped.

- `records.dfy` (module `Records`): the record shapes (`Gem`, `CatalogGem`,
  `Trade`), timestamps, and `Stored`.
- `worldstate.dfy` (module `WorldState`): the ledger, `Env`, decoding a
  stored value into a record, the error and response shapes, and the
  `query` operation. All three chaincodes share the same `query`.
- `registry.dfy` (module `Registry`): the asset registry (private-cc). It
  issues, certifies and transfers gems, and keeps the chain of previous
  owners.
- `catalog.dfy` (module `Catalog`): the marketplace (sharing-cc). It holds
  gems with a price and an index of their IDs under the key `"gems"`.
- `trades.dfy` (module `Trades`): the trade ledger (trading-cc).

Behaviour kept as the code has it:

- `certifyGem` and `updateOwnership` read the key given as `args[0]`. They
  write under the decoded record's own `id`, which need not be that key.
  `WellKeyed` names the ledgers in which the two agree, and every
  invocation preserves it.
- `issueGem` overwrites without an existence check. A re-issue therefore
  turns a CERTIFIED gem back into ISSUED and replaces its provenance chain,
  so status is not monotonic.
- `createGem` makes two writes in sequence: first the record, then the
  index. If the index cannot be read back, the record stays and the call
  fails. The index shares the key space with the gems, so a gem whose ID
  is `"gems"` overwrites the index.
- `updateGemPrice` drops the price parse error, which is never reported.
  Text that is not a number sets the price to the parser's fallback value.
  A NaN or infinite parse result passes the parse but makes `json.Marshal`
  fail, so that call errors without writing.
- `createTrade` encodes the trade before it assigns the transaction time.
  The stored timestamp is therefore the payload's own and is never set from
  the transaction time; the clock never matters.
- `Init` of the catalog marshals a nil slice, which is JSON `null`.
  `GetIndex` reads that back as an empty index, so the model stores
  `IndexRecord([])`.

## Model

| member | source | states |
|---|---|---|
| WorldState.Query | chaincode/private-cc/chaincode.go:155-175 | succeeds exactly when there is one argument and the key is present, and then returns the stored value itself; a wrong argument count and an absent key are errors, never an empty success (the sharing-cc and trading-cc copies are identical) |
| Registry.LoadGem | chaincode/private-cc/chaincode.go:85-96 | reading a gem succeeds exactly when the key holds a registry gem; an absent key fails as a decode error of nil input |
| Registry.IssueGem | chaincode/private-cc/chaincode.go:54-82 | succeeds exactly when the payload decodes, whatever the ledger holds; the gem lands under its own ID with status ISSUED and the transaction time as creation time, every other field as in the payload, and every other key untouched; a bad payload writes nothing |
| Registry.CertifyGem | chaincode/private-cc/chaincode.go:84-117 | succeeds exactly when the key holds a registry gem, whatever its status; the record under the gem's own ID becomes CERTIFIED with the transaction time as update time and nothing else changes; an absent or malformed key errors with the ledger unchanged |
| Registry.UpdateOwnership | chaincode/private-cc/chaincode.go:119-153 | succeeds exactly when the key holds a registry gem; the new owner is args[1], the old chain is a prefix of the new one, which is one longer and ends with the old owner; other fields and keys are unchanged; failures write nothing |
| Registry.Invoke | chaincode/private-cc/chaincode.go:35-52 | an unknown name is an error with no write; every failure leaves the ledger unchanged; a query never writes; a success writes at most one key, and the record there carries that key as its ID |
| Registry.InvokePreservesWellKeyed | chaincode/private-cc/chaincode.go:54-153 | if every registry gem sits under its own ID before an invocation, it still does afterwards |
| Registry.HistoryAppendOnly | chaincode/private-cc/chaincode.go:84-153 | in a well-keyed ledger, any invocation other than issueGem keeps each gem's chain as a prefix of its new chain, never reverts CERTIFIED, and leaves ID, colour, description and creation time alone |
| Registry.ReissueReplacesHistory | chaincode/private-cc/chaincode.go:63-73 | issuing over an existing gem resets its status to ISSUED and replaces its owner and provenance chain with the payload's |
| Registry.TwoTransfers | chaincode/private-cc/chaincode.go:133-136 | two transfers, to a and then to b, both succeed whatever the status; b owns the gem, and the chain is the old chain followed by the original owner and a |
| Registry.IssueThenQuery | chaincode/private-cc/chaincode.go:54-175 | issuing a payload and then querying its ID returns the payload's gem with status ISSUED and the transaction time as creation time, whatever was stored before |
| Registry.CertifyThenQuery | chaincode/private-cc/chaincode.go:84-175 | in a well-keyed ledger, certifying a stored gem and then querying the same key returns it CERTIFIED with the transaction time as update time, every other field unchanged, whatever its prior status |
| Registry.ProvenanceScenario | chaincode/private-cc/chaincode.go:54-175 | issue g1, certify it, transfer it to alice and then bob: a query returns the gem owned by bob, with previous owners ending in the original owner then alice, status CERTIFIED, colour blue |
| Catalog.Init | chaincode/sharing-cc/chaincode.go:28-44 | writes only the index key, and afterwards the index reads back as empty, discarding any previous index |
| Catalog.GetIndex | chaincode/sharing-cc/chaincode.go:202-215 | returns the stored ID sequence exactly when the key holds an index; an absent or malformed index is an error, never an empty index |
| Catalog.CreateGemRecord | chaincode/sharing-cc/chaincode.go:74-109 | succeeds exactly when the ID is not the index key and the index was readable; on success the ledger gains the stamped record and the old index with the ID appended; on failure the record write persists |
| Catalog.CreateGem | chaincode/sharing-cc/chaincode.go:65-72 | a payload that does not decode is an error with no write; otherwise the outcome is the two-write creation of the decoded gem |
| Catalog.CreateAppendsToIndex | chaincode/sharing-cc/chaincode.go:74-105 | a creation with a readable index succeeds, appends the ID, stores the gem with the transaction time as creation time, and leaves every key other than the record and the index as it was |
| Catalog.CreateDuplicatesIndexEntry | chaincode/sharing-cc/chaincode.go:95 | creating an ID already in the index adds one more occurrence, so the index then lists it at least twice |
| Catalog.OrphanedRecord | chaincode/sharing-cc/chaincode.go:84-93 | with an unreadable index the creation reports the index error, yet the new record is stored and the index stays unreadable |
| Catalog.GemNamedGemsClobbersIndex | chaincode/sharing-cc/chaincode.go:84-93 | a gem whose ID is "gems" replaces the index with itself, and the call then fails to read the index back |
| Catalog.LoadCatalogGem | chaincode/sharing-cc/chaincode.go:113-124 | reading a catalog gem succeeds exactly when the key holds one and yields that record; an absent key fails as a decode error of nil input, the index array as a shape mismatch |
| Catalog.UpdateGemPrice | chaincode/sharing-cc/chaincode.go:112-145 | succeeds exactly when the key holds a catalog gem and the parse result is finite, so a parse error never fails the call; the price becomes the parse result and the update time the transaction time, every other field kept; a NaN or infinite result fails with "json: unsupported value: " followed by Go's rendering of the value ("NaN", "+Inf" or "-Inf"); failures write nothing |
| Catalog.LoadAll | chaincode/sharing-cc/chaincode.go:155-169 | succeeds exactly when every ID decodes, and then yields one gem per ID in order, duplicates included; otherwise it fails with the error of the first ID that does not decode |
| Catalog.GetAllGems | chaincode/sharing-cc/chaincode.go:147-178 | succeeds exactly when the index and every entry decode, returning the stored gem of each index entry in index order; any failure aborts the whole listing |
| Catalog.Invoke | chaincode/sharing-cc/chaincode.go:46-63 | an unknown name is an error with no write; getAllGems and query never write; a failed price update writes nothing |
| Catalog.CreateAllExtendsIndex | chaincode/sharing-cc/chaincode.go:90-102 | creating a sequence of gems, none with ID "gems", on a readable index appends their IDs in creation order |
| Catalog.CreateAllKeepsOthers | chaincode/sharing-cc/chaincode.go:84-105 | creating gems none of which has a given ID (other than "gems") leaves that key's value alone |
| Catalog.CreateAllStoresEach | chaincode/sharing-cc/chaincode.go:76-88 | after creating gems with distinct IDs, each ID holds its own gem stamped with the creation time |
| Catalog.ListingFollowsCreationOrder | chaincode/sharing-cc/chaincode.go:28-178 | after Init, creating N gems with distinct IDs makes getAllGems return exactly those N gems, stamped, in creation order |
| Catalog.MarketScenario | chaincode/sharing-cc/chaincode.go:28-178 | after Init, create c1 and c2 and reprice c1 with "150.5" (parsed as 150.5): every step succeeds and the listing holds c1 then c2, with c1 priced 150.5 |
| Catalog.InvokePreservesCatalogWellKeyed | chaincode/sharing-cc/chaincode.go:46-145 | if every catalog gem sits under its own ID before an invocation, it still does afterwards |
| Catalog.InvokeKeepsListingReadable | chaincode/sharing-cc/chaincode.go:46-178 | in a well-keyed catalog whose listing succeeds, every invocation except creating a gem with ID "gems" leaves a listing that still succeeds |
| Trades.CreateTrade | chaincode/trading-cc/chaincode.go:44-71 | succeeds exactly when the payload decodes to a trade, whatever the ledger holds; it stores exactly the decoded trade, with the payload's timestamp, under its ID and touches no other key; a bad payload writes nothing |
| Trades.StoredTimestampIsPayloads | chaincode/trading-cc/chaincode.go:53-62 | the stored timestamp equals the transaction time only when the payload already carried it; a payload without a timestamp is stored with the zero time |
| Trades.CreateTradeIgnoresClock | chaincode/trading-cc/chaincode.go:53-62 | recording a trade gives the same outcome at any transaction time |
| Trades.Invoke | chaincode/trading-cc/chaincode.go:29-42 | an unknown name is an error with no write; failures and queries never write; a created trade is the only key written and carries that key as its ID |
| Trades.InvokePreservesTradeWellKeyed | chaincode/trading-cc/chaincode.go:29-71 | if every trade sits under its own ID before an invocation, it still does afterwards |
| Trades.CreateThenQuery | chaincode/trading-cc/chaincode.go:44-93 | recording a trade and then querying its ID returns exactly the decoded payload, whatever was stored there before |
| Trades.TradeScenario | chaincode/trading-cc/chaincode.go:44-93 | recording t1 (gem c1, alice to bob, 99.0) succeeds without any gem c1 existing, and a query of t1 returns the trade as in the payload, zero timestamp included |

## Left out

- JSON encoding and decoding (`encoding/json`) are abstracted. A ledger value is already a `Stored`, and an argument's JSON reading is the `Env.parseJson` parameter. This leaves out field tags, among them the misspelled `suller` key of a trade and `omitempty`. Decode messages are approximations of Go's.
- Decoding across record shapes fails in the model. Go's decoder would accept a JSON object of another record kind and fill the missing fields with zero values. It also accepts JSON `null` into a record, as the zero record.
- The index that `Init` stores is JSON `null`, and Go decodes it into a catalog gem as the zero gem with an empty ID. So in Go, `updateGemPrice("gems", …)` right after `Init` gets past decoding and fails only at `PutState` of the empty ID, which the shim refuses. The model fails it at decoding, with a shape mismatch. Both fail without writing.
- Ledger semantics are sequential: a read sees the writes made before it in the same invocation, and a failed invocation keeps the writes it already made. The real Fabric stub does not read back uncommitted writes. It also discards the write set of a failed proposal. Both belong to the ledger machinery, which is not part of this model.
- `GetState` and `PutState` never fail in the model. This leaves out the shim's refusal of an empty key.
- `GetTxTimestamp` always succeeds; its ignored error is not modelled. Apart from a non-finite price, `json.Marshal` never fails in the model; Go's refusal of timestamps in years beyond 9999 is not modelled.
- Registry.CertifyGem: update times are not monotonic across invocations. The stamp is whatever transaction time the invocation carries, so certifying can set `updatedAt` earlier than the prior value. The source does not order them either, and the model promises no "at least the prior update time".
- `float64` arithmetic and `strconv.ParseFloat` are not modelled. A finite price is a `real`. The parse is the `Env.parseFloat` parameter, which yields a finite value or NaN/±Inf.
- Indexing `args` past its end panics in Go. The model reports it as the `ArgumentMissing` error and writes nothing.
- The `Init` functions of private-cc and trading-cc only log and succeed, so they are not modelled. The same holds for all logging, `shim.Start` and `main`.
