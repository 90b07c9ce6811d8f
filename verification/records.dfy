/** The record shapes the three chaincodes persist, and the abstract value a
    ledger entry holds.

    The chaincodes store JSON produced by Go's `encoding/json`. The encoding
    itself is not modelled: a ledger value is already one of the record shapes
    below (what `json.Marshal` of that record would produce), an index of gem
    IDs, or `Malformed` bytes that no decoder accepts. */
module Records {

  /** A `time.Time` as the chaincodes produce it: Go's zero time (a field the
      payload left out), or `time.Unix(seconds, 0)`. */
  datatype Stamp = ZeroTime | Unix(seconds: int)

  /** A price. Go keeps it as a `float64`; rounding is not modelled. */
  type Price = real

  /** What `strconv.ParseFloat` hands back once its error is dropped: a
      finite number (0 for text that is not a number), or NaN or an
      infinity, which it returns for "NaN", "Inf" or an out-of-range
      literal such as "1e400". `json.Marshal` refuses the latter. */
  datatype Float = Finite(value: Price) | NonFinite(special: Special)

  /** The float64 values that are not numbers a JSON document can hold. */
  datatype Special = NaN | PosInf | NegInf

  /** `strconv.FormatFloat(f, 'g', -1, 64)` of a special value: the text
      `json.Marshal` puts into the error it returns for it. */
  function FormatSpecial(s: Special): string
  {
    match s
    case NaN => "NaN"
    case PosInf => "+Inf"
    case NegInf => "-Inf"
  }

  /** The asset-registry gem (chaincode/private-cc). `status` is free text in
      the source: a payload may carry any string, the registry forces it to
      ISSUED or CERTIFIED. */
  datatype Gem = Gem(
    id: string,
    ownerId: string,
    previousOwners: seq<string>,
    colour: string,
    description: string,
    status: string,
    createdAt: Stamp,
    updatedAt: Stamp)

  /** The marketplace gem (chaincode/sharing-cc): no owner or status, a price. */
  datatype CatalogGem = CatalogGem(
    id: string,
    colour: string,
    description: string,
    price: Price,
    createdAt: Stamp,
    updatedAt: Stamp)

  /** A trade record (chaincode/trading-cc). */
  datatype Trade = Trade(
    id: string,
    gemId: string,
    seller: string,
    buyer: string,
    price: Price,
    timestamp: Stamp)

  /** What a key of the ledger (or an argument string, once parsed) holds. */
  datatype Stored =
    | RegistryRecord(gem: Gem)
    | CatalogRecord(item: CatalogGem)
    | IndexRecord(ids: seq<string>)
    | TradeRecord(trade: Trade)
    | Malformed(detail: string)
}
