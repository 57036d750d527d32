/** The shape of the report: the fixed column order of the output file and the
    cells each record fills. The CSV text itself is not modelled. */
module Report {
  import opened Fetcher

  /** The output columns, in order. */
  const FieldNames: seq<string> := ["address", "tx_count", "total_received", "total_sent", "balance", "error"]

  /** The keys of the dictionary `get_address_info` returns. */
  function Keys(r: AddressStats): seq<string> {
    match r
    case Success(_, _, _, _, _) => ["address", "tx_count", "total_received", "total_sent", "balance"]
    case Failure(_, _) => ["address", "error"]
  }

  /** One cell of the report; a column the record has no key for is left blank. */
  datatype Cell = Blank | Str(text: string) | Count(count: int) | Satoshis(amount: int)

  /** The cell a record puts in the named column. */
  function CellOf(r: AddressStats, column: string): Cell {
    match r
    case Success(address, txCount, received, sent, balance) =>
      if column == "address" then Str(address)
      else if column == "tx_count" then Count(txCount)
      else if column == "total_received" then Satoshis(received)
      else if column == "total_sent" then Satoshis(sent)
      else if column == "balance" then Satoshis(balance)
      else Blank
    case Failure(address, error) =>
      if column == "address" then Str(address)
      else if column == "error" then Str(error)
      else Blank
  }

  /** The report row written for a record, column by column. */
  function Row(r: AddressStats): seq<Cell> {
    seq(|FieldNames|, i requires 0 <= i < |FieldNames| => CellOf(r, FieldNames[i]))
  }

  /** Every key of every record is a column of the report, so the writer never
      meets a key it has no column for; a failure fills only `address` and
      `error`, a success fills every column but `error`. */
  lemma KeysAreColumns(r: AddressStats)
    ensures forall k :: k in Keys(r) ==> k in FieldNames
    ensures FieldNames[0] in Keys(r)
    ensures FieldNames[5] in Keys(r) <==> r.Failure?
  {
  }

  /** A cell of a row is blank exactly when the record has no key for its column,
      and the first cell is always the record's address. */
  lemma RowMatchesKeys(r: AddressStats)
    ensures |Row(r)| == |FieldNames|
    ensures forall i :: 0 <= i < |FieldNames| ==> (Row(r)[i] == Blank <==> FieldNames[i] !in Keys(r))
    ensures Row(r)[0] == Str(r.address)
  {
  }
}
