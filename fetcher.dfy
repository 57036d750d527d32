/** `get_address_info`: turns the block explorer's answer for one address into
    one flat record, or captures the failed request in the error shape. */
module Fetcher {

  /** A statistics object of the response (`chain_stats` or `mempool_stats`):
      integer amounts in satoshis, keyed by field name. */
  type Stats = map<string, int>

  const ChainStats: string := "chain_stats"
  const MempoolStats: string := "mempool_stats"
  const TxCount: string := "tx_count"
  const FundedSum: string := "funded_txo_sum"
  const SpentSum: string := "spent_txo_sum"

  /** What the request for one address produced: the description of the
      failure it raised, or the decoded JSON object of the response. */
  datatype Response =
    | RequestFailed(reason: string)
    | Fetched(data: map<string, Stats>)

  /** The record the fetcher returns: exactly one of the two shapes. Amounts
      are in satoshis. */
  datatype AddressStats =
    | Success(address: string, txCount: int, totalReceived: int, totalSent: int, balance: int)
    | Failure(address: string, error: string)

  /** `stats.get(key, 0)`. */
  function Amount(stats: Stats, key: string): int {
    if key in stats then stats[key] else 0
  }

  /** `data.get(key, {})`. */
  function Section(data: map<string, Stats>, key: string): Stats {
    if key in data then data[key] else map[]
  }

  /** The success shape built from a decoded response (the body of the `try`
      once the request has succeeded). */
  function Normalize(address: string, data: map<string, Stats>): (r: AddressStats)
    ensures r.Success? && r.address == address
    ensures r.totalReceived - r.totalSent
         == r.balance + Amount(Section(data, MempoolStats), FundedSum) - Amount(Section(data, MempoolStats), SpentSum)
  {
    var txs := Section(data, ChainStats);
    var mempool := Section(data, MempoolStats);
    var totalTx := Amount(txs, TxCount) + Amount(mempool, TxCount);
    var received := Amount(txs, FundedSum) + Amount(mempool, FundedSum);
    var spent := Amount(txs, SpentSum) + Amount(mempool, SpentSum);
    var balance := Amount(Section(data, ChainStats), FundedSum) - Amount(Section(data, ChainStats), SpentSum);
    Success(address, totalTx, received, spent, balance)
  }

  /** `get_address_info(address)`, with the outcome of the request as an input. */
  function GetAddressInfo(address: string, response: Response): (r: AddressStats)
    ensures r.address == address
    ensures r.Failure? <==> response.RequestFailed?
    ensures r.Failure? ==> r.error == response.reason
    ensures response.Fetched? ==> r == Normalize(address, response.data)
  {
    match response
    case RequestFailed(reason) => Failure(address, reason)
    case Fetched(data) => Normalize(address, data)
  }

  /** The chain-only record: what Normalize gives when the response has no
      mempool statistics. */
  function ChainOnly(data: map<string, Stats>): map<string, Stats> {
    data - {MempoolStats}
  }

  /** Every field but the balance is the chain-only figure plus the mempool's;
      the balance is the chain-only figure alone. */
  lemma MempoolContribution(address: string, data: map<string, Stats>)
    ensures var r, c, m := Normalize(address, data), Normalize(address, ChainOnly(data)), Section(data, MempoolStats);
      r.txCount == c.txCount + Amount(m, TxCount) &&
      r.totalReceived == c.totalReceived + Amount(m, FundedSum) &&
      r.totalSent == c.totalSent + Amount(m, SpentSum) &&
      r.balance == c.balance
  {
  }

  /** The chain-only record: the transaction count, received and sent are the
      `chain_stats` figures, and the balance is chain received minus chain sent. */
  lemma ChainOnlyFigures(address: string, data: map<string, Stats>)
    ensures var c := Section(data, ChainStats);
      Normalize(address, ChainOnly(data))
      == Success(address, Amount(c, TxCount), Amount(c, FundedSum), Amount(c, SpentSum),
                 Amount(c, FundedSum) - Amount(c, SpentSum))
  {
    assert Section(ChainOnly(data), ChainStats) == Section(data, ChainStats);
    assert Section(ChainOnly(data), MempoolStats) == map[];
  }

  /** The balance does not depend on the mempool statistics at all. */
  lemma BalanceIgnoresMempool(address: string, data: map<string, Stats>, mempool: Stats)
    ensures Normalize(address, data[MempoolStats := mempool]).balance == Normalize(address, data).balance
  {
  }

  /** With no mempool activity the balance is what was received minus what was sent. */
  lemma BalanceWithoutMempool(address: string, data: map<string, Stats>)
    requires MempoolStats !in data
    ensures Normalize(address, data).balance
         == Normalize(address, data).totalReceived - Normalize(address, data).totalSent
  {
  }

  /** A missing statistics object counts as one whose three fields are all 0. */
  lemma MissingSectionIsZero(address: string, data: map<string, Stats>, key: string)
    requires key == ChainStats || key == MempoolStats
    requires key !in data
    ensures Normalize(address, data) == Normalize(address, data[key := map[TxCount := 0, FundedSum := 0, SpentSum := 0]])
  {
  }

  /** A missing field counts as 0. */
  lemma MissingFieldIsZero(address: string, data: map<string, Stats>, section: string, field: string)
    requires section in data && field !in data[section]
    ensures Normalize(address, data) == Normalize(address, data[section := data[section][field := 0]])
  {
  }

  /** An empty response is an address with no activity. */
  lemma EmptyResponse(address: string)
    ensures Normalize(address, map[]) == Success(address, 0, 0, 0, 0)
  {
  }

  /** Chain {2 transactions, 5 BTC received, 1 BTC sent} and mempool {1 transaction,
      0.5 BTC received} give 3 transactions, 5.5 BTC received, 1 BTC sent and a
      balance of 4 BTC. */
  lemma MixedResponseExample(address: string)
    ensures Normalize(address, map[
      ChainStats := map[TxCount := 2, FundedSum := 500000000, SpentSum := 100000000],
      MempoolStats := map[TxCount := 1, FundedSum := 50000000, SpentSum := 0]])
      == Success(address, 3, 550000000, 100000000, 400000000)
  {
  }
}
