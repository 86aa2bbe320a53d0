/** The collector's pure helpers (app/collectors/eth_collector.py): the
    address and amount filter, the TRANSFER/CALL heuristic, wei to ether,
    and the range of block timestamps Python's `datetime` can represent. */
module EthUtil {
  import opened Common
  import opened Text
  import Scoring

  /** The filter settings: `ETH_INCLUDE_ETH_VALUE_MIN`, the lower-cased
      address sets `ETH_FILTER_FROM`, `ETH_FILTER_TO` and
      `ETH_MONITOR_ADDRESSES`, and `REQUIRE_MATCH`. */
  datatype Filters = Filters(
    minEthValue: real,
    filterFrom: set<string>,
    filterTo: set<string>,
    monitor: set<string>,
    requireMatch: bool)

  /** `_passes_filters(tx_from, tx_to, amount_eth)`; an empty set is falsy
      in Python, so a membership test on it never holds. */
  predicate PassesFilters(flt: Filters, txFrom: string, txTo: string, amount: real) {
    var fa := Lower(txFrom);
    var ta := Lower(txTo);
    if flt.minEthValue != 0.0 && amount < flt.minEthValue then false
    else
      var hasMonitor := flt.monitor != {} && (fa in flt.monitor || ta in flt.monitor);
      var hasFrom := flt.filterFrom != {} && fa in flt.filterFrom;
      var hasTo := flt.filterTo != {} && ta in flt.filterTo;
      if flt.requireMatch then hasMonitor || hasFrom || hasTo
      else if flt.filterFrom != {} && fa !in flt.filterFrom then false
      else if flt.filterTo != {} && ta !in flt.filterTo then false
      else true
  }

  /** The amount floor: only a non-zero floor rejects anything. */
  predicate AboveFloor(flt: Filters, amount: real) {
    flt.minEthValue == 0.0 || amount >= flt.minEthValue
  }

  /** Under `REQUIRE_MATCH` a transaction passes exactly when it clears the
      floor and its sender is watched (monitor or from-filter) or its
      recipient is (monitor or to-filter). */
  lemma RequireMatchIff(flt: Filters, txFrom: string, txTo: string, amount: real)
    requires flt.requireMatch
    ensures PassesFilters(flt, txFrom, txTo, amount) <==>
      AboveFloor(flt, amount) &&
      (Lower(txFrom) in flt.monitor + flt.filterFrom || Lower(txTo) in flt.monitor + flt.filterTo)
  {
  }

  /** Without `REQUIRE_MATCH` a transaction passes exactly when it clears the
      floor and each non-empty address filter contains its side. */
  lemma FilterSetsIff(flt: Filters, txFrom: string, txTo: string, amount: real)
    requires !flt.requireMatch
    ensures PassesFilters(flt, txFrom, txTo, amount) <==>
      AboveFloor(flt, amount) &&
      (flt.filterFrom == {} || Lower(txFrom) in flt.filterFrom) &&
      (flt.filterTo == {} || Lower(txTo) in flt.filterTo)
  {
  }

  /** `REQUIRE_MATCH` with all three sets empty rejects everything. */
  lemma RequireMatchWithoutSetsRejects(flt: Filters, txFrom: string, txTo: string, amount: real)
    requires flt.requireMatch && flt.monitor == {} && flt.filterFrom == {} && flt.filterTo == {}
    ensures !PassesFilters(flt, txFrom, txTo, amount)
  {
  }

  /** With no floor, no sets and no `REQUIRE_MATCH`, everything passes. */
  lemma NoFiltersAcceptAll(flt: Filters, txFrom: string, txTo: string, amount: real)
    requires flt.minEthValue == 0.0 && !flt.requireMatch && flt.filterFrom == {} && flt.filterTo == {}
    ensures PassesFilters(flt, txFrom, txTo, amount)
  {
  }

  /** Addresses are compared lower-cased: the filter cannot tell two
      spellings of an address apart. */
  lemma FiltersIgnoreCase(flt: Filters, from1: string, to1: string, from2: string, to2: string, amount: real)
    requires Lower(from1) == Lower(from2) && Lower(to1) == Lower(to2)
    ensures PassesFilters(flt, from1, to1, amount) == PassesFilters(flt, from2, to2, amount)
  {
  }

  /** `_tx_method(input)`: a transaction without call data is a plain
      transfer, anything else a contract call. */
  function TxMethod(input: string): (m: string)
    ensures m == "TRANSFER" || m == "CALL"
    ensures m == "TRANSFER" <==> input == "" || input == "0x"
  {
    if input == "" || input == "0x" then "TRANSFER" else "CALL"
  }

  /** Any call data after the 0x prefix makes the transaction a CALL. */
  lemma PayloadIsCall(input: string)
    requires |input| > 2 && StartsWith(input, "0x")
    ensures TxMethod(input) == "CALL"
  {
    assert input != "0x";
  }

  const WeiPerEther: real := 1000000000000000000.0

  /** `_wei_to_eth_from_hex(value)`: the hexadecimal wei amount in ether,
      where `_hex_to_int` reads unparseable text as 0. */
  function WeiFromHex(value: Option<string>): real {
    HexToInt(value) as real / WeiPerEther
  }

  /** `hex(n)` wei reads as exactly n / 10^18 ether. */
  lemma WeiFromHexOfHex(n: nat)
    ensures WeiFromHex(Some(HexString(n))) == n as real / WeiPerEther
  {
    HexToIntInvertsHex(n);
  }

  /** `_wei_to_eth_from_str(value)`: decimal wei text in ether. When
      `float` rejects it, the fallback `float(value or 0.0)` is 0.0 for None
      or "" and raises again for any other text, so the result is 0.0. */
  function WeiFromText(value: Option<string>): real {
    match value
    case None => 0.0
    case Some(s) =>
      match ParseFloat(s)
      case Some(v) => v / WeiPerEther
      case None => 0.0
  }

  /** Etherscan's decimal wei `str(n)` reads as exactly n / 10^18 ether. */
  lemma WeiFromTextOfInt(n: int)
    ensures WeiFromText(Some(IntToString(n))) == n as real / WeiPerEther
  {
    ParseFloatOfInt(n);
  }

  /** 0001-01-01T00:00:00Z and 9999-12-31T23:59:59Z in seconds since the
      epoch: the instants `datetime.fromtimestamp(ts, tz=timezone.utc)`
      can represent. */
  const MinTimestamp: int := -62135596800
  const MaxTimestamp: int := 253402300799

  predicate Representable(ts: int) {
    MinTimestamp <= ts <= MaxTimestamp
  }

  /** `_block_ts_to_iso(ts_hex)`: the block's timestamp, or the exception
      `fromtimestamp` raises outside the representable range. */
  function BlockTimestamp(tsHex: Option<string>): Raising<int> {
    var ts := HexToInt(tsHex);
    if Representable(ts) then Returned(ts) else Raised
  }

  /** `_to_iso_from_int(ts)`: the instant, or "" (no timestamp) when
      `fromtimestamp` raises. */
  function IsoFromInt(ts: int): Option<int> {
    if Representable(ts) then Some(ts) else None
  }

  /** A block without a timestamp is dated at the epoch: `_hex_to_int`
      reads the missing value as 0. */
  lemma MissingBlockTimestampIsEpoch()
    ensures BlockTimestamp(None) == Returned(0)
  {
  }

  /** A block timestamp the node sends as `hex(ts)` is read back exactly
      when `datetime` can represent it. */
  lemma BlockTimestampOfHex(ts: nat)
    ensures BlockTimestamp(Some(HexString(ts))) == if ts <= MaxTimestamp then Returned(ts) else Raised
  {
    HexToIntInvertsHex(ts);
  }

  /** What every row the collector emits satisfies: it passed the filters,
      and it is an ETH transfer or call on the ETH chain. */
  predicate RowOk(flt: Filters, tx: Scoring.Tx) {
    PassesFilters(flt, tx.fromAddress, tx.toAddress, tx.amount) &&
    tx.token == "ETH" && tx.chain == "ETH" &&
    (tx.methodName == "TRANSFER" || tx.methodName == "CALL")
  }

  predicate AllRowsOk(flt: Filters, rows: seq<Scoring.Tx>) {
    forall i :: 0 <= i < |rows| ==> RowOk(flt, rows[i])
  }

  /** The first k rows: all of them when there are fewer, none when k <= 0. */
  function Take<T>(rows: seq<T>, k: int): (r: seq<T>)
    ensures |r| == Min(|rows|, Max(k, 0))
    ensures r == rows[..|r|]
  {
    if k <= 0 then [] else if k >= |rows| then rows else rows[..k]
  }

  predicate IsPrefix<T(==)>(p: seq<T>, s: seq<T>) {
    |p| <= |s| && s[..|p|] == p
  }
}
