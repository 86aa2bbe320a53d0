/** The Etherscan side of the collector (app/collectors/eth_collector.py):
    the head block through the `proxy` endpoint, the paged `txlist` query,
    the normalisation of its rows and the per-address quotas. */
module EthEtherscan {
  import opened Common
  import opened Text
  import opened Network
  import opened EthUtil
  import Scoring

  /** `ETHERSCAN_ADDRESSES`, `ETH_BLOCKS_BACK` and
      `ETHERSCAN_MAX_TX_PER_ADDR`. */
  datatype EsSettings = EsSettings(addresses: seq<string>, blocksBack: int, perAddr: int)

  /** Etherscan's largest page (`offset`). */
  const MaxPage: int := 10000

  /** What `_etherscan_get_block_number` makes of a reply: a string result
      that starts with 0x and that `int(_, 16)` accepts; None otherwise
      (a failed request, another result, or a `ValueError`). */
  function BlockNumberOf(reply: EsReply): (r: Option<int>)
    ensures r.Some? ==> reply.EsAnswer? && reply.result.EsText? && StartsWith(reply.result.s, "0x")
  {
    match reply
    case EsFailure => None
    case EsAnswer(_, _, res) =>
      if res.EsText? && res.s != "" && StartsWith(res.s, "0x") then ParseInt(res.s, 16) else None
  }

  /** A head block sent as `hex(n)` is read back as n. */
  lemma BlockNumberOfHex(status: Option<string>, message: Option<string>, n: nat)
    ensures BlockNumberOf(EsAnswer(status, message, EsText(HexString(n)))) == Some(n)
  {
    HexToIntInvertsHex(n);
    assert HexString(n)[..2] == "0x";
  }

  /** A failed request, or a result without the 0x prefix, gives no head. */
  lemma BlockNumberNeedsPrefix(reply: EsReply)
    requires reply.EsFailure? || !reply.result.EsText? || !StartsWith(reply.result.s, "0x")
    ensures BlockNumberOf(reply) == None
  {
  }

  /** `_etherscan_get_block_number()`. */
  method HeadBlock(net: Network) returns (head: Option<int>)
    modifies net
    ensures head == BlockNumberOf(EsReplyAt(old(net.esScript), 0))
    ensures net.gets == old(net.gets) + [GetBlockNumber]
    ensures net.esScript == Drop(old(net.esScript), 1)
    ensures net.rpcScript == old(net.rpcScript) && net.posts == old(net.posts) && net.sleeps == old(net.sleeps)
  {
    var reply := net.GetEs(GetBlockNumber);
    head := BlockNumberOf(reply);
  }

  /** `j.get("result") or []` as `out.extend` sees it: nothing for null, one
      element per character for a string, the elements of a list. */
  function PageItems(res: EsResult): seq<EsItem> {
    match res
    case EsNull => []
    case EsText(s) => seq(|s|, _ => EsOther)
    case EsList(items) => items
  }

  /** Status "0" with any message but "OK" (no transactions, a rate limit)
      ends the paging. */
  predicate StatusStops(status: Option<string>, message: Option<string>) {
    status == Some("0") && message != Some("OK")
  }

  /** A reply after which `_etherscan_txlist` asks for the next page. */
  predicate FullPage(reply: EsReply, perPage: int) {
    reply.EsAnswer? && !StatusStops(reply.status, reply.message) &&
    PageItems(reply.result) != [] && |PageItems(reply.result)| >= perPage
  }

  /** The items a paging run collects and the requests it makes. */
  datatype PageRun = PageRun(items: seq<EsItem>, requests: seq<Get>)

  /** The paging loop of `_etherscan_txlist` from page `page` on, with `have`
      items collected so far, answered by `script`: nothing once max_rows
      items are in. */
  function Pages(addr: string, startBlock: int, maxRows: int, perPage: int,
                 script: seq<EsReply>, page: int, have: nat): PageRun
    decreases if have < maxRows then maxRows - have else 0, 1
  {
    if have >= maxRows then PageRun([], [])
    else PageAnswered(addr, startBlock, maxRows, perPage, script, page, have)
  }

  /** The paging loop once page `page` is requested: a failure, a stopping
      status or an empty page ends it with nothing more, a short page
      ends it after its items, and a full page goes on to the next one. */
  function PageAnswered(addr: string, startBlock: int, maxRows: int, perPage: int,
                        script: seq<EsReply>, page: int, have: nat): PageRun
    requires have < maxRows
    decreases maxRows - have, 0
  {
    var request := GetTxList(addr, startBlock, page, perPage);
    var reply := EsReplyAt(script, 0);
    if reply.EsFailure? || StatusStops(reply.status, reply.message) || PageItems(reply.result) == [] then
      PageRun([], [request])
    else
      var rows := PageItems(reply.result);
      if |rows| < perPage then PageRun(rows, [request])
      else
        var rest := Pages(addr, startBlock, maxRows, perPage, Drop(script, 1), page + 1, have + |rows|);
        PageRun(rows + rest.items, [request] + rest.requests)
  }

  /** The whole run of `_etherscan_txlist(addr, start_block, max_rows)`:
      pages of `min(max_rows, 10000)` from page 1. */
  function TxListRun(addr: string, startBlock: int, maxRows: int, script: seq<EsReply>): PageRun {
    Pages(addr, startBlock, maxRows, Min(maxRows, MaxPage), script, 1, 0)
  }

  /** What `_etherscan_txlist` returns: `out[:max_rows]`. */
  function TxListRows(addr: string, startBlock: int, maxRows: int, script: seq<EsReply>): seq<EsItem> {
    Take(TxListRun(addr, startBlock, maxRows, script).items, maxRows)
  }

  /** Pages are requested in order, all with the same address, start block
      and page size; every reply but the last was a full page, and the last
      request ended the run: it failed, its status stopped the paging, its
      page was empty or short, or the quota was reached. */
  lemma {:induction false} PagesShape(addr: string, startBlock: int, maxRows: int, perPage: int,
                                      script: seq<EsReply>, page: int, have: nat)
    ensures var r := Pages(addr, startBlock, maxRows, perPage, script, page, have);
      (r.requests == [] <==> have >= maxRows) &&
      (forall i :: 0 <= i < |r.requests| ==> r.requests[i] == GetTxList(addr, startBlock, page + i, perPage)) &&
      (forall i :: 0 <= i < |r.requests| - 1 ==> FullPage(EsReplyAt(script, i), perPage)) &&
      (r.requests != [] ==>
        !FullPage(EsReplyAt(script, |r.requests| - 1), perPage) || have + |r.items| >= maxRows)
    decreases if have < maxRows then maxRows - have else 0
  {
    var r := Pages(addr, startBlock, maxRows, perPage, script, page, have);
    if have < maxRows {
      var reply := EsReplyAt(script, 0);
      if !(reply.EsFailure? || StatusStops(reply.status, reply.message) || PageItems(reply.result) == [])
        && |PageItems(reply.result)| >= perPage {
        var rows := PageItems(reply.result);
        var rest := Pages(addr, startBlock, maxRows, perPage, Drop(script, 1), page + 1, have + |rows|);
        PagesShape(addr, startBlock, maxRows, perPage, Drop(script, 1), page + 1, have + |rows|);
        assert r.requests == [GetTxList(addr, startBlock, page, perPage)] + rest.requests;
        forall i | 0 < i < |r.requests|
          ensures EsReplyAt(script, i) == EsReplyAt(Drop(script, 1), i - 1)
        {
          EsReplyAtDrop(script, 1, i - 1);
        }
      }
    }
  }

  /** With a quota of at most one full page, one request is made. */
  lemma TxListOnePage(addr: string, startBlock: int, maxRows: int, script: seq<EsReply>)
    requires 0 < maxRows <= MaxPage
    ensures |TxListRun(addr, startBlock, maxRows, script).requests| == 1
  {
    var reply := EsReplyAt(script, 0);
    if FullPage(reply, maxRows) {
      var rows := PageItems(reply.result);
      assert Pages(addr, startBlock, maxRows, maxRows, Drop(script, 1), 2, |rows|) == PageRun([], []);
    }
    assert TxListRun(addr, startBlock, maxRows, script) == PageAnswered(addr, startBlock, maxRows, maxRows, script, 1, 0);
  }

  /** A quota of zero or less makes no request. */
  lemma TxListNoQuota(addr: string, startBlock: int, maxRows: int, script: seq<EsReply>)
    requires maxRows <= 0
    ensures TxListRun(addr, startBlock, maxRows, script) == PageRun([], [])
  {
  }

  /** The run so far (`out`, `got`) followed by the rest of the run. */
  function PageGlue(out: seq<EsItem>, got: seq<Get>, r: PageRun): PageRun {
    PageRun(out + r.items, got + r.requests)
  }

  /** One full page moves its items and its request from the rest of the run
      to the run so far. */
  lemma PageGlueStep(addr: string, startBlock: int, maxRows: int, perPage: int,
                     script: seq<EsReply>, page: int, out: seq<EsItem>, got: seq<Get>)
    requires |out| < maxRows && FullPage(EsReplyAt(script, 0), perPage)
    ensures PageGlue(out, got, Pages(addr, startBlock, maxRows, perPage, script, page, |out|)) ==
      PageGlue(out + PageItems(EsReplyAt(script, 0).result), got + [GetTxList(addr, startBlock, page, perPage)],
               Pages(addr, startBlock, maxRows, perPage, Drop(script, 1), page + 1, |out| + |PageItems(EsReplyAt(script, 0).result)|))
  {
  }

  /** A reply that is not a full page ends the run after its request, with
      its items unless the request failed or its status stopped the paging. */
  lemma PageStop(addr: string, startBlock: int, maxRows: int, perPage: int,
                 script: seq<EsReply>, page: int, have: nat)
    requires have < maxRows && !FullPage(EsReplyAt(script, 0), perPage)
    ensures var reply := EsReplyAt(script, 0);
      Pages(addr, startBlock, maxRows, perPage, script, page, have) ==
      PageRun(if reply.EsFailure? || StatusStops(reply.status, reply.message) then [] else PageItems(reply.result),
              [GetTxList(addr, startBlock, page, perPage)])
  {
  }

  /** Once the quota is reached the rest of the run is empty. */
  lemma PageGlueDone(addr: string, startBlock: int, maxRows: int, perPage: int,
                     script: seq<EsReply>, page: int, out: seq<EsItem>, got: seq<Get>)
    requires |out| >= maxRows
    ensures PageGlue(out, got, Pages(addr, startBlock, maxRows, perPage, script, page, |out|)) == PageRun(out, got)
  {
    assert out + [] == out && got + [] == got;
  }

  /** One turn of the paging loop of `_etherscan_txlist`: page `page` is
      requested; `done` when the reply ends the run (a failure, a stopping
      status, an empty or short page), its rows kept unless it failed or
      its status stopped the paging. */
  method FetchPage(net: Network, addr: string, startBlock: int, maxRows: int, perPage: int, page: int,
                   out0: seq<EsItem>, ghost got0: seq<Get>, ghost run: PageRun,
                   ghost script0: seq<EsReply>, ghost gets0: seq<Get>)
    returns (out: seq<EsItem>, next: int, done: bool, ghost got: seq<Get>)
    requires |out0| < maxRows && 0 < perPage
    requires run == PageGlue(out0, got0, Pages(addr, startBlock, maxRows, perPage, net.esScript, page, |out0|))
    requires net.gets == gets0 + got0 && net.esScript == Drop(script0, |got0|)
    modifies net
    ensures net.gets == gets0 + got && net.esScript == Drop(script0, |got|)
    ensures net.rpcScript == old(net.rpcScript) && net.posts == old(net.posts) && net.sleeps == old(net.sleeps)
    ensures done ==> run == PageRun(out, got)
    ensures !done ==>
      |out| > |out0| && run == PageGlue(out, got, Pages(addr, startBlock, maxRows, perPage, net.esScript, next, |out|))
  {
    ghost var before := net.esScript;
    var request := GetTxList(addr, startBlock, page, perPage);
    var reply := net.GetEs(request);
    got := got0 + [request];
    DropDrop(script0, |got0|, 1);
    AppendAssoc(gets0, got0, [request]);
    if !FullPage(reply, perPage) {
      PageStop(addr, startBlock, maxRows, perPage, before, page, |out0|);
      // A failure or a stopping status ends the paging with nothing more;
      // an empty or short page ends it after its rows.
      out := out0;
      if reply.EsAnswer? && !StatusStops(reply.status, reply.message) {
        out := out0 + PageItems(reply.result);
      }
      return out, page, true, got;
    }
    PageGlueStep(addr, startBlock, maxRows, perPage, before, page, out0, got0);
    out, next, done := out0 + PageItems(reply.result), page + 1, false;
  }

  /** The paging loop of `_etherscan_txlist`: pages of
      `min(max_rows, 10000)` rows from page 1 until the run ends. */
  method PageAll(net: Network, addr: string, startBlock: int, maxRows: int)
    returns (out: seq<EsItem>, ghost got: seq<Get>)
    modifies net
    ensures PageRun(out, got) == TxListRun(addr, startBlock, maxRows, old(net.esScript))
    ensures net.gets == old(net.gets) + got && net.esScript == Drop(old(net.esScript), |got|)
    ensures net.rpcScript == old(net.rpcScript) && net.posts == old(net.posts) && net.sleeps == old(net.sleeps)
  {
    ghost var run := TxListRun(addr, startBlock, maxRows, net.esScript);
    out, got := [], [];
    var page := 1;
    var perPage := Min(maxRows, MaxPage);
    assert [] + run.items == run.items && [] + run.requests == run.requests;
    while |out| < maxRows
      invariant run == PageGlue(out, got, Pages(addr, startBlock, maxRows, perPage, net.esScript, page, |out|))
      invariant net.gets == old(net.gets) + got && net.esScript == Drop(old(net.esScript), |got|)
      invariant net.rpcScript == old(net.rpcScript) && net.posts == old(net.posts) && net.sleeps == old(net.sleeps)
      decreases maxRows - |out|
    {
      var done;
      out, page, done, got := FetchPage(net, addr, startBlock, maxRows, perPage, page, out, got, run,
                                        old(net.esScript), old(net.gets));
      if done {
        return;
      }
    }
    PageGlueDone(addr, startBlock, maxRows, perPage, net.esScript, page, out, got);
  }

  /** `_etherscan_txlist(addr, start_block, max_rows)`. */
  method TxList(net: Network, addr: string, startBlock: int, maxRows: int) returns (rows: seq<EsItem>)
    modifies net
    ensures rows == TxListRows(addr, startBlock, maxRows, old(net.esScript))
    ensures net.gets == old(net.gets) + TxListRun(addr, startBlock, maxRows, old(net.esScript)).requests
    ensures net.esScript == Drop(old(net.esScript), |TxListRun(addr, startBlock, maxRows, old(net.esScript)).requests|)
    ensures net.rpcScript == old(net.rpcScript) && net.posts == old(net.posts) && net.sleeps == old(net.sleeps)
  {
    var out, _ := PageAll(net, addr, startBlock, maxRows);
    rows := Take(out, maxRows);
  }

  /** `_normalize_etherscan_row(row)`. `int(timeStamp)` raises on text that
      is not an integer, and every `row.get` raises on an element that is
      not an object. */
  function NormalizeRow(item: EsItem): (r: Raising<Scoring.Tx>)
    ensures r.Raised? <==> item.EsOther? || ParseInt(item.row.timeStamp, 10).None?
    ensures r.Returned? ==>
      r.value.token == "ETH" && r.value.chain == "ETH" &&
      (r.value.methodName == "TRANSFER" || r.value.methodName == "CALL")
  {
    match item
    case EsOther => Raised
    case EsObject(row) =>
      match ParseInt(row.timeStamp, 10)
      case None => Raised
      case Some(ts) =>
        Returned(Scoring.Tx(row.hash, IsoFromInt(ts), row.fromAddress, row.toAddress,
                            WeiFromText(row.value), "ETH", TxMethod(row.input), "ETH"))
  }

  /** A row as Etherscan sends it, with `str(ts)` seconds and `str(wei)`
      wei, keeps its addresses and hash, and reads back its instant and its
      amount in ether. */
  lemma NormalizeRowOfIntegers(hash: string, frm: string, to: string, wei: int, ts: int, input: string)
    ensures NormalizeRow(EsObject(EsRow(hash, frm, to, Some(IntToString(wei)), IntToString(ts), input))) ==
      Returned(Scoring.Tx(hash, if Representable(ts) then Some(ts) else None, frm, to,
                          wei as real / WeiPerEther, "ETH", TxMethod(input), "ETH"))
  {
    ParseIntRoundTrip(ts);
    WeiFromTextOfInt(wei);
  }

  /** Each item of a `txlist` result normalised, or the exception
      normalising it raises. */
  function Normalized(items: seq<EsItem>): (r: seq<Raising<Scoring.Tx>>)
    ensures |r| == |items|
  {
    seq(|items|, i requires 0 <= i < |items| => NormalizeRow(items[i]))
  }

  /** The normalisation loop of `_collect_via_etherscan` over the normalised
      rows, with `out` kept so far: a passing row is appended, the loop breaks
      as soon as `out` holds maxTx rows, and the first exception it reaches
      ends everything (later rows are never normalised). */
  function NormalizeFrom(rows: seq<Raising<Scoring.Tx>>, flt: Filters, maxTx: int, out: seq<Scoring.Tx>): Raising<seq<Scoring.Tx>>
    decreases |rows|, 1
  {
    if rows == [] then Returned(out) else NormalizeFirst(rows, flt, maxTx, out)
  }

  /** The normalisation loop at its first row: an exception ends it, and
      a normalised row is kept if it passes the filters. */
  function NormalizeFirst(rows: seq<Raising<Scoring.Tx>>, flt: Filters, maxTx: int, out: seq<Scoring.Tx>): Raising<seq<Scoring.Tx>>
    requires rows != []
    decreases |rows|, 0
  {
    if rows[0].Raised? then Raised
    else
      var kept := out + KeepRow(flt, rows[0].value);
      if |kept| >= maxTx then Returned(kept) else NormalizeFrom(rows[1..], flt, maxTx, kept)
  }

  /** The row, if it passes the filters. */
  function KeepRow(flt: Filters, tx: Scoring.Tx): seq<Scoring.Tx> {
    if PassesFilters(flt, tx.fromAddress, tx.toAddress, tx.amount) then [tx] else []
  }

  predicate AllReturned(rows: seq<Raising<Scoring.Tx>>) {
    forall i :: 0 <= i < |rows| ==> rows[i].Returned?
  }

  /** Reference: the normalised rows that pass the filters, in order. */
  function Kept(rows: seq<Raising<Scoring.Tx>>, flt: Filters): seq<Scoring.Tx> {
    if rows == [] then []
    else (if rows[0].Returned? then KeepRow(flt, rows[0].value) else []) + Kept(rows[1..], flt)
  }

  lemma TakeCons<T>(x: T, rest: seq<T>, k: int)
    requires k >= 1
    ensures Take([x] + rest, k) == [x] + Take(rest, k - 1)
  {
  }

  /** When every row normalises, the loop is filter-then-truncate: the
      first maxTx - |out| rows that pass, after `out`. */
  lemma {:induction false} NormalizeFromFilters(rows: seq<Raising<Scoring.Tx>>, flt: Filters, maxTx: int, out: seq<Scoring.Tx>)
    requires AllReturned(rows) && |out| < maxTx
    ensures NormalizeFrom(rows, flt, maxTx, out) == Returned(out + Take(Kept(rows, flt), maxTx - |out|))
    decreases |rows|
  {
    if rows != [] {
      var tx := rows[0].value;
      var one := KeepRow(flt, tx);
      var rest := Kept(rows[1..], flt);
      assert AllReturned(rows[1..]) by {
        forall i | 0 <= i < |rows[1..]| ensures rows[1..][i].Returned? {
          assert rows[1..][i] == rows[i + 1];
        }
      }
      assert Kept(rows, flt) == one + rest;
      if |out + one| >= maxTx {
        assert one == [tx];
        TakeCons(tx, rest, maxTx - |out|);
        assert Take(rest, 0) == [];
      } else if one == [] {
        NormalizeFromFilters(rows[1..], flt, maxTx, out);
        assert out + one == out && one + rest == rest;
      } else {
        assert one == [tx];
        NormalizeFromFilters(rows[1..], flt, maxTx, out + one);
        TakeCons(tx, rest, maxTx - |out|);
        AppendAssoc(out, one, Take(rest, maxTx - |out| - 1));
      }
    } else {
      assert out + Take(Kept(rows, flt), maxTx - |out|) == out;
    }
  }

  /** An exception comes only from a row that does not normalise. */
  lemma {:induction false} NormalizeFromRaises(rows: seq<Raising<Scoring.Tx>>, flt: Filters, maxTx: int, out: seq<Scoring.Tx>)
    requires NormalizeFrom(rows, flt, maxTx, out).Raised?
    ensures exists i :: 0 <= i < |rows| && rows[i].Raised?
    decreases |rows|
  {
    if rows[0].Returned? {
      NormalizeFromRaises(rows[1..], flt, maxTx, out + KeepRow(flt, rows[0].value));
      var i :| 0 <= i < |rows[1..]| && rows[1..][i].Raised?;
      assert rows[1..][i] == rows[i + 1];
    }
  }

  /** A row that does not normalise, reached before maxTx rows are kept,
      makes the whole loop raise. */
  lemma FirstRowRaises(rows: seq<Raising<Scoring.Tx>>, flt: Filters, maxTx: int, out: seq<Scoring.Tx>)
    requires rows != [] && rows[0].Raised?
    ensures NormalizeFrom(rows, flt, maxTx, out) == Raised
  {
  }

  /** The loop never goes past maxTx rows once it starts below it, and every
      row it keeps passed the filters and is an ETH row. */
  lemma {:induction false} NormalizeFromBounded(rows: seq<Raising<Scoring.Tx>>, flt: Filters, maxTx: int, out: seq<Scoring.Tx>)
    requires |out| < maxTx || rows == []
    requires AllRowsOk(flt, out)
    requires forall i :: 0 <= i < |rows| && rows[i].Returned? ==>
      rows[i].value.token == "ETH" && rows[i].value.chain == "ETH" &&
      (rows[i].value.methodName == "TRANSFER" || rows[i].value.methodName == "CALL")
    ensures var r := NormalizeFrom(rows, flt, maxTx, out);
      r.Returned? ==> |r.value| <= Max(maxTx, |out|) && |r.value| <= |out| + |rows| && AllRowsOk(flt, r.value)
    decreases |rows|
  {
    if rows != [] && rows[0].Returned? {
      var kept := out + KeepRow(flt, rows[0].value);
      if |kept| < maxTx {
        forall i | 0 <= i < |rows[1..]| && rows[1..][i].Returned?
          ensures rows[1..][i].value.token == "ETH" && rows[1..][i].value.chain == "ETH" &&
            (rows[1..][i].value.methodName == "TRANSFER" || rows[1..][i].value.methodName == "CALL")
        {
          assert rows[1..][i] == rows[i + 1];
        }
        NormalizeFromBounded(rows[1..], flt, maxTx, kept);
      }
    }
  }

  /** Normalised rows are ETH rows with a TRANSFER or CALL method. */
  lemma NormalizedAreEth(items: seq<EsItem>)
    ensures forall i :: 0 <= i < |items| && Normalized(items)[i].Returned? ==>
      Normalized(items)[i].value.token == "ETH" && Normalized(items)[i].value.chain == "ETH" &&
      (Normalized(items)[i].value.methodName == "TRANSFER" || Normalized(items)[i].value.methodName == "CALL")
  {
  }

  /** The normalisation loop of `_collect_via_etherscan`. */
  method NormalizeRows(items: seq<EsItem>, flt: Filters, maxTx: int) returns (r: Raising<seq<Scoring.Tx>>)
    ensures r == NormalizeFrom(Normalized(items), flt, maxTx, [])
  {
    ghost var rows := Normalized(items);
    var out: seq<Scoring.Tx> := [];
    var i := 0;
    while i < |items|
      invariant 0 <= i <= |items|
      invariant NormalizeFrom(rows, flt, maxTx, []) == NormalizeFrom(rows[i..], flt, maxTx, out)
    {
      assert rows[i..][1..] == rows[i + 1..];
      var tx := NormalizeRow(items[i]);
      assert rows[i..][0] == tx;
      if tx.Raised? {
        return Raised;
      }
      ghost var kept := out + KeepRow(flt, tx.value);
      if PassesFilters(flt, tx.value.fromAddress, tx.value.toAddress, tx.value.amount) {
        out := out + [tx.value];
      }
      assert out == kept;
      if |out| >= maxTx {
        return Returned(out);
      }
      i := i + 1;
    }
    return Returned(out);
  }

  /** The sum of the counts. */
  function Sum(xs: seq<int>): int {
    if xs == [] then 0 else xs[0] + Sum(xs[1..])
  }

  /** The quotas and counts of the addresses queried from a point where
      `have` items were in: each address was queried only while fewer than
      maxTx items were in, got the quota min(perAddr, maxTx - items so
      far), and returned between 0 and that many items. */
  predicate QuotasFrom(quotas: seq<int>, counts: seq<int>, perAddr: int, maxTx: int, have: int)
    decreases |quotas|
  {
    |quotas| == |counts| &&
    (quotas != [] ==>
      have < maxTx && quotas[0] == Min(perAddr, maxTx - have) && 0 <= counts[0] <= Max(quotas[0], 0) &&
      QuotasFrom(quotas[1..], counts[1..], perAddr, maxTx, have + counts[0]))
  }

  lemma ListRequestsAppend(a: seq<Get>, b: seq<Get>, addresses: seq<string>, start: int)
    requires ListRequests(a, addresses, start) && ListRequests(b, addresses, start)
    ensures ListRequests(a + b, addresses, start)
  {
    forall j | 0 <= j < |a + b|
      ensures (a + b)[j].GetTxList? && (a + b)[j].address in addresses && (a + b)[j].startBlock == start
    {
      if j >= |a| {
        assert (a + b)[j] == b[j - |a|];
      }
    }
  }

  /** Every request of a `txlist` run is a page of that address's
      transactions from `startBlock`. */
  lemma TxListRequests(addr: string, startBlock: int, maxRows: int, script: seq<EsReply>, addresses: seq<string>)
    requires addr in addresses
    ensures ListRequests(TxListRun(addr, startBlock, maxRows, script).requests, addresses, startBlock)
  {
    PagesShape(addr, startBlock, maxRows, Min(maxRows, MaxPage), script, 1, 0);
  }

  /** Every request after the head is a page of some watched address's
      transactions from `start`. */
  predicate ListRequests(requests: seq<Get>, addresses: seq<string>, start: int) {
    forall j :: 0 <= j < |requests| ==>
      requests[j].GetTxList? && requests[j].address in addresses && requests[j].startBlock == start
  }

  /** The pauses after n addresses: a quarter of a second each. */
  function Quarters(n: nat): seq<real> {
    if n == 0 then [] else Quarters(n - 1) + [0.25]
  }

  /** What the address loop comes to: the items fetched, the quota each
      queried address got and how many items it returned, and the `txlist`
      requests made. */
  datatype AddrRun = AddrRun(rows: seq<EsItem>, quotas: seq<int>, counts: seq<int>, requests: seq<Get>)

  /** A loop after the part `done` already made. */
  function AddrGlue(done: AddrRun, rest: AddrRun): AddrRun {
    AddrRun(done.rows + rest.rows, done.quotas + rest.quotas, done.counts + rest.counts,
            done.requests + rest.requests)
  }

  /** The address loop of `_collect_via_etherscan` from the address at i
      on, with `have` items in so far and the replies taken from `script`:
      while fewer than maxTx items are in, each address pages in at most
      min(ETHERSCAN_MAX_TX_PER_ADDR, maxTx - have) items from `start`. */
  function AddrsFrom(s: EsSettings, start: int, maxTx: int, script: seq<EsReply>, i: nat, have: int): AddrRun
    decreases |s.addresses| - i, 1
  {
    if i >= |s.addresses| || have >= maxTx then AddrRun([], [], [], [])
    else AddrsFromTurn(s, start, maxTx, script, i, have)
  }

  /** The address loop once the address at i takes its turn: that turn,
      then the loop from the next address on the replies left. */
  function AddrsFromTurn(s: EsSettings, start: int, maxTx: int, script: seq<EsReply>, i: nat, have: int): AddrRun
    requires i < |s.addresses|
    decreases |s.addresses| - i, 0
  {
    var here := AddrTurn(s, start, maxTx, script, i, have);
    AddrGlue(here, AddrsFrom(s, start, maxTx, Drop(script, |here.requests|), i + 1, have + |here.rows|))
  }

  /** The turn of the address at i with `have` items in: its quota
      min(ETHERSCAN_MAX_TX_PER_ADDR, maxTx - have), the items
      `_etherscan_txlist` returns for it, and the requests it makes. */
  function AddrTurn(s: EsSettings, start: int, maxTx: int, script: seq<EsReply>, i: nat, have: int): AddrRun
    requires i < |s.addresses|
  {
    var quota := Min(s.perAddr, maxTx - have);
    var rows := TxListRows(s.addresses[i], start, quota, script);
    AddrRun(rows, [quota], [|rows|], TxListRun(s.addresses[i], start, quota, script).requests)
  }

  /** What `_collect_via_etherscan` comes to: its result, the head block,
      the address loop's run and every request made. */
  datatype EsCollectRun = EsCollectRun(result: Raising<seq<Scoring.Tx>>, head: Option<int>, fetched: AddrRun,
                                       gets: seq<Get>)

  /** The whole of `_collect_via_etherscan(max_tx)` answered by `script`:
      nothing without addresses; the head request, and nothing more
      without a truthy head; otherwise the address loop from
      max(0, head - ETH_BLOCKS_BACK), then the normalisation loop over
      every item fetched. */
  function CollectEsSpec(s: EsSettings, flt: Filters, maxTx: int, script: seq<EsReply>): EsCollectRun {
    var none := AddrRun([], [], [], []);
    if s.addresses == [] then EsCollectRun(Returned([]), None, none, [])
    else
      var head := BlockNumberOf(EsReplyAt(script, 0));
      if head.None? || head.value == 0 then EsCollectRun(Returned([]), head, none, [GetBlockNumber])
      else
        var fetched := AddrsFrom(s, Max(0, head.value - s.blocksBack), maxTx, Drop(script, 1), 0, 0);
        EsCollectRun(NormalizeFrom(Normalized(fetched.rows), flt, maxTx, []), head, fetched,
                     [GetBlockNumber] + fetched.requests)
  }

  /** One turn of the address loop when it does not stop before the
      address at i. */
  lemma AddrStep(s: EsSettings, start: int, maxTx: int, script: seq<EsReply>, i: nat, done: AddrRun)
    requires i < |s.addresses| && |done.rows| < maxTx
    ensures var here := AddrTurn(s, start, maxTx, script, i, |done.rows|);
      AddrGlue(done, AddrsFrom(s, start, maxTx, script, i, |done.rows|)) ==
      AddrGlue(AddrGlue(done, here),
               AddrsFrom(s, start, maxTx, Drop(script, |here.requests|), i + 1, |done.rows| + |here.rows|))
  {
    var here := AddrTurn(s, start, maxTx, script, i, |done.rows|);
    var rest := AddrsFrom(s, start, maxTx, Drop(script, |here.requests|), i + 1, |done.rows| + |here.rows|);
    AppendAssoc(done.rows, here.rows, rest.rows);
    AppendAssoc(done.quotas, here.quotas, rest.quotas);
    AppendAssoc(done.counts, here.counts, rest.counts);
    AppendAssoc(done.requests, here.requests, rest.requests);
  }

  /** A loop with nothing left to do is the part already made. */
  lemma AddrGlueEnd(done: AddrRun)
    ensures AddrGlue(done, AddrRun([], [], [], [])) == done
  {
    assert done.rows + [] == done.rows && done.quotas + [] == done.quotas;
    assert done.counts + [] == done.counts && done.requests + [] == done.requests;
  }

  /** The address loop queries the addresses in order, one quota and one
      count each, stops early only once maxTx items are in, and never
      takes in more items than the quotas allow. */
  lemma {:induction false} AddrsFromShape(s: EsSettings, start: int, maxTx: int, script: seq<EsReply>, i: nat, have: int)
    requires i <= |s.addresses|
    ensures var run := AddrsFrom(s, start, maxTx, script, i, have);
      |run.quotas| == |run.counts| <= |s.addresses| - i &&
      (|run.quotas| < |s.addresses| - i ==> have + |run.rows| >= maxTx) &&
      (have < maxTx ==> have + |run.rows| <= Max(maxTx, have))
    decreases |s.addresses| - i
  {
    if i < |s.addresses| && have < maxTx {
      var here := AddrTurn(s, start, maxTx, script, i, have);
      AddrsFromShape(s, start, maxTx, Drop(script, |here.requests|), i + 1, have + |here.rows|);
    }
  }

  /** The normalisation loop over the items fetched: when every item
      normalises, it keeps the first maxTx that pass the filters, in
      order; an exception comes only from an item that does not normalise;
      and it keeps at most maxTx rows, each passing the filters and on ETH.
      (With maxTx <= 0 the address loop fetches nothing.) */
  lemma NormalizeItems(rows: seq<EsItem>, flt: Filters, maxTx: int)
    requires rows == [] || 0 < maxTx
    ensures var items := Normalized(rows);
      var r := NormalizeFrom(items, flt, maxTx, []);
      (AllReturned(items) ==> r == Returned(Take(Kept(items, flt), maxTx))) &&
      (r.Raised? ==> exists i :: 0 <= i < |items| && items[i].Raised?) &&
      (r.Returned? ==> |r.value| <= Max(maxTx, 0) && AllRowsOk(flt, r.value))
  {
    var items := Normalized(rows);
    var r := NormalizeFrom(items, flt, maxTx, []);
    if rows == [] {
      assert items == [];
    } else {
      if AllReturned(items) {
        NormalizeFromFilters(items, flt, maxTx, []);
        assert [] + Take(Kept(items, flt), maxTx) == Take(Kept(items, flt), maxTx);
      }
      if r.Raised? {
        NormalizeFromRaises(items, flt, maxTx, []);
      }
      NormalizedAreEth(rows);
      NormalizeFromBounded(items, flt, maxTx, []);
    }
  }

  /** With addresses and a truthy head, the address loop runs from
      max(0, head - ETH_BLOCKS_BACK) on the replies after the head's. */
  lemma CollectEsFetched(s: EsSettings, flt: Filters, maxTx: int, script: seq<EsReply>)
    requires s.addresses != []
    requires BlockNumberOf(EsReplyAt(script, 0)).Some? && BlockNumberOf(EsReplyAt(script, 0)).value != 0
    ensures var head := BlockNumberOf(EsReplyAt(script, 0));
      var c := CollectEsSpec(s, flt, maxTx, script);
      var fetched := AddrsFrom(s, Max(0, head.value - s.blocksBack), maxTx, Drop(script, 1), 0, 0);
      c == EsCollectRun(NormalizeFrom(Normalized(fetched.rows), flt, maxTx, []), head, fetched,
                        [GetBlockNumber] + fetched.requests)
  {
  }

  /** What `_collect_via_etherscan(max_tx)` returns: [] without addresses
      or without a truthy head; when every item fetched normalises, the
      first max_tx of them that pass the filters, in order; an exception
      only from an item that does not normalise; and at most max_tx rows,
      each passing the filters and on ETH. */
  lemma CollectEsMeaning(s: EsSettings, flt: Filters, maxTx: int, script: seq<EsReply>)
    ensures var c := CollectEsSpec(s, flt, maxTx, script);
      var items := Normalized(c.fetched.rows);
      (c.head.None? || c.head.value == 0 ==> c.result == Returned([]) && c.fetched.rows == []) &&
      (AllReturned(items) ==> c.result == Returned(Take(Kept(items, flt), maxTx))) &&
      (c.result.Raised? ==> exists i :: 0 <= i < |items| && items[i].Raised?) &&
      (c.result.Returned? ==> |c.result.value| <= Max(maxTx, 0) && AllRowsOk(flt, c.result.value))
  {
    var c := CollectEsSpec(s, flt, maxTx, script);
    if c.head.Some? && c.head.value != 0 {
      if maxTx <= 0 {
        assert c.fetched.rows == [];
      }
      NormalizeItems(c.fetched.rows, flt, maxTx);
    } else {
      assert c.fetched.rows == [] && c.result == Returned([]);
      assert Normalized([]) == [];
    }
  }

  /** Each address the loop queries gets min(per-address limit, maxTx -
      items so far) while fewer than maxTx items are in and returns at
      most that many; the items number the sum of the counts. */
  lemma {:induction false} AddrsFromQuotas(s: EsSettings, start: int, maxTx: int, script: seq<EsReply>, i: nat, have: int)
    ensures var run := AddrsFrom(s, start, maxTx, script, i, have);
      QuotasFrom(run.quotas, run.counts, s.perAddr, maxTx, have) && Sum(run.counts) == |run.rows|
    decreases |s.addresses| - i
  {
    if i < |s.addresses| && have < maxTx {
      var run := AddrsFrom(s, start, maxTx, script, i, have);
      var here := AddrTurn(s, start, maxTx, script, i, have);
      var rest := AddrsFrom(s, start, maxTx, Drop(script, |here.requests|), i + 1, have + |here.rows|);
      AddrsFromQuotas(s, start, maxTx, Drop(script, |here.requests|), i + 1, have + |here.rows|);
      assert run == AddrsFromTurn(s, start, maxTx, script, i, have) == AddrGlue(here, rest);
      assert run.quotas[1..] == rest.quotas && run.counts[1..] == rest.counts;
    }
  }

  /** Every request of the address loop is a page of a watched address's
      transactions from `start`. */
  lemma {:induction false} AddrsFromRequests(s: EsSettings, start: int, maxTx: int, script: seq<EsReply>, i: nat, have: int)
    ensures ListRequests(AddrsFrom(s, start, maxTx, script, i, have).requests, s.addresses, start)
    decreases |s.addresses| - i
  {
    if i < |s.addresses| && have < maxTx {
      var here := AddrTurn(s, start, maxTx, script, i, have);
      var rest := AddrsFrom(s, start, maxTx, Drop(script, |here.requests|), i + 1, have + |here.rows|);
      TxListRequests(s.addresses[i], start, Min(s.perAddr, maxTx - have), script, s.addresses);
      AddrsFromRequests(s, start, maxTx, Drop(script, |here.requests|), i + 1, have + |here.rows|);
      ListRequestsAppend(here.requests, rest.requests, s.addresses, start);
    }
  }

  /** What the address loop of `_collect_via_etherscan` promises: the
      addresses are queried in order, each with its quota, only while
      fewer than maxTx items are in, and all of them unless maxTx items
      came in first; the items number the sum of the counts, at most
      maxTx; and every request is a page of a watched address's
      transactions from `start`. */
  lemma AddrsMeaning(s: EsSettings, start: int, maxTx: int, script: seq<EsReply>)
    ensures var run := AddrsFrom(s, start, maxTx, script, 0, 0);
      |run.quotas| == |run.counts| <= |s.addresses| &&
      QuotasFrom(run.quotas, run.counts, s.perAddr, maxTx, 0) &&
      |run.rows| == Sum(run.counts) <= Max(maxTx, 0) &&
      (|run.quotas| < |s.addresses| ==> Sum(run.counts) >= maxTx) &&
      ListRequests(run.requests, s.addresses, start)
  {
    AddrsFromQuotas(s, start, maxTx, script, 0, 0);
    AddrsFromShape(s, start, maxTx, script, 0, 0);
    AddrsFromRequests(s, start, maxTx, script, 0, 0);
  }

  /** One turn of the address loop: the address at i pages in its quota
      of items and the collector pauses. The ghost `total` is the whole
      loop's run; `script0`, `gets0` and `sleeps0` are the script, the
      requests and the sleeps at the start of the loop. */
  method CollectAddress(net: Network, s: EsSettings, start: int, maxTx: int, i: int, rows0: seq<EsItem>,
                        ghost quotas0: seq<int>, ghost counts0: seq<int>, ghost requests0: seq<Get>,
                        ghost total: AddrRun, ghost script0: seq<EsReply>, ghost gets0: seq<Get>,
                        ghost sleeps0: seq<real>)
    returns (allRows: seq<EsItem>, ghost quotas: seq<int>, ghost counts: seq<int>, ghost requests: seq<Get>,
             ghost added: seq<Get>)
    requires 0 <= i < |s.addresses| && |rows0| < maxTx
    requires total == AddrGlue(AddrRun(rows0, quotas0, counts0, requests0),
                               AddrsFrom(s, start, maxTx, net.esScript, i, |rows0|))
    requires net.gets == gets0 + requests0 && net.esScript == Drop(script0, |requests0|)
    requires net.sleeps == sleeps0 + Quarters(|quotas0|)
    modifies net
    ensures var here := AddrTurn(s, start, maxTx, old(net.esScript), i, |rows0|);
      AddrRun(allRows, quotas, counts, requests) == AddrGlue(AddrRun(rows0, quotas0, counts0, requests0), here) &&
      allRows == rows0 + TxListRows(s.addresses[i], start, Min(s.perAddr, maxTx - |rows0|), old(net.esScript)) &&
      added == here.requests
    ensures total == AddrGlue(AddrRun(allRows, quotas, counts, requests),
                              AddrsFrom(s, start, maxTx, net.esScript, i + 1, |allRows|))
    ensures net.gets == old(net.gets) + added && net.esScript == Drop(old(net.esScript), |added|)
    ensures net.sleeps == old(net.sleeps) + [0.25]
    ensures net.gets == gets0 + requests && net.esScript == Drop(script0, |requests|)
    ensures net.sleeps == sleeps0 + Quarters(|quotas|)
    ensures net.rpcScript == old(net.rpcScript) && net.posts == old(net.posts)
  {
    var quota := Min(s.perAddr, maxTx - |rows0|);
    ghost var script := net.esScript;
    AddrStep(s, start, maxTx, script, i, AddrRun(rows0, quotas0, counts0, requests0));
    var rows := TxList(net, s.addresses[i], start, quota);
    ghost var run := TxListRun(s.addresses[i], start, quota, script);
    requests, added := requests0 + run.requests, run.requests;
    quotas, counts := quotas0 + [quota], counts0 + [|rows|];
    allRows := rows0 + rows;
    net.Sleep(0.25);
    AppendAssoc(gets0, requests0, added);
    DropDrop(script0, |requests0|, |added|);
    AppendAssoc(sleeps0, Quarters(|quotas0|), [0.25]);
  }

  /** The address loop of `_collect_via_etherscan`: each address in turn,
      while fewer than maxTx items are in, pages in at most
      min(ETHERSCAN_MAX_TX_PER_ADDR, maxTx - items so far) items from
      `start`, then the collector sleeps a quarter of a second. The ghost
      results are the quota each queried address got, the items each
      returned and the requests made. */
  method CollectAddresses(net: Network, s: EsSettings, start: int, maxTx: int)
    returns (allRows: seq<EsItem>, ghost quotas: seq<int>, ghost counts: seq<int>, ghost requests: seq<Get>)
    modifies net
    ensures AddrRun(allRows, quotas, counts, requests) == AddrsFrom(s, start, maxTx, old(net.esScript), 0, 0)
    ensures net.gets == old(net.gets) + requests && net.esScript == Drop(old(net.esScript), |requests|)
    ensures net.sleeps == old(net.sleeps) + Quarters(|quotas|)
    ensures net.rpcScript == old(net.rpcScript) && net.posts == old(net.posts)
  {
    ghost var script0 := net.esScript;
    ghost var total := AddrsFrom(s, start, maxTx, script0, 0, 0);
    allRows, quotas, counts, requests := [], [], [], [];
    assert AddrGlue(AddrRun(allRows, quotas, counts, requests), total) == total;
    var i := 0;
    while i < |s.addresses|
      invariant 0 <= i <= |s.addresses| && |quotas| == i
      invariant total == AddrGlue(AddrRun(allRows, quotas, counts, requests),
                                  AddrsFrom(s, start, maxTx, net.esScript, i, |allRows|))
      invariant net.gets == old(net.gets) + requests && net.esScript == Drop(script0, |requests|)
      invariant net.sleeps == old(net.sleeps) + Quarters(|quotas|)
      invariant net.rpcScript == old(net.rpcScript) && net.posts == old(net.posts)
    {
      if |allRows| >= maxTx {
        break;
      }
      ghost var added;
      allRows, quotas, counts, requests, added :=
        CollectAddress(net, s, start, maxTx, i, allRows, quotas, counts, requests, total,
                       script0, old(net.gets), old(net.sleeps));
      i := i + 1;
    }
    AddrGlueEnd(AddrRun(allRows, quotas, counts, requests));
  }

  /** `_collect_via_etherscan(max_tx)` once the head block is known: the
      address loop from `start`, then the normalisation loop over every
      item fetched. */
  method FetchAndNormalize(net: Network, s: EsSettings, flt: Filters, maxTx: int, start: int)
    returns (r: Raising<seq<Scoring.Tx>>, ghost fetched: AddrRun)
    modifies net
    ensures fetched == AddrsFrom(s, start, maxTx, old(net.esScript), 0, 0)
    ensures r == NormalizeFrom(Normalized(fetched.rows), flt, maxTx, [])
    ensures net.gets == old(net.gets) + fetched.requests && net.esScript == Drop(old(net.esScript), |fetched.requests|)
    ensures net.sleeps == old(net.sleeps) + Quarters(|fetched.quotas|)
    ensures net.rpcScript == old(net.rpcScript) && net.posts == old(net.posts)
  {
    var allRows;
    ghost var quotas, counts, requests;
    allRows, quotas, counts, requests := CollectAddresses(net, s, start, maxTx);
    fetched := AddrRun(allRows, quotas, counts, requests);
    r := NormalizeRows(allRows, flt, maxTx);
  }

  /** `_collect_via_etherscan(max_tx)` after a truthy head block: the
      address loop from max(0, head - ETH_BLOCKS_BACK), then the
      normalisation. `script0` and `gets0` are the script and the requests
      before the head request. */
  method CollectFromHead(net: Network, s: EsSettings, flt: Filters, maxTx: int, hd: int,
                         ghost script0: seq<EsReply>, ghost gets0: seq<Get>)
    returns (r: Raising<seq<Scoring.Tx>>, ghost fetched: AddrRun)
    requires s.addresses != [] && hd != 0 && Some(hd) == BlockNumberOf(EsReplyAt(script0, 0))
    requires net.esScript == Drop(script0, 1) && net.gets == gets0 + [GetBlockNumber]
    modifies net
    ensures var c := CollectEsSpec(s, flt, maxTx, script0);
      r == c.result && fetched == c.fetched &&
      net.gets == gets0 + c.gets && net.esScript == Drop(script0, |c.gets|)
    ensures r == NormalizeFrom(Normalized(fetched.rows), flt, maxTx, [])
    ensures net.sleeps == old(net.sleeps) + Quarters(|fetched.quotas|)
    ensures net.rpcScript == old(net.rpcScript) && net.posts == old(net.posts)
  {
    CollectEsFetched(s, flt, maxTx, script0);
    ghost var c := CollectEsSpec(s, flt, maxTx, script0);
    ghost var f0 := AddrsFrom(s, Max(0, hd - s.blocksBack), maxTx, net.esScript, 0, 0);
    assert c.fetched == f0 && c.gets == [GetBlockNumber] + f0.requests;
    r, fetched := FetchAndNormalize(net, s, flt, maxTx, Max(0, hd - s.blocksBack));
    assert fetched == f0;
    DropDrop(script0, 1, |fetched.requests|);
    AppendAssoc(gets0, [GetBlockNumber], fetched.requests);
  }

  /** `_collect_via_etherscan(max_tx)`. `Raised` is an exception from
      `_normalize_etherscan_row`, which it does not catch. The ghost results
      are the head block and the address loop's run: the items fetched,
      the quota each queried address got, the items each returned and the
      requests made after the head. */
  method CollectViaEtherscan(net: Network, s: EsSettings, flt: Filters, maxTx: int)
    returns (r: Raising<seq<Scoring.Tx>>, ghost head: Option<int>, ghost fetched: AddrRun)
    modifies net
    ensures var c := CollectEsSpec(s, flt, maxTx, old(net.esScript));
      r == c.result && head == c.head && fetched == c.fetched &&
      net.gets == old(net.gets) + c.gets && net.esScript == Drop(old(net.esScript), |c.gets|)
    ensures r == NormalizeFrom(Normalized(fetched.rows), flt, maxTx, [])
    ensures net.sleeps == old(net.sleeps) + Quarters(|fetched.quotas|)
    ensures net.rpcScript == old(net.rpcScript) && net.posts == old(net.posts)
  {
    ghost var script0 := net.esScript;
    fetched := AddrRun([], [], [], []);
    assert Normalized(fetched.rows) == [];
    if s.addresses == [] {
      return Returned([]), None, fetched;
    }
    var hd := HeadBlock(net);
    head := hd;
    if hd.None? || hd.value == 0 {
      return Returned([]), hd, fetched;
    }
    r, fetched := CollectFromHead(net, s, flt, maxTx, hd.value, script0, old(net.gets));
  }
}
