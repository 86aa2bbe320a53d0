/** `load_from_eth` (app/collectors/eth_collector.py): Etherscan first when
    an API key is set, the public RPC endpoints when there is none or when
    Etherscan gives nothing; an exception anywhere gives no transactions. */
module EthLoad {
  import opened Common
  import opened Network
  import opened EthUtil
  import opened EthRpc
  import opened EthEtherscan
  import Scoring

  /** The collector's settings, read from the environment at import:
      `ETHERSCAN_API_KEY` (stripped), the Etherscan and RPC settings, the
      filters and `ETH_MAX_TX`. */
  datatype EthSettings = EthSettings(apiKey: string, es: EsSettings, rpc: RpcSettings, flt: Filters, maxTx: int)

  /** What `load_from_eth` returns when the RPC endpoints answer from
      `rpcScript` and Etherscan from `esScript`: the Etherscan rows when an
      API key is set and they are not empty, [] when Etherscan raised, and
      otherwise the RPC rows, or [] when the RPC walk raised. */
  function LoadEth(s: EthSettings, rpcScript: seq<RpcReply>, esScript: seq<EsReply>): seq<Scoring.Tx> {
    var es := CollectEsSpec(s.es, s.flt, s.maxTx, esScript).result;
    if s.apiKey != "" && es.Raised? then []
    else if s.apiKey != "" && es.value != [] then es.value
    else
      var rpc := CollectRpcSpec(s.rpc, s.flt, s.maxTx, rpcScript).result;
      if rpc.Raised? then [] else rpc.value
  }

  /** Whichever collector supplies them, the rows number at most
      ETH_MAX_TX, and each passed the filters and is an ETH row. */
  lemma LoadEthOk(s: EthSettings, rpcScript: seq<RpcReply>, esScript: seq<EsReply>)
    ensures var txs := LoadEth(s, rpcScript, esScript);
      |txs| <= Max(s.maxTx, 0) && AllRowsOk(s.flt, txs)
  {
    CollectEsMeaning(s.es, s.flt, s.maxTx, esScript);
    CollectRpcRowsOk(s.rpc, s.flt, s.maxTx, rpcScript);
  }

  /** `load_from_eth(data_dir)`. The ghost results are what each collector
      came to: None when it was not called, `Raised` when it raised. */
  method LoadFromEth(net: Network, s: EthSettings)
    returns (txs: seq<Scoring.Tx>, ghost es: Option<Raising<seq<Scoring.Tx>>>, ghost rpc: Option<Raising<seq<Scoring.Tx>>>)
    modifies net
    ensures txs == LoadEth(s, old(net.rpcScript), old(net.esScript))
    ensures es.Some? <==> s.apiKey != ""
    ensures es.Some? ==> es.value == CollectEsSpec(s.es, s.flt, s.maxTx, old(net.esScript)).result
    ensures rpc.Some? <==> es.None? || es.value == Returned([])
    ensures rpc.Some? ==> rpc.value == CollectRpcSpec(s.rpc, s.flt, s.maxTx, old(net.rpcScript)).result
    ensures es.None? ==> net.gets == old(net.gets) && net.esScript == old(net.esScript)
    ensures rpc.None? ==> net.posts == old(net.posts) && net.rpcScript == old(net.rpcScript)
    ensures es.Some? && es.value.Raised? ==> txs == []
    ensures es.Some? && es.value.Returned? && es.value.value != [] ==> txs == es.value.value
    ensures rpc.Some? ==> txs == if rpc.value.Returned? then rpc.value.value else []
    ensures |txs| <= Max(s.maxTx, 0) && AllRowsOk(s.flt, txs)
  {
    LoadEthOk(s, net.rpcScript, net.esScript);
    es, rpc := None, None;
    if s.apiKey != "" {
      var outEs, _, _ := CollectViaEtherscan(net, s.es, s.flt, s.maxTx);
      es := Some(outEs);
      if outEs.Raised? {
        return [], es, rpc;
      }
      if outEs.value != [] {
        return outEs.value, es, rpc;
      }
    }
    var outRpc, _, _ := CollectViaRpc(net, s.rpc, s.flt, s.maxTx);
    rpc := Some(outRpc);
    if outRpc.Raised? {
      return [], es, rpc;
    }
    return outRpc.value, es, rpc;
  }
}
