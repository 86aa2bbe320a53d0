/** The collector's view of the network and the clock (`requests.post`,
    `requests.get`, `time.sleep` in app/collectors/eth_collector.py). Each
    service answers from a script of replies, one per request, in order; a
    request made after its script runs out fails like a dropped connection.
    Every request and every sleep is recorded. */
module Network {
  import opened Common

  /** A transaction object of a block fetched with full transactions; a
      missing or null field is None ("" for the hash and the call data). */
  datatype RpcTx = RpcTx(
    hash: string,
    fromAddress: Option<string>,
    toAddress: Option<string>,
    value: Option<string>,
    input: string)

  /** The `result` member of a JSON-RPC reply, as far as the collector
      reads it: null (or missing), a string (a hex quantity), a non-empty
      object (a block) or an empty object. */
  datatype RpcValue =
    | Null
    | Text(s: string)
    | Block(timestamp: Option<string>, transactions: seq<RpcTx>)
    | EmptyObject

  /** Python truthiness of a result. */
  predicate Truthy(v: RpcValue) {
    match v
    case Null => false
    case Text(s) => s != ""
    case Block(_, _) => true
    case EmptyObject => false
  }

  /** What one POST to an RPC URL comes to: a decoded reply without a truthy
      `error` member (section 5 of the JSON-RPC 2.0 specification: a
      response carries `result` or `error`), a reply with one, or an
      exception (connection failure, timeout, a non-2xx status, a body that
      is not JSON). */
  datatype RpcReply = Answer(result: RpcValue) | ProviderError | Failure

  /** The two JSON-RPC methods the collector calls. */
  datatype RpcCall = BlockNumber | BlockByNumber(number: string)

  datatype Post = Post(url: string, call: RpcCall)

  /** A transaction object of an Etherscan `txlist` page; a missing `from`,
      `to`, `hash` or `input` is "", a missing `timeStamp` is "0". */
  datatype EsRow = EsRow(
    hash: string,
    fromAddress: string,
    toAddress: string,
    value: Option<string>,
    timeStamp: string,
    input: string)

  /** An element of a `txlist` result: a transaction object, or anything
      else (a character of a string result, a non-object list element). */
  datatype EsItem = EsObject(row: EsRow) | EsOther

  /** The `result` member of an Etherscan reply. */
  datatype EsResult = EsNull | EsText(s: string) | EsList(items: seq<EsItem>)

  /** What one GET to Etherscan comes to: a decoded reply, or an exception. */
  datatype EsReply = EsAnswer(status: Option<string>, message: Option<string>, result: EsResult) | EsFailure

  /** The two Etherscan requests the collector makes. */
  datatype Get = GetBlockNumber | GetTxList(address: string, startBlock: int, page: int, offset: int)

  /** The i-th reply of a script; past its end, a failure. */
  function RpcReplyAt(script: seq<RpcReply>, i: nat): RpcReply {
    if i < |script| then script[i] else Failure
  }

  function EsReplyAt(script: seq<EsReply>, i: nat): EsReply {
    if i < |script| then script[i] else EsFailure
  }

  /** The script left after n requests. */
  function Drop<T>(script: seq<T>, n: nat): seq<T> {
    if n <= |script| then script[n..] else []
  }

  /** Reply i of what is left after n requests is reply n + i. */
  lemma RpcReplyAtDrop(script: seq<RpcReply>, n: nat, i: nat)
    ensures RpcReplyAt(Drop(script, n), i) == RpcReplyAt(script, n + i)
  {
  }

  lemma EsReplyAtDrop(script: seq<EsReply>, n: nat, i: nat)
    ensures EsReplyAt(Drop(script, n), i) == EsReplyAt(script, n + i)
  {
  }

  lemma DropDrop<T>(script: seq<T>, m: nat, n: nat)
    ensures Drop(Drop(script, m), n) == Drop(script, m + n)
  {
    if m + n <= |script| {
      assert script[m..][n..] == script[m + n..];
    }
  }

  class Network {
    var rpcScript: seq<RpcReply>
    var esScript: seq<EsReply>
    var posts: seq<Post>
    var gets: seq<Get>
    var sleeps: seq<real>

    constructor (rpc: seq<RpcReply>, es: seq<EsReply>)
      ensures rpcScript == rpc && esScript == es
      ensures posts == [] && gets == [] && sleeps == []
    {
      rpcScript, esScript := rpc, es;
      posts, gets, sleeps := [], [], [];
    }

    /** `requests.post(url, json=...)` with its status and JSON decoding. */
    method PostRpc(url: string, call: RpcCall) returns (reply: RpcReply)
      modifies this
      ensures reply == RpcReplyAt(old(rpcScript), 0)
      ensures rpcScript == Drop(old(rpcScript), 1)
      ensures posts == old(posts) + [Post(url, call)]
      ensures esScript == old(esScript) && gets == old(gets) && sleeps == old(sleeps)
    {
      reply := RpcReplyAt(rpcScript, 0);
      rpcScript := Drop(rpcScript, 1);
      posts := posts + [Post(url, call)];
    }

    /** `requests.get(url, params=...)` with its status and JSON decoding. */
    method GetEs(request: Get) returns (reply: EsReply)
      modifies this
      ensures reply == EsReplyAt(old(esScript), 0)
      ensures esScript == Drop(old(esScript), 1)
      ensures gets == old(gets) + [request]
      ensures rpcScript == old(rpcScript) && posts == old(posts) && sleeps == old(sleeps)
    {
      reply := EsReplyAt(esScript, 0);
      esScript := Drop(esScript, 1);
      gets := gets + [request];
    }

    /** `time.sleep(seconds)`. */
    method Sleep(seconds: real)
      modifies this
      ensures sleeps == old(sleeps) + [seconds]
      ensures rpcScript == old(rpcScript) && esScript == old(esScript)
      ensures posts == old(posts) && gets == old(gets)
    {
      sleeps := sleeps + [seconds];
    }
  }
}
