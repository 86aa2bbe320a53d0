/** The public JSON-RPC fallback of app/collectors/eth_collector.py:
    `_rpc_any`, which fails over from URL to URL with retries and backoff,
    and `_collect_via_rpc`, which walks blocks from the head downwards. */
module EthRpc {
  import opened Common
  import opened Text
  import opened Network
  import opened EthUtil
  import Scoring

  /** `RPC_URLS`, `RPC_RETRIES`, `RPC_BACKOFF` and `ETH_BLOCKS_BACK`. */
  datatype RpcSettings = RpcSettings(urls: seq<string>, retries: int, backoff: real, blocksBack: int)

  /** What one `_rpc_any` call comes to: whether some URL answered, the
      value returned, the (url, attempt) pairs tried in order and the
      sleeps taken. */
  datatype RpcRun = RpcRun(answered: bool, result: RpcValue, tried: seq<(string, nat)>, sleeps: seq<real>)

  /** `_rpc_any` from attempt a at URL u onwards, the replies coming from
      `script`: the first reply without an error is returned; an
      exception sleeps `backoff * (attempt + 1)` before the next attempt; a
      provider error goes straight on. */
  function RunFrom(urls: seq<string>, retries: int, backoff: real, script: seq<RpcReply>, u: nat, a: nat): RpcRun
    requires u <= |urls|
    decreases |urls| - u, if a < retries then retries - a else 0
  {
    if u == |urls| then RpcRun(false, Null, [], [])
    else if a >= retries then RunFrom(urls, retries, backoff, script, u + 1, 0)
    else
      var here := (urls[u], a);
      match RpcReplyAt(script, 0)
      case Answer(v) => RpcRun(true, v, [here], [])
      case ProviderError =>
        var r := RunFrom(urls, retries, backoff, Drop(script, 1), u, a + 1);
        r.(tried := [here] + r.tried)
      case Failure =>
        var r := RunFrom(urls, retries, backoff, Drop(script, 1), u, a + 1);
        r.(tried := [here] + r.tried, sleeps := [Pause(backoff, a)] + r.sleeps)
  }

  /** The sleep after an exception at a given attempt: `RPC_BACKOFF * (attempt + 1)`. */
  function Pause(backoff: real, attempt: nat): real {
    backoff * (attempt + 1) as real
  }

  function RpcAnySpec(s: RpcSettings, script: seq<RpcReply>): RpcRun {
    RunFrom(s.urls, s.retries, s.backoff, script, 0, 0)
  }

  /** The attempts `from`, ..., retries - 1 at one URL. */
  function Attempts(url: string, from: nat, retries: int): seq<(string, nat)>
    decreases if from < retries then retries - from else 0
  {
    if from >= retries then [] else [(url, from)] + Attempts(url, from + 1, retries)
  }

  /** Every attempt `_rpc_any` may make: each URL in listed order, with
      attempts 0, ..., retries - 1 at each. */
  function Schedule(urls: seq<string>, retries: int): seq<(string, nat)> {
    if urls == [] then [] else Attempts(urls[0], 0, retries) + Schedule(urls[1..], retries)
  }

  /** The attempts left from attempt a at URL u. */
  function Remaining(urls: seq<string>, retries: int, u: nat, a: nat): seq<(string, nat)>
    requires u <= |urls|
  {
    if u == |urls| then [] else Attempts(urls[u], a, retries) + Schedule(urls[u + 1..], retries)
  }

  /** The sleep each tried attempt is followed by: `backoff * (attempt + 1)`
      after an exception, nothing after a provider error or an answer. */
  function Backoffs(tried: seq<(string, nat)>, script: seq<RpcReply>, backoff: real): seq<real> {
    if tried == [] then []
    else
      (if RpcReplyAt(script, 0).Failure? then [Pause(backoff, tried[0].1)] else [])
      + Backoffs(tried[1..], Drop(script, 1), backoff)
  }

  /** No reply among the first n is an answer. */
  predicate NoAnswerBefore(script: seq<RpcReply>, n: nat) {
    forall i :: 0 <= i < n ==> !RpcReplyAt(script, i).Answer?
  }

  /** The attempts a run made are a prefix of the remaining ones, all of
      them when no URL answered (and then the result is null). */
  predicate TriedInOrder(r: RpcRun, remaining: seq<(string, nat)>) {
    IsPrefix(r.tried, remaining) && (!r.answered ==> r.tried == remaining && r.result == Null)
  }

  /** A run tries a prefix of the remaining attempts, all of them when no
      URL answers (and then returns null). */
  lemma {:induction false} RunTriesInOrder(urls: seq<string>, retries: int, backoff: real,
                                           script: seq<RpcReply>, u: nat, a: nat)
    requires u <= |urls|
    ensures TriedInOrder(RunFrom(urls, retries, backoff, script, u, a), Remaining(urls, retries, u, a))
    decreases |urls| - u, if a < retries then retries - a else 0, 1
  {
    if u < |urls| {
      if a >= retries {
        RunTriesNextUrl(urls, retries, backoff, script, u, a);
      } else if !RpcReplyAt(script, 0).Answer? {
        RunTriesNextAttempt(urls, retries, backoff, script, u, a);
      } else {
        RunFromAnswered(urls, retries, backoff, script, u, a);
        RemainingNextAttempt(urls, retries, u, a);
        PrefixCons((urls[u], a), [], Remaining(urls, retries, u, a + 1));
        assert [(urls[u], a)] + [] == [(urls[u], a)];
      }
    }
  }

  /** The case of `RunTriesInOrder` past the last attempt at a URL. */
  lemma {:induction false} RunTriesNextUrl(urls: seq<string>, retries: int, backoff: real,
                                           script: seq<RpcReply>, u: nat, a: nat)
    requires u < |urls| && a >= retries
    ensures TriedInOrder(RunFrom(urls, retries, backoff, script, u, a), Remaining(urls, retries, u, a))
    decreases |urls| - u, 0, 0
  {
    RunTriesInOrder(urls, retries, backoff, script, u + 1, 0);
    RemainingNextUrl(urls, retries, u, a);
  }

  /** The case of `RunTriesInOrder` for an attempt that gets no answer. */
  lemma {:induction false} RunTriesNextAttempt(urls: seq<string>, retries: int, backoff: real,
                                               script: seq<RpcReply>, u: nat, a: nat)
    requires u < |urls| && a < retries && !RpcReplyAt(script, 0).Answer?
    ensures TriedInOrder(RunFrom(urls, retries, backoff, script, u, a), Remaining(urls, retries, u, a))
    decreases |urls| - u, retries - a, 0
  {
    RunTriesInOrder(urls, retries, backoff, Drop(script, 1), u, a + 1);
    RemainingNextAttempt(urls, retries, u, a);
    var r := RunFrom(urls, retries, backoff, Drop(script, 1), u, a + 1);
    RunFromUnanswered(urls, retries, backoff, script, u, a);
    PrefixCons((urls[u], a), r.tried, Remaining(urls, retries, u, a + 1));
  }

  /** An attempt without an answer is the first of the run's attempts, and
      the rest of the run decides the answer. */
  lemma RunFromUnanswered(urls: seq<string>, retries: int, backoff: real, script: seq<RpcReply>, u: nat, a: nat)
    requires u < |urls| && a < retries && !RpcReplyAt(script, 0).Answer?
    ensures var r := RunFrom(urls, retries, backoff, Drop(script, 1), u, a + 1);
      var full := RunFrom(urls, retries, backoff, script, u, a);
      full.tried == [(urls[u], a)] + r.tried && full.answered == r.answered && full.result == r.result
  {
  }

  /** An answer ends the run at its first attempt. */
  lemma RunFromAnswered(urls: seq<string>, retries: int, backoff: real, script: seq<RpcReply>, u: nat, a: nat)
    requires u < |urls| && a < retries && RpcReplyAt(script, 0).Answer?
    ensures var full := RunFrom(urls, retries, backoff, script, u, a);
      full.answered && full.tried == [(urls[u], a)]
  {
  }

  /** Past the last attempt at one URL come the attempts at the next. */
  lemma RemainingNextUrl(urls: seq<string>, retries: int, u: nat, a: nat)
    requires u < |urls| && a >= retries
    ensures Remaining(urls, retries, u, a) == Remaining(urls, retries, u + 1, 0)
  {
    var tail := urls[u + 1..];
    if tail != [] {
      assert tail[0] == urls[u + 1] && tail[1..] == urls[u + 2..];
    }
  }

  lemma RemainingNextAttempt(urls: seq<string>, retries: int, u: nat, a: nat)
    requires u < |urls| && a < retries
    ensures Remaining(urls, retries, u, a) == [(urls[u], a)] + Remaining(urls, retries, u, a + 1)
  {
  }

  lemma PrefixCons<T>(x: T, p: seq<T>, s: seq<T>)
    requires IsPrefix(p, s)
    ensures IsPrefix([x] + p, [x] + s)
  {
    assert ([x] + s)[..|p| + 1] == [x] + s[..|p|];
  }

  /** A run that answers ends on the first answering reply, with the value
      that reply carries; a run that does not answer met no answer. */
  lemma {:induction false} RunAnswersFirst(urls: seq<string>, retries: int, backoff: real,
                                           script: seq<RpcReply>, u: nat, a: nat)
    requires u <= |urls|
    ensures var r := RunFrom(urls, retries, backoff, script, u, a);
      (r.answered ==> |r.tried| > 0 && RpcReplyAt(script, |r.tried| - 1) == Answer(r.result) &&
                      NoAnswerBefore(script, |r.tried| - 1)) &&
      (!r.answered ==> NoAnswerBefore(script, |r.tried|))
    decreases |urls| - u, if a < retries then retries - a else 0
  {
    if u < |urls| {
      if a >= retries {
        RunAnswersFirst(urls, retries, backoff, script, u + 1, 0);
      } else if !RpcReplyAt(script, 0).Answer? {
        var rest := Drop(script, 1);
        RunAnswersFirst(urls, retries, backoff, rest, u, a + 1);
        var r := RunFrom(urls, retries, backoff, rest, u, a + 1);
        var n := |r.tried| + 1;
        forall i | 0 < i < n
          ensures RpcReplyAt(script, i) == RpcReplyAt(rest, i - 1)
        {
          RpcReplyAtDrop(script, 1, i - 1);
        }
      }
    }
  }

  /** A run sleeps exactly after its attempts that raised. */
  lemma {:induction false} RunSleepsAfterFailures(urls: seq<string>, retries: int, backoff: real,
                                                  script: seq<RpcReply>, u: nat, a: nat)
    requires u <= |urls|
    ensures var r := RunFrom(urls, retries, backoff, script, u, a);
      r.sleeps == Backoffs(r.tried, script, backoff)
    decreases |urls| - u, if a < retries then retries - a else 0
  {
    if u < |urls| {
      if a >= retries {
        RunSleepsAfterFailures(urls, retries, backoff, script, u + 1, 0);
      } else if !RpcReplyAt(script, 0).Answer? {
        RunSleepsAfterFailures(urls, retries, backoff, Drop(script, 1), u, a + 1);
        var r := RunFrom(urls, retries, backoff, Drop(script, 1), u, a + 1);
        var tried: seq<(string, nat)> := [(urls[u], a)] + r.tried;
        assert tried[0].1 == a && tried[1..] == r.tried;
      }
    }
  }

  /** `_rpc_any` tries the URLs in listed order with at most `retries`
      attempts each; it returns the result of the first reply without an
      error, and None (null) once every attempt is used up; it sleeps
      `backoff * (attempt + 1)` after each exception and after nothing else. */
  lemma RpcAnyMeaning(s: RpcSettings, script: seq<RpcReply>)
    ensures var r := RpcAnySpec(s, script);
      var all := Schedule(s.urls, s.retries);
      IsPrefix(r.tried, all) &&
      (r.answered <==> exists i :: 0 <= i < |all| && RpcReplyAt(script, i).Answer?) &&
      (r.answered ==> |r.tried| > 0 && RpcReplyAt(script, |r.tried| - 1) == Answer(r.result) &&
                      NoAnswerBefore(script, |r.tried| - 1)) &&
      (!r.answered ==> r.result == Null && r.tried == all) &&
      r.sleeps == Backoffs(r.tried, script, s.backoff)
  {
    var r := RpcAnySpec(s, script);
    var all := Schedule(s.urls, s.retries);
    RunTriesInOrder(s.urls, s.retries, s.backoff, script, 0, 0);
    RunAnswersFirst(s.urls, s.retries, s.backoff, script, 0, 0);
    RunSleepsAfterFailures(s.urls, s.retries, s.backoff, script, 0, 0);
    assert Remaining(s.urls, s.retries, 0, 0) == all;
    if r.answered {
      assert RpcReplyAt(script, |r.tried| - 1).Answer?;
    }
  }

  /** A provider error is never followed by a sleep: when no reply raises,
      the call does not sleep at all. */
  lemma {:induction false} NoSleepWithoutFailure(tried: seq<(string, nat)>, script: seq<RpcReply>, backoff: real)
    requires forall i :: 0 <= i < |tried| ==> !RpcReplyAt(script, i).Failure?
    ensures Backoffs(tried, script, backoff) == []
    decreases |tried|
  {
    if tried != [] {
      forall i | 0 <= i < |tried| - 1
        ensures !RpcReplyAt(Drop(script, 1), i).Failure?
      {
        RpcReplyAtDrop(script, 1, i);
      }
      NoSleepWithoutFailure(tried[1..], Drop(script, 1), backoff);
    }
  }

  /** With every endpoint down, `_rpc_any` over the default three URLs and
      two retries makes all six attempts, sleeps 0.8 s, 1.6 s at each URL,
      and returns None. */
  lemma AllEndpointsDown(u1: string, u2: string, u3: string)
    ensures var r := RpcAnySpec(RpcSettings([u1, u2, u3], 2, 0.8, 20), []);
      !r.answered && r.result == Null &&
      r.tried == [(u1, 0), (u1, 1), (u2, 0), (u2, 1), (u3, 0), (u3, 1)] &&
      r.sleeps == [0.8, 1.6, 0.8, 1.6, 0.8, 1.6]
  {
    var urls := [u1, u2, u3];
    var all: seq<(string, nat)> := [(u1, 0), (u1, 1), (u2, 0), (u2, 1), (u3, 0), (u3, 1)];
    var st := RpcSettings(urls, 2, 0.8, 20);
    ScheduleThree(u1, u2, u3);
    NoScriptNoAnswer(st);
    RpcAnyMeaning(st, []);
    AllRaise(all, 0.8);
  }

  /** When every request raises, no URL answers. */
  lemma NoScriptNoAnswer(s: RpcSettings)
    ensures !RpcAnySpec(s, []).answered
  {
    RpcAnyMeaning(s, []);
  }

  /** Three URLs with two retries each make six attempts, URL by URL. */
  lemma ScheduleThree(u1: string, u2: string, u3: string)
    ensures Schedule([u1, u2, u3], 2) == [(u1, 0), (u1, 1), (u2, 0), (u2, 1), (u3, 0), (u3, 1)]
  {
    var urls := [u1, u2, u3];
    assert urls[1..] == [u2, u3] && urls[1..][1..] == [u3] && urls[1..][1..][1..] == [];
    TwoAttempts(u1);
    TwoAttempts(u2);
    TwoAttempts(u3);
    assert Schedule(urls[1..][1..], 2) == [(u3, 0), (u3, 1)];
    assert Schedule(urls[1..], 2) == [(u2, 0), (u2, 1), (u3, 0), (u3, 1)];
  }

  /** When every request raises, each attempt is followed by its pause. */
  lemma {:induction false} AllRaise(tried: seq<(string, nat)>, backoff: real)
    ensures Backoffs(tried, [], backoff) == seq(|tried|, i requires 0 <= i < |tried| => Pause(backoff, tried[i].1))
  {
    if tried != [] {
      AllRaise(tried[1..], backoff);
      var none: seq<RpcReply> := [];
      assert Drop(none, 1) == none;
    }
  }

  lemma TwoAttempts(url: string)
    ensures Attempts(url, 0, 2) == [(url, 0), (url, 1)]
  {
    assert Attempts(url, 2, 2) == [];
  }

  /** The request bodies of the attempts tried. */
  function PostsOf(tried: seq<(string, nat)>, call: RpcCall): seq<Post> {
    seq(|tried|, i requires 0 <= i < |tried| => Post(tried[i].0, call))
  }

  /** A run seen after some attempts already made. */
  function Glue(tried: seq<(string, nat)>, slept: seq<real>, r: RpcRun): RpcRun {
    RpcRun(r.answered, r.result, tried + r.tried, slept + r.sleeps)
  }

  /** One attempt that gets no answer moves the run on to the next attempt
      at the same URL. */
  lemma GlueStep(urls: seq<string>, retries: int, backoff: real, script: seq<RpcReply>, u: nat, a: nat,
                 tried: seq<(string, nat)>, slept: seq<real>)
    requires u < |urls| && a < retries && !RpcReplyAt(script, 0).Answer?
    ensures var pause := if RpcReplyAt(script, 0).Failure? then [Pause(backoff, a)] else [];
      Glue(tried, slept, RunFrom(urls, retries, backoff, script, u, a)) ==
      Glue(tried + [(urls[u], a)], slept + pause, RunFrom(urls, retries, backoff, Drop(script, 1), u, a + 1))
  {
    var r := RunFrom(urls, retries, backoff, Drop(script, 1), u, a + 1);
    assert tried + ([(urls[u], a)] + r.tried) == (tried + [(urls[u], a)]) + r.tried;
    assert slept + ([Pause(backoff, a)] + r.sleeps) == (slept + [Pause(backoff, a)]) + r.sleeps;
  }

  /** Past the last attempt at a URL the run goes on at the next URL. */
  lemma GlueNextUrl(urls: seq<string>, retries: int, backoff: real, script: seq<RpcReply>, u: nat, a: nat,
                    tried: seq<(string, nat)>, slept: seq<real>)
    requires u < |urls| && a >= retries
    ensures Glue(tried, slept, RunFrom(urls, retries, backoff, script, u, a)) ==
      Glue(tried, slept, RunFrom(urls, retries, backoff, script, u + 1, 0))
  {
  }

  /** Past the last URL the run is over, unanswered. */
  lemma GlueEnd(urls: seq<string>, retries: int, backoff: real, script: seq<RpcReply>, a: nat,
                tried: seq<(string, nat)>, slept: seq<real>)
    ensures Glue(tried, slept, RunFrom(urls, retries, backoff, script, |urls|, a)) == RpcRun(false, Null, tried, slept)
  {
    assert tried + [] == tried && slept + [] == slept;
  }

  /** One attempt of `_rpc_any` at URL u: the request is posted; an answer
      ends the call, an exception sleeps before the next attempt. The ghost
      parameters are the whole run, the script, the requests and the sleeps
      at the start of the call, and the attempts and sleeps so far. */
  method Attempt(net: Network, s: RpcSettings, call: RpcCall, u: nat, attempt: nat,
                 ghost run: RpcRun, ghost script0: seq<RpcReply>, ghost posts0: seq<Post>, ghost sleeps0: seq<real>,
                 ghost tried0: seq<(string, nat)>, ghost slept0: seq<real>)
    returns (answered: bool, result: RpcValue, ghost tried: seq<(string, nat)>, ghost slept: seq<real>)
    requires u < |s.urls| && attempt < s.retries
    requires run == Glue(tried0, slept0, RunFrom(s.urls, s.retries, s.backoff, net.rpcScript, u, attempt))
    requires net.rpcScript == Drop(script0, |tried0|)
    requires net.posts == posts0 + PostsOf(tried0, call) && net.sleeps == sleeps0 + slept0
    modifies net
    ensures net.rpcScript == Drop(script0, |tried|)
    ensures net.posts == posts0 + PostsOf(tried, call) && net.sleeps == sleeps0 + slept
    ensures net.esScript == old(net.esScript) && net.gets == old(net.gets)
    ensures answered ==> run.result == result && run.tried == tried && run.sleeps == slept
    ensures !answered ==> run == Glue(tried, slept, RunFrom(s.urls, s.retries, s.backoff, net.rpcScript, u, attempt + 1))
  {
    ghost var here := (s.urls[u], attempt);
    ghost var before := net.rpcScript;
    var reply := net.PostRpc(s.urls[u], call);
    assert PostsOf(tried0 + [here], call) == PostsOf(tried0, call) + [Post(s.urls[u], call)];
    AppendAssoc(posts0, PostsOf(tried0, call), [Post(s.urls[u], call)]);
    DropDrop(script0, |tried0|, 1);
    tried := tried0 + [here];
    if reply.Answer? {
      assert slept0 + [] == slept0;
      return true, reply.result, tried, slept0;
    }
    ghost var pause: seq<real> := if reply.Failure? then [Pause(s.backoff, attempt)] else [];
    GlueStep(s.urls, s.retries, s.backoff, before, u, attempt, tried0, slept0);
    slept := slept0 + pause;
    if reply.Failure? {
      net.Sleep(Pause(s.backoff, attempt));
      AppendAssoc(sleeps0, slept0, pause);
    } else {
      assert slept == slept0;
    }
    return false, Null, tried, slept;
  }

  /** `_rpc_any(method, params)`. */
  method RpcAny(net: Network, s: RpcSettings, call: RpcCall) returns (result: RpcValue)
    modifies net
    ensures var run := RpcAnySpec(s, old(net.rpcScript));
      result == run.result &&
      net.posts == old(net.posts) + PostsOf(run.tried, call) &&
      net.sleeps == old(net.sleeps) + run.sleeps &&
      net.rpcScript == Drop(old(net.rpcScript), |run.tried|)
    ensures net.esScript == old(net.esScript) && net.gets == old(net.gets)
  {
    ghost var run := RpcAnySpec(s, net.rpcScript);
    ghost var script0 := net.rpcScript;
    ghost var tried: seq<(string, nat)> := [];
    ghost var slept: seq<real> := [];
    assert net.posts == old(net.posts) + PostsOf(tried, call) && net.sleeps == old(net.sleeps) + slept;
    var u := 0;
    while u < |s.urls|
      invariant 0 <= u <= |s.urls|
      invariant run == Glue(tried, slept, RunFrom(s.urls, s.retries, s.backoff, net.rpcScript, u, 0))
      invariant net.rpcScript == Drop(script0, |tried|)
      invariant net.posts == old(net.posts) + PostsOf(tried, call) && net.sleeps == old(net.sleeps) + slept
      invariant net.esScript == old(net.esScript) && net.gets == old(net.gets)
    {
      var attempt := 0;
      while attempt < s.retries
        invariant 0 <= attempt
        invariant run == Glue(tried, slept, RunFrom(s.urls, s.retries, s.backoff, net.rpcScript, u, attempt))
        invariant net.rpcScript == Drop(script0, |tried|)
        invariant net.posts == old(net.posts) + PostsOf(tried, call) && net.sleeps == old(net.sleeps) + slept
        invariant net.esScript == old(net.esScript) && net.gets == old(net.gets)
        decreases s.retries - attempt
      {
        var answered;
        answered, result, tried, slept :=
          Attempt(net, s, call, u, attempt, run, script0, old(net.posts), old(net.sleeps), tried, slept);
        if answered {
          return;
        }
        attempt := attempt + 1;
      }
      GlueNextUrl(s.urls, s.retries, s.backoff, net.rpcScript, u, attempt, tried, slept);
      u := u + 1;
    }
    GlueEnd(s.urls, s.retries, s.backoff, net.rpcScript, 0, tried, slept);
    return Null;
  }

  /** `_hex_to_int(head_hex)` for a truthy head: a string is read as hex;
      anything else makes `int` raise inside, which gives 0. */
  function HeadNumber(v: RpcValue): int {
    if v.Text? then HexToInt(Some(v.s)) else 0
  }

  /** The blocks `range(head, start - 1, -1)` visits, with
      start = max(0, head - ETH_BLOCKS_BACK). */
  function BlockRange(head: int, blocksBack: int): seq<nat> {
    var start := Max(0, head - blocksBack);
    if head < start then [] else seq(head - start + 1, i requires 0 <= i <= head - start => (head - i) as nat)
  }

  /** The walk starts at the head and goes down one block at a time to
      max(0, head - ETH_BLOCKS_BACK); it is empty when the head lies below
      that (a negative head, or a negative depth). */
  lemma BlockRangeDescends(head: int, blocksBack: int)
    ensures var r := BlockRange(head, blocksBack);
      var start := Max(0, head - blocksBack);
      (r == [] <==> head < start) &&
      (r != [] ==> r[0] == head && r[|r| - 1] == start) &&
      (forall i :: 0 < i < |r| ==> r[i] == r[i - 1] - 1) &&
      (forall i :: 0 <= i < |r| ==> 0 <= start <= r[i] <= head)
  {
  }

  /** The row `_collect_via_rpc` appends for a transaction of a block
      dated ts. */
  function RpcRow(t: RpcTx, ts: int): Scoring.Tx {
    Scoring.Tx(t.hash, Some(ts), t.fromAddress.GetOr(""), t.toAddress.GetOr(""),
               WeiFromHex(t.value), "ETH", TxMethod(t.input), "ETH")
  }

  predicate RpcTxPasses(flt: Filters, t: RpcTx) {
    PassesFilters(flt, t.fromAddress.GetOr(""), t.toAddress.GetOr(""), WeiFromHex(t.value))
  }

  /** The rows of the transactions that pass the filters, in block order. */
  function PassingRows(txs: seq<RpcTx>, ts: int, flt: Filters): seq<Scoring.Tx> {
    if txs == [] then []
    else
      var t := txs[|txs| - 1];
      PassingRows(txs[..|txs| - 1], ts, flt) + (if RpcTxPasses(flt, t) then [RpcRow(t, ts)] else [])
  }

  /** Every passing row passed the filters and is an ETH row. */
  lemma {:induction false} PassingRowsOk(txs: seq<RpcTx>, ts: int, flt: Filters)
    ensures AllRowsOk(flt, PassingRows(txs, ts, flt))
    decreases |txs|
  {
    if txs != [] {
      PassingRowsOk(txs[..|txs| - 1], ts, flt);
    }
  }

  /** Filtering a prefix of the block gives a prefix of the rows. */
  lemma {:induction false} PassingRowsPrefix(txs: seq<RpcTx>, i: nat, ts: int, flt: Filters)
    requires i <= |txs|
    ensures IsPrefix(PassingRows(txs[..i], ts, flt), PassingRows(txs, ts, flt))
    decreases |txs| - i
  {
    if i < |txs| {
      PassingRowsPrefix(txs, i + 1, ts, flt);
      var head := PassingRows(txs[..i], ts, flt);
      var longer := PassingRows(txs[..i + 1], ts, flt);
      var all := PassingRows(txs, ts, flt);
      assert txs[..i + 1][..i] == txs[..i];
      assert IsPrefix(head, longer);
      assert all[..|head|] == longer[..|head|] == head;
    } else {
      assert txs[..i] == txs;
    }
  }

  /** The inner loop of `_collect_via_rpc` over one block's transactions:
      the rows of those that pass the filters are appended, and the loop
      breaks once `out` holds maxTx rows. */
  method AppendBlock(out: seq<Scoring.Tx>, txs: seq<RpcTx>, ts: int, flt: Filters, maxTx: int)
    returns (res: seq<Scoring.Tx>)
    ensures res == out + Take(PassingRows(txs, ts, flt), maxTx - |out|)
  {
    res := out;
    var i := 0;
    while i < |txs|
      invariant 0 <= i <= |txs|
      invariant res == out + PassingRows(txs[..i], ts, flt)
      invariant |out| >= maxTx ==> i == 0
      invariant |res| <= Max(|out|, maxTx)
    {
      if |res| >= maxTx {
        break;
      }
      var t := txs[i];
      var frm := t.fromAddress.GetOr("");
      var to := t.toAddress.GetOr("");
      var amount := WeiFromHex(t.value);
      assert txs[..i + 1][..i] == txs[..i];
      if PassesFilters(flt, frm, to, amount) {
        res := res + [Scoring.Tx(t.hash, Some(ts), frm, to, amount, "ETH", TxMethod(t.input), "ETH")];
      }
      i := i + 1;
    }
    PassingRowsPrefix(txs, i, ts, flt);
    if i == |txs| {
      assert txs[..i] == txs;
    }
  }


  /** The request for block n: `eth_getBlockByNumber` with `hex(n)`. */
  function BlockCall(n: nat): RpcCall {
    BlockByNumber(HexString(n))
  }

  /** A fetched result that makes `_collect_via_rpc` raise: a truthy value
      that is not an object (`blk.get` fails on it), or a block whose
      timestamp `datetime` cannot represent. */
  predicate BlockRaises(blk: RpcValue) {
    Truthy(blk) && (!blk.Block? || BlockTimestamp(blk.timestamp).Raised?)
  }

  /** The rows a fetched result offers before the cap: the passing rows of
      a block whose timestamp converts, none otherwise. */
  function BlockRows(blk: RpcValue, flt: Filters): seq<Scoring.Tx> {
    if blk.Block? && BlockTimestamp(blk.timestamp).Returned? then
      PassingRows(blk.transactions, BlockTimestamp(blk.timestamp).value, flt)
    else []
  }

  /** The rows the fetched results offer, result after result. */
  function AllBlockRows(blocks: seq<RpcValue>, flt: Filters): seq<Scoring.Tx> {
    if blocks == [] then [] else BlockRows(blocks[0], flt) + AllBlockRows(blocks[1..], flt)
  }

  /** One turn of the block walk once the block is fetched: a falsy result
      (`or {}`) is skipped, a raising one raises, and otherwise the block's
      rows are appended until `out` holds maxTx rows. */
  function BlockStep(blk: RpcValue, out: seq<Scoring.Tx>, flt: Filters, maxTx: int): Raising<seq<Scoring.Tx>> {
    if !Truthy(blk) then Returned(out)
    else if BlockRaises(blk) then Raised
    else Returned(out + Take(BlockRows(blk, flt), maxTx - |out|))
  }

  /** What a block walk comes to: its result, the blocks it requested and
      the result `_rpc_any` gave for each, in order, and the posts and
      sleeps made on the way. */
  datatype BlockWalk = BlockWalk(result: Raising<seq<Scoring.Tx>>, visited: seq<nat>, blocks: seq<RpcValue>,
                                 posts: seq<Post>, sleeps: seq<real>)

  /** A walk after the part `done` already made; the result is the rest's. */
  function WalkGlue(done: BlockWalk, rest: BlockWalk): BlockWalk {
    BlockWalk(rest.result, done.visited + rest.visited, done.blocks + rest.blocks,
              done.posts + rest.posts, done.sleeps + rest.sleeps)
  }

  /** The block loop of `_collect_via_rpc` over the block numbers `todo`,
      with `out` collected so far and the replies taken from `script`: it
      stops once `out` holds maxTx rows or the blocks run out, and fetches
      each block with `_rpc_any`. */
  function WalkFrom(s: RpcSettings, flt: Filters, maxTx: int, script: seq<RpcReply>,
                    todo: seq<nat>, out: seq<Scoring.Tx>): BlockWalk
    decreases |todo|, 1
  {
    if todo == [] || |out| >= maxTx then BlockWalk(Returned(out), [], [], [], [])
    else WalkFirst(s, flt, maxTx, script, todo, out)
  }

  /** The turn of the block loop at block `todo[0]`, and the walk after it. */
  function WalkFirst(s: RpcSettings, flt: Filters, maxTx: int, script: seq<RpcReply>,
                     todo: seq<nat>, out: seq<Scoring.Tx>): BlockWalk
    requires todo != []
    decreases |todo|, 0
  {
    var run := RpcAnySpec(s, script);
    var step := BlockStep(run.result, out, flt, maxTx);
    var here := BlockWalk(step, [todo[0]], [run.result], PostsOf(run.tried, BlockCall(todo[0])), run.sleeps);
    if step.Raised? then here
    else WalkGlue(here, WalkFrom(s, flt, maxTx, Drop(script, |run.tried|), todo[1..], step.value))
  }

  /** The head block number, when `_rpc_any("eth_blockNumber", [])` gives
      a truthy result. */
  function RpcHead(s: RpcSettings, script: seq<RpcReply>): Option<int> {
    var first := RpcAnySpec(s, script).result;
    if Truthy(first) then Some(HeadNumber(first)) else None
  }

  /** The whole of `_collect_via_rpc(max_tx)` answered by `script`: the
      head request, then, when it gives a head, the walk from the head
      down to max(0, head - ETH_BLOCKS_BACK). */
  function CollectRpcSpec(s: RpcSettings, flt: Filters, maxTx: int, script: seq<RpcReply>): BlockWalk {
    var first := RpcAnySpec(s, script);
    var asked := BlockWalk(Returned([]), [], [], PostsOf(first.tried, BlockNumber), first.sleeps);
    if !Truthy(first.result) then asked
    else WalkGlue(asked, WalkFrom(s, flt, maxTx, Drop(script, |first.tried|),
                                  BlockRange(HeadNumber(first.result), s.blocksBack), []))
  }

  /** Capping after rows within the cap caps the rows that follow. */
  lemma TakeAfter<T>(out: seq<T>, rows: seq<T>, maxTx: int)
    requires |out| <= maxTx
    ensures out + Take(rows, maxTx - |out|) == Take(out + rows, maxTx)
  {
    if maxTx - |out| < |rows| {
      assert (out + rows)[..maxTx] == out + rows[..maxTx - |out|];
    }
  }

  /** The walk requests a prefix of its blocks, with one result each, in
      order; it goes through all of them unless it raised or collected
      maxTx rows; a raise comes from the last result fetched, and from no
      earlier one. */
  lemma {:induction false} WalkCovers(s: RpcSettings, flt: Filters, maxTx: int, script: seq<RpcReply>,
                                      todo: seq<nat>, out: seq<Scoring.Tx>)
    ensures var w := WalkFrom(s, flt, maxTx, script, todo, out);
      IsPrefix(w.visited, todo) && |w.blocks| == |w.visited| &&
      (w.result.Returned? && |w.result.value| < maxTx ==> w.visited == todo) &&
      (w.result.Raised? ==> w.blocks != [] && BlockRaises(w.blocks[|w.blocks| - 1])) &&
      (forall i :: 0 <= i < |w.blocks| - 1 ==> !BlockRaises(w.blocks[i]))
    decreases |todo|
  {
    if todo != [] && |out| < maxTx {
      var run := RpcAnySpec(s, script);
      var step := BlockStep(run.result, out, flt, maxTx);
      if step.Returned? {
        var rest := WalkFrom(s, flt, maxTx, Drop(script, |run.tried|), todo[1..], step.value);
        WalkCovers(s, flt, maxTx, Drop(script, |run.tried|), todo[1..], step.value);
        var w := WalkFrom(s, flt, maxTx, script, todo, out);
        assert w.visited == [todo[0]] + rest.visited && w.blocks == [run.result] + rest.blocks;
        assert todo == [todo[0]] + todo[1..];
        PrefixCons(todo[0], rest.visited, todo[1..]);
        assert !BlockRaises(run.result);
        forall i | 0 < i < |w.blocks| - 1
          ensures !BlockRaises(w.blocks[i])
        {
          assert w.blocks[i] == rest.blocks[i - 1];
        }
        if w.result.Raised? {
          assert w.blocks[|w.blocks| - 1] == rest.blocks[|rest.blocks| - 1];
        }
      }
    }
  }

  /** The walk returns the first maxTx rows of `out` followed by the rows
      of every block it fetched. */
  lemma {:induction false} WalkRows(s: RpcSettings, flt: Filters, maxTx: int, script: seq<RpcReply>,
                                    todo: seq<nat>, out: seq<Scoring.Tx>)
    requires |out| <= Max(maxTx, 0)
    ensures var w := WalkFrom(s, flt, maxTx, script, todo, out);
      w.result.Returned? ==> w.result.value == Take(out + AllBlockRows(w.blocks, flt), maxTx)
    decreases |todo|
  {
    var w := WalkFrom(s, flt, maxTx, script, todo, out);
    if todo == [] || |out| >= maxTx {
      assert out + AllBlockRows(w.blocks, flt) == out;
    } else {
      var run := RpcAnySpec(s, script);
      var step := BlockStep(run.result, out, flt, maxTx);
      if step.Returned? {
        var rows := BlockRows(run.result, flt);
        TakeAfter(out, rows, maxTx);
        assert step.value == Take(out + rows, maxTx);
        var rest := WalkFrom(s, flt, maxTx, Drop(script, |run.tried|), todo[1..], step.value);
        WalkRows(s, flt, maxTx, Drop(script, |run.tried|), todo[1..], step.value);
        assert w.blocks == [run.result] + rest.blocks;
        assert [run.result] + rest.blocks == [run.result] + rest.blocks;
        assert AllBlockRows(w.blocks, flt) == rows + AllBlockRows(rest.blocks, flt);
        if |step.value| < maxTx {
          assert step.value == out + rows;
          AppendAssoc(out, rows, AllBlockRows(rest.blocks, flt));
        } else {
          assert rest.blocks == [];
          assert AllBlockRows(w.blocks, flt) == rows;
        }
      }
    }
  }

  /** Every row a block offers passed the filters and is an ETH row. */
  lemma {:induction false} AllBlockRowsOk(blocks: seq<RpcValue>, flt: Filters)
    ensures AllRowsOk(flt, AllBlockRows(blocks, flt))
    decreases |blocks|
  {
    if blocks != [] {
      AllBlockRowsOk(blocks[1..], flt);
      var b := blocks[0];
      if b.Block? && BlockTimestamp(b.timestamp).Returned? {
        PassingRowsOk(b.transactions, BlockTimestamp(b.timestamp).value, flt);
      }
    }
  }

  /** The calls a run of posts made. */
  function CallsOf(posts: seq<Post>): set<RpcCall> {
    set p | p in posts :: p.call
  }

  /** The requests for the given blocks. */
  function BlockCalls(blocks: seq<nat>): set<RpcCall> {
    set n | n in blocks :: BlockCall(n)
  }

  lemma CallsOfAppend(a: seq<Post>, b: seq<Post>)
    ensures CallsOf(a + b) == CallsOf(a) + CallsOf(b)
  {
    assert forall p :: p in a + b <==> p in a || p in b;
  }

  /** The posts of one `_rpc_any` call carry its call, and there is one at
      least when some URL is configured with some retries. */
  lemma CallsOfPosts(tried: seq<(string, nat)>, call: RpcCall)
    ensures CallsOf(PostsOf(tried, call)) == if tried == [] then {} else {call}
  {
    if tried != [] {
      assert PostsOf(tried, call)[0].call == call;
    }
  }

  /** `_rpc_any` posts at least once when some URL is configured with some
      retries. */
  lemma RpcAnyPosts(s: RpcSettings, script: seq<RpcReply>)
    requires |s.urls| > 0 && s.retries > 0
    ensures RpcAnySpec(s, script).tried != []
  {
  }

  /** Every post of the walk asks for a block the walk visited, and each
      visited block was asked for when some URL is configured with some
      retries. */
  lemma {:induction false} WalkPosts(s: RpcSettings, flt: Filters, maxTx: int, script: seq<RpcReply>,
                                     todo: seq<nat>, out: seq<Scoring.Tx>)
    ensures var w := WalkFrom(s, flt, maxTx, script, todo, out);
      CallsOf(w.posts) <= BlockCalls(w.visited) &&
      (|s.urls| > 0 && s.retries > 0 ==> CallsOf(w.posts) == BlockCalls(w.visited))
    decreases |todo|
  {
    var w := WalkFrom(s, flt, maxTx, script, todo, out);
    if todo != [] && |out| < maxTx {
      var run := RpcAnySpec(s, script);
      var step := BlockStep(run.result, out, flt, maxTx);
      var mine := PostsOf(run.tried, BlockCall(todo[0]));
      CallsOfPosts(run.tried, BlockCall(todo[0]));
      if |s.urls| > 0 && s.retries > 0 {
        RpcAnyPosts(s, script);
      }
      if step.Raised? {
        assert w.visited == [todo[0]];
        assert BlockCalls(w.visited) == {BlockCall(todo[0])};
      } else {
        var rest := WalkFrom(s, flt, maxTx, Drop(script, |run.tried|), todo[1..], step.value);
        WalkPosts(s, flt, maxTx, Drop(script, |run.tried|), todo[1..], step.value);
        CallsOfAppend(mine, rest.posts);
        assert w.visited == [todo[0]] + rest.visited;
        assert BlockCalls(w.visited) == {BlockCall(todo[0])} + BlockCalls(rest.visited);
      }
    } else {
      assert w.posts == [] && w.visited == [];
    }
  }

  /** What `_collect_via_rpc(max_tx)` promises: without a head it returns []
      having requested no block; with one it requests the blocks head,
      head - 1, ..., in that order, all the way down to
      max(0, head - ETH_BLOCKS_BACK) unless it raised or collected max_tx
      rows; its rows are the first max_tx rows of the fetched blocks'
      passing transactions; a raise comes from the last block fetched;
      and every post asks for the head or for a visited block. */
  lemma CollectRpcMeaning(s: RpcSettings, flt: Filters, maxTx: int, script: seq<RpcReply>)
    ensures var w := CollectRpcSpec(s, flt, maxTx, script);
      var head := RpcHead(s, script);
      (head.None? ==> w.result == Returned([]) && w.visited == []) &&
      (head.Some? ==> IsPrefix(w.visited, BlockRange(head.value, s.blocksBack))) &&
      (head.Some? && w.result.Returned? && |w.result.value| < maxTx ==>
        w.visited == BlockRange(head.value, s.blocksBack)) &&
      |w.blocks| == |w.visited| &&
      (w.result.Returned? ==> w.result.value == Take(AllBlockRows(w.blocks, flt), maxTx)) &&
      (w.result.Raised? ==> w.blocks != [] && BlockRaises(w.blocks[|w.blocks| - 1])) &&
      (forall i :: 0 <= i < |w.blocks| - 1 ==> !BlockRaises(w.blocks[i])) &&
      CallsOf(w.posts) <= {BlockNumber} + BlockCalls(w.visited)
  {
    var first := RpcAnySpec(s, script);
    CallsOfPosts(first.tried, BlockNumber);
    if Truthy(first.result) {
      var range := BlockRange(HeadNumber(first.result), s.blocksBack);
      var rest := Drop(script, |first.tried|);
      var w := WalkFrom(s, flt, maxTx, rest, range, []);
      WalkCovers(s, flt, maxTx, rest, range, []);
      WalkRows(s, flt, maxTx, rest, range, []);
      WalkPosts(s, flt, maxTx, rest, range, []);
      CallsOfAppend(PostsOf(first.tried, BlockNumber), w.posts);
      assert [] + w.visited == w.visited && [] + w.blocks == w.blocks && [] + AllBlockRows(w.blocks, flt) == AllBlockRows(w.blocks, flt);
    }
  }

  /** The rows `_collect_via_rpc` returns number at most max_tx, and each
      passed the filters and is an ETH row. */
  lemma CollectRpcRowsOk(s: RpcSettings, flt: Filters, maxTx: int, script: seq<RpcReply>)
    ensures var w := CollectRpcSpec(s, flt, maxTx, script);
      w.result.Returned? ==> |w.result.value| <= Max(maxTx, 0) && AllRowsOk(flt, w.result.value)
  {
    var w := CollectRpcSpec(s, flt, maxTx, script);
    CollectRpcMeaning(s, flt, maxTx, script);
    AllBlockRowsOk(w.blocks, flt);
  }

  /** One turn of a walk that does not stop before block `todo[0]`: the
      block is fetched, and the walk goes on from the next block unless it
      raised. */
  lemma WalkStep(s: RpcSettings, flt: Filters, maxTx: int, script: seq<RpcReply>,
                 todo: seq<nat>, out: seq<Scoring.Tx>, done: BlockWalk)
    requires todo != [] && |out| < maxTx
    ensures var run := RpcAnySpec(s, script);
      var step := BlockStep(run.result, out, flt, maxTx);
      var here := BlockWalk(step, [todo[0]], [run.result], PostsOf(run.tried, BlockCall(todo[0])), run.sleeps);
      WalkGlue(done, WalkFrom(s, flt, maxTx, script, todo, out)) ==
        if step.Raised? then WalkGlue(done, here)
        else WalkGlue(WalkGlue(done, here), WalkFrom(s, flt, maxTx, Drop(script, |run.tried|), todo[1..], step.value))
  {
    var run := RpcAnySpec(s, script);
    var step := BlockStep(run.result, out, flt, maxTx);
    if step.Returned? {
      var here := BlockWalk(step, [todo[0]], [run.result], PostsOf(run.tried, BlockCall(todo[0])), run.sleeps);
      var rest := WalkFrom(s, flt, maxTx, Drop(script, |run.tried|), todo[1..], step.value);
      AppendAssoc(done.visited, here.visited, rest.visited);
      AppendAssoc(done.blocks, here.blocks, rest.blocks);
      AppendAssoc(done.posts, here.posts, rest.posts);
      AppendAssoc(done.sleeps, here.sleeps, rest.sleeps);
    }
  }

  /** A walk with nothing left to do returns what it collected. */
  lemma WalkGlueEnd(done: BlockWalk, out: seq<Scoring.Tx>)
    ensures WalkGlue(done, BlockWalk(Returned(out), [], [], [], [])) == done.(result := Returned(out))
  {
    assert done.visited + [] == done.visited && done.blocks + [] == done.blocks;
    assert done.posts + [] == done.posts && done.sleeps + [] == done.sleeps;
  }

  /** The blocks visited so far grow by the next block down. */
  lemma BlockRangeStep(head: int, blocksBack: int, n: int)
    requires Max(0, head - blocksBack) <= n <= head
    ensures BlockRange(head, blocksBack)[head - n] == n
    ensures BlockRange(head, blocksBack)[..head - n] + [n] == BlockRange(head, blocksBack)[..head - n + 1]
  {
  }

  /** One turn of the block walk of `_collect_via_rpc`: block n is fetched
      with `_rpc_any`; a falsy result is skipped, a result that is not an
      object or a block whose timestamp cannot be converted raises, and the
      passing transactions of any other block are appended until `out`
      holds maxTx rows. */
  method ScanBlock(net: Network, s: RpcSettings, flt: Filters, maxTx: int, n: nat, out: seq<Scoring.Tx>)
    returns (r: Raising<seq<Scoring.Tx>>)
    requires |out| < maxTx
    modifies net
    ensures var run := RpcAnySpec(s, old(net.rpcScript));
      r == BlockStep(run.result, out, flt, maxTx) &&
      net.posts == old(net.posts) + PostsOf(run.tried, BlockCall(n)) &&
      net.sleeps == old(net.sleeps) + run.sleeps &&
      net.rpcScript == Drop(old(net.rpcScript), |run.tried|)
    ensures net.esScript == old(net.esScript) && net.gets == old(net.gets)
  {
    var blk := RpcAny(net, s, BlockByNumber(HexString(n)));
    if !Truthy(blk) {
      return Returned(out);
    }
    if !blk.Block? {
      return Raised;
    }
    var ts := BlockTimestamp(blk.timestamp);
    if ts.Raised? {
      return Raised;
    }
    var more := AppendBlock(out, blk.transactions, ts.value, flt, maxTx);
    return Returned(more);
  }

  /** One turn of the block loop at block n = `todo[0]`, as part of the walk
      `total`: the block is fetched and scanned, and the walk so far grows
      by it. `script0`, `posts0` and `sleeps0` are the script, the posts
      and the sleeps before the walk. */
  method WalkTurn(net: Network, s: RpcSettings, flt: Filters, maxTx: int, n: nat, ghost todo: seq<nat>, out: seq<Scoring.Tx>,
                  ghost total: BlockWalk, ghost done0: BlockWalk, ghost script0: seq<RpcReply>,
                  ghost posts0: seq<Post>, ghost sleeps0: seq<real>)
    returns (step: Raising<seq<Scoring.Tx>>, ghost done: BlockWalk)
    requires todo != [] && todo[0] == n && |out| < maxTx
    requires total == WalkGlue(done0, WalkFrom(s, flt, maxTx, net.rpcScript, todo, out))
    requires net.posts == posts0 + done0.posts && net.sleeps == sleeps0 + done0.sleeps
    requires net.rpcScript == Drop(script0, |done0.posts|)
    modifies net
    ensures done.visited == done0.visited + [n]
    ensures step.Raised? ==> total == done && done.result == Raised
    ensures step.Returned? ==> total == WalkGlue(done, WalkFrom(s, flt, maxTx, net.rpcScript, todo[1..], step.value))
    ensures net.posts == posts0 + done.posts && net.sleeps == sleeps0 + done.sleeps
    ensures net.rpcScript == Drop(script0, |done.posts|)
    ensures net.esScript == old(net.esScript) && net.gets == old(net.gets)
  {
    ghost var before := net.rpcScript;
    ghost var run := RpcAnySpec(s, before);
    step := ScanBlock(net, s, flt, maxTx, n, out);
    ghost var here := BlockWalk(step, [todo[0]], [run.result], PostsOf(run.tried, BlockCall(todo[0])), run.sleeps);
    WalkStep(s, flt, maxTx, before, todo, out, done0);
    done := WalkGlue(done0, here);
    AppendAssoc(posts0, done0.posts, here.posts);
    AppendAssoc(sleeps0, done0.sleeps, here.sleeps);
    DropDrop(script0, |done0.posts|, |run.tried|);
  }

  /** `_collect_via_rpc(max_tx)`. `Raised` is an exception that escapes it:
      a truthy block that is not an object, or a block timestamp `datetime`
      cannot represent. The ghost results are the head block number and the
      blocks requested, in order. */
  method CollectViaRpc(net: Network, s: RpcSettings, flt: Filters, maxTx: int)
    returns (r: Raising<seq<Scoring.Tx>>, ghost head: Option<int>, ghost visited: seq<nat>)
    modifies net
    ensures head == RpcHead(s, old(net.rpcScript))
    ensures var w := CollectRpcSpec(s, flt, maxTx, old(net.rpcScript));
      r == w.result && visited == w.visited &&
      net.posts == old(net.posts) + w.posts && net.sleeps == old(net.sleeps) + w.sleeps &&
      net.rpcScript == Drop(old(net.rpcScript), |w.posts|)
    ensures r.Returned? ==> |r.value| <= Max(maxTx, 0) && AllRowsOk(flt, r.value)
    ensures net.esScript == old(net.esScript) && net.gets == old(net.gets)
  {
    ghost var script0 := net.rpcScript;
    ghost var total := CollectRpcSpec(s, flt, maxTx, script0);
    CollectRpcRowsOk(s, flt, maxTx, script0);
    var first := RpcAny(net, s, BlockNumber);
    ghost var firstRun := RpcAnySpec(s, script0);
    ghost var done := BlockWalk(Returned([]), [], [], PostsOf(firstRun.tried, BlockNumber), firstRun.sleeps);
    if !Truthy(first) {
      return Returned([]), None, [];
    }
    var h := HeadNumber(first);
    head := Some(h);
    var start := Max(0, h - s.blocksBack);
    ghost var range := BlockRange(h, s.blocksBack);
    var out: seq<Scoring.Tx> := [];
    var n := h;
    while n >= start
      invariant n <= h && |done.visited| == h - n
      invariant h >= start ==> n >= start - 1
      invariant h < start ==> n == h
      invariant done.visited == range[..h - n]
      invariant total == WalkGlue(done, WalkFrom(s, flt, maxTx, net.rpcScript, range[h - n..], out))
      invariant net.posts == old(net.posts) + done.posts && net.sleeps == old(net.sleeps) + done.sleeps
      invariant net.rpcScript == Drop(script0, |done.posts|)
      invariant net.esScript == old(net.esScript) && net.gets == old(net.gets)
      decreases n - start + 1
    {
      if |out| >= maxTx {
        break;
      }
      BlockRangeStep(h, s.blocksBack, n);
      var step;
      step, done := WalkTurn(net, s, flt, maxTx, n, range[h - n..], out, total, done, script0, old(net.posts), old(net.sleeps));
      if step.Raised? {
        return Raised, head, done.visited;
      }
      assert range[h - n..][1..] == range[h - n + 1..];
      out := step.value;
      n := n - 1;
    }
    assert range[h - n..] == [] || |out| >= maxTx;
    WalkGlueEnd(done, out);
    return Returned(out), head, done.visited;
  }
}
