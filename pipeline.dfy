/** The pipeline of main.py: pick a collector, score every transaction in
    order, grow the known-address file, append the scored rows to the
    master and daily logs, and queue and alert the low scores. */
module Pipeline {
  import opened Common
  import opened Text
  import opened Weights
  import opened Scoring
  import opened Network
  import opened EthUtil
  import opened EthLoad
  import opened MainUtil
  import opened CsvStore

  /** The `explain` column: the hits and each one's share of the penalty,
      in percent. */
  datatype Explain = Explain(weights: seq<(string, int)>, contribPct: seq<(string, real)>)

  /** A row of `transactions.csv` and of the daily file. */
  datatype OutRow = OutRow(
    txId: string,
    timestamp: Option<int>,
    fromAddress: string,
    toAddress: string,
    amount: real,
    token: string,
    methodName: string,
    chain: string,
    isNewAddress: bool,
    velocity: int,
    score: int,
    penaltyTotal: int,
    reasons: string,
    explain: Explain)

  /** A row of `pending_review.csv`. */
  datatype PendingRow = PendingRow(
    txId: string,
    timestamp: Option<int>,
    fromAddress: string,
    toAddress: string,
    amount: real,
    token: string,
    methodName: string,
    chain: string,
    score: int,
    penaltyTotal: int,
    reasons: string,
    explain: Explain)

  /** The alert for a held row: its message reports the transaction id,
      the score against the threshold, both addresses abbreviated, the
      amount and token, and the reasons ("n/d" when there are none). */
  datatype Alert = Alert(row: OutRow, threshold: int) {
    function FromShort(): string {
      Abbreviate(row.fromAddress)
    }

    function ToShort(): string {
      Abbreviate(row.toAddress)
    }

    function Reasons(): string {
      if row.reasons == "" then "n/d" else row.reasons
    }
  }

  /** The alert channel: every message sent, in order. */
  class Alerter {
    var sent: seq<Alert>

    constructor ()
      ensures sent == []
    {
      sent := [];
    }

    /** `alerter.send(msg)`. */
    method Send(a: Alert)
      modifies this
      ensures sent == old(sent) + [a]
    {
      sent := sent + [a];
    }
  }

  /** `hits.get(k)`, with a missing key read as 0: both are falsy. */
  function HitWeight(hits: seq<(string, int)>, k: string): int {
    if hits == [] then 0 else if hits[0].0 == k then hits[0].1 else HitWeight(hits[1..], k)
  }

  /** Without the key the lookup is falsy; with it, and keys distinct, it is
      the weight stored under the key. */
  lemma {:induction false} HitWeightMeaning(hits: seq<(string, int)>, k: string)
    requires forall i, j :: 0 <= i < j < |hits| ==> hits[i].0 != hits[j].0
    ensures !HasHit(hits, k) ==> HitWeight(hits, k) == 0
    ensures forall i :: 0 <= i < |hits| && hits[i].0 == k ==> HitWeight(hits, k) == hits[i].1
  {
    if hits != [] {
      HitWeightMeaning(hits[1..], k);
      assert forall i :: 1 <= i < |hits| ==> hits[i] == hits[1..][i - 1];
      if !HasHit(hits, k) {
        assert !HasHit(hits[1..], k);
      }
    }
  }

  /** `contrib_pct`: each hit's weight as a percentage of the penalty, and
      nothing when the penalty is not positive. */
  function Contributions(hits: seq<(string, int)>, penalty: int): (c: seq<(string, real)>)
    ensures penalty <= 0 ==> c == []
    ensures penalty > 0 ==> |c| == |hits|
  {
    if penalty <= 0 then []
    else seq(|hits|, i requires 0 <= i < |hits| => (hits[i].0, hits[i].1 as real * 100.0 / penalty as real))
  }

  function SumPct(c: seq<(string, real)>): real {
    if c == [] then 0.0 else c[0].1 + SumPct(c[1..])
  }

  lemma {:induction false} SumPctScaled(hits: seq<(string, int)>, penalty: int)
    requires penalty > 0
    ensures SumPct(Contributions(hits, penalty)) == Penalty(hits) as real * 100.0 / penalty as real
  {
    if hits != [] {
      SumPctScaled(hits[1..], penalty);
      assert Contributions(hits, penalty)[1..] == Contributions(hits[1..], penalty);
      var p := penalty as real;
      var a := hits[0].1 as real;
      var b := Penalty(hits[1..]) as real;
      DivAdd(a * 100.0, b * 100.0, p);
      assert a * 100.0 + b * 100.0 == (a + b) * 100.0;
    }
  }

  lemma DivAdd(a: real, b: real, p: real)
    requires p > 0.0
    ensures a / p + b / p == (a + b) / p
  {
    var x := a / p;
    var y := b / p;
    assert x * p == a && y * p == b;
    assert (x + y) * p == a + b;
  }

  lemma MulDivCancel(c: real, p: real)
    requires p > 0.0
    ensures p * c / p == c
  {
  }

  /** The percentages of a positive penalty add up to 100, before rounding,
      and they are absent exactly when the penalty is not positive. */
  lemma ContributionsTotal(hits: seq<(string, int)>)
    ensures Penalty(hits) > 0 ==> SumPct(Contributions(hits, Penalty(hits))) == 100.0
    ensures Contributions(hits, Penalty(hits)) == [] <==> Penalty(hits) <= 0
  {
    if Penalty(hits) > 0 {
      SumPctScaled(hits, Penalty(hits));
      var p := Penalty(hits) as real;
      MulDivCancel(100.0, p);
      assert hits != [];
    }
  }

  /** The row built for a transaction from its score, under the run's chain
      label (not the transaction's own chain). */
  function RowOf(tx: Tx, s: ScoreResult, chain: string): OutRow {
    var penalty := Penalty(s.hits);
    OutRow(tx.txId, tx.timestamp, tx.fromAddress, tx.toAddress, tx.amount, tx.token, tx.methodName, chain,
           HitWeight(s.hits, "new_address") != 0, s.velocityLastWindow, s.score, penalty,
           SafeText(Join(s.reasons, "; ")), Explain(s.hits, Contributions(s.hits, penalty)))
  }

  /** The row's score is 100 minus its `penalty_total`, floored at 0; its
      percentages are empty exactly when the penalty is not positive; its
      reasons can be encoded as Latin-1. */
  lemma RowScore(e: Engine, tx: Tx, now: int, chain: string)
    requires WellFormed(e)
    ensures var s := Evaluate(e, tx, now);
      var row := RowOf(tx, s, chain);
      row.txId == tx.txId && row.fromAddress == tx.fromAddress && row.chain == chain &&
      row.penaltyTotal == Penalty(s.hits) && row.score == Max(0, 100 - row.penaltyTotal) &&
      (row.explain.contribPct == [] <==> row.penaltyTotal <= 0) &&
      Latin1(row.reasons)
  {
    ContributionsTotal(Evaluate(e, tx, now).hits);
  }

  /** A row is marked as a new address exactly when the `new_address` rule
      fired and its configured weight is not 0: a zero weight hides a new
      sender from both the mark and the known-address file. */
  lemma RowNewAddress(e: Engine, tx: Tx, now: int, chain: string)
    requires WellFormed(e)
    ensures var s := Evaluate(e, tx, now);
      RowOf(tx, s, chain).isNewAddress <==>
        Fires(e, Normalize(tx, now), s.velocityLastWindow, NewAddress) && e.weights[Name(NewAddress)] != 0
  {
    var s := Evaluate(e, tx, now);
    HitsAreRuleWeights(e, tx, now);
    HasHitIff(e, tx, now, NewAddress);
    MarkOfHits(tx, s, chain, e.weights);
  }

  /** The mark reads the `new_address` hit, whose weight is the configured
      one. */
  lemma MarkOfHits(tx: Tx, s: ScoreResult, chain: string, weights: map<string, int>)
    requires forall i :: 0 <= i < |s.hits| ==> s.hits[i].0 in weights && s.hits[i].1 == weights[s.hits[i].0]
    requires forall i, j :: 0 <= i < j < |s.hits| ==> s.hits[i].0 != s.hits[j].0
    requires "new_address" in weights
    ensures RowOf(tx, s, chain).isNewAddress <==> HasHit(s.hits, "new_address") && weights["new_address"] != 0
  {
    HitWeightMeaning(s.hits, "new_address");
    if HasHit(s.hits, "new_address") {
      var i :| 0 <= i < |s.hits| && s.hits[i].0 == "new_address";
      assert HitWeight(s.hits, "new_address") == weights["new_address"];
    }
  }

  /** The engine's known set is fixed when it is built, so two transactions
      of one batch from the same sender are both marked new or both not. */
  lemma SameSenderSameMark(e: Engine, tx1: Tx, tx2: Tx, now: int, chain: string)
    requires WellFormed(e)
    requires Norm(tx1.fromAddress) == Norm(tx2.fromAddress)
    ensures RowOf(tx1, Evaluate(e, tx1, now), chain).isNewAddress ==
            RowOf(tx2, Evaluate(e, tx2, now), chain).isNewAddress
  {
    RowNewAddress(e, tx1, now, chain);
    RowNewAddress(e, tx2, now, chain);
  }

  /** `score_transaction` at time `now` as a function of the transaction. */
  function Scorer(e: Engine, now: int): Tx --> ScoreResult {
    tx requires WellFormed(e) => Evaluate(e, tx, now)
  }

  /** What `score_transaction` returns for each transaction of a batch. */
  function Scores(e: Engine, txs: seq<Tx>, now: int): (r: seq<ScoreResult>)
    requires WellFormed(e)
    ensures |r| == |txs|
  {
    MapSeq(Scorer(e, now), txs)
  }

  /** Transaction i is scored by the engine on its own: the other
      transactions of the batch do not change its result. */
  lemma ScoresAt(e: Engine, txs: seq<Tx>, now: int, i: int)
    requires WellFormed(e) && 0 <= i < |txs|
    ensures Scores(e, txs, now)[i] == Evaluate(e, txs[i], now)
  {
    MapSeqAt(Scorer(e, now), txs, i);
  }

  /** The senders `append_known_address` is called with: those of the
      transactions whose `new_address` hit is truthy. */
  function NewSenders(txs: seq<Tx>, scores: seq<ScoreResult>): seq<string>
    requires |scores| == |txs|
    decreases |txs|
  {
    if txs == [] then []
    else
      var n := |txs| - 1;
      NewSenders(txs[..n], scores[..n]) +
      (if HitWeight(scores[n].hits, "new_address") != 0 then [txs[n].fromAddress] else [])
  }

  /** Each appended sender comes from a transaction with a truthy
      `new_address` hit. */
  lemma {:induction false} NewSendersSound(txs: seq<Tx>, scores: seq<ScoreResult>, a: string) returns (i: int)
    requires |scores| == |txs| && a in NewSenders(txs, scores)
    ensures 0 <= i < |txs| && txs[i].fromAddress == a && HitWeight(scores[i].hits, "new_address") != 0
    decreases |txs|
  {
    var n := |txs| - 1;
    if a in NewSenders(txs[..n], scores[..n]) {
      i := NewSendersSound(txs[..n], scores[..n], a);
      assert txs[..n][i] == txs[i] && scores[..n][i] == scores[i];
    } else {
      i := n;
    }
  }

  /** Each transaction with a truthy `new_address` hit appends its sender. */
  lemma {:induction false} NewSendersComplete(txs: seq<Tx>, scores: seq<ScoreResult>, i: int)
    requires |scores| == |txs| && 0 <= i < |txs| && HitWeight(scores[i].hits, "new_address") != 0
    ensures txs[i].fromAddress in NewSenders(txs, scores)
    decreases |txs|
  {
    var n := |txs| - 1;
    if i < n {
      NewSendersComplete(txs[..n], scores[..n], i);
      assert txs[..n][i] == txs[i] && scores[..n][i] == scores[i];
    }
  }

  /** A sender is appended exactly when one of its transactions has a
      truthy `new_address` hit. */
  lemma NewSendersMembers(txs: seq<Tx>, scores: seq<ScoreResult>, a: string)
    requires |scores| == |txs|
    ensures a in NewSenders(txs, scores) <==>
      exists i :: 0 <= i < |txs| && txs[i].fromAddress == a && HitWeight(scores[i].hits, "new_address") != 0
  {
    if a in NewSenders(txs, scores) {
      var i := NewSendersSound(txs, scores, a);
    }
    if exists i :: 0 <= i < |txs| && txs[i].fromAddress == a && HitWeight(scores[i].hits, "new_address") != 0 {
      var i :| 0 <= i < |txs| && txs[i].fromAddress == a && HitWeight(scores[i].hits, "new_address") != 0;
      NewSendersComplete(txs, scores, i);
    }
  }

  /** The rows scoring below the threshold, in order. */
  function Flagged(rows: seq<OutRow>, threshold: int): seq<OutRow>
    decreases |rows|
  {
    if rows == [] then []
    else
      var last := rows[|rows| - 1];
      Flagged(rows[..|rows| - 1], threshold) + (if last.score < threshold then [last] else [])
  }

  /** A row is held for review exactly when its score is below the
      threshold. */
  lemma {:induction false} FlaggedMembers(rows: seq<OutRow>, threshold: int)
    ensures |Flagged(rows, threshold)| <= |rows|
    ensures forall r :: r in Flagged(rows, threshold) <==> r in rows && r.score < threshold
    decreases |rows|
  {
    if rows != [] {
      var n := |rows| - 1;
      FlaggedMembers(rows[..n], threshold);
      assert rows == rows[..n] + [rows[n]];
    }
  }

  /** The pending-review row of a held row. */
  function PendingOf(r: OutRow): PendingRow {
    PendingRow(r.txId, r.timestamp, r.fromAddress, r.toAddress, r.amount, r.token, r.methodName, r.chain,
               r.score, r.penaltyTotal, r.reasons, r.explain)
  }

  function PendingRows(rows: seq<OutRow>): (ps: seq<PendingRow>)
    ensures |ps| == |rows|
    ensures forall i :: 0 <= i < |rows| ==> ps[i] == PendingOf(rows[i])
  {
    seq(|rows|, i requires 0 <= i < |rows| => PendingOf(rows[i]))
  }

  /** One alert per held row, in order. */
  function AlertsFor(rows: seq<OutRow>, threshold: int): seq<Alert>
    decreases |rows|
  {
    if rows == [] then []
    else AlertsFor(rows[..|rows| - 1], threshold) + [Alert(rows[|rows| - 1], threshold)]
  }

  lemma {:induction false} AlertsForIndex(rows: seq<OutRow>, threshold: int)
    ensures |AlertsFor(rows, threshold)| == |rows|
    ensures forall i :: 0 <= i < |rows| ==> AlertsFor(rows, threshold)[i] == Alert(rows[i], threshold)
    decreases |rows|
  {
    if rows != [] {
      var n := |rows| - 1;
      AlertsForIndex(rows[..n], threshold);
      assert forall i :: 0 <= i < n ==> rows[..n][i] == rows[i];
    }
  }

  /** The body of the scoring loop for one scored transaction: build its
      row, append a sender with a truthy `new_address` hit to the
      known-address file, and alert when the score is below the threshold. */
  method HandleScored(tx: Tx, scored: ScoreResult, now: int, chain: string, threshold: int,
                      known: CsvFile<KnownRow>, alerter: Alerter)
    returns (row: OutRow)
    requires known.Valid() && known.present
    modifies known, alerter
    ensures row == RowOf(tx, scored, chain)
    ensures known.Valid() && known.present
    ensures known.lines ==
      if HitWeight(scored.hits, "new_address") != 0 then KnownAfter(old(known.lines), tx.fromAddress, now)
      else old(known.lines)
    ensures alerter.sent == old(alerter.sent) + if row.score < threshold then [Alert(row, threshold)] else []
  {
    row := RowOf(tx, scored, chain);
    if HitWeight(scored.hits, "new_address") != 0 {
      AppendKnown(known, tx.fromAddress, now);
    }
    if row.score < threshold {
      alerter.Send(Alert(row, threshold));
    } else {
      assert alerter.sent + [] == alerter.sent;
    }
  }

  /** The row of one scored transaction, as a function of the pair. */
  function Rower(chain: string): (Tx, ScoreResult) -> OutRow {
    (tx, s) => RowOf(tx, s, chain)
  }

  /** The rows of a scored batch, in order. */
  function RowsOf(txs: seq<Tx>, scores: seq<ScoreResult>, chain: string): seq<OutRow>
    requires |scores| == |txs|
  {
    ZipWith(Rower(chain), txs, scores)
  }

  /** Exactly one row per transaction, in the batch's order. */
  lemma RowsOfIndex(txs: seq<Tx>, scores: seq<ScoreResult>, chain: string)
    requires |scores| == |txs|
    ensures |RowsOf(txs, scores, chain)| == |txs|
    ensures forall i :: 0 <= i < |txs| ==> RowsOf(txs, scores, chain)[i] == RowOf(txs[i], scores[i], chain)
  {
    forall i | 0 <= i < |txs|
      ensures RowsOf(txs, scores, chain)[i] == RowOf(txs[i], scores[i], chain)
    {
      ZipWithAt(Rower(chain), txs, scores, i);
    }
  }

  /** One more transaction of the batch scored and turned into a row. */
  lemma ScoredStep(txs: seq<Tx>, i: int, chain: string, scores: seq<ScoreResult>, scored: ScoreResult)
    requires 0 <= i < |txs| && |scores| == i
    ensures RowsOf(txs[..i + 1], scores + [scored], chain) == RowsOf(txs[..i], scores, chain) + [RowOf(txs[i], scored, chain)]
    ensures NewSenders(txs[..i + 1], scores + [scored]) == NewSenders(txs[..i], scores) +
      if HitWeight(scored.hits, "new_address") != 0 then [txs[i].fromAddress] else []
  {
    ZipWithSnoc(Rower(chain), txs, scores, scored, i);
    assert txs[..i + 1][..i] == txs[..i];
    assert (scores + [scored])[..i] == scores;
  }

  /** One more row, held or not. */
  lemma HeldStep(rows: seq<OutRow>, row: OutRow, threshold: int)
    ensures Flagged(rows + [row], threshold) == Flagged(rows, threshold) + if row.score < threshold then [row] else []
    ensures row.score < threshold ==>
      AlertsFor(Flagged(rows, threshold) + [row], threshold) == AlertsFor(Flagged(rows, threshold), threshold) + [Alert(row, threshold)]
  {
    assert (rows + [row])[..|rows|] == rows;
    var p := Flagged(rows, threshold);
    assert (p + [row])[..|p|] == p;
  }

  /** `engine.score_transaction(txs[i])`, one more transaction of the batch
      scored. */
  method ScoreNext(engine: ScoreEngine, txs: seq<Tx>, i: int, now: int, ghost scores: seq<ScoreResult>)
    returns (scored: ScoreResult)
    requires WellFormed(engine.State()) && 0 <= i < |txs| && scores == Scores(engine.State(), txs[..i], now)
    ensures scores + [scored] == Scores(engine.State(), txs[..i + 1], now)
  {
    scored := engine.ScoreTransaction(txs[i], now);
    MapSeqSnoc(Scorer(engine.State(), now), txs, i);
  }

  /** One turn of the scoring loop of `main`: the loop's invariant at i
      becomes the invariant at i + 1. */
  method ScoreStep(engine: ScoreEngine, txs: seq<Tx>, i: int, now: int, chain: string, threshold: int,
                   known: CsvFile<KnownRow>, alerter: Alerter,
                   rows0: seq<OutRow>, pendings0: seq<OutRow>, ghost scores0: seq<ScoreResult>,
                   ghost sentBase: seq<Alert>, ghost linesBase: seq<Line<KnownRow>>)
    returns (rows: seq<OutRow>, pendings: seq<OutRow>, ghost scores: seq<ScoreResult>)
    requires WellFormed(engine.State()) && 0 <= i < |txs|
    requires scores0 == Scores(engine.State(), txs[..i], now)
    requires rows0 == RowsOf(txs[..i], scores0, chain)
    requires pendings0 == Flagged(rows0, threshold)
    requires alerter.sent == sentBase + AlertsFor(pendings0, threshold)
    requires known.lines == KnownAfterAll(linesBase, NewSenders(txs[..i], scores0), now)
    requires known.Valid() && known.present
    modifies known, alerter
    ensures scores == Scores(engine.State(), txs[..i + 1], now)
    ensures rows == RowsOf(txs[..i + 1], scores, chain)
    ensures pendings == Flagged(rows, threshold)
    ensures alerter.sent == sentBase + AlertsFor(pendings, threshold)
    ensures known.lines == KnownAfterAll(linesBase, NewSenders(txs[..i + 1], scores), now)
    ensures known.Valid() && known.present
  {
    var tx := txs[i];
    var scored := ScoreNext(engine, txs, i, now, scores0);
    ScoredStep(txs, i, chain, scores0, scored);
    HeldStep(rows0, RowOf(tx, scored, chain), threshold);
    ghost var more: seq<string> := if HitWeight(scored.hits, "new_address") != 0 then [tx.fromAddress] else [];
    KnownAfterAllSnoc(linesBase, NewSenders(txs[..i], scores0), more, now);
    ghost var alerts0 := AlertsFor(pendings0, threshold);
    var row := HandleScored(tx, scored, now, chain, threshold, known, alerter);
    scores := scores0 + [scored];
    rows := rows0 + [row];
    if row.score < threshold {
      pendings := pendings0 + [row];
      AppendAssoc(sentBase, alerts0, [Alert(row, threshold)]);
    } else {
      pendings := pendings0;
      assert sentBase + alerts0 + [] == sentBase + alerts0;
    }
  }

  /** The scoring loop of `main`: one row per transaction, in order; a
      truthy `new_address` hit appends the sender to the known-address file;
      a score below the threshold queues the row and sends one alert. */
  method ScoreAll(engine: ScoreEngine, txs: seq<Tx>, now: int, chain: string, threshold: int,
                  known: CsvFile<KnownRow>, alerter: Alerter)
    returns (rows: seq<OutRow>, pendings: seq<OutRow>, ghost scores: seq<ScoreResult>)
    requires WellFormed(engine.State()) && known.Valid() && known.present
    modifies known, alerter
    ensures scores == Scores(engine.State(), txs, now)
    ensures rows == RowsOf(txs, scores, chain)
    ensures pendings == Flagged(rows, threshold)
    ensures alerter.sent == old(alerter.sent) + AlertsFor(pendings, threshold)
    ensures known.lines == KnownAfterAll(old(known.lines), NewSenders(txs, scores), now)
    ensures known.Valid() && known.present
  {
    ghost var e := engine.State();
    rows, pendings, scores := [], [], [];
    var i := 0;
    while i < |txs|
      invariant 0 <= i <= |txs|
      invariant scores == Scores(e, txs[..i], now)
      invariant rows == RowsOf(txs[..i], scores, chain)
      invariant pendings == Flagged(rows, threshold)
      invariant alerter.sent == old(alerter.sent) + AlertsFor(pendings, threshold)
      invariant known.lines == KnownAfterAll(old(known.lines), NewSenders(txs[..i], scores), now)
      invariant known.Valid() && known.present
    {
      rows, pendings, scores := ScoreStep(engine, txs, i, now, chain, threshold, known, alerter,
                                          rows, pendings, scores, old(alerter.sent), old(known.lines));
      i := i + 1;
    }
    assert txs[..|txs|] == txs;
  }

  /** `write_transactions(rows)`: the same rows, in the same order, are
      appended to the master log and to the day's file. */
  method WriteTransactions(master: CsvFile<OutRow>, daily: CsvFile<OutRow>, rows: seq<OutRow>)
    requires master != daily && master.Valid() && daily.Valid()
    modifies master, daily
    ensures master.Valid() && daily.Valid() && master.present && daily.present
    ensures master.lines == Appended(old(master.lines), old(master.present), rows)
    ensures daily.lines == Appended(old(daily.lines), old(daily.present), rows)
    ensures master.Records() == old(master.Records()) + rows
    ensures daily.Records() == old(daily.Records()) + rows
  {
    master.WriteRows(rows);
    daily.WriteRows(rows);
  }

  /** `append_pending(rows)`. */
  method AppendPending(pending: CsvFile<PendingRow>, rows: seq<OutRow>)
    requires pending.Valid()
    modifies pending
    ensures pending.Valid() && pending.present
    ensures pending.lines == Appended(old(pending.lines), old(pending.present), PendingRows(rows))
    ensures pending.Records() == old(pending.Records()) + PendingRows(rows)
  {
    pending.WriteRows(PendingRows(rows));
  }

  /** The collector choice of `main`: the ETH collector when it was chosen
      and is available, the mock batch when it was not, is not, or gives
      nothing. `load_from_eth` catches every exception itself, so the
      `except` around it never runs. */
  method Collect(net: Network, collector: string, ethAvailable: bool, eth: EthSettings, mock: seq<Tx>)
    returns (txs: seq<Tx>, ghost loaded: Option<seq<Tx>>)
    modifies net
    ensures loaded.Some? <==> collector == "eth" && ethAvailable
    ensures loaded.Some? ==> loaded.value == LoadEth(eth, old(net.rpcScript), old(net.esScript))
    ensures loaded.None? ==> txs == mock && unchanged(net)
    ensures loaded.Some? ==> |loaded.value| <= Max(eth.maxTx, 0) && AllRowsOk(eth.flt, loaded.value)
    ensures loaded.Some? ==> txs == if loaded.value == [] then mock else loaded.value
  {
    loaded := None;
    if collector == "eth" && ethAvailable {
      var got, _, _ := LoadFromEth(net, eth);
      loaded := Some(got);
      txs := if got == [] then mock else got;
    } else {
      txs := mock;
    }
  }

  /** The chain label of every row: `CHAIN_NAME` (default "ETH") for the
      ETH collector, even when it fell back to mock data, and "MOCK"
      otherwise. */
  function ChainLabel(collector: string, env: Env): string {
    if collector == "eth" then GetEnv(env, "CHAIN_NAME", "ETH") else "MOCK"
  }

  /** What the velocity rule reads of the previous log. */
  function PrevRows(rows: seq<OutRow>): (prev: seq<PrevRow>)
    ensures |prev| == |rows|
    ensures forall i :: 0 <= i < |rows| ==> prev[i] == PrevRow(rows[i].fromAddress, rows[i].timestamp)
  {
    seq(|rows|, i requires 0 <= i < |rows| => PrevRow(rows[i].fromAddress, rows[i].timestamp))
  }

  /** A file written only when there is something to write. */
  function WrittenIfAny<R>(lines: seq<Line<R>>, present: bool, rows: seq<R>): seq<Line<R>> {
    if rows == [] then lines else Appended(lines, present, rows)
  }

  /** The loop over the batch and the writes after it: each transaction is
      scored, logged, remembered and held as it comes, and the three CSV
      files are appended to only when there is something to add. */
  method ScoreAndStore(engine: ScoreEngine, txs: seq<Tx>, now: int, chain: string, threshold: int,
                       master: CsvFile<OutRow>, daily: CsvFile<OutRow>, pending: CsvFile<PendingRow>,
                       known: CsvFile<KnownRow>, alerter: Alerter)
    returns (rows: seq<OutRow>, ghost scores: seq<ScoreResult>)
    requires WellFormed(engine.State()) && master != daily
    requires master.Valid() && daily.Valid() && pending.Valid() && known.Valid() && known.present
    modifies master, daily, pending, known, alerter
    ensures master.Valid() && daily.Valid() && pending.Valid() && known.Valid() && known.present
    ensures scores == Scores(engine.State(), txs, now)
    ensures rows == RowsOf(txs, scores, chain)
    ensures master.lines == WrittenIfAny(old(master.lines), old(master.present), rows)
    ensures daily.lines == WrittenIfAny(old(daily.lines), old(daily.present), rows)
    ensures pending.lines == WrittenIfAny(old(pending.lines), old(pending.present), PendingRows(Flagged(rows, threshold)))
    ensures alerter.sent == old(alerter.sent) + AlertsFor(Flagged(rows, threshold), threshold)
    ensures known.lines == KnownAfterAll(old(known.lines), NewSenders(txs, scores), now)
  {
    var pendings;
    rows, pendings, scores := ScoreAll(engine, txs, now, chain, threshold, known, alerter);
    Store(master, daily, pending, rows, pendings);
  }

  /** The writes at the end of `main()`: the log files when any row was
      scored, the pending file when any row was held. */
  method Store(master: CsvFile<OutRow>, daily: CsvFile<OutRow>, pending: CsvFile<PendingRow>,
               rows: seq<OutRow>, pendings: seq<OutRow>)
    requires master != daily && master.Valid() && daily.Valid() && pending.Valid()
    modifies master, daily, pending
    ensures master.Valid() && daily.Valid() && pending.Valid()
    ensures master.lines == WrittenIfAny(old(master.lines), old(master.present), rows)
    ensures daily.lines == WrittenIfAny(old(daily.lines), old(daily.present), rows)
    ensures pending.lines == WrittenIfAny(old(pending.lines), old(pending.present), PendingRows(pendings))
  {
    if rows != [] {
      WriteTransactions(master, daily, rows);
    }
    if pendings != [] {
      AppendPending(pending, pendings);
    }
  }

  /** `ensure_data_files()` then `read_known_addresses()`: the file is
      created with its header when missing, and the set read is the one the
      file held before, a missing file holding none. */
  method OpenKnown(known: CsvFile<KnownRow>) returns (knownSet: set<string>)
    requires known.Valid()
    modifies known
    ensures known.Valid() && known.present
    ensures known.lines == if old(known.present) then old(known.lines) else [Header]
    ensures knownSet == KnownIn(old(known.lines))
  {
    known.CreateIfMissing();
    knownSet := ReadKnownAddresses(known);
    if !old(known.present) {
      assert forall l :: l in known.lines ==> !l.Row?;
    }
  }

  /** `main()` once the engine is built: the collector is chosen and run,
      and the batch it gives is scored and stored. */
  method CollectAndScore(argv: seq<string>, env: Env, ethAvailable: bool, eth: EthSettings, net: Network,
                         mock: seq<Tx>, now: int, threshold: int, engine: ScoreEngine,
                         master: CsvFile<OutRow>, daily: CsvFile<OutRow>, pending: CsvFile<PendingRow>,
                         known: CsvFile<KnownRow>, alerter: Alerter)
    returns (rows: seq<OutRow>, ghost txs: seq<Tx>)
    requires WellFormed(engine.State()) && master != daily
    requires master.Valid() && daily.Valid() && pending.Valid() && known.Valid() && known.present
    modifies master, daily, pending, known, net, alerter
    ensures master.Valid() && daily.Valid() && pending.Valid() && known.Valid() && known.present
    ensures PickCollector(argv, env) != "eth" || !ethAvailable ==> txs == mock && unchanged(net)
    ensures PickCollector(argv, env) == "eth" && ethAvailable ==>
      txs == mock || (txs != [] && |txs| <= Max(eth.maxTx, 0) && AllRowsOk(eth.flt, txs))
    ensures PickCollector(argv, env) == "eth" && ethAvailable ==>
      var loaded := LoadEth(eth, old(net.rpcScript), old(net.esScript));
      txs == if loaded == [] then mock else loaded
    ensures rows == RowsOf(txs, Scores(engine.State(), txs, now), ChainLabel(PickCollector(argv, env), env))
    ensures master.lines == WrittenIfAny(old(master.lines), old(master.present), rows)
    ensures daily.lines == WrittenIfAny(old(daily.lines), old(daily.present), rows)
    ensures pending.lines == WrittenIfAny(old(pending.lines), old(pending.present), PendingRows(Flagged(rows, threshold)))
    ensures alerter.sent == old(alerter.sent) + AlertsFor(Flagged(rows, threshold), threshold)
    ensures known.lines == KnownAfterAll(old(known.lines), NewSenders(txs, Scores(engine.State(), txs, now)), now)
  {
    var collector := PickCollector(argv, env);
    var batch, _ := Collect(net, collector, ethAvailable, eth, mock);
    txs := batch;
    var chain := ChainLabel(collector, env);
    var scored, _ := ScoreAndStore(engine, batch, now, chain, threshold, master, daily, pending, known, alerter);
    rows := scored;
  }

  /** `main()`, given the command line, the environment (already holding
      `.env`), the reference lists and weight file of the data directory,
      whether the ETH collector imports, its settings, the network, the mock
      batch, the current time, the four CSV files (master, today's, pending,
      known) and the alert channel. `Raised` is the exception the engine's
      constructor lets escape: then nothing but the known-address header is
      written. */
  method RunPipeline(argv: seq<string>, env: Env, lists: ListFiles, weightsFile: WeightsFile,
                     ethAvailable: bool, eth: EthSettings, net: Network, mock: seq<Tx>, now: int,
                     master: CsvFile<OutRow>, daily: CsvFile<OutRow>, pending: CsvFile<PendingRow>,
                     known: CsvFile<KnownRow>, alerter: Alerter)
    returns (r: Raising<seq<OutRow>>, ghost e: Engine, ghost txs: seq<Tx>)
    requires master != daily
    requires master.Valid() && daily.Valid() && pending.Valid() && known.Valid()
    modifies master, daily, pending, known, net, alerter
    ensures master.Valid() && daily.Valid() && pending.Valid() && known.Valid() && known.present
    ensures r.Raised? <==> ReadConfig(env).Raised?
    ensures r.Raised? ==>
      known.lines == (if old(known.present) then old(known.lines) else [Header]) &&
      unchanged(master, daily, pending, net, alerter)
    ensures r.Returned? ==>
      e == Build(lists, PrevRows(old(master.Records())), KnownIn(old(known.lines)), weightsFile, ReadConfig(env).value) &&
      WellFormed(e)
    ensures r.Returned? && (PickCollector(argv, env) != "eth" || !ethAvailable) ==>
      txs == mock && unchanged(net)
    ensures r.Returned? && PickCollector(argv, env) == "eth" && ethAvailable ==>
      txs == mock || (txs != [] && |txs| <= Max(eth.maxTx, 0) && AllRowsOk(eth.flt, txs))
    ensures r.Returned? && PickCollector(argv, env) == "eth" && ethAvailable ==>
      var loaded := LoadEth(eth, old(net.rpcScript), old(net.esScript));
      txs == if loaded == [] then mock else loaded
    ensures r.Returned? ==>
      r.value == RowsOf(txs, Scores(e, txs, now), ChainLabel(PickCollector(argv, env), env))
    ensures r.Returned? ==>
      master.lines == WrittenIfAny(old(master.lines), old(master.present), r.value) &&
      daily.lines == WrittenIfAny(old(daily.lines), old(daily.present), r.value)
    ensures r.Returned? ==>
      var held := Flagged(r.value, AlertThreshold(env));
      pending.lines == WrittenIfAny(old(pending.lines), old(pending.present), PendingRows(held)) &&
      alerter.sent == old(alerter.sent) + AlertsFor(held, AlertThreshold(env))
    ensures r.Returned? ==>
      known.lines == KnownAfterAll(if old(known.present) then old(known.lines) else [Header],
                                   NewSenders(txs, Scores(e, txs, now)), now)
  {
    var knownSet := OpenKnown(known);
    var threshold := AlertThreshold(env);
    var prev := PrevRows(master.Records());
    var config := ReadConfig(env);
    if config.Raised? {
      return Raised, Build(lists, prev, knownSet, weightsFile, Config(0.0, 0, 0)), [];
    }
    var engine := new ScoreEngine(lists, prev, knownSet, weightsFile, config.value);
    e := engine.State();
    var rows;
    rows, txs := CollectAndScore(argv, env, ethAvailable, eth, net, mock, now, threshold, engine,
                                 master, daily, pending, known, alerter);
    r := Returned(rows);
  }
}
