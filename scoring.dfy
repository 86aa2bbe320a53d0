/** The rule-based scoring engine (`ScoreEngine` in app/engine/scoring.py):
    eight independent rules over fixed reference lists, weights, the prior
    transactions and the known senders. A transaction's score is 100 minus
    the weights of the rules it fires, floored at 0. */
module Scoring {
  import opened Common
  import opened Text
  import opened Weights

  /** A transaction in the canonical schema as the engine reads it. Missing
      text fields are "", a missing or unparseable timestamp is None (UTC
      seconds otherwise), and the amount is the exact value. */
  datatype Tx = Tx(
    txId: string,
    timestamp: Option<int>,
    fromAddress: string,
    toAddress: string,
    amount: real,
    token: string,
    methodName: string,
    chain: string)

  /** A row of the previous transaction log, as far as the velocity rule reads it. */
  datatype PrevRow = PrevRow(fromAddress: string, timestamp: Option<int>)

  /** The process environment. */
  type Env = map<string, string>

  /** `os.getenv(key, default)`. */
  function GetEnv(env: Env, key: string, default: string): string {
    if key in env then env[key] else default
  }

  /** The engine's numeric parameters, read from the environment. */
  datatype Config = Config(amountThreshold: real, velocityWindowMin: int, velocityMaxTx: int)

  /** What `__init__` reads from the environment: a threshold `_to_float`
      turns into 10000 when it cannot read it, and two counts `int()` must
      accept, or the constructor raises. */
  function ReadConfig(env: Env): Raising<Config> {
    var threshold := ToFloat(GetEnv(env, "AMOUNT_THRESHOLD", "10000"), 10000.0);
    var window := ParseInt(GetEnv(env, "VELOCITY_WINDOW_MIN", "10"), 10);
    var maxTx := ParseInt(GetEnv(env, "VELOCITY_MAX_TX", "5"), 10);
    if window.None? || maxTx.None? then Raised
    else Returned(Config(threshold, window.value, maxTx.value))
  }

  lemma DecimalTexts()
    ensures IntToString(5) == "5" && IntToString(10) == "10" && IntToString(10000) == "10000"
  {
    assert ToDigits(1, 10) == "1";
    assert ToDigits(10, 10) == "10";
    assert ToDigits(100, 10) == "100";
    assert ToDigits(1000, 10) == "1000";
    assert ToDigits(10000, 10) == "10000";
  }

  /** With nothing set in the environment the engine uses a threshold of
      10000, a 10-minute window and at most 5 transactions in it. */
  lemma DefaultConfig()
    ensures ReadConfig(map[]) == Returned(Config(10000.0, 10, 5))
  {
    DecimalTexts();
    ToFloatOfInt(10000, 10000.0);
    ParseIntRoundTrip(10);
    ParseIntRoundTrip(5);
  }

  /** A CSV row as `csv.DictReader` yields it: column name to text. */
  type CsvRow = map<string, string>

  /** A reference list file: missing, or the rows read from it (when reading
      fails part-way, the rows read before the failure). */
  datatype ListFile = Missing | Rows(rows: seq<CsvRow>)

  /** `row.get(col)` with a missing cell read as "". */
  function Cell(row: CsvRow, col: string): string {
    if col in row then row[col] else ""
  }

  /** What `_load_single_column_csv` collects: the normalised, non-empty
      values of one column. */
  function ColumnSet(f: ListFile, col: string): set<string> {
    match f
    case Missing => {}
    case Rows(rows) =>
      set i | 0 <= i < |rows| && Norm(Cell(rows[i], col)) != "" :: Norm(Cell(rows[i], col))
  }

  /** `_load_single_column_csv` as the loop the source runs. */
  method LoadSingleColumn(f: ListFile, col: string) returns (out: set<string>)
    ensures out == ColumnSet(f, col)
  {
    out := {};
    if f.Missing? {
      return;
    }
    var rows := f.rows;
    var i := 0;
    while i < |rows|
      invariant 0 <= i <= |rows|
      invariant out == set j | 0 <= j < i && Norm(Cell(rows[j], col)) != "" :: Norm(Cell(rows[j], col))
    {
      var v := Norm(Cell(rows[i], col));
      if v != "" {
        out := out + {v};
      }
      i := i + 1;
    }
  }

  /** Every list entry is non-empty and already in normal form, so the
      rules' lookups of normalised fields compare like with like. */
  lemma ColumnValuesNormalized(f: ListFile, col: string, v: string)
    requires v in ColumnSet(f, col)
    ensures v != "" && Norm(v) == v
  {
    var i :| 0 <= i < |f.rows| && Norm(Cell(f.rows[i], col)) != "" && v == Norm(Cell(f.rows[i], col));
    NormIdempotent(Cell(f.rows[i], col));
  }

  /** The four reference lists of the data directory. */
  datatype ListFiles = ListFiles(
    blacklist: ListFile,
    watchlist: ListFile,
    sensitiveTokens: ListFile,
    sensitiveMethods: ListFile)

  /** Everything the engine holds once constructed. */
  datatype Engine = Engine(
    blacklist: set<string>,
    watchlist: set<string>,
    sensitiveTokens: set<string>,
    sensitiveMethods: set<string>,
    weights: map<string, int>,
    prev: seq<PrevRow>,
    known: set<string>,
    cfg: Config)

  /** Every rule has a weight to look up. */
  predicate WellFormed(e: Engine) {
    forall r: Rule :: Name(r) in e.weights
  }

  /** The state `__init__` builds. */
  function Build(lists: ListFiles, prevTransactions: seq<PrevRow>, knownAddresses: set<string>,
                 weightsFile: WeightsFile, cfg: Config): Engine
  {
    Engine(ColumnSet(lists.blacklist, "address"), ColumnSet(lists.watchlist, "address"),
           ColumnSet(lists.sensitiveTokens, "token"), ColumnSet(lists.sensitiveMethods, "method"),
           WeightsFrom(weightsFile), prevTransactions, set a | a in knownAddresses :: Norm(a), cfg)
  }

  /** A constructed engine has a weight for every rule, whatever the override. */
  lemma BuildWellFormed(lists: ListFiles, prevTransactions: seq<PrevRow>, knownAddresses: set<string>,
                        weightsFile: WeightsFile, cfg: Config)
    ensures WellFormed(Build(lists, prevTransactions, knownAddresses, weightsFile, cfg))
  {
    WeightsHaveDefaultKeys(weightsFile);
    RulesHaveDefaults();
  }

  /** The transaction fields after `score_transaction` normalises them. */
  datatype Fields = Fields(fromAddr: string, toAddr: string, token: string, methodName: string,
                           amount: real, ts: int)

  /** Addresses, token and method go through `_lower`; an unparseable
      timestamp becomes the current time `now`. */
  function Normalize(tx: Tx, now: int): Fields {
    Fields(Norm(tx.fromAddress), Norm(tx.toAddress), Norm(tx.token), Norm(tx.methodName),
           tx.amount, tx.timestamp.GetOr(now))
  }

  /** The UTC hour of a time in seconds. */
  function Hour(ts: int): (h: int)
    ensures 0 <= h < 24
  {
    (ts % 86400) / 3600
  }

  /** A prior row the velocity rule counts: same normalised sender, and a
      timestamp (the current time when unparseable) in the closed window
      from `windowMin` minutes before ts up to ts. */
  predicate InWindow(row: PrevRow, fromAddr: string, ts: int, windowMin: int, now: int) {
    Norm(row.fromAddress) == fromAddr && ts - 60 * windowMin <= row.timestamp.GetOr(now) <= ts
  }

  /** Which rows are in the window. */
  function WindowFlags(rows: seq<PrevRow>, fromAddr: string, ts: int, windowMin: int, now: int): (b: seq<bool>)
    ensures |b| == |rows|
    ensures forall i :: 0 <= i < |rows| ==> b[i] == InWindow(rows[i], fromAddr, ts, windowMin, now)
  {
    seq(|rows|, i requires 0 <= i < |rows| => InWindow(rows[i], fromAddr, ts, windowMin, now))
  }

  /** The number of set flags, counted front to back. */
  function CountTrue(b: seq<bool>): nat {
    if b == [] then 0 else CountTrue(b[..|b| - 1]) + (if b[|b| - 1] then 1 else 0)
  }

  /** The positions of the set flags. */
  function TruePositions(b: seq<bool>): set<int> {
    set i | 0 <= i < |b| && b[i]
  }

  /** The number of rows in the window. */
  function WindowCount(rows: seq<PrevRow>, fromAddr: string, ts: int, windowMin: int, now: int): nat {
    CountTrue(WindowFlags(rows, fromAddr, ts, windowMin, now))
  }

  /** The velocity count of `_rule_velocity`: 0 for an empty sender or no
      prior rows, otherwise the rows in the window. */
  function VelocityCount(e: Engine, f: Fields, now: int): nat {
    if f.fromAddr == "" || e.prev == [] then 0
    else WindowCount(e.prev, f.fromAddr, f.ts, e.cfg.velocityWindowMin, now)
  }

  /** When each rule fires, given the normalised fields and the velocity count. */
  predicate Fires(e: Engine, f: Fields, cnt: int, r: Rule) {
    match r
    case Blacklist => f.fromAddr in e.blacklist || f.toAddr in e.blacklist
    case Watchlist => f.fromAddr in e.watchlist || f.toAddr in e.watchlist
    case HighAmount => f.amount >= e.cfg.amountThreshold
    case UnusualHour => 0 <= Hour(f.ts) <= 5
    case NewAddress => f.fromAddr != "" && f.fromAddr !in e.known
    case Velocity => f.fromAddr != "" && e.prev != [] && cnt > e.cfg.velocityMaxTx
    case SensitiveToken => f.token in e.sensitiveTokens
    case SensitiveMethod => f.methodName in e.sensitiveMethods
  }

  /** Python's `{x:g}` for the threshold; exact for whole numbers below 10^6. */
  function FormatG(x: real): string {
    IntToString(x.Floor)
  }

  /** The reason a firing rule appends. */
  function Reason(e: Engine, f: Fields, cnt: int, r: Rule): string {
    match r
    case Blacklist => "Endereço em blacklist"
    case Watchlist => "Endereço em watchlist"
    case HighAmount => "Valor alto (>= " + FormatG(e.cfg.amountThreshold) + ")"
    case UnusualHour => "Horário incomum (madrugada)"
    case NewAddress => "Endereço remetente não conhecido"
    case Velocity =>
      "Velocidade alta (" + IntToString(cnt) + " txs em " + IntToString(e.cfg.velocityWindowMin) + "min)"
    case SensitiveToken => "Token sensível (" + f.token + ")"
    case SensitiveMethod => "Método sensível (" + f.methodName + ")"
  }

  /** The hit a rule records under its key. */
  function Hit(e: Engine, r: Rule): (string, int)
    requires WellFormed(e)
  {
    (Name(r), e.weights[Name(r)])
  }

  /** The hits of the firing rules among `rules`, in that order. */
  function HitsOver(e: Engine, f: Fields, cnt: int, rules: seq<Rule>): seq<(string, int)>
    requires WellFormed(e)
  {
    if rules == [] then []
    else (if Fires(e, f, cnt, rules[0]) then [Hit(e, rules[0])] else []) + HitsOver(e, f, cnt, rules[1..])
  }

  /** The reasons of the firing rules among `rules`, in that order. */
  function ReasonsOver(e: Engine, f: Fields, cnt: int, rules: seq<Rule>): seq<string> {
    if rules == [] then []
    else (if Fires(e, f, cnt, rules[0]) then [Reason(e, f, cnt, rules[0])] else [])
         + ReasonsOver(e, f, cnt, rules[1..])
  }

  /** The firing rules among `rules`, in that order. */
  function Fired(e: Engine, f: Fields, cnt: int, rules: seq<Rule>): seq<Rule> {
    if rules == [] then []
    else (if Fires(e, f, cnt, rules[0]) then [rules[0]] else []) + Fired(e, f, cnt, rules[1..])
  }

  /** `sum(hits.values())`. */
  function Penalty(hits: seq<(string, int)>): int {
    if hits == [] then 0 else hits[0].1 + Penalty(hits[1..])
  }

  /** What `score_transaction` returns. */
  datatype ScoreResult = ScoreResult(
    score: int,
    hits: seq<(string, int)>,
    reasons: seq<string>,
    velocityLastWindow: int)

  /** `score_transaction(tx)` at current time `now`. */
  function Evaluate(e: Engine, tx: Tx, now: int): ScoreResult
    requires WellFormed(e)
  {
    EvaluateFields(e, Normalize(tx, now), now)
  }

  /** The rules applied to the normalised fields. */
  function EvaluateFields(e: Engine, f: Fields, now: int): ScoreResult
    requires WellFormed(e)
  {
    var cnt := VelocityCount(e, f, now);
    Finish(HitsOver(e, f, cnt, RuleOrder), ReasonsOver(e, f, cnt, RuleOrder), cnt)
  }

  /** The result for the collected hits and reasons: the score is 100 minus
      the sum of the hit weights, floored at 0. */
  function Finish(hits: seq<(string, int)>, reasons: seq<string>, cnt: int): (r: ScoreResult)
    ensures r.hits == hits && r.reasons == reasons && r.velocityLastWindow == cnt
    ensures r.score >= 0 && (Penalty(hits) <= 100 ==> r.score == 100 - Penalty(hits))
    ensures Penalty(hits) > 100 ==> r.score == 0
  {
    ScoreResult(Max(0, 100 - Penalty(hits)), hits, reasons, cnt)
  }

  /** Whether `hits` has an entry under key k. */
  predicate HasHit(hits: seq<(string, int)>, k: string) {
    exists i :: 0 <= i < |hits| && hits[i].0 == k
  }

  /** The position of a rule in the evaluation order. */
  function Rank(r: Rule): (n: nat)
    ensures n < |RuleOrder| && RuleOrder[n] == r
  {
    match r
    case Blacklist => 0
    case Watchlist => 1
    case HighAmount => 2
    case UnusualHour => 3
    case NewAddress => 4
    case Velocity => 5
    case SensitiveToken => 6
    case SensitiveMethod => 7
  }

  /** The hits and reasons over a rule list are the hit and the reason of
      each firing rule, pairwise, in the list's order. */
  lemma {:induction false} HitsMatchFired(e: Engine, f: Fields, cnt: int, rules: seq<Rule>)
    requires WellFormed(e)
    ensures |HitsOver(e, f, cnt, rules)| == |Fired(e, f, cnt, rules)|
    ensures |ReasonsOver(e, f, cnt, rules)| == |Fired(e, f, cnt, rules)|
    ensures forall i :: 0 <= i < |Fired(e, f, cnt, rules)| ==>
      HitsOver(e, f, cnt, rules)[i] == Hit(e, Fired(e, f, cnt, rules)[i]) &&
      ReasonsOver(e, f, cnt, rules)[i] == Reason(e, f, cnt, Fired(e, f, cnt, rules)[i])
  {
    if rules != [] {
      var rest := rules[1..];
      HitsMatchFired(e, f, cnt, rest);
      var fired, hits, reasons := Fired(e, f, cnt, rules), HitsOver(e, f, cnt, rules), ReasonsOver(e, f, cnt, rules);
      if Fires(e, f, cnt, rules[0]) {
        assert fired == [rules[0]] + Fired(e, f, cnt, rest);
        assert hits == [Hit(e, rules[0])] + HitsOver(e, f, cnt, rest);
        assert reasons == [Reason(e, f, cnt, rules[0])] + ReasonsOver(e, f, cnt, rest);
        forall i | 1 <= i < |fired|
          ensures hits[i] == Hit(e, fired[i]) && reasons[i] == Reason(e, f, cnt, fired[i])
        {
          assert fired[i] == Fired(e, f, cnt, rest)[i - 1];
        }
      } else {
        assert fired == Fired(e, f, cnt, rest);
        assert hits == HitsOver(e, f, cnt, rest);
        assert reasons == ReasonsOver(e, f, cnt, rest);
      }
    }
  }

  /** A rule is among the fired ones exactly when it is listed and fires. */
  lemma {:induction false} FiredMembers(e: Engine, f: Fields, cnt: int, rules: seq<Rule>)
    ensures forall r :: r in Fired(e, f, cnt, rules) <==> r in rules && Fires(e, f, cnt, r)
  {
    if rules != [] {
      FiredMembers(e, f, cnt, rules[1..]);
      assert rules == [rules[0]] + rules[1..];
    }
  }

  /** Firing rules keep the relative order of a rank-ordered rule list. */
  lemma {:induction false} FiredOrdered(e: Engine, f: Fields, cnt: int, rules: seq<Rule>)
    requires forall i, j :: 0 <= i < j < |rules| ==> Rank(rules[i]) < Rank(rules[j])
    ensures forall i, j :: 0 <= i < j < |Fired(e, f, cnt, rules)| ==>
      Rank(Fired(e, f, cnt, rules)[i]) < Rank(Fired(e, f, cnt, rules)[j])
  {
    if rules != [] {
      var rest := rules[1..];
      FiredOrdered(e, f, cnt, rest);
      FiredMembers(e, f, cnt, rest);
      var tail := Fired(e, f, cnt, rest);
      forall j | 0 <= j < |tail| ensures Rank(rules[0]) < Rank(tail[j]) {
        assert tail[j] in rest;
        var k :| 0 <= k < |rest| && rest[k] == tail[j];
        assert rules[k + 1] == rest[k];
      }
    }
  }

  lemma RuleOrderRanked()
    ensures forall i, j :: 0 <= i < j < |RuleOrder| ==> Rank(RuleOrder[i]) < Rank(RuleOrder[j])
  {
    forall i | 0 <= i < |RuleOrder| ensures Rank(RuleOrder[i]) == i {
      assert RuleOrder[Rank(RuleOrder[i])] == RuleOrder[i];
    }
  }

  /** The shape of every result: one hit and one reason per firing rule,
      pairwise; each hit is the rule's key with the engine's weight for it;
      the firing rules appear in the fixed evaluation order, each at most
      once; and a rule is there exactly when it fires. */
  lemma ResultShape(e: Engine, tx: Tx, now: int) returns (fired: seq<Rule>)
    requires WellFormed(e)
    ensures var r := Evaluate(e, tx, now);
      |r.hits| == |fired| && |r.reasons| == |fired| &&
      (forall i :: 0 <= i < |fired| ==>
         r.hits[i] == (Name(fired[i]), e.weights[Name(fired[i])]) &&
         r.reasons[i] == Reason(e, Normalize(tx, now), r.velocityLastWindow, fired[i])) &&
      (forall i, j :: 0 <= i < j < |fired| ==> Rank(fired[i]) < Rank(fired[j])) &&
      (forall rule :: rule in fired <==> Fires(e, Normalize(tx, now), r.velocityLastWindow, rule))
  {
    var f := Normalize(tx, now);
    var cnt := VelocityCount(e, f, now);
    fired := Fired(e, f, cnt, RuleOrder);
    HitsMatchFired(e, f, cnt, RuleOrder);
    FiredMembers(e, f, cnt, RuleOrder);
    RuleOrderRanked();
    FiredOrdered(e, f, cnt, RuleOrder);
    forall rule ensures rule in RuleOrder {
      assert RuleOrder[Rank(rule)] == rule;
    }
  }

  /** `hits` keys are rule names, each with its configured weight, no key
      twice, in evaluation order; there are as many reasons as hits. */
  lemma HitsAreRuleWeights(e: Engine, tx: Tx, now: int)
    requires WellFormed(e)
    ensures var r := Evaluate(e, tx, now);
      |r.reasons| == |r.hits| &&
      (forall i :: 0 <= i < |r.hits| ==>
         r.hits[i].0 in DefaultWeights && r.hits[i].0 in e.weights && r.hits[i].1 == e.weights[r.hits[i].0]) &&
      (forall i, j :: 0 <= i < j < |r.hits| ==> r.hits[i].0 != r.hits[j].0)
  {
    var fired := ResultShape(e, tx, now);
    RulesHaveDefaults();
    var r := Evaluate(e, tx, now);
    forall i, j | 0 <= i < j < |r.hits| ensures r.hits[i].0 != r.hits[j].0 {
      if r.hits[i].0 == r.hits[j].0 {
        NamesDistinct(fired[i], fired[j]);
      }
    }
  }

  /** A rule's key is among the hits exactly when the rule fires. */
  lemma HasHitIff(e: Engine, tx: Tx, now: int, rule: Rule)
    requires WellFormed(e)
    ensures var r := Evaluate(e, tx, now);
      HasHit(r.hits, Name(rule)) <==> Fires(e, Normalize(tx, now), r.velocityLastWindow, rule)
  {
    var fired := ResultShape(e, tx, now);
    var r := Evaluate(e, tx, now);
    if HasHit(r.hits, Name(rule)) {
      var i :| 0 <= i < |r.hits| && r.hits[i].0 == Name(rule);
      NamesDistinct(fired[i], rule);
    }
    if Fires(e, Normalize(tx, now), r.velocityLastWindow, rule) {
      var i :| 0 <= i < |fired| && fired[i] == rule;
      assert r.hits[i].0 == Name(rule);
    }
  }

  /** When the list rules put their key in `hits`, stated on the
      transaction as given: a normalised address, token or method found in
      the matching list. */
  lemma ListRuleConditions(e: Engine, tx: Tx, now: int)
    requires WellFormed(e)
    ensures var r := Evaluate(e, tx, now);
      var from := Norm(tx.fromAddress);
      var to := Norm(tx.toAddress);
      (HasHit(r.hits, "blacklist") <==> from in e.blacklist || to in e.blacklist) &&
      (HasHit(r.hits, "watchlist") <==> from in e.watchlist || to in e.watchlist) &&
      (HasHit(r.hits, "sensitive_token") <==> Norm(tx.token) in e.sensitiveTokens) &&
      (HasHit(r.hits, "sensitive_method") <==> Norm(tx.methodName) in e.sensitiveMethods)
  {
    HasHitIff(e, tx, now, Blacklist);
    HasHitIff(e, tx, now, Watchlist);
    HasHitIff(e, tx, now, SensitiveToken);
    HasHitIff(e, tx, now, SensitiveMethod);
  }

  /** When the other rules put their key in `hits`: an amount at or above
      the threshold, an hour from 0 to 5 of the timestamp (the clock's when
      it does not parse), a non-empty sender not known, and a non-empty
      sender with prior rows whose window count exceeds the maximum. */
  lemma OtherRuleConditions(e: Engine, tx: Tx, now: int)
    requires WellFormed(e)
    ensures var r := Evaluate(e, tx, now);
      var from := Norm(tx.fromAddress);
      (HasHit(r.hits, "high_amount") <==> tx.amount >= e.cfg.amountThreshold) &&
      (HasHit(r.hits, "unusual_hour") <==> Hour(tx.timestamp.GetOr(now)) <= 5) &&
      (HasHit(r.hits, "new_address") <==> from != "" && from !in e.known) &&
      (HasHit(r.hits, "velocity") <==>
         from != "" && e.prev != [] && r.velocityLastWindow > e.cfg.velocityMaxTx)
  {
    HasHitIff(e, tx, now, HighAmount);
    HasHitIff(e, tx, now, UnusualHour);
    HasHitIff(e, tx, now, NewAddress);
    HasHitIff(e, tx, now, Velocity);
  }

  lemma {:induction false} PenaltyNonNegative(hits: seq<(string, int)>)
    requires forall i :: 0 <= i < |hits| ==> hits[i].1 >= 0
    ensures Penalty(hits) >= 0
  {
    if hits != [] {
      PenaltyNonNegative(hits[1..]);
    }
  }

  /** The score is never negative; it is 100 minus the penalty when the
      penalty is at most 100 and 0 otherwise; no hits score exactly 100; and
      with no negative weight the score is at most 100. */
  lemma ScoreBounds(e: Engine, tx: Tx, now: int)
    requires WellFormed(e)
    ensures var r := Evaluate(e, tx, now);
      r.score >= 0 &&
      (Penalty(r.hits) <= 100 ==> r.score == 100 - Penalty(r.hits)) &&
      (Penalty(r.hits) > 100 ==> r.score == 0) &&
      (r.hits == [] ==> r.score == 100) &&
      ((forall rule: Rule :: e.weights[Name(rule)] >= 0) ==> r.score <= 100)
  {
    var r := Evaluate(e, tx, now);
    if forall rule: Rule :: e.weights[Name(rule)] >= 0 {
      var fired := ResultShape(e, tx, now);
      assert forall i :: 0 <= i < |r.hits| ==> r.hits[i].1 == e.weights[Name(fired[i])];
      PenaltyNonNegative(r.hits);
    }
  }

  /** Hits and reasons over two rule lists in a row. */
  lemma {:induction false} OverAppend(e: Engine, f: Fields, cnt: int, a: seq<Rule>, b: seq<Rule>)
    requires WellFormed(e)
    ensures HitsOver(e, f, cnt, a + b) == HitsOver(e, f, cnt, a) + HitsOver(e, f, cnt, b)
    ensures ReasonsOver(e, f, cnt, a + b) == ReasonsOver(e, f, cnt, a) + ReasonsOver(e, f, cnt, b)
  {
    if a != [] {
      assert (a + b)[1..] == a[1..] + b;
      OverAppend(e, f, cnt, a[1..], b);
    } else {
      assert a + b == b;
    }
  }

  /** The hits over the evaluation order, one rule at a time. */
  lemma HitsOverRuleOrder(e: Engine, f: Fields, cnt: int)
    requires WellFormed(e)
    ensures HitsOver(e, f, cnt, RuleOrder) ==
      HitsOver(e, f, cnt, [Blacklist]) + HitsOver(e, f, cnt, [Watchlist]) +
      HitsOver(e, f, cnt, [HighAmount]) + HitsOver(e, f, cnt, [UnusualHour]) +
      HitsOver(e, f, cnt, [NewAddress]) + HitsOver(e, f, cnt, [Velocity]) +
      HitsOver(e, f, cnt, [SensitiveToken]) + HitsOver(e, f, cnt, [SensitiveMethod])
    ensures ReasonsOver(e, f, cnt, RuleOrder) ==
      ReasonsOver(e, f, cnt, [Blacklist]) + ReasonsOver(e, f, cnt, [Watchlist]) +
      ReasonsOver(e, f, cnt, [HighAmount]) + ReasonsOver(e, f, cnt, [UnusualHour]) +
      ReasonsOver(e, f, cnt, [NewAddress]) + ReasonsOver(e, f, cnt, [Velocity]) +
      ReasonsOver(e, f, cnt, [SensitiveToken]) + ReasonsOver(e, f, cnt, [SensitiveMethod])
  {
    var p1 := [Blacklist];
    var p2 := p1 + [Watchlist];
    var p3 := p2 + [HighAmount];
    var p4 := p3 + [UnusualHour];
    var p5 := p4 + [NewAddress];
    var p6 := p5 + [Velocity];
    var p7 := p6 + [SensitiveToken];
    assert RuleOrder == p7 + [SensitiveMethod];
    OverAppend(e, f, cnt, p1, [Watchlist]);
    OverAppend(e, f, cnt, p2, [HighAmount]);
    OverAppend(e, f, cnt, p3, [UnusualHour]);
    OverAppend(e, f, cnt, p4, [NewAddress]);
    OverAppend(e, f, cnt, p5, [Velocity]);
    OverAppend(e, f, cnt, p6, [SensitiveToken]);
    OverAppend(e, f, cnt, p7, [SensitiveMethod]);
  }

  /** The hit and reason of one rule: present exactly when it fires. */
  lemma Single(e: Engine, f: Fields, cnt: int, r: Rule)
    requires WellFormed(e)
    ensures HitsOver(e, f, cnt, [r]) == if Fires(e, f, cnt, r) then [Hit(e, r)] else []
    ensures ReasonsOver(e, f, cnt, [r]) == if Fires(e, f, cnt, r) then [Reason(e, f, cnt, r)] else []
  {
    assert [r][1..] == [];
  }

  /** The hits and reasons over the evaluation order as `score_transaction`
      accumulates them: one rule after the other, starting empty, with only
      the velocity rule given the count. */
  lemma Accumulated(e: Engine, f: Fields, cnt: int)
    requires WellFormed(e)
    ensures HitsOver(e, f, cnt, RuleOrder) ==
      [] + HitsOver(e, f, 0, [Blacklist]) + HitsOver(e, f, 0, [Watchlist]) +
      HitsOver(e, f, 0, [HighAmount]) + HitsOver(e, f, 0, [UnusualHour]) +
      HitsOver(e, f, 0, [NewAddress]) + HitsOver(e, f, cnt, [Velocity]) +
      HitsOver(e, f, 0, [SensitiveToken]) + HitsOver(e, f, 0, [SensitiveMethod])
    ensures ReasonsOver(e, f, cnt, RuleOrder) ==
      [] + ReasonsOver(e, f, 0, [Blacklist]) + ReasonsOver(e, f, 0, [Watchlist]) +
      ReasonsOver(e, f, 0, [HighAmount]) + ReasonsOver(e, f, 0, [UnusualHour]) +
      ReasonsOver(e, f, 0, [NewAddress]) + ReasonsOver(e, f, cnt, [Velocity]) +
      ReasonsOver(e, f, 0, [SensitiveToken]) + ReasonsOver(e, f, 0, [SensitiveMethod])
  {
    HitsOverRuleOrder(e, f, cnt);
    CountOnlyForVelocity(e, f, 0, cnt, Blacklist);
    CountOnlyForVelocity(e, f, 0, cnt, Watchlist);
    CountOnlyForVelocity(e, f, 0, cnt, HighAmount);
    CountOnlyForVelocity(e, f, 0, cnt, UnusualHour);
    CountOnlyForVelocity(e, f, 0, cnt, NewAddress);
    CountOnlyForVelocity(e, f, 0, cnt, SensitiveToken);
    CountOnlyForVelocity(e, f, 0, cnt, SensitiveMethod);
    assert [] + HitsOver(e, f, 0, [Blacklist]) == HitsOver(e, f, 0, [Blacklist]);
    assert [] + ReasonsOver(e, f, 0, [Blacklist]) == ReasonsOver(e, f, 0, [Blacklist]);
  }

  /** Only the velocity rule reads the count. */
  lemma CountOnlyForVelocity(e: Engine, f: Fields, c1: int, c2: int, r: Rule)
    requires WellFormed(e) && r != Velocity
    ensures HitsOver(e, f, c1, [r]) == HitsOver(e, f, c2, [r])
    ensures ReasonsOver(e, f, c1, [r]) == ReasonsOver(e, f, c2, [r])
  {
    assert [r][1..] == [];
  }

  /** Counting the flags front to back gives the number of positions set. */
  lemma {:induction false} CountTrueIsSize(b: seq<bool>)
    ensures CountTrue(b) == |TruePositions(b)|
  {
    if b != [] {
      var n := |b| - 1;
      var init := b[..n];
      CountTrueIsSize(init);
      var last: set<int> := if b[n] then {n} else {};
      assert TruePositions(b) == TruePositions(init) + last;
      assert TruePositions(init) !! last;
    }
  }

  /** One more flag counted. */
  lemma CountTrueSnoc(b: seq<bool>, i: int)
    requires 0 <= i < |b|
    ensures CountTrue(b[..i + 1]) == CountTrue(b[..i]) + if b[i] then 1 else 0
  {
    assert b[..i + 1][..i] == b[..i];
  }

  /** No more flags are set than there are. */
  lemma {:induction false} CountTrueBound(b: seq<bool>)
    ensures CountTrue(b) <= |b|
  {
    if b != [] {
      CountTrueBound(b[..|b| - 1]);
    }
  }

  /** When every flag is set, all of them count. */
  lemma {:induction false} CountTrueAll(b: seq<bool>)
    requires forall i :: 0 <= i < |b| ==> b[i]
    ensures CountTrue(b) == |b|
  {
    if b != [] {
      CountTrueAll(b[..|b| - 1]);
    }
  }

  /** With every prior timestamp parseable, the window ignores the clock. */
  lemma WindowClockFree(rows: seq<PrevRow>, fromAddr: string, ts: int, windowMin: int, now1: int, now2: int)
    requires forall i :: 0 <= i < |rows| ==> rows[i].timestamp.Some?
    ensures WindowFlags(rows, fromAddr, ts, windowMin, now1) == WindowFlags(rows, fromAddr, ts, windowMin, now2)
  {
  }

  /** `velocity_last_window` is 0 for an empty sender or no prior rows, and
      otherwise the number of prior rows from the same normalised sender
      whose timestamp lies in the closed window; the rule fires exactly when
      it exceeds the maximum, and the count is reported either way. */
  lemma VelocityCountMeaning(e: Engine, tx: Tx, now: int)
    requires WellFormed(e)
    ensures var r := Evaluate(e, tx, now);
      var f := Normalize(tx, now);
      r.velocityLastWindow ==
        (if f.fromAddr == "" || e.prev == [] then 0
         else |set i | 0 <= i < |e.prev| && InWindow(e.prev[i], f.fromAddr, f.ts, e.cfg.velocityWindowMin, now)|) &&
      r.velocityLastWindow <= |e.prev| &&
      (HasHit(r.hits, "velocity") <==>
         f.fromAddr != "" && e.prev != [] && r.velocityLastWindow > e.cfg.velocityMaxTx)
  {
    var f := Normalize(tx, now);
    WindowCountMeaning(e.prev, f.fromAddr, f.ts, e.cfg.velocityWindowMin, now);
    HasHitIff(e, tx, now, Velocity);
  }

  /** The rows counted are the rows in the window, and no more than all. */
  lemma WindowCountMeaning(rows: seq<PrevRow>, fromAddr: string, ts: int, windowMin: int, now: int)
    ensures WindowCount(rows, fromAddr, ts, windowMin, now) ==
      |set i | 0 <= i < |rows| && InWindow(rows[i], fromAddr, ts, windowMin, now)|
    ensures WindowCount(rows, fromAddr, ts, windowMin, now) <= |rows|
  {
    var b := WindowFlags(rows, fromAddr, ts, windowMin, now);
    CountTrueIsSize(b);
    CountTrueBound(b);
    assert TruePositions(b) == set i | 0 <= i < |rows| && InWindow(rows[i], fromAddr, ts, windowMin, now);
  }

  /** Every row in the window: all of them count. */
  lemma WindowCountAll(rows: seq<PrevRow>, fromAddr: string, ts: int, windowMin: int, now: int)
    requires forall i :: 0 <= i < |rows| ==> InWindow(rows[i], fromAddr, ts, windowMin, now)
    ensures WindowCount(rows, fromAddr, ts, windowMin, now) == |rows|
  {
    CountTrueAll(WindowFlags(rows, fromAddr, ts, windowMin, now));
  }

  /** Six prior transactions from the sender, all inside a 10-minute window,
      against a maximum of 5: the velocity rule fires with a count of 6. */
  lemma VelocityScenario(e: Engine, tx: Tx, now: int)
    requires WellFormed(e) && e.cfg.velocityWindowMin == 10 && e.cfg.velocityMaxTx == 5
    requires tx.timestamp.Some? && Norm(tx.fromAddress) != ""
    requires |e.prev| == 6
    requires forall i :: 0 <= i < |e.prev| ==>
      Norm(e.prev[i].fromAddress) == Norm(tx.fromAddress) && e.prev[i].timestamp.Some? &&
      tx.timestamp.value - 600 <= e.prev[i].timestamp.value <= tx.timestamp.value
    ensures Evaluate(e, tx, now).velocityLastWindow == 6
    ensures HasHit(Evaluate(e, tx, now).hits, "velocity")
  {
    var f := Normalize(tx, now);
    assert forall i :: 0 <= i < |e.prev| ==> InWindow(e.prev[i], f.fromAddr, f.ts, 10, now);
    WindowCountAll(e.prev, f.fromAddr, f.ts, 10, now);
    assert VelocityCount(e, f, now) == 6;
    HasHitIff(e, tx, now, Velocity);
  }

  /** Scoring does not depend on the clock when the transaction's and every
      prior row's timestamps parse: two calls give the same result. */
  lemma ClockFreeWhenTimestampsParse(e: Engine, tx: Tx, now1: int, now2: int)
    requires WellFormed(e) && tx.timestamp.Some?
    requires forall i :: 0 <= i < |e.prev| ==> e.prev[i].timestamp.Some?
    ensures Evaluate(e, tx, now1) == Evaluate(e, tx, now2)
  {
    var f := Normalize(tx, now1);
    assert f == Normalize(tx, now2);
    WindowClockFree(e.prev, f.fromAddr, f.ts, e.cfg.velocityWindowMin, now1, now2);
  }

  /** An unparseable timestamp takes the clock's hour: the same transaction
      is flagged at midnight and not at noon. */
  lemma ClockDecidesUnparsedHour(e: Engine, tx: Tx)
    requires WellFormed(e) && tx.timestamp.None?
    ensures HasHit(Evaluate(e, tx, 0).hits, "unusual_hour")
    ensures !HasHit(Evaluate(e, tx, 43200).hits, "unusual_hour")
  {
    OtherRuleConditions(e, tx, 0);
    OtherRuleConditions(e, tx, 43200);
  }

  /** Matching ignores the case of addresses, token and method. */
  lemma CaseInsensitive(e: Engine, tx1: Tx, tx2: Tx, now: int)
    requires WellFormed(e)
    requires Lower(tx1.fromAddress) == Lower(tx2.fromAddress) && Lower(tx1.toAddress) == Lower(tx2.toAddress)
    requires Lower(tx1.token) == Lower(tx2.token) && Lower(tx1.methodName) == Lower(tx2.methodName)
    requires tx1.amount == tx2.amount && tx1.timestamp == tx2.timestamp
    ensures Evaluate(e, tx1, now) == Evaluate(e, tx2, now)
  {
    NormIgnoresCase(tx1.fromAddress, tx2.fromAddress);
    NormIgnoresCase(tx1.toAddress, tx2.toAddress);
    NormIgnoresCase(tx1.token, tx2.token);
    NormIgnoresCase(tx1.methodName, tx2.methodName);
    assert Normalize(tx1, now) == Normalize(tx2, now);
  }

  /** When only the blacklist and amount rules can fire: the hits are
      theirs, in that order, as far as they fire. */
  lemma OnlyBlacklistAndAmount(e: Engine, tx: Tx, now: int)
    requires WellFormed(e) && e.prev == [] && tx.timestamp.Some? && Hour(tx.timestamp.value) > 5
    requires Norm(tx.fromAddress) in e.known
    requires Norm(tx.fromAddress) !in e.watchlist && Norm(tx.toAddress) !in e.watchlist
    requires Norm(tx.token) !in e.sensitiveTokens && Norm(tx.methodName) !in e.sensitiveMethods
    ensures var f := Normalize(tx, now);
      Evaluate(e, tx, now).hits == HitsOver(e, f, 0, [Blacklist]) + HitsOver(e, f, 0, [HighAmount]) &&
      Evaluate(e, tx, now).reasons == ReasonsOver(e, f, 0, [Blacklist]) + ReasonsOver(e, f, 0, [HighAmount])
  {
    var f := Normalize(tx, now);
    assert VelocityCount(e, f, now) == 0;
    assert !Fires(e, f, 0, Watchlist) && !Fires(e, f, 0, UnusualHour) && !Fires(e, f, 0, NewAddress);
    assert !Fires(e, f, 0, Velocity) && !Fires(e, f, 0, SensitiveToken) && !Fires(e, f, 0, SensitiveMethod);
    OnlyTwoFire(e, f, 0);
  }

  /** The sum over the evaluation order when all but the blacklist and
      amount rules stay silent. */
  lemma OnlyTwoFire(e: Engine, f: Fields, cnt: int)
    requires WellFormed(e)
    requires !Fires(e, f, cnt, Watchlist) && !Fires(e, f, cnt, UnusualHour) && !Fires(e, f, cnt, NewAddress)
    requires !Fires(e, f, cnt, Velocity) && !Fires(e, f, cnt, SensitiveToken) && !Fires(e, f, cnt, SensitiveMethod)
    ensures HitsOver(e, f, cnt, RuleOrder) == HitsOver(e, f, cnt, [Blacklist]) + HitsOver(e, f, cnt, [HighAmount])
    ensures ReasonsOver(e, f, cnt, RuleOrder) == ReasonsOver(e, f, cnt, [Blacklist]) + ReasonsOver(e, f, cnt, [HighAmount])
  {
    HitsOverRuleOrder(e, f, cnt);
    assert HitsOver(e, f, cnt, [Watchlist]) == [] && ReasonsOver(e, f, cnt, [Watchlist]) == [] by {
      Single(e, f, cnt, Watchlist);
    }
    assert HitsOver(e, f, cnt, [UnusualHour]) == [] && ReasonsOver(e, f, cnt, [UnusualHour]) == [] by {
      Single(e, f, cnt, UnusualHour);
    }
    assert HitsOver(e, f, cnt, [NewAddress]) == [] && ReasonsOver(e, f, cnt, [NewAddress]) == [] by {
      Single(e, f, cnt, NewAddress);
    }
    assert HitsOver(e, f, cnt, [Velocity]) == [] && ReasonsOver(e, f, cnt, [Velocity]) == [] by {
      Single(e, f, cnt, Velocity);
    }
    assert HitsOver(e, f, cnt, [SensitiveToken]) == [] && ReasonsOver(e, f, cnt, [SensitiveToken]) == [] by {
      Single(e, f, cnt, SensitiveToken);
    }
    assert HitsOver(e, f, cnt, [SensitiveMethod]) == [] && ReasonsOver(e, f, cnt, [SensitiveMethod]) == [] by {
      Single(e, f, cnt, SensitiveMethod);
    }
  }

  /** A blacklisted sender moving 50000 against the default threshold and
      weights, with no other rule firing: penalty 85, score 15, the two
      reasons in rule order. */
  lemma BlacklistHighAmountScenario(e: Engine, tx: Tx, now: int)
    requires WellFormed(e) && e.weights == DefaultWeights && e.cfg.amountThreshold == 10000.0
    requires e.prev == [] && tx.timestamp.Some? && Hour(tx.timestamp.value) > 5
    requires tx.amount == 50000.0 && Norm(tx.fromAddress) in e.blacklist && Norm(tx.fromAddress) in e.known
    requires Norm(tx.fromAddress) !in e.watchlist && Norm(tx.toAddress) !in e.watchlist
    requires Norm(tx.token) !in e.sensitiveTokens && Norm(tx.methodName) !in e.sensitiveMethods
    ensures Evaluate(e, tx, now).hits == [("blacklist", 60), ("high_amount", 25)]
    ensures Penalty(Evaluate(e, tx, now).hits) == 85
    ensures Evaluate(e, tx, now).score == 15
    ensures Evaluate(e, tx, now).reasons == ["Endereço em blacklist", "Valor alto (>= 10000)"]
  {
    var f := Normalize(tx, now);
    OnlyBlacklistAndAmount(e, tx, now);
    assert Fires(e, f, 0, Blacklist);
    assert Fires(e, f, 0, HighAmount);
    Single(e, f, 0, Blacklist);
    Single(e, f, 0, HighAmount);
    DefaultTexts(e, f);
    var hits: seq<(string, int)> := [("blacklist", 60), ("high_amount", 25)];
    assert Penalty(hits) == 85 by {
      assert hits[1..][1..] == [];
    }
  }

  /** The blacklist and amount hits and reasons under the default weights
      and threshold. */
  lemma DefaultTexts(e: Engine, f: Fields)
    requires WellFormed(e) && e.weights == DefaultWeights && e.cfg.amountThreshold == 10000.0
    ensures Hit(e, Blacklist) == ("blacklist", 60) && Hit(e, HighAmount) == ("high_amount", 25)
    ensures Reason(e, f, 0, Blacklist) == "Endereço em blacklist"
    ensures Reason(e, f, 0, HighAmount) == "Valor alto (>= 10000)"
  {
    DecimalTexts();
    assert FormatG(10000.0) == "10000";
  }

  /** With a negative weight the score exceeds 100: the override merge
      accepts any int and the score is floored at 0 but not capped. */
  lemma NegativeWeightScoresAbove100(e: Engine, tx: Tx, now: int)
    requires WellFormed(e) && "blacklist" in e.weights && e.weights["blacklist"] < 0
    requires e.prev == [] && tx.timestamp.Some? && Hour(tx.timestamp.value) > 5
    requires tx.amount < e.cfg.amountThreshold && Norm(tx.fromAddress) in e.blacklist && Norm(tx.fromAddress) in e.known
    requires Norm(tx.fromAddress) !in e.watchlist && Norm(tx.toAddress) !in e.watchlist
    requires Norm(tx.token) !in e.sensitiveTokens && Norm(tx.methodName) !in e.sensitiveMethods
    ensures Evaluate(e, tx, now).score == 100 - e.weights["blacklist"] > 100
  {
    var f := Normalize(tx, now);
    OnlyBlacklistAndAmount(e, tx, now);
    Single(e, f, 0, Blacklist);
    Single(e, f, 0, HighAmount);
    var hits: seq<(string, int)> := [("blacklist", e.weights["blacklist"])];
    assert Penalty(hits) == e.weights["blacklist"] by {
      assert hits[1..] == [];
    }
  }

  /** The `hits` and `reasons` a call to `score_transaction` builds up. */
  class Breakdown {
    var hits: seq<(string, int)>
    var reasons: seq<string>

    constructor ()
      ensures hits == [] && reasons == []
    {
      hits := [];
      reasons := [];
    }
  }

  /** The engine: its state is fixed at construction. */
  class ScoreEngine {
    const blacklist: set<string>
    const watchlist: set<string>
    const sensitiveTokens: set<string>
    const sensitiveMethods: set<string>
    const weights: map<string, int>
    const prev: seq<PrevRow>
    const known: set<string>
    const cfg: Config

    function State(): Engine {
      Engine(blacklist, watchlist, sensitiveTokens, sensitiveMethods, weights, prev, known, cfg)
    }

    /** `ScoreEngine(data_dir, prev_transactions, known_addresses)`, with the
        environment already read into `config` (see `ReadConfig`). */
    constructor (lists: ListFiles, prevTransactions: seq<PrevRow>, knownAddresses: set<string>,
                 weightsFile: WeightsFile, config: Config)
      ensures State() == Build(lists, prevTransactions, knownAddresses, weightsFile, config)
      ensures WellFormed(State())
    {
      prev := prevTransactions;
      known := set a | a in knownAddresses :: Norm(a);
      var w := LoadWeights(weightsFile);
      weights := w;
      cfg := config;
      var b := LoadSingleColumn(lists.blacklist, "address");
      var wl := LoadSingleColumn(lists.watchlist, "address");
      var t := LoadSingleColumn(lists.sensitiveTokens, "token");
      var m := LoadSingleColumn(lists.sensitiveMethods, "method");
      blacklist, watchlist, sensitiveTokens, sensitiveMethods := b, wl, t, m;
      BuildWellFormed(lists, prevTransactions, knownAddresses, weightsFile, config);
    }

    method RuleBlacklist(f: Fields, acc: Breakdown)
      requires WellFormed(State())
      modifies acc
      ensures acc.hits == old(acc.hits) + HitsOver(State(), f, 0, [Blacklist])
      ensures acc.reasons == old(acc.reasons) + ReasonsOver(State(), f, 0, [Blacklist])
    {
      if f.fromAddr in blacklist || f.toAddr in blacklist {
        assert Name(Blacklist) == "blacklist";
        var w := weights["blacklist"];
        acc.hits := acc.hits + [("blacklist", w)];
        acc.reasons := acc.reasons + ["Endereço em blacklist"];
      }
    }

    method RuleWatchlist(f: Fields, acc: Breakdown)
      requires WellFormed(State())
      modifies acc
      ensures acc.hits == old(acc.hits) + HitsOver(State(), f, 0, [Watchlist])
      ensures acc.reasons == old(acc.reasons) + ReasonsOver(State(), f, 0, [Watchlist])
    {
      if f.fromAddr in watchlist || f.toAddr in watchlist {
        assert Name(Watchlist) == "watchlist";
        var w := weights["watchlist"];
        acc.hits := acc.hits + [("watchlist", w)];
        acc.reasons := acc.reasons + ["Endereço em watchlist"];
      }
    }

    method RuleHighAmount(f: Fields, acc: Breakdown)
      requires WellFormed(State())
      modifies acc
      ensures acc.hits == old(acc.hits) + HitsOver(State(), f, 0, [HighAmount])
      ensures acc.reasons == old(acc.reasons) + ReasonsOver(State(), f, 0, [HighAmount])
    {
      if f.amount >= cfg.amountThreshold {
        assert Name(HighAmount) == "high_amount";
        var w := weights["high_amount"];
        acc.hits := acc.hits + [("high_amount", w)];
        acc.reasons := acc.reasons + ["Valor alto (>= " + FormatG(cfg.amountThreshold) + ")"];
      }
    }

    method RuleUnusualHour(f: Fields, acc: Breakdown)
      requires WellFormed(State())
      modifies acc
      ensures acc.hits == old(acc.hits) + HitsOver(State(), f, 0, [UnusualHour])
      ensures acc.reasons == old(acc.reasons) + ReasonsOver(State(), f, 0, [UnusualHour])
    {
      var hour := (f.ts % 86400) / 3600;
      if 0 <= hour <= 5 {
        assert Name(UnusualHour) == "unusual_hour";
        var w := weights["unusual_hour"];
        acc.hits := acc.hits + [("unusual_hour", w)];
        acc.reasons := acc.reasons + ["Horário incomum (madrugada)"];
      }
    }

    method RuleNewAddress(f: Fields, acc: Breakdown)
      requires WellFormed(State())
      modifies acc
      ensures acc.hits == old(acc.hits) + HitsOver(State(), f, 0, [NewAddress])
      ensures acc.reasons == old(acc.reasons) + ReasonsOver(State(), f, 0, [NewAddress])
    {
      if f.fromAddr != "" && f.fromAddr !in known {
        assert Name(NewAddress) == "new_address";
        var w := weights["new_address"];
        acc.hits := acc.hits + [("new_address", w)];
        acc.reasons := acc.reasons + ["Endereço remetente não conhecido"];
      }
    }

    /** The loop of `_rule_velocity`: the prior rows whose normalised sender
        is `fromAddr` and whose timestamp (the clock's when unparseable) lies
        from `windowMin` minutes before ts up to ts. */
    method CountInWindow(fromAddr: string, ts: int, now: int) returns (cnt: nat)
      ensures cnt == WindowCount(prev, fromAddr, ts, cfg.velocityWindowMin, now)
    {
      var windowStart := ts - 60 * cfg.velocityWindowMin;
      ghost var flags := WindowFlags(prev, fromAddr, ts, cfg.velocityWindowMin, now);
      cnt := 0;
      var i := 0;
      while i < |prev|
        invariant 0 <= i <= |prev|
        invariant cnt == CountTrue(flags[..i])
      {
        assert CountTrue(flags[..i + 1]) ==
          cnt + if InWindow(prev[i], fromAddr, ts, cfg.velocityWindowMin, now) then 1 else 0 by {
          CountTrueSnoc(flags, i);
        }
        var faddr := Norm(prev[i].fromAddress);
        if faddr == fromAddr {
          var rts := prev[i].timestamp.GetOr(now);
          if windowStart <= rts <= ts {
            cnt := cnt + 1;
          }
        }
        i := i + 1;
      }
      assert flags[..|prev|] == flags;
    }

    /** `_rule_velocity`: counts the prior rows in the window and returns the
        count whether or not the rule fires. */
    method RuleVelocity(f: Fields, now: int, acc: Breakdown) returns (cnt: nat)
      requires WellFormed(State())
      modifies acc
      ensures cnt == VelocityCount(State(), f, now)
      ensures acc.hits == old(acc.hits) + HitsOver(State(), f, cnt, [Velocity])
      ensures acc.reasons == old(acc.reasons) + ReasonsOver(State(), f, cnt, [Velocity])
    {
      if f.fromAddr == "" || |prev| == 0 {
        assert HitsOver(State(), f, 0, [Velocity]) == [] && ReasonsOver(State(), f, 0, [Velocity]) == [] by {
          Single(State(), f, 0, Velocity);
        }
        return 0;
      }
      cnt := CountInWindow(f.fromAddr, f.ts, now);
      if cnt > cfg.velocityMaxTx {
        assert Name(Velocity) == "velocity";
        var w := weights["velocity"];
        var reason := "Velocidade alta (" + IntToString(cnt) + " txs em "
                      + IntToString(cfg.velocityWindowMin) + "min)";
        assert HitsOver(State(), f, cnt, [Velocity]) == [("velocity", w)] &&
               ReasonsOver(State(), f, cnt, [Velocity]) == [reason] by {
          Single(State(), f, cnt, Velocity);
        }
        acc.hits := acc.hits + [("velocity", w)];
        acc.reasons := acc.reasons + [reason];
      } else {
        assert HitsOver(State(), f, cnt, [Velocity]) == [] && ReasonsOver(State(), f, cnt, [Velocity]) == [] by {
          Single(State(), f, cnt, Velocity);
        }
      }
    }

    method RuleSensitiveToken(f: Fields, acc: Breakdown)
      requires WellFormed(State())
      modifies acc
      ensures acc.hits == old(acc.hits) + HitsOver(State(), f, 0, [SensitiveToken])
      ensures acc.reasons == old(acc.reasons) + ReasonsOver(State(), f, 0, [SensitiveToken])
    {
      if f.token in sensitiveTokens {
        assert Name(SensitiveToken) == "sensitive_token";
        var w := weights["sensitive_token"];
        acc.hits := acc.hits + [("sensitive_token", w)];
        acc.reasons := acc.reasons + ["Token sensível (" + f.token + ")"];
      }
    }

    method RuleSensitiveMethod(f: Fields, acc: Breakdown)
      requires WellFormed(State())
      modifies acc
      ensures acc.hits == old(acc.hits) + HitsOver(State(), f, 0, [SensitiveMethod])
      ensures acc.reasons == old(acc.reasons) + ReasonsOver(State(), f, 0, [SensitiveMethod])
    {
      if f.methodName in sensitiveMethods {
        assert Name(SensitiveMethod) == "sensitive_method";
        var w := weights["sensitive_method"];
        acc.hits := acc.hits + [("sensitive_method", w)];
        acc.reasons := acc.reasons + ["Método sensível (" + f.methodName + ")"];
      }
    }

    /** `score_transaction(tx)`, with `now` the current time it falls back
        to; the engine's state is not touched. */
    method ScoreTransaction(tx: Tx, now: int) returns (r: ScoreResult)
      requires WellFormed(State())
      ensures r == Evaluate(State(), tx, now)
    {
      ghost var e := State();
      var acc := new Breakdown();
      var f := Normalize(tx, now);
      RuleBlacklist(f, acc);
      RuleWatchlist(f, acc);
      RuleHighAmount(f, acc);
      RuleUnusualHour(f, acc);
      RuleNewAddress(f, acc);
      var velCnt := RuleVelocity(f, now, acc);
      RuleSensitiveToken(f, acc);
      RuleSensitiveMethod(f, acc);
      assert acc.hits == HitsOver(e, f, velCnt, RuleOrder) && acc.reasons == ReasonsOver(e, f, velCnt, RuleOrder) by {
        Accumulated(e, f, velCnt);
      }
      r := Finish(acc.hits, acc.reasons, velCnt);
    }
  }
}
