# SafeScore pipeline — a Dafny model

SafeScore is a transaction-risk pipeline. It has three stages:

- **Collect.** A batch of transactions comes from a mock source or from Ethereum. The Ethereum collector uses Etherscan when an API key is set. Otherwise, or when Etherscan gives nothing, it uses public JSON-RPC endpoints with URL failover, retries and backoff.
- **Score.** A rule-based engine scores every transaction. Eight independent rules each subtract a configured weight from 100, and the score is floored at 0.
- **Store and alert.** The scored rows are appended to a master CSV log and to a daily one. Senders flagged as new are remembered in a known-address file. Every row scoring below a threshold is queued for review, with one alert each.

The project models the three files that make up this core:

| source file | Dafny modules |
|---|---|
| `app/engine/scoring.py` | `Text` (`_lower`, `_to_float`, `int()`, `hex()`, `str()`), `Weights` (`DEFAULT_WEIGHTS`, `_load_weights`), `Scoring` (`ScoreEngine`) |
| `app/collectors/eth_collector.py` | `EthUtil` (filters, helpers), `Network` (the HTTP oracle), `EthRpc`, `EthEtherscan`, `EthLoad` |
| `main.py` | `MainUtil` (`safe_text`, `abbreviate`, `pick_collector`), `CsvStore` (the CSV files), `Pipeline` (`main`) |

`Common` holds `Option`, `Raising` (a call that returns or raises) and two generic sequence maps.

Each part of the source is modelled in the form it takes there:

- **Engine.** `ScoreEngine` is a class whose fields are fixed at construction. Each `_rule_*` is a method that appends to a `Breakdown` object, which plays the role of the `hits`/`reasons` accumulator. `score_transaction` is a method proved equal to the specification function `Evaluate`, and the lemmas about the engine are stated over `Evaluate`.
- **Weights and lists.** `_load_weights` and `_load_single_column_csv` are loops proved against `WeightsFrom` and `ColumnSet`.
- **Network.** The collector's network is a `Network` object. It answers each POST or GET from a script of replies, one per request, and a request made past the end of the script fails. It records every request and every sleep.
- **Collector loops.** `_rpc_any`, `_collect_via_rpc`, `_etherscan_txlist`, `_collect_via_etherscan` and `load_from_eth` are methods over that object. Each is proved equal to a recursive function of the script, and the lemmas about a collector are stated over its function.
- **CSV files.** Every CSV file is a `CsvFile` object holding whether the file exists and its lines: a header, then rows. Appends are methods.
- **`main`.** Its scoring loop is `ScoreAll`, proved against `Scores`, `RowsOf`, `Flagged`, `AlertsFor` and `KnownAfterAll`.

Behaviour of the code worth noting; the model follows the code throughout:

- **Negative weights.** The docstring of `score_transaction` (app/engine/scoring.py:194) gives the score as 100 minus the sum of the penalties, and the code floors it at 0. The override merge accepts any int, so a negative weight pushes the score above 100 (`NegativeWeightScoresAbove100`).
- **Etherscan exceptions.** The docstring of `load_from_eth` (app/collectors/eth_collector.py:322-326) says it falls back to RPC when Etherscan fails. An exception from `_normalize_etherscan_row`, such as a non-integer `timeStamp`, escapes `_collect_via_etherscan`, and `load_from_eth` returns `[]` without trying RPC (`LoadFromEth`).
- **Dead `except`.** The comment at main.py:159 promises mock data on any collector error. `load_from_eth` catches every exception itself, so the `except` around it never runs; an empty result still falls back to mock (`Collect`).
- **Chain label on mock fallback.** Rows carry `CHAIN_NAME` as their chain whenever the collector chosen is `eth`, even when it fell back to the mock batch (`ChainLabel`).
- **Sleeps in `_rpc_any`.** It sleeps only after an exception. An error member in a decoded reply moves on to the next attempt without sleeping.
- **Repeated keys in the weight override.** `json.loads` keeps a repeated key once, with its last value, so only that value is merged; an earlier value `int` would reject does not discard the override (`RepeatedKeyLastWins`).

## Model

| member | source | states |
|---|---|---|
| Weights.RulesHaveDefaults | app/engine/scoring.py:13-22 | every one of the eight rules has a default weight |
| Weights.DefaultsAreRules | app/engine/scoring.py:13-22 | the defaults name no key but the eight rules' |
| Weights.NamesDistinct | app/engine/scoring.py:123-189 | two different rules never report under the same key |
| Weights.IntCoerce | app/engine/scoring.py:35-36 | Python's `int(v)` on a JSON value: ints are kept, reals truncate toward zero, null, lists and objects raise |
| Weights.KeyOrderMeaning | app/engine/scoring.py:31 | the keys of a decoded object are listed once each, and they are exactly the keys its members name |
| Weights.ItemsMeaning | app/engine/scoring.py:31-34 | the items of the dict `json.loads` builds hold each key once, with the last value the object's members give it |
| Weights.ItemsRejected | app/engine/scoring.py:31-36 | an item with a known key whose value `int` rejects exists iff some known key's last value is rejected |
| Weights.LoadWeights | app/engine/scoring.py:27-41 | the merge loop over the decoded object's items returns exactly `WeightsFrom`: the defaults when the file is missing, unreadable or not an object, or when any known key's value is rejected |
| Weights.MergeKeepsKeys | app/engine/scoring.py:33-36 | a successful merge neither adds nor drops a key |
| Weights.MergeFailsIff | app/engine/scoring.py:34-38 | the merge of a list of items fails exactly when some item with a known key has a value `int` rejects; unknown keys never cause a failure |
| Weights.MergeLastWins | app/engine/scoring.py:34-36 | after a successful merge of a list of items each key holds the int of its last item, or its old value when no item names it |
| Weights.WeightsHaveDefaultKeys | app/engine/scoring.py:27-41 | `_load_weights` always returns exactly the default key set |
| Weights.OverrideApplied | app/engine/scoring.py:31-37 | when the last value of every known key is accepted, each weight is the int of its key's last value in the object, or its default when no member names it; unknown keys and earlier values of a repeated key are ignored |
| Weights.OverrideDiscarded | app/engine/scoring.py:31-40 | a known key whose last value `int` rejects discards the whole override, including keys merged before it |
| Weights.NegativeWeightAccepted | app/engine/scoring.py:35-36 | the override accepts a negative weight |
| Weights.RepeatedKeyLastWins | app/engine/scoring.py:31-36 | an override naming "velocity" twice, first with null and then with n, sets velocity to n instead of being discarded |
| Text.StripTrimmed | app/engine/scoring.py:66-67 | `strip()` leaves no white space at either end |
| Text.StripIdempotent | app/engine/scoring.py:66-67 | stripping twice is stripping once |
| Text.Lower | app/engine/scoring.py:66-67 | `lower()` keeps the length and maps each character on its own |
| Text.NormIdempotent | app/engine/scoring.py:66-67 | `_lower` of a `_lower` result is that result, so the normalised list and known sets compare like with like |
| Text.NormIgnoresCase | app/engine/scoring.py:66-67 | two texts equal up to letter case have the same `_lower` |
| Text.DigitsRoundTrip | app/collectors/eth_collector.py:64 | reading the digits of n back in base 10 or 16 gives n |
| Text.ParseIntRoundTrip | app/engine/scoring.py:96-97 | `int(str(n)) == n` for every int n, negative ones included |
| Text.ToFloatOfInt | app/engine/scoring.py:47-51 | `_to_float(str(n))` is exactly n |
| Text.ParseFloatOfInt | app/collectors/eth_collector.py:75 | `float(str(n))` is exactly n |
| Text.HexToIntInvertsHex | app/collectors/eth_collector.py:62-66 | `int(hex(n), 16) == n` and `_hex_to_int(hex(n)) == n` |
| Text.HexToIntFallsBackToZero | app/collectors/eth_collector.py:62-66 | `_hex_to_int` gives 0 for None and for any text without a hexadecimal digit, instead of raising |
| Text.HexToIntOfBarePrefix | app/collectors/eth_collector.py:62-66 | `_hex_to_int("0x")` is 0 |
| Scoring.DefaultConfig | app/engine/scoring.py:94-97 | with nothing in the environment the threshold is 10000, the window 10 minutes and the maximum 5 |
| Scoring.LoadSingleColumn | app/engine/scoring.py:106-120 | the loop collects exactly the normalised non-empty values of the column; a missing file gives the empty set |
| Scoring.ColumnValuesNormalized | app/engine/scoring.py:115-117 | every value in a list set is non-empty and already normalised |
| Scoring.BuildWellFormed | app/engine/scoring.py:82-103 | a constructed engine has a weight for every rule, whatever the override file holds |
| Scoring.ScoreEngine.constructor | app/engine/scoring.py:82-103 | the engine's state is the normalised known set, the loaded weights, the given config and the four loaded lists, and every rule has a weight |
| Scoring.ScoreEngine.RuleBlacklist | app/engine/scoring.py:123-127 | appends the blacklist hit and reason exactly when the rule fires, and nothing else |
| Scoring.ScoreEngine.RuleWatchlist | app/engine/scoring.py:129-133 | appends the watchlist hit and reason exactly when the rule fires |
| Scoring.ScoreEngine.RuleHighAmount | app/engine/scoring.py:135-140 | appends the high-amount hit and reason exactly when the rule fires |
| Scoring.ScoreEngine.RuleUnusualHour | app/engine/scoring.py:142-147 | appends the unusual-hour hit and reason exactly when the rule fires |
| Scoring.ScoreEngine.RuleNewAddress | app/engine/scoring.py:149-153 | appends the new-address hit and reason exactly when the rule fires |
| Scoring.ScoreEngine.CountInWindow | app/engine/scoring.py:160-171 | the counting loop returns the number of prior rows in the window |
| Scoring.ScoreEngine.RuleVelocity | app/engine/scoring.py:155-177 | returns the velocity count, 0 for an empty sender or no prior rows, and appends the velocity hit and reason exactly when the rule fires |
| Scoring.ScoreEngine.RuleSensitiveToken | app/engine/scoring.py:179-183 | appends the sensitive-token hit and reason exactly when the rule fires |
| Scoring.ScoreEngine.RuleSensitiveMethod | app/engine/scoring.py:185-189 | appends the sensitive-method hit and reason exactly when the rule fires |
| Scoring.ScoreEngine.ScoreTransaction | app/engine/scoring.py:192-231 | the eight rules applied in order to the normalised fields give exactly `Evaluate`, and the engine is not changed |
| Scoring.Finish | app/engine/scoring.py:223-231 | the score is 100 minus the penalty when the penalty is at most 100, and 0 when it is above |
| Scoring.Hour | app/engine/scoring.py:142-147 | the UTC hour of a timestamp lies in 0..23 |
| Scoring.HitsMatchFired | app/engine/scoring.py:214-221 | the hits and the reasons correspond pairwise to the firing rules, in the order the rules are listed |
| Scoring.FiredMembers | app/engine/scoring.py:214-221 | a rule is among the fired ones exactly when it is listed and fires |
| Scoring.FiredOrdered | app/engine/scoring.py:214-221 | the firing rules keep the order of the list |
| Scoring.ResultShape | app/engine/scoring.py:192-231 | one hit and one reason per firing rule, pairwise; each hit is the rule's key with the engine's weight; the rules appear in evaluation order, each once; a rule is there exactly when it fires |
| Scoring.HitsAreRuleWeights | app/engine/scoring.py:13-22 | every hit key is a default rule name holding exactly the engine's weight for it; no key appears twice; there are as many reasons as hits |
| Scoring.HasHitIff | app/engine/scoring.py:123-189 | a rule's key is among the hits exactly when the rule fires |
| Scoring.ListRuleConditions | app/engine/scoring.py:123-133 | the blacklist and watchlist rules fire exactly when the normalised sender or recipient is listed; the token and method rules exactly when the normalised value is listed |
| Scoring.OtherRuleConditions | app/engine/scoring.py:135-177 | high_amount iff amount >= threshold; unusual_hour iff the UTC hour is 0..5; new_address iff the normalised sender is non-empty and unknown; velocity iff the count exceeds the maximum |
| Scoring.ScoreBounds | app/engine/scoring.py:223-224 | the score is never negative, equals max(0, 100 - penalty), is 100 with no hits, and is at most 100 when no weight is negative |
| Scoring.Accumulated | app/engine/scoring.py:202-221 | the hits and reasons over the rule order are what the eight calls accumulate, one after the other from empty |
| Scoring.CountOnlyForVelocity | app/engine/scoring.py:214-221 | only the velocity rule depends on the count |
| Scoring.CountTrueIsSize | app/engine/scoring.py:161-169 | counting matching rows one at a time gives the number of matching rows |
| Scoring.WindowCountMeaning | app/engine/scoring.py:160-171 | the velocity count is the number of prior rows from the sender inside the closed window, and at most the number of prior rows |
| Scoring.VelocityCountMeaning | app/engine/scoring.py:155-177 | `velocity_last_window` is 0 for an empty sender or no prior rows and otherwise the rows in the window; it is reported whether or not the rule fires; the rule fires iff it exceeds the maximum |
| Scoring.VelocityScenario | app/engine/scoring.py:155-177 | six prior transactions in a 10-minute window against a maximum of 5 fire the velocity rule with count 6 |
| Scoring.WindowClockFree | app/engine/scoring.py:167-168 | with every prior timestamp parseable the window does not depend on the clock |
| Scoring.ClockFreeWhenTimestampsParse | app/engine/scoring.py:192-231 | with parseable timestamps, two calls give the same result: scoring is a function of the transaction |
| Scoring.ClockDecidesUnparsedHour | app/engine/scoring.py:53-64 | an unparseable timestamp takes the clock's hour, so the same transaction is flagged at midnight and not at noon |
| Scoring.CaseInsensitive | app/engine/scoring.py:206-209 | transactions equal up to the case of addresses, token and method score the same |
| Scoring.OnlyBlacklistAndAmount | app/engine/scoring.py:214-221 | when no other rule can fire, the hits are the blacklist and amount hits in that order |
| Scoring.BlacklistHighAmountScenario | app/engine/scoring.py:13-22 | a blacklisted sender moving 50000 under the defaults has hits blacklist 60 and high_amount 25, score 15, and the two reasons in rule order |
| Scoring.NegativeWeightScoresAbove100 | app/engine/scoring.py:223-224 | a negative blacklist weight gives a score of 100 minus that weight, above 100 |
| EthUtil.RequireMatchIff | app/collectors/eth_collector.py:102-114 | under REQUIRE_MATCH a transaction passes iff it clears the floor and its sender is in the monitor or from set, or its recipient is in the monitor or to set |
| EthUtil.FilterSetsIff | app/collectors/eth_collector.py:102-121 | without REQUIRE_MATCH a transaction passes iff it clears the floor and each non-empty from/to set contains its side |
| EthUtil.RequireMatchWithoutSetsRejects | app/collectors/eth_collector.py:109-114 | REQUIRE_MATCH with all three sets empty rejects everything |
| EthUtil.NoFiltersAcceptAll | app/collectors/eth_collector.py:102-121 | with no floor, no sets and no REQUIRE_MATCH everything passes |
| EthUtil.FiltersIgnoreCase | app/collectors/eth_collector.py:103-104 | the filter cannot tell two spellings of an address that differ in case apart |
| EthUtil.TxMethod | app/collectors/eth_collector.py:95-99 | TRANSFER iff the call data is empty or exactly "0x", CALL otherwise |
| EthUtil.PayloadIsCall | app/collectors/eth_collector.py:95-99 | any call data after the 0x prefix makes a CALL |
| EthUtil.WeiFromHexOfHex | app/collectors/eth_collector.py:69-70 | `hex(n)` wei reads as exactly n / 10^18 ether |
| EthUtil.WeiFromTextOfInt | app/collectors/eth_collector.py:73-75 | decimal `str(n)` wei reads as exactly n / 10^18 ether |
| EthUtil.MissingBlockTimestampIsEpoch | app/collectors/eth_collector.py:83-85 | a block without a timestamp is dated at the epoch |
| EthUtil.BlockTimestampOfHex | app/collectors/eth_collector.py:83-85 | a block timestamp sent as `hex(ts)` reads back as ts when `datetime` can represent it, and raises otherwise |
| EthUtil.Take | app/collectors/eth_collector.py:257 | for k >= 0, `out[:k]` is the first min(len, k) rows; for k <= 0 the model gives no rows, which agrees with `out[:max_rows]` at this line because `out` is still empty whenever `max_rows <= 0` (the `while len(out) < max_rows` loop at line 227 does not run). Python's `out[:k]` for a negative k on a non-empty list (all but the last \|k\| rows) is not modelled |
| EthRpc.RunTriesInOrder | app/collectors/eth_collector.py:130-131 | the attempts made are a prefix of the remaining schedule, and all of it when nothing answers, with a null result |
| EthRpc.RunAnswersFirst | app/collectors/eth_collector.py:139-143 | a call that answers ends on the first reply without an error and returns that reply's result; one that does not met no such reply |
| EthRpc.RunSleepsAfterFailures | app/collectors/eth_collector.py:144-146 | a sleep of backoff * (attempt + 1) follows every attempt that raised, and nothing follows the others |
| EthRpc.RpcAnyMeaning | app/collectors/eth_collector.py:128-149 | URLs in listed order with at most RPC_RETRIES attempts each; answered iff some scheduled reply has no error; the first such reply's result is returned, None after all attempts fail; sleeps only after exceptions |
| EthRpc.NoSleepWithoutFailure | app/collectors/eth_collector.py:140-141 | when no reply raises, the call does not sleep at all |
| EthRpc.AllEndpointsDown | app/collectors/eth_collector.py:34-44 | with three URLs, two retries and backoff 0.8 all down: six attempts URL by URL, sleeps 0.8, 1.6 at each, result None |
| EthRpc.Attempt | app/collectors/eth_collector.py:132-146 | one attempt posts one request; an answer ends the call with the run's result; otherwise the run continues at the next attempt, after a sleep when the request raised |
| EthRpc.RpcAny | app/collectors/eth_collector.py:128-149 | the nested loops return the specification's result, post exactly the attempts it tries, sleep exactly its pauses and consume one reply per attempt |
| EthRpc.BlockRangeDescends | app/collectors/eth_collector.py:161-163 | the walk goes from the head down by one to max(0, head - ETH_BLOCKS_BACK); it is empty when the head lies below that |
| EthRpc.PassingRowsOk | app/collectors/eth_collector.py:174-195 | every row kept from a block passed the filters and is an ETH TRANSFER or CALL |
| EthRpc.PassingRowsPrefix | app/collectors/eth_collector.py:174-195 | filtering a prefix of the block gives a prefix of the rows |
| EthRpc.AppendBlock | app/collectors/eth_collector.py:174-195 | the inner loop appends the first (max_tx - rows so far) passing rows of the block, in block order |
| EthRpc.ScanBlock | app/collectors/eth_collector.py:167-195 | one block is fetched with `_rpc_any` exactly as its specification run does (same posts, sleeps and replies consumed); a falsy result is skipped, a non-object or an unconvertible timestamp raises, and otherwise the first (max_tx - rows so far) passing rows are appended (`BlockStep`) |
| EthRpc.CollectViaRpc | app/collectors/eth_collector.py:152-196 | the result, the head, the blocks visited, the posts, the sleeps and the replies consumed are exactly those of `CollectRpcSpec`, whose meaning `CollectRpcMeaning` states; at most max_tx rows, each passing the filters and on ETH |
| EthRpc.WalkTurn | app/collectors/eth_collector.py:165-195 | one turn of the block loop makes the walk so far grow by the block fetched, and leaves the rest of the specification walk to go from the next block; a raise ends the walk there |
| EthRpc.WalkStep | app/collectors/eth_collector.py:165-195 | a walk that does not stop before a block fetches it and, unless it raised, goes on from the next block with the rows collected |
| EthRpc.WalkCovers | app/collectors/eth_collector.py:165-195 | the walk requests a prefix of its blocks in order, one result each; all of them unless it raised or collected max_tx rows; a raise comes from the last result fetched and from no earlier one |
| EthRpc.WalkRows | app/collectors/eth_collector.py:165-195 | a walk that returns gives the first max_tx rows of what it started with followed by the passing rows of every block it fetched |
| EthRpc.WalkPosts | app/collectors/eth_collector.py:165-168 | every post of the walk asks for a block it visited, and every visited block is asked for when some URL has some retries |
| EthRpc.CollectRpcMeaning | app/collectors/eth_collector.py:152-196 | without a head: [] and no block requested; otherwise the blocks head, head - 1, ... in order, all the way down to max(0, head - ETH_BLOCKS_BACK) unless it raised or collected max_tx rows; the rows are the first max_tx passing rows of the fetched blocks; a raise comes from the last block fetched; every post asks for the head or a visited block |
| EthRpc.CollectRpcRowsOk | app/collectors/eth_collector.py:152-196 | the rows returned number at most max_tx, and each passed the filters and is an ETH row |
| EthEtherscan.BlockNumberOf | app/collectors/eth_collector.py:203-216 | a head block is read only from a string result starting with 0x |
| EthEtherscan.BlockNumberOfHex | app/collectors/eth_collector.py:211-213 | a head sent as `hex(n)` reads back as n |
| EthEtherscan.BlockNumberNeedsPrefix | app/collectors/eth_collector.py:212-216 | a failed request, or a result without the 0x prefix, gives no head |
| EthEtherscan.HeadBlock | app/collectors/eth_collector.py:203-216 | makes one proxy request and reads the head from its reply |
| EthEtherscan.PagesShape | app/collectors/eth_collector.py:225-256 | pages are requested in order from 1 with one address, start block and page size; every reply but the last was a full page; the last failed, stopped on status, was empty or short, or filled the quota |
| EthEtherscan.TxListOnePage | app/collectors/eth_collector.py:226-252 | a quota of at most one full page makes exactly one request |
| EthEtherscan.TxListNoQuota | app/collectors/eth_collector.py:227 | a quota of zero or less makes no request |
| EthEtherscan.FetchPage | app/collectors/eth_collector.py:228-256 | one turn of the paging loop: one request; it stops on a failure, a stopping status, or an empty or short page, and otherwise continues at the next page with more rows |
| EthEtherscan.PageAll | app/collectors/eth_collector.py:224-256 | the paging loop collects the items and makes the requests of the specification run |
| EthEtherscan.TxList | app/collectors/eth_collector.py:219-257 | returns the first max_rows items of the paging run |
| EthEtherscan.NormalizeRow | app/collectors/eth_collector.py:260-278 | raises iff the item is not an object or its timeStamp is not an integer; otherwise an ETH row with a TRANSFER or CALL method |
| EthEtherscan.NormalizeRowOfIntegers | app/collectors/eth_collector.py:260-278 | a row with integer seconds and wei keeps its hash and addresses, and reads back its instant and its amount |
| EthEtherscan.NormalizeFromFilters | app/collectors/eth_collector.py:305-311 | when every row normalises, the loop keeps the first max_tx passing rows, in order |
| EthEtherscan.NormalizeFromRaises | app/collectors/eth_collector.py:306-307 | the loop raises only because of a row that does not normalise |
| EthEtherscan.FirstRowRaises | app/collectors/eth_collector.py:306-307 | a bad row reached before the quota fills makes the whole loop raise |
| EthEtherscan.NormalizeFromBounded | app/collectors/eth_collector.py:305-313 | the loop never passes max_tx rows, and every row it keeps passed the filters and is an ETH row |
| EthEtherscan.NormalizeRows | app/collectors/eth_collector.py:305-313 | the normalisation loop computes the specification `NormalizeFrom` |
| EthEtherscan.TxListRequests | app/collectors/eth_collector.py:229-240 | every request of a txlist run asks for that address's transactions from the start block |
| EthEtherscan.CollectAddress | app/collectors/eth_collector.py:297-302 | one address pages in exactly the first min(per-address, max_tx - rows so far) items of its txlist run, appended after the rows so far, makes that run's requests and is followed by a 0.25 s sleep; the rest of the loop is the specification's from the next address |
| EthEtherscan.CollectAddresses | app/collectors/eth_collector.py:295-302 | the items, quotas, counts and requests are exactly those of `AddrsFrom` from the first address, whose meaning `AddrsMeaning` states; one 0.25 s sleep per address queried |
| EthEtherscan.AddrStep | app/collectors/eth_collector.py:295-302 | one turn of the address loop: the address at i takes its quota, and the loop goes on from the next address with the script its requests leave |
| EthEtherscan.AddrsFromShape | app/collectors/eth_collector.py:295-302 | one quota and one count per address queried; the loop stops before the last address only once max_tx items are in; it never passes max_tx items |
| EthEtherscan.AddrsFromQuotas | app/collectors/eth_collector.py:297-300 | each address queried gets the quota min(per-address, max_tx - items so far) while fewer than max_tx items are in, returns between 0 and its quota items, and the counts sum to the items |
| EthEtherscan.AddrsFromRequests | app/collectors/eth_collector.py:229-240 | every request of the address loop asks for a watched address's transactions from the start block |
| EthEtherscan.AddrsMeaning | app/collectors/eth_collector.py:295-302 | addresses are queried in order with their quotas while fewer than max_tx items are in; the item count is the sum of the counts and at most max_tx; an address left unqueried means max_tx items were in; every request is a page of a watched address from the start block |
| EthEtherscan.NormalizeItems | app/collectors/eth_collector.py:305-313 | when every item normalises, the normalisation keeps the first max_tx passing rows in order; it raises only because of an item that does not normalise; at most max_tx rows, each passing the filters and on ETH |
| EthEtherscan.CollectEsFetched | app/collectors/eth_collector.py:281-313 | with addresses and a truthy head, the run is the address loop from max(0, head - ETH_BLOCKS_BACK) after the head request, followed by the normalisation of every item fetched |
| EthEtherscan.CollectEsMeaning | app/collectors/eth_collector.py:281-313 | [] and nothing fetched without addresses or a truthy head; when every item fetched normalises, the first max_tx passing rows in order; a raise only from an item that does not normalise; at most max_tx rows, each passing the filters and on ETH |
| EthEtherscan.FetchAndNormalize | app/collectors/eth_collector.py:295-313 | the address loop from the start block and the normalisation of its items compute exactly `AddrsFrom` and `NormalizeFrom` of them, with the loop's requests and sleeps |
| EthEtherscan.CollectFromHead | app/collectors/eth_collector.py:292-313 | after a truthy head the result, the items fetched and the requests are exactly those of `CollectEsSpec` |
| EthEtherscan.CollectViaEtherscan | app/collectors/eth_collector.py:281-313 | the result, the head, the address loop's run and the requests are exactly those of `CollectEsSpec`, whose meaning `CollectEsMeaning` and `AddrsMeaning` state; the result is the normalisation of the items fetched; one 0.25 s sleep per address queried |
| EthLoad.LoadFromEth | app/collectors/eth_collector.py:320-348 | returns exactly `LoadEth` of the two scripts: Etherscan runs iff an API key is set; RPC runs iff Etherscan did not run or gave []; a non-empty Etherscan result is returned; any exception gives [] |
| EthLoad.LoadEthOk | app/collectors/eth_collector.py:320-348 | whichever collector supplies them, the rows number at most ETH_MAX_TX, and each passed the filters and is an ETH row |
| MainUtil.SafeText | main.py:37-46 | what `safe_text` returns can always be encoded as Latin-1 |
| MainUtil.SafeTextKeepsLatin1 | main.py:41-46 | Latin-1 text comes back unchanged |
| MainUtil.SafeTextIdempotent | main.py:37-46 | cleaning twice is cleaning once |
| MainUtil.SafeTextConcat | main.py:41-46 | the clean-up works character by character, so it distributes over concatenation |
| MainUtil.SafeTextReplacements | main.py:41-46 | dashes and bullets become "-", the ellipsis "...", the inequalities ">=" and "<=", and other characters above U+00FF become "?" |
| MainUtil.Abbreviate | main.py:120-123 | addresses of at most 10 characters are kept; longer ones become the first 6, an ellipsis and the last 4 |
| MainUtil.AbbreviateIdempotent | main.py:120-123 | an abbreviation is its own abbreviation |
| MainUtil.PickCollectorFirst | main.py:125-130 | the first argument that chooses a collector decides, stripped and lower-cased |
| MainUtil.PickCollectorDefault | main.py:131 | without a choosing argument COLLECTOR decides, and "mock" when it is unset; a trailing -c is ignored |
| MainUtil.PickFromNormalized | main.py:125-131 | the choice is always stripped and lower-cased |
| MainUtil.AlertThresholdDefault | main.py:136-139 | an unset or unreadable SCORE_ALERT_THRESHOLD gives 50 |
| MainUtil.AlertThresholdOfInt | main.py:136-137 | a threshold written as an int is read back exactly |
| CsvStore.DataOfRows | main.py:86-87 | reading back the lines written for rows gives the rows |
| CsvStore.AppendedData | main.py:80-87 | an append keeps every existing row and adds the new ones after them, in order; the header never reads as a row |
| CsvStore.CsvFile.constructor | main.py:80-87 | a file is absent and empty, or a header followed by its rows |
| CsvStore.CsvFile.WriteRows | main.py:80-87 | `_write_rows_to` writes a header only when the file did not exist, then the rows in order; the records read back grow by exactly the rows |
| CsvStore.CsvFile.CreateIfMissing | main.py:48-53 | a missing file is created holding only its header; an existing one is untouched |
| CsvStore.KnownAfterAdds | main.py:62-71 | an append adds exactly the stripped address to the known set, and nothing for a blank address |
| CsvStore.KnownAfterIdempotent | main.py:62-71 | appending the same address again, at any time, changes nothing |
| CsvStore.StrippedMembers | main.py:63-64 | the addresses a run adds are exactly the non-blank stripped ones |
| CsvStore.KnownAfterAllAdds | main.py:199-200 | after a run of appends the known set is the old one plus every non-blank stripped address |
| CsvStore.KnownAfterAllFresh | main.py:62-71 | a run of appends only adds rows, one per new address, never the same address twice and never one already known |
| CsvStore.AppendKnown | main.py:62-71 | `append_known_address` leaves the file as `KnownAfter`: unchanged for a blank or known address, one row more otherwise |
| Pipeline.HitWeightMeaning | main.py:190 | `hits.get(k)` is falsy without the key and the stored weight with it |
| Pipeline.Contributions | main.py:177 | `contrib_pct` is empty for a non-positive penalty and has one entry per hit otherwise |
| Pipeline.ContributionsTotal | main.py:176-177 | the percentages of a positive penalty sum to 100 before rounding, and are empty exactly when the penalty is not positive |
| Pipeline.RowScore | main.py:173-197 | a row keeps the transaction's id and sender and carries the run's chain; its score is max(0, 100 - penalty_total); its percentages are empty iff the penalty is not positive; its reasons encode as Latin-1 |
| Pipeline.RowNewAddress | main.py:190 | a row is marked new iff the new_address rule fired and its weight is not 0 |
| Pipeline.MarkOfHits | main.py:190 | the mark reads the new_address hit, whose weight is the configured one |
| Pipeline.SameSenderSameMark | main.py:142-144 | the known set is fixed for the batch, so two transactions from one sender are marked alike |
| Pipeline.Scores | main.py:173-174 | one score per transaction of the batch |
| Pipeline.ScoresAt | main.py:173-174 | each transaction is scored by the engine on its own, whatever else is in the batch |
| Pipeline.NewSendersMembers | main.py:199-200 | a sender is appended to the known file iff one of its transactions has a truthy new_address hit |
| Pipeline.FlaggedMembers | main.py:202-203 | a row is held for review iff its score is below the threshold |
| Pipeline.PendingRows | main.py:98-118 | one pending row per held row, carrying its fields |
| Pipeline.AlertsForIndex | main.py:202-213 | one alert per held row, in order |
| Pipeline.RowsOfIndex | main.py:170-197 | exactly one row per transaction, in the batch's order |
| Pipeline.HandleScored | main.py:174-213 | builds the row, appends the sender when the new_address hit is truthy, and sends one alert iff the score is below the threshold |
| Pipeline.ScoreNext | main.py:174 | one more transaction scored extends the batch's scores |
| Pipeline.ScoreStep | main.py:173-213 | one turn of the loop keeps the loop's invariant: rows, held rows, alerts sent and the known file all match the transactions so far |
| Pipeline.ScoreAll | main.py:170-213 | one row per transaction in order; the held rows are those below the threshold, with one alert each in order; the known file grows by the senders with a truthy new_address hit |
| Pipeline.WriteTransactions | main.py:89-96 | the same rows, in the same order, are appended to the master log and to the daily file |
| Pipeline.AppendPending | main.py:98-118 | the pending file grows by one pending row per held row |
| Pipeline.Collect | main.py:148-166 | the ETH collector runs iff chosen and available, and then gives exactly `LoadEth` of the network's scripts; otherwise the mock batch is used and the network is untouched; an empty ETH batch falls back to mock |
| Pipeline.PrevRows | main.py:141 | the velocity rule sees each previous log row's sender and timestamp |
| Pipeline.ScoreAndStore | main.py:170-218 | the loop's rows are written to both logs and the held rows to the pending file, each only when there is something to write |
| Pipeline.Store | main.py:215-218 | the logs are written only when there are rows, the pending file only when rows were held |
| Pipeline.OpenKnown | main.py:134-142 | the known file exists afterwards, and the set read is what it held before |
| Pipeline.CollectAndScore | main.py:148-218 | the batch is the mock one or exactly `LoadEth` of the network's scripts (mock when that is empty), scored under the chain label and stored; held rows alert; new senders are remembered |
| Pipeline.RunPipeline | main.py:133-218 | raises iff the engine's environment values are unreadable, and then only the known-address header is written; otherwise the engine is built from the previous log and known file, the batch is the one `CollectAndScore` states, and every effect of the run is stated as there |

## Left out

- Real I/O is replaced by parameters and objects: HTTP (`requests`), `time.sleep`, the file system and the Telegram transport. `TelegramAlerter.from_env` and `send` become the `Alerter` object, which records each alert with its row and threshold.
- The alert text layout, the CSV quoting, the JSON encoding of `explain` and every `print` or logging call are left out.
- `load_input_or_mock` (mock data with randomness and the clock) is the `mock` parameter. `datetime.now()` is the single `now` parameter of a run. The daily file's name is left out: the daily file is a given `CsvFile`.
- `try_load_eth_collector` is the `ethAvailable` flag.
- Amounts are exact reals. The wei/1e18 float division, `round(_, 6)`, `round(_, 1)` of `contrib_pct` and float overflow are not modelled.
- `_to_float` of the transaction amount is not modelled: `Tx.amount` is the number after parsing. `_to_float` is modelled for `AMOUNT_THRESHOLD`, accepting decimal text with an optional sign. Exponents, `inf`, `nan` and digit-group underscores are not read.
- EthUtil.WeiFromText: Python's `float()` in `_wei_to_eth_from_str` (app/collectors/eth_collector.py:73-75) also reads exponents ("1e21"), "inf", "nan" and digit-group underscores ("1_000"). The model reads only plain decimal text and gives 0.0 for these. Etherscan sends wei as plain decimal integers, which the model reads exactly (EthUtil.WeiFromTextOfInt).
- `_parse_ts` is abstracted. A timestamp is `Option<int>` UTC seconds, where None stands for missing or unparseable text and takes the clock's time. ISO-8601 text and time zones are left out.
- `_lower` folds ASCII letters only. Python's full Unicode case mapping is not modelled.
- `int(s)` is modelled for base 10 and 16 with white space, a sign and a 0x prefix. Digit-group underscores and non-ASCII digits are not accepted by the model.
- JSON `NaN` and `Infinity` in the weight override are not modelled. Reals are always finite.
- Scoring.FormatG: `{x:g}` of the amount threshold is modelled as the integer part. This is exact only for whole thresholds below 10^6.
- The Etherscan `result` member is modelled as null, a string or a list. An object or a number as the result is not modelled.
- `ONLY_ERC20` and `RPC_TIMEOUT` have no effect in the model. The first is unused in the source, and the second only bounds the real wait.
- CsvStore.AppendKnown: requires the known-address file to exist, as `main` creates it first. An append to a missing file, which writes a row without a header, is not modelled.
- The `DictReader` view of a file assumes a file the pipeline wrote itself: a header line, then rows. Hand-edited CSV files and `first_seen` as an ISO string are abstracted, and `first_seen` is the run's time in seconds.
- `read_prev_transactions` is not modelled for column sets other than the pipeline's own. The velocity rule reads only each row's sender and timestamp.
- The reference list files are given as the rows read from them, so a read that fails part-way keeps the rows read before the failure.
- Concurrency and repeated runs of `main` are out of scope. Each file is modelled for a single run.
- EthRpc.RpcAny, EthRpc.Attempt and EthRpc.RpcAnyMeaning assume that `RPC_BACKOFF` (`ETH_RPC_BACKOFF`, app/collectors/eth_collector.py:44) is finite and non-negative. With a negative or NaN backoff, Python's `time.sleep(RPC_BACKOFF * (attempt + 1))` (line 146) raises ValueError inside the `except` of `_rpc_any` at the first failed attempt. That error escapes `_rpc_any` and `_collect_via_rpc` (lines 155 and 167), and `load_from_eth` returns [] (lines 346-348). The model instead records the negative pause and goes on to the next attempt.
- Scoring.InWindow: every clock fallback of one `score_transaction` call reads the same `now`. Python reads the clock again for each prior row, after reading it for the transaction. So a prior row whose timestamp does not parse, scored against a transaction whose timestamp does not parse either, falls outside the window in Python but inside it in the model. The same holds for Scoring.WindowCountMeaning and Scoring.VelocityCountMeaning.
- Scoring.ScoreEngine.ScoreTransaction: assumes that the velocity window start `ts - timedelta(minutes=VELOCITY_WINDOW_MIN)` (app/engine/scoring.py:160) stays within `datetime`'s years 1 to 9999, that is, between -62135596800 and 253402300799 seconds. That line runs only for a non-empty sender with at least one prior row. Outside that range Python raises OverflowError there, before the counting loop and its `try`. The error escapes `score_transaction` and the transaction loop of `main` (main.py:173-174), which has no `try`. The run then stops: the alerts and known-address appends of the earlier transactions stay done, and no CSV is written. The model computes the window and the score as usual in that case. Examples are a transaction dated within VELOCITY_WINDOW_MIN minutes after 0001-01-01, or a VELOCITY_WINDOW_MIN of more than about 1.07e9 or less than about -4.2e9 minutes with a present-day date. Each of the following members inherits this assumption.
- Scoring.ScoreEngine.CountInWindow: returns a count even when the window start is outside years 1 to 9999, where Python raises OverflowError at app/engine/scoring.py:160.
- Scoring.ScoreEngine.RuleVelocity: returns its count and its hit even when the window start is outside years 1 to 9999, where Python raises OverflowError at app/engine/scoring.py:160.
- Scoring.WindowCountMeaning: states the count also for window starts outside years 1 to 9999, where Python raises OverflowError instead of counting.
- Scoring.VelocityCountMeaning: states the velocity count also for window starts outside years 1 to 9999, where Python raises OverflowError instead of counting.
- Pipeline.ScoreAll: promises one row per transaction even when some transaction's window start is outside years 1 to 9999. Python's loop dies there with an OverflowError, after the alerts and known-address appends of the earlier transactions.
- Pipeline.CollectAndScore: says the batch is scored and stored even when a window start is outside years 1 to 9999. Python dies in `score_transaction` before any CSV is written.
- Pipeline.RunPipeline: its "raises iff the environment values are unreadable" holds only while every window start stays within years 1 to 9999. Otherwise Python also stops with an OverflowError from app/engine/scoring.py:160.
