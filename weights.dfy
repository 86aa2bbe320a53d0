/** The engine's rule weights: the built-in defaults and the merge of an
    optional JSON override file into them (`DEFAULT_WEIGHTS`, `_load_weights`
    in app/engine/scoring.py). */
module Weights {
  import opened Common
  import opened Text

  /** The eight rules, in the order `score_transaction` applies them. */
  datatype Rule =
    | Blacklist | Watchlist | HighAmount | UnusualHour
    | NewAddress | Velocity | SensitiveToken | SensitiveMethod

  /** The key under which a rule's weight is stored and its hit reported. */
  function Name(r: Rule): string {
    match r
    case Blacklist => "blacklist"
    case Watchlist => "watchlist"
    case HighAmount => "high_amount"
    case UnusualHour => "unusual_hour"
    case NewAddress => "new_address"
    case Velocity => "velocity"
    case SensitiveToken => "sensitive_token"
    case SensitiveMethod => "sensitive_method"
  }

  const RuleOrder: seq<Rule> := [Blacklist, Watchlist, HighAmount, UnusualHour,
                                 NewAddress, Velocity, SensitiveToken, SensitiveMethod]

  const DefaultWeights: map<string, int> := map[
    "blacklist" := 60, "watchlist" := 30, "high_amount" := 25, "unusual_hour" := 15,
    "new_address" := 40, "velocity" := 20, "sensitive_token" := 15, "sensitive_method" := 15]

  /** Every rule has a default weight. */
  lemma RulesHaveDefaults()
    ensures forall r: Rule :: Name(r) in DefaultWeights
  {
    forall r: Rule ensures Name(r) in DefaultWeights {
      match r
      case Blacklist =>
      case Watchlist =>
      case HighAmount =>
      case UnusualHour =>
      case NewAddress =>
      case Velocity =>
      case SensitiveToken =>
      case SensitiveMethod =>
    }
  }

  /** The defaults name no key but the rules'. */
  lemma DefaultsAreRules(k: string)
    requires k in DefaultWeights
    ensures exists r: Rule :: Name(r) == k
  {
    assert Name(Blacklist) == "blacklist" && Name(Watchlist) == "watchlist";
    assert Name(HighAmount) == "high_amount" && Name(UnusualHour) == "unusual_hour";
    assert Name(NewAddress) == "new_address" && Name(Velocity) == "velocity";
    assert Name(SensitiveToken) == "sensitive_token" && Name(SensitiveMethod) == "sensitive_method";
  }

  /** Different rules report under different keys. */
  lemma NamesDistinct(r1: Rule, r2: Rule)
    requires Name(r1) == Name(r2)
    ensures r1 == r2
  {
    assert Name(r1)[0] == Name(r2)[0];
    assert Name(r1)[|Name(r1)| - 1] == Name(r2)[|Name(r2)| - 1];
  }

  /** A decoded JSON value (Python's `json.loads` result). */
  datatype Json =
    | JNull
    | JBool(b: bool)
    | JInt(i: int)
    | JReal(x: real)
    | JText(s: string)
    | JArray(items: seq<Json>)
    | JObject(entries: seq<(string, Json)>)

  /** The override file as the engine finds it: missing, present but not
      readable as JSON (the `json.loads` or read error), or decoded. */
  datatype WeightsFile = Absent | Unreadable | Decoded(data: Json)

  /** The value a key ends with: its last entry, if any. */
  function LastValue(entries: seq<(string, Json)>, k: string): Option<Json> {
    if entries == [] then None
    else if entries[|entries| - 1].0 == k then Some(entries[|entries| - 1].1)
    else LastValue(entries[..|entries| - 1], k)
  }

  /** The keys of an object's members in the order they first appear. */
  function KeyOrder(members: seq<(string, Json)>): seq<string>
    decreases |members|
  {
    if members == [] then []
    else
      var ks := KeyOrder(members[..|members| - 1]);
      var k := members[|members| - 1].0;
      if k in ks then ks else ks + [k]
  }

  /** The dict `json.loads` builds from an object's members, as `items()`
      yields it: the members are stored one after the other, so a repeated
      key appears once, where it first appears, with its last value. */
  function Items(members: seq<(string, Json)>): seq<(string, Json)> {
    var ks := KeyOrder(members);
    seq(|ks|, i requires 0 <= i < |ks| => (ks[i], LastValue(members, ks[i]).GetOr(JNull)))
  }

  /** No key appears twice. */
  predicate DistinctKeys(items: seq<(string, Json)>) {
    forall i, j :: 0 <= i < j < |items| ==> items[i].0 != items[j].0
  }

  /** The key order lists each key of the members once, and no other. */
  lemma {:induction false} KeyOrderMeaning(members: seq<(string, Json)>)
    ensures forall i, j :: 0 <= i < j < |KeyOrder(members)| ==> KeyOrder(members)[i] != KeyOrder(members)[j]
    ensures forall k :: k in KeyOrder(members) <==> LastValue(members, k).Some?
    decreases |members|
  {
    if members != [] {
      var ks := KeyOrder(members[..|members| - 1]);
      var k := members[|members| - 1].0;
      KeyOrderMeaning(members[..|members| - 1]);
      if k !in ks {
        var ks' := ks + [k];
        forall i, j | 0 <= i < j < |ks'| ensures ks'[i] != ks'[j] {
          assert ks'[i] == ks[i];
          if j < |ks| {
            assert ks'[j] == ks[j] && ks[i] != ks[j];
          } else {
            assert ks'[j] == k && ks[i] in ks;
          }
        }
      }
    }
  }

  /** Without repeated keys, the last value of a key is that of its one
      entry, and a key with no entry has none. */
  lemma {:induction false} DistinctLast(items: seq<(string, Json)>, k: string)
    requires DistinctKeys(items)
    ensures forall i :: 0 <= i < |items| && items[i].0 == k ==> LastValue(items, k) == Some(items[i].1)
    ensures (forall i :: 0 <= i < |items| ==> items[i].0 != k) ==> LastValue(items, k).None?
    decreases |items|
  {
    if items != [] {
      var init := items[..|items| - 1];
      assert DistinctKeys(init) by {
        forall i, j | 0 <= i < j < |init| ensures init[i].0 != init[j].0 {
          assert init[i] == items[i] && init[j] == items[j];
        }
      }
      DistinctLast(init, k);
      forall i | 0 <= i < |items| && items[i].0 == k
        ensures LastValue(items, k) == Some(items[i].1)
      {
        if i < |items| - 1 {
          assert init[i] == items[i];
        }
      }
    }
  }

  /** The items hold each key once, with the last value the members give it. */
  lemma ItemsMeaning(members: seq<(string, Json)>)
    ensures DistinctKeys(Items(members))
    ensures forall k :: LastValue(Items(members), k) == LastValue(members, k)
  {
    var items := Items(members);
    KeyOrderMeaning(members);
    forall k ensures LastValue(items, k) == LastValue(members, k) {
      DistinctLast(items, k);
      if LastValue(members, k).Some? {
        var i :| 0 <= i < |KeyOrder(members)| && KeyOrder(members)[i] == k;
        assert items[i] == (k, LastValue(members, k).value);
      } else {
        forall i | 0 <= i < |items| ensures items[i].0 != k {
          assert items[i].0 == KeyOrder(members)[i];
        }
      }
    }
  }

  /** A key the members give a value `int` rejects leaves an item that
      makes the merge fail, and back. */
  lemma ItemsRejected(members: seq<(string, Json)>, out: map<string, int>)
    ensures (exists i :: 0 <= i < |Items(members)| && Items(members)[i].0 in out &&
                        IntCoerce(Items(members)[i].1).None?) <==>
            (exists k :: k in out && FinalValue(members, k, out[k]).None?)
  {
    var items := Items(members);
    KeyOrderMeaning(members);
    if exists i :: 0 <= i < |items| && items[i].0 in out && IntCoerce(items[i].1).None? {
      var i :| 0 <= i < |items| && items[i].0 in out && IntCoerce(items[i].1).None?;
      var k := items[i].0;
      assert k == KeyOrder(members)[i];
      assert FinalValue(members, k, out[k]).None?;
    }
    if exists k :: k in out && FinalValue(members, k, out[k]).None? {
      var k :| k in out && FinalValue(members, k, out[k]).None?;
      var i :| 0 <= i < |KeyOrder(members)| && KeyOrder(members)[i] == k;
      assert items[i] == (k, LastValue(members, k).value);
    }
  }

  /** Python's `int(v)` on a decoded JSON value; None is the exception
      (TypeError for null, lists and objects, ValueError for bad text). */
  function IntCoerce(v: Json): (r: Option<int>)
    ensures v.JInt? ==> r == Some(v.i)
    ensures v.JNull? || v.JArray? || v.JObject? ==> r.None?
    ensures v.JReal? ==> r.Some?
    ensures v.JReal? && v.x >= 0.0 ==> 0.0 <= v.x - r.value as real < 1.0
    ensures v.JReal? && v.x < 0.0 ==> -1.0 < v.x - r.value as real <= 0.0
  {
    match v
    case JNull => None
    case JBool(b) => Some(if b then 1 else 0)
    case JInt(i) => Some(i)
    case JReal(x) => Some(if x >= 0.0 then x.Floor else -((-x).Floor))
    case JText(s) => ParseInt(s, 10)
    case JArray(_) => None
    case JObject(_) => None
  }

  /** The loop of `_load_weights` over `data.items()`: a known key takes the
      int of its value, an unknown key is skipped, and a value `int` rejects
      ends the merge with None (the exception). */
  function Merge(out: map<string, int>, entries: seq<(string, Json)>): Option<map<string, int>>
    decreases |entries|
  {
    if entries == [] then Some(out)
    else
      var k := entries[0].0;
      if k !in out then Merge(out, entries[1..])
      else match IntCoerce(entries[0].1)
        case None => None
        case Some(n) => Merge(out[k := n], entries[1..])
  }

  /** `_load_weights()`: the defaults, merged with the items of a readable
      override object;
      any failure (unreadable file, data without `.items()`, a value `int`
      rejects) gives the defaults unchanged. */
  function WeightsFrom(f: WeightsFile): map<string, int> {
    match f
    case Absent => DefaultWeights
    case Unreadable => DefaultWeights
    case Decoded(JObject(members)) => Merge(DefaultWeights, Items(members)).GetOr(DefaultWeights)
    case Decoded(_) => DefaultWeights
  }

  /** `_load_weights` as the loop the source runs. */
  method LoadWeights(f: WeightsFile) returns (w: map<string, int>)
    ensures w == WeightsFrom(f)
  {
    if !f.Decoded? || !f.data.JObject? {
      return DefaultWeights;
    }
    var entries := Items(f.data.entries);
    var out := DefaultWeights;
    var i := 0;
    while i < |entries|
      invariant 0 <= i <= |entries|
      invariant Merge(out, entries[i..]) == Merge(DefaultWeights, Items(f.data.entries))
    {
      var (k, v) := entries[i];
      assert entries[i..][1..] == entries[i + 1..];
      if k in out {
        var n := IntCoerce(v);
        if n.None? {
          return DefaultWeights;
        }
        out := out[k := n.value];
      }
      i := i + 1;
    }
    return out;
  }

  /** The int a key ends with after the entries, starting from `start`;
      None when its last entry is not an int. */
  function FinalValue(entries: seq<(string, Json)>, k: string, start: int): Option<int> {
    match LastValue(entries, k)
    case None => Some(start)
    case Some(v) => IntCoerce(v)
  }

  /** The merge never adds or drops a key. */
  lemma {:induction false} MergeKeepsKeys(out: map<string, int>, entries: seq<(string, Json)>)
    requires Merge(out, entries).Some?
    ensures Merge(out, entries).value.Keys == out.Keys
    decreases |entries|
  {
    if entries != [] {
      var k := entries[0].0;
      if k !in out {
        MergeKeepsKeys(out, entries[1..]);
      } else {
        var n := IntCoerce(entries[0].1).value;
        MergeKeepsKeys(out[k := n], entries[1..]);
      }
    }
  }

  /** The merge fails exactly when some entry has a known key whose value
      `int` rejects. */
  lemma {:induction false} MergeFailsIff(out: map<string, int>, entries: seq<(string, Json)>)
    ensures Merge(out, entries).None? <==>
      exists i :: 0 <= i < |entries| && entries[i].0 in out && IntCoerce(entries[i].1).None?
    decreases |entries|
  {
    if entries != [] {
      var k := entries[0].0;
      var rest := entries[1..];
      if k !in out {
        MergeFailsIff(out, rest);
        if Merge(out, entries).None? {
          var j :| 0 <= j < |rest| && rest[j].0 in out && IntCoerce(rest[j].1).None?;
          assert entries[j + 1] == rest[j];
        }
      } else if IntCoerce(entries[0].1).Some? {
        var n := IntCoerce(entries[0].1).value;
        MergeFailsIff(out[k := n], rest);
        assert (out[k := n]).Keys == out.Keys;
        if Merge(out, entries).None? {
          var j :| 0 <= j < |rest| && rest[j].0 in out[k := n] && IntCoerce(rest[j].1).None?;
          assert entries[j + 1] == rest[j];
        }
      }
      if exists i :: 0 <= i < |entries| && entries[i].0 in out && IntCoerce(entries[i].1).None? {
        var i :| 0 <= i < |entries| && entries[i].0 in out && IntCoerce(entries[i].1).None?;
        if i > 0 && k in out && IntCoerce(entries[0].1).Some? {
          var n := IntCoerce(entries[0].1).value;
          assert rest[i - 1].0 in out[k := n];
        } else if i > 0 {
          assert rest[i - 1] == entries[i];
        }
      }
    }
  }

  /** A successful merge leaves every key with the int of its last entry,
      or its old value when no entry names it. */
  lemma {:induction false} MergeLastWins(out: map<string, int>, entries: seq<(string, Json)>, k: string)
    requires Merge(out, entries).Some? && k in out
    ensures k in Merge(out, entries).value
    ensures Some(Merge(out, entries).value[k]) == FinalValue(entries, k, out[k])
    decreases |entries|
  {
    if entries != [] {
      var n := |entries| - 1;
      var init := entries[..n];
      MergeSnoc(out, init, entries[n]);
      assert init + [entries[n]] == entries;
      assert Merge(out, init).Some?;
      MergeKeepsKeys(out, init);
      MergeLastWins(out, init, k);
    }
  }

  /** Merging one more entry after a prefix. */
  lemma {:induction false} MergeSnoc(out: map<string, int>, init: seq<(string, Json)>, e: (string, Json))
    ensures Merge(out, init + [e]) ==
      match Merge(out, init)
      case None => None
      case Some(m) => Merge(m, [e])
    decreases |init|
  {
    if init == [] {
      assert init + [e] == [e];
    } else {
      assert (init + [e])[1..] == init[1..] + [e];
      var k := init[0].0;
      if k !in out {
        MergeSnoc(out, init[1..], e);
      } else if IntCoerce(init[0].1).Some? {
        MergeSnoc(out[k := IntCoerce(init[0].1).value], init[1..], e);
      }
    }
  }

  /** `_load_weights` always returns exactly the default keys: an override
      can change weights but never add or remove a rule. */
  lemma WeightsHaveDefaultKeys(f: WeightsFile)
    ensures WeightsFrom(f).Keys == DefaultWeights.Keys
  {
    if f.Decoded? && f.data.JObject? && Merge(DefaultWeights, Items(f.data.entries)).Some? {
      MergeKeepsKeys(DefaultWeights, Items(f.data.entries));
    }
  }

  /** An override object that gives every known key it names a value `int`
      accepts, last value first: each weight is the int of its key's last
      value, or its default when no member names it; unknown keys are
      ignored, and so are earlier values of a repeated key. */
  lemma OverrideApplied(members: seq<(string, Json)>, k: string)
    requires forall k' :: k' in DefaultWeights ==> FinalValue(members, k', DefaultWeights[k']).Some?
    requires k in DefaultWeights
    ensures k in WeightsFrom(Decoded(JObject(members)))
    ensures Some(WeightsFrom(Decoded(JObject(members)))[k]) == FinalValue(members, k, DefaultWeights[k])
  {
    var items := Items(members);
    MergeFailsIff(DefaultWeights, items);
    ItemsRejected(members, DefaultWeights);
    MergeLastWins(DefaultWeights, items, k);
    ItemsMeaning(members);
  }

  /** One known key whose last value `int` rejects discards the whole
      override, including the keys merged before it. */
  lemma OverrideDiscarded(members: seq<(string, Json)>)
    requires exists k :: k in DefaultWeights && FinalValue(members, k, DefaultWeights[k]).None?
    ensures WeightsFrom(Decoded(JObject(members))) == DefaultWeights
  {
    MergeFailsIff(DefaultWeights, Items(members));
    ItemsRejected(members, DefaultWeights);
  }

  /** A repeated key counts with its last value only: a rejected value
      followed by an accepted one for the same key does not discard the
      override. */
  lemma RepeatedKeyLastWins(n: int)
    ensures WeightsFrom(Decoded(JObject([("velocity", JNull), ("velocity", JInt(n))]))) ==
      DefaultWeights["velocity" := n]
  {
    var members := [("velocity", JNull), ("velocity", JInt(n))];
    assert members[..1] == [("velocity", JNull)] && members[..1][..0] == [];
    assert KeyOrder(members[..1]) == ["velocity"];
    assert KeyOrder(members) == ["velocity"];
    assert LastValue(members, "velocity") == Some(JInt(n));
    var items := Items(members);
    assert items == [("velocity", JInt(n))];
    assert items[1..] == [];
    assert Merge(DefaultWeights, items) == Some(DefaultWeights["velocity" := n]);
  }

  /** The override accepts any int, negative ones included. */
  lemma NegativeWeightAccepted(n: int)
    ensures WeightsFrom(Decoded(JObject([("blacklist", JInt(n))]))) == DefaultWeights["blacklist" := n]
  {
    var entries := [("blacklist", JInt(n))];
    assert entries[..0] == [];
    assert KeyOrder(entries) == ["blacklist"];
    assert Items(entries) == entries;
    assert entries[1..] == [];
    assert Merge(DefaultWeights, entries) == Some(DefaultWeights["blacklist" := n]);
  }
}
