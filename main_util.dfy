/** The helpers of the pipeline's entry point (main.py): the text clean-up
    applied to alert reasons, address abbreviation, the choice of collector
    from the command line and the environment, and the alert threshold. */
module MainUtil {
  import opened Common
  import opened Text
  import Scoring

  /** What `safe_text` makes of one character. Its chained `replace` calls
      each swap one character above U+00FF for ASCII text, so together they
      act character by character; the Latin-1 encoding with "replace" then
      turns every remaining character above U+00FF into '?'. */
  function SafeChar(c: char): (r: string)
    ensures forall i :: 0 <= i < |r| ==> r[i] as int <= 0xFF
  {
    if c == '\U{2014}' || c == '\U{2013}' || c == '\U{2022}' then "-"
    else if c == '\U{2026}' then "..."
    else if c == '\U{2265}' then ">="
    else if c == '\U{2264}' then "<="
    else if c as int <= 0xFF then [c]
    else "?"
  }

  predicate Latin1(t: string) {
    forall i :: 0 <= i < |t| ==> t[i] as int <= 0xFF
  }

  /** `safe_text(text)`: what it returns can always be encoded as Latin-1. */
  function SafeText(t: string): (r: string)
    ensures Latin1(r)
    ensures |r| >= |t|
  {
    if t == [] then [] else SafeChar(t[0]) + SafeText(t[1..])
  }

  /** Text that is already Latin-1 comes back unchanged. */
  lemma {:induction false} SafeTextKeepsLatin1(t: string)
    requires Latin1(t)
    ensures SafeText(t) == t
  {
    if t != [] {
      SafeTextKeepsLatin1(t[1..]);
      assert [t[0]] + t[1..] == t;
    }
  }

  /** Cleaning twice is cleaning once. */
  lemma SafeTextIdempotent(t: string)
    ensures SafeText(SafeText(t)) == SafeText(t)
  {
    SafeTextKeepsLatin1(SafeText(t));
  }

  /** The clean-up works character by character, so it distributes over
      concatenation. */
  lemma {:induction false} SafeTextConcat(a: string, b: string)
    ensures SafeText(a + b) == SafeText(a) + SafeText(b)
  {
    if a == [] {
      assert a + b == b;
    } else {
      assert (a + b)[0] == a[0];
      assert (a + b)[1..] == a[1..] + b;
      SafeTextConcat(a[1..], b);
    }
  }

  /** The typographic characters become their ASCII spellings and anything
      else outside Latin-1 becomes '?'. */
  lemma SafeTextReplacements(c: char)
    ensures SafeText([c]) == SafeChar(c)
    ensures c == '\U{2014}' || c == '\U{2013}' || c == '\U{2022}' ==> SafeText([c]) == "-"
    ensures c == '\U{2026}' ==> SafeText([c]) == "..."
    ensures c == '\U{2265}' ==> SafeText([c]) == ">="
    ensures c == '\U{2264}' ==> SafeText([c]) == "<="
    ensures c as int > 0xFF && c !in {'\U{2014}', '\U{2013}', '\U{2022}', '\U{2026}', '\U{2265}', '\U{2264}'} ==>
      SafeText([c]) == "?"
  {
    assert [c][1..] == [];
  }

  /** `abbreviate(addr)`: long addresses keep their first six and last four
      characters around an ellipsis. */
  function Abbreviate(addr: string): (r: string)
    ensures |r| <= 11
    ensures |addr| <= 10 ==> r == addr
    ensures |addr| > 10 ==>
      |r| == 11 && r[..6] == addr[..6] && r[6] == '\U{2026}' && r[7..] == addr[|addr| - 4..]
  {
    if addr == "" then "" else if |addr| <= 10 then addr
    else addr[..6] + "\U{2026}" + addr[|addr| - 4..]
  }

  /** An abbreviation is its own abbreviation. */
  lemma AbbreviateIdempotent(addr: string)
    ensures Abbreviate(Abbreviate(addr)) == Abbreviate(addr)
  {
    var r := Abbreviate(addr);
    if |addr| > 10 {
      assert r == r[..6] + "\U{2026}" + r[7..];
    }
  }

  /** The prefix of `--collector=VALUE`: its first '=' is at index 11. */
  const CollectorFlag: string := "--collector="

  /** Whether the command-line argument at i chooses the collector: a
      `--collector` or `-c` followed by another argument, or `--collector=`. */
  predicate Selects(argv: seq<string>, i: int)
    requires 0 <= i < |argv|
  {
    ((argv[i] == "--collector" || argv[i] == "-c") && i + 1 < |argv|) || StartsWith(argv[i], CollectorFlag)
  }

  /** The collector the argument at i chooses, stripped and lower-cased. */
  function SelectedValue(argv: seq<string>, i: int): string
    requires 0 <= i < |argv| && Selects(argv, i)
  {
    if (argv[i] == "--collector" || argv[i] == "-c") && i + 1 < |argv| then Norm(argv[i + 1])
    else Norm(argv[i][|CollectorFlag|..])
  }

  /** The scan of `pick_collector` from argument i on. */
  function PickFrom(argv: seq<string>, i: nat, env: Scoring.Env): string
    decreases |argv| - i
  {
    if i >= |argv| then Norm(Scoring.GetEnv(env, "COLLECTOR", "mock"))
    else if Selects(argv, i) then SelectedValue(argv, i)
    else PickFrom(argv, i + 1, env)
  }

  /** `pick_collector()` over `sys.argv` and the environment. */
  function PickCollector(argv: seq<string>, env: Scoring.Env): string {
    PickFrom(argv, 0, env)
  }

  lemma {:induction false} PickFromFirst(argv: seq<string>, i: nat, j: int, env: Scoring.Env)
    requires i <= j < |argv| && Selects(argv, j)
    requires forall k :: i <= k < j ==> !Selects(argv, k)
    ensures PickFrom(argv, i, env) == SelectedValue(argv, j)
    decreases j - i
  {
    if i < j {
      PickFromFirst(argv, i + 1, j, env);
    }
  }

  lemma {:induction false} PickFromNone(argv: seq<string>, i: nat, env: Scoring.Env)
    requires forall k :: i <= k < |argv| ==> !Selects(argv, k)
    ensures PickFrom(argv, i, env) == Norm(Scoring.GetEnv(env, "COLLECTOR", "mock"))
    decreases |argv| - i
  {
    if i < |argv| {
      PickFromNone(argv, i + 1, env);
    }
  }

  /** The first argument that chooses a collector decides. */
  lemma PickCollectorFirst(argv: seq<string>, j: int, env: Scoring.Env)
    requires 0 <= j < |argv| && Selects(argv, j)
    requires forall k :: 0 <= k < j ==> !Selects(argv, k)
    ensures PickCollector(argv, env) == SelectedValue(argv, j)
  {
    PickFromFirst(argv, 0, j, env);
  }

  /** Without one, `COLLECTOR` decides, and "mock" when it is unset; a
      trailing `-c` with nothing after it is ignored. */
  lemma PickCollectorDefault(argv: seq<string>, env: Scoring.Env)
    requires forall k :: 0 <= k < |argv| ==> !Selects(argv, k)
    ensures PickCollector(argv, env) == Norm(Scoring.GetEnv(env, "COLLECTOR", "mock"))
    ensures "COLLECTOR" !in env ==> PickCollector(argv, env) == "mock"
  {
    PickFromNone(argv, 0, env);
  }

  /** The choice is always in normal form: `--collector ETH` and
      `--collector=eth` both choose "eth". */
  lemma {:induction false} PickFromNormalized(argv: seq<string>, i: nat, env: Scoring.Env)
    ensures Norm(PickFrom(argv, i, env)) == PickFrom(argv, i, env)
    decreases |argv| - i
  {
    if i >= |argv| {
      NormIdempotent(Scoring.GetEnv(env, "COLLECTOR", "mock"));
    } else if Selects(argv, i) {
      if (argv[i] == "--collector" || argv[i] == "-c") && i + 1 < |argv| {
        NormIdempotent(argv[i + 1]);
      } else {
        NormIdempotent(argv[i][|CollectorFlag|..]);
      }
    } else {
      PickFromNormalized(argv, i + 1, env);
    }
  }

  /** The alert threshold: `SCORE_ALERT_THRESHOLD` read by `int()`, 50 when
      it is unset or `int()` raises. */
  function AlertThreshold(env: Scoring.Env): int {
    ParseInt(Scoring.GetEnv(env, "SCORE_ALERT_THRESHOLD", "50"), 10).GetOr(50)
  }

  /** Unset or unreadable, the threshold is 50. */
  lemma AlertThresholdDefault(env: Scoring.Env)
    requires "SCORE_ALERT_THRESHOLD" in env ==> ParseInt(env["SCORE_ALERT_THRESHOLD"], 10).None?
    ensures AlertThreshold(env) == 50
  {
    if "SCORE_ALERT_THRESHOLD" !in env {
      assert ToDigits(5, 10) == "5";
      assert IntToString(50) == "50";
      ParseIntRoundTrip(50);
    }
  }

  /** A threshold written as `str(n)` is read back as n. */
  lemma AlertThresholdOfInt(env: Scoring.Env, n: int)
    requires "SCORE_ALERT_THRESHOLD" in env && env["SCORE_ALERT_THRESHOLD"] == IntToString(n)
    ensures AlertThreshold(env) == n
  {
    ParseIntRoundTrip(n);
  }
}
