/**
 * The Hugging Face fallback flow: the ordered candidate list (primary model
 * first, then the fallbacks without the primary) and the sequential search
 * that stops at the first candidate producing text and otherwise collects
 * one error per attempt.
 */
module Fallback {
  import opened Json
  import opened Inference

  /** Number of occurrences of `x` in `xs`. */
  function Count<T(==)>(xs: seq<T>, x: T): nat {
    if |xs| == 0 then 0 else (if xs[0] == x then 1 else 0) + Count(xs[1..], x)
  }

  lemma {:induction false} CountZero<T>(xs: seq<T>, x: T)
    ensures Count(xs, x) == 0 <==> x !in xs
  {
    if |xs| > 0 {
      CountZero(xs[1..], x);
      assert xs == [xs[0]] + xs[1..];
    }
  }

  /** `sub` is `xs` with some elements deleted, the rest in their original order. */
  predicate IsSubsequence<T(==)>(sub: seq<T>, xs: seq<T>) {
    if |sub| == 0 then true
    else if |xs| == 0 then false
    else if sub[0] == xs[0] then IsSubsequence(sub[1..], xs[1..])
    else IsSubsequence(sub, xs[1..])
  }

  /** `[m for m in xs if m != p]`. */
  function Without<T(==,!new)>(xs: seq<T>, p: T): (r: seq<T>)
    ensures p !in r
    ensures forall x | x != p :: Count(r, x) == Count(xs, x)
    ensures IsSubsequence(r, xs)
  {
    if |xs| == 0 then []
    else if xs[0] == p then Without(xs[1..], p)
    else
      var rest := Without(xs[1..], p);
      var r := [xs[0]] + rest;
      assert r[1..] == rest;
      r
  }

  /** `[primary] + [m for m in fallbacks if m != primary]`: the models tried, in order. */
  function Candidates(primary: string, fallbacks: seq<string>): (c: seq<string>)
    ensures |c| >= 1 && c[0] == primary
    ensures primary !in c[1..]
    ensures IsSubsequence(c[1..], fallbacks)
    ensures Count(c, primary) == 1
    ensures forall x | x != primary :: Count(c, x) == Count(fallbacks, x)
  {
    var rest := Without(fallbacks, primary);
    var c := [primary] + rest;
    assert c[1..] == rest;
    CountZero(rest, primary);
    c
  }

  /** When the configured fallbacks have no duplicates, neither do the candidates. */
  lemma CandidatesDistinct(primary: string, fallbacks: seq<string>)
    requires forall x :: Count(fallbacks, x) <= 1
    ensures forall x :: Count(Candidates(primary, fallbacks), x) <= 1
  {
  }

  /** The primary listed again among the fallbacks is not tried twice. */
  lemma CandidatesExample()
    ensures Candidates("M1", ["M1", "M2", "M3"]) == ["M1", "M2", "M3"]
  {
  }

  /** Outcome of the call made on attempt `i` (0-based) to model `id`. The
      attempt number is an input so that a model listed twice may answer
      differently the second time. */
  type HfOracle = (nat, string) -> HfOutcome

  /** The classified result of attempt `i` over the candidate list. */
  function AttemptAt(cands: seq<string>, oracle: HfOracle, i: nat): Attempt
    requires i < |cands|
  {
    TryInferHf(cands[i], oracle(i, cands[i]))
  }

  /** Attempts `lo` up to `hi` (exclusive) all failed. */
  predicate FailedBetween(cands: seq<string>, oracle: HfOracle, lo: nat, hi: nat)
    requires lo <= hi <= |cands|
  {
    forall j | lo <= j < hi :: AttemptAt(cands, oracle, j).Failed?
  }

  /** How the search ended. `attempts` counts the calls made, so the models
      contacted are exactly `cands[..attempts]`. */
  datatype SearchResult =
    | Found(text: JsonValue, model: string, attempts: nat)
    | Exhausted(details: seq<JsonValue>)

  /** `r` is the correct outcome of searching `cands` from position `from`:
      either the first candidate at or after `from` that produced text,
      with every earlier one failed and no later one contacted; or, when all
      failed, exactly one error per candidate in attempt order. */
  predicate Explains(cands: seq<string>, oracle: HfOracle, from: nat, r: SearchResult)
    requires from <= |cands|
  {
    match r
    case Found(text, model, attempts) =>
      && from < attempts <= |cands|
      && model == cands[attempts - 1]
      && AttemptAt(cands, oracle, attempts - 1) == Generated(text)
      && FailedBetween(cands, oracle, from, attempts - 1)
    case Exhausted(details) =>
      && FailedBetween(cands, oracle, from, |cands|)
      && |details| == |cands| - from
      && forall k | 0 <= k < |details| :: details[k] == AttemptAt(cands, oracle, from + k).error
  }

  /** The fallback search as a recursive definition. */
  function SearchFrom(cands: seq<string>, oracle: HfOracle, from: nat): (r: SearchResult)
    requires from <= |cands|
    ensures Explains(cands, oracle, from, r)
    decreases |cands| - from
  {
    if from == |cands| then Exhausted([])
    else
      match AttemptAt(cands, oracle, from)
      case Generated(text) => Found(text, cands[from], from + 1)
      case Failed(err) =>
        match SearchFrom(cands, oracle, from + 1)
        case Found(text, model, attempts) => Found(text, model, attempts)
        case Exhausted(details) => Exhausted([err] + details)
  }

  function Search(cands: seq<string>, oracle: HfOracle): SearchResult {
    SearchFrom(cands, oracle, 0)
  }

  /** `Explains` pins the outcome down: at most one result explains a search. */
  lemma ExplainsUnique(cands: seq<string>, oracle: HfOracle, from: nat, r1: SearchResult, r2: SearchResult)
    requires from <= |cands|
    requires Explains(cands, oracle, from, r1) && Explains(cands, oracle, from, r2)
    ensures r1 == r2
  {
  }

  /** The loop of the handler: tries the candidates in order, returns on the
      first text and appends the error of every failed attempt. */
  method RunFallback(cands: seq<string>, oracle: HfOracle) returns (r: SearchResult)
    ensures Explains(cands, oracle, 0, r)
    ensures r == Search(cands, oracle)
  {
    var errors: seq<JsonValue> := [];
    var i := 0;
    while i < |cands|
      invariant 0 <= i <= |cands|
      invariant FailedBetween(cands, oracle, 0, i)
      invariant |errors| == i
      invariant forall k | 0 <= k < i :: errors[k] == AttemptAt(cands, oracle, k).error
    {
      var attempt := TryInferHf(cands[i], oracle(i, cands[i]));
      if attempt.Generated? {
        r := Found(attempt.text, cands[i], i + 1);
        ExplainsUnique(cands, oracle, 0, r, Search(cands, oracle));
        return;
      }
      errors := errors + [attempt.error];
      i := i + 1;
    }
    r := Exhausted(errors);
    ExplainsUnique(cands, oracle, 0, r, Search(cands, oracle));
  }
}
