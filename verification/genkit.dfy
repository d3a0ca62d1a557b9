/**
 * Model selection: a round-robin selector over the three Gemini model names,
 * and a fixed mapping from short names to model names. The selector's
 * module-level counter `modelIndex` is passed explicitly as a `Selector`
 * state value.
 */
module Genkit {

  const GeminiModels: seq<string> := [
    "googleai/gemini-2.5-flash-lite",
    "googleai/gemini-3-flash-preview",
    "googleai/gemini-2.5-flash"
  ]

  /** The selector's state: the index of the model the next call returns. */
  datatype Selector = Selector(modelIndex: nat)

  /** The state at process start. */
  const Initial: Selector := Selector(0)

  /** The index always points into the model list. */
  predicate Valid(s: Selector) {
    s.modelIndex < |GeminiModels|
  }

  /** `getNextModel`: the model under the index, and the state with the index advanced cyclically. */
  function GetNextModel(s: Selector): (res: (string, Selector))
    requires Valid(s)
    ensures Valid(res.1)
    ensures res.0 in GeminiModels
  {
    (GeminiModels[s.modelIndex], Selector((s.modelIndex + 1) % |GeminiModels|))
  }

  /** The models returned by `n` consecutive calls starting in state `s`. */
  function NextModels(s: Selector, n: nat): (models: seq<string>)
    requires Valid(s)
    ensures |models| == n
    decreases n
  {
    if n == 0 then [] else [GetNextModel(s).0] + NextModels(GetNextModel(s).1, n - 1)
  }

  /** The state after `n` consecutive calls starting in state `s`. */
  function After(s: Selector, n: nat): (t: Selector)
    requires Valid(s)
    ensures Valid(t)
    decreases n
  {
    if n == 0 then s else After(GetNextModel(s).1, n - 1)
  }

  /** Advancing by one and then by `m` is advancing by `m + 1`, modulo the number of models. */
  lemma AdvanceStep(k: nat, m: nat)
    requires k < |GeminiModels|
    ensures ((k + 1) % |GeminiModels| + m) % |GeminiModels| == (k + m + 1) % |GeminiModels|
  {
    if k + 1 == |GeminiModels| {
      assert (k + 1) % |GeminiModels| == 0;
      assert (k + m + 1) % |GeminiModels| == (m + |GeminiModels|) % |GeminiModels| == m % |GeminiModels|;
    } else {
      assert (k + 1) % |GeminiModels| == k + 1;
    }
  }

  /** After `n` calls the index has moved on by `n`, modulo the number of models. */
  lemma {:induction false} AfterIndex(s: Selector, n: nat)
    requires Valid(s)
    ensures After(s, n).modelIndex == (s.modelIndex + n) % |GeminiModels|
    decreases n
  {
    if n > 0 {
      var s' := GetNextModel(s).1;
      AfterIndex(s', n - 1);
      AdvanceStep(s.modelIndex, n - 1);
    }
  }

  /** Call `i` (from 0) of a run starting in `s` returns the model at `(index + i) mod 3`. */
  lemma {:induction false} NextModelsAt(s: Selector, n: nat, i: nat)
    requires Valid(s)
    requires i < n
    ensures NextModels(s, n)[i] == GeminiModels[(s.modelIndex + i) % |GeminiModels|]
    decreases n
  {
    if i > 0 {
      var s' := GetNextModel(s).1;
      NextModelsAt(s', n - 1, i - 1);
      AdvanceStep(s.modelIndex, i - 1);
    }
  }

  /** The sequence of returned models repeats with period 3. */
  lemma Periodic(s: Selector, n: nat, i: nat)
    requires Valid(s)
    requires i + 3 < n
    ensures NextModels(s, n)[i + 3] == NextModels(s, n)[i]
  {
    NextModelsAt(s, n, i);
    NextModelsAt(s, n, i + 3);
  }

  /** Rotating a list permutes it. */
  lemma RotationPermutes<T>(xs: seq<T>, k: nat)
    requires k <= |xs|
    ensures multiset(xs[k..] + xs[..k]) == multiset(xs)
  {
    assert xs == xs[..k] + xs[k..];
  }

  /** A three-element list rotated left by `k`, element by element. */
  lemma RotateThree<T>(xs: seq<T>, k: nat)
    requires |xs| == 3 && k < 3
    ensures xs[k..] + xs[..k] == [xs[k], xs[(k + 1) % 3], xs[(k + 2) % 3]]
  {
    if k == 0 {
      assert xs[k..] + xs[..k] == xs;
    } else if k == 1 {
      assert xs[k..] + xs[..k] == [xs[1], xs[2], xs[0]];
    } else {
      assert xs[k..] + xs[..k] == [xs[2], xs[0], xs[1]];
    }
  }

  /** Three consecutive calls return the model list rotated to start at the current index. */
  lemma ThreeCallsRotate(s: Selector)
    requires Valid(s)
    ensures NextModels(s, 3) == GeminiModels[s.modelIndex..] + GeminiModels[..s.modelIndex]
  {
    var k := s.modelIndex;
    NextModelsAt(s, 3, 0);
    NextModelsAt(s, 3, 1);
    NextModelsAt(s, 3, 2);
    assert NextModels(s, 3) == [GeminiModels[k], GeminiModels[(k + 1) % 3], GeminiModels[(k + 2) % 3]];
    RotateThree(GeminiModels, k);
  }

  /** Any three consecutive calls return each of the three models exactly once. */
  lemma ThreeCallsCoverAllModels(s: Selector)
    requires Valid(s)
    ensures multiset(NextModels(s, 3)) == multiset(GeminiModels)
  {
    ThreeCallsRotate(s);
    RotationPermutes(GeminiModels, s.modelIndex);
  }

  /** From process start, the first call returns the flash-lite model. */
  lemma FirstCallFromStart()
    ensures Valid(Initial)
    ensures GetNextModel(Initial).0 == "googleai/gemini-2.5-flash-lite"
  {
  }

  /** The short names accepted by `getModel`. */
  datatype ModelName = FlashLite | Flash3 | Flash25

  /** `getModel`: the full model name for a short name. */
  function GetModel(name: ModelName): (model: string)
    ensures model in GeminiModels
  {
    match name
    case FlashLite => "googleai/gemini-2.5-flash-lite"
    case Flash3 => "googleai/gemini-3-flash-preview"
    case Flash25 => "googleai/gemini-2.5-flash"
  }

  /** Different short names give different models, so every model is reachable by name. */
  lemma GetModelInjective(a: ModelName, b: ModelName)
    ensures GetModel(a) == GetModel(b) <==> a == b
  {
  }

  lemma GetModelCoversModels(m: string)
    requires m in GeminiModels
    ensures exists name :: GetModel(name) == m
  {
    if m == GeminiModels[0] {
      assert GetModel(FlashLite) == m;
    } else if m == GeminiModels[1] {
      assert GetModel(Flash3) == m;
    } else {
      assert GetModel(Flash25) == m;
    }
  }
}
