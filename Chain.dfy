/**
 * A chain driven by a sequence of keys: a step function applied to the
 * current state and the next key, over and over. The facts here are about
 * the shape of such a chain only (which step uses which key, which state
 * each recorded entry holds), so they are stated once for any step function.
 */
module Chain {

  /** The state after the first n steps from s, step t using keys[t]. */
  function Iterate<S, K>(step: (S, K) -> S, s: S, keys: seq<K>, n: nat): S
    requires n <= |keys|
  {
    if n == 0 then s else step(Iterate(step, s, keys, n - 1), keys[n - 1])
  }

  /** What is recorded after each of the first n steps: view of the state each step leaves. */
  function Trace<S, K, V>(step: (S, K) -> S, view: S -> V, s: S, keys: seq<K>, n: nat): (r: seq<V>)
    requires n <= |keys|
    ensures |r| == n
  {
    if n == 0 then [] else Trace(step, view, s, keys, n - 1) + [view(Iterate(step, s, keys, n))]
  }

  /** Entry i of the trace is the view of the state after the first i + 1 steps. */
  lemma {:induction false} TraceAt<S, K, V>(step: (S, K) -> S, view: S -> V, s: S, keys: seq<K>, n: nat, i: nat)
    requires n <= |keys| && i < n
    ensures Trace(step, view, s, keys, n)[i] == view(Iterate(step, s, keys, i + 1))
  {
    if i < n - 1 {
      TraceAt(step, view, s, keys, n - 1, i);
    }
  }

  /**
   * Entry i of the trace is the view of step i applied to the state the
   * first i steps leave, and entry i - 1 is the view of that state.
   */
  lemma TraceStep<S, K, V>(step: (S, K) -> S, view: S -> V, s: S, keys: seq<K>, n: nat, i: nat)
    requires n <= |keys| && i < n
    ensures Trace(step, view, s, keys, n)[i] == view(step(Iterate(step, s, keys, i), keys[i]))
    ensures i > 0 ==> Trace(step, view, s, keys, n)[i - 1] == view(Iterate(step, s, keys, i))
  {
    TraceAt(step, view, s, keys, n, i);
    if i > 0 {
      TraceAt(step, view, s, keys, n, i - 1);
    }
  }

  /** The first n steps read only the first n keys. */
  lemma {:induction false} IteratePrefix<S, K>(step: (S, K) -> S, s: S, keys: seq<K>, more: seq<K>, n: nat)
    requires n <= |keys|
    ensures Iterate(step, s, keys + more, n) == Iterate(step, s, keys, n)
  {
    if n > 0 {
      IteratePrefix(step, s, keys, more, n - 1);
      assert (keys + more)[n - 1] == keys[n - 1];
    }
  }

  /** Taking m + n steps is taking m steps, then the next n from where they ended. */
  lemma {:induction false} IterateSplit<S, K>(step: (S, K) -> S, s: S, keys: seq<K>, m: nat, n: nat)
    requires m + n <= |keys|
    ensures Iterate(step, s, keys, m + n) == Iterate(step, Iterate(step, s, keys, m), keys[m..], n)
  {
    if n > 0 {
      IterateSplit(step, s, keys, m, n - 1);
      assert keys[m..][n - 1] == keys[m + n - 1];
    }
  }

  /**
   * Running the first b keys unrecorded and then recording n more steps
   * records, in entry i, the state after step b + i + 1 of one run over all
   * the keys.
   */
  lemma PhasesAt<S, K, V>(step: (S, K) -> S, view: S -> V, s: S, keys: seq<K>, b: nat, n: nat, i: nat)
    requires |keys| == b + n && i < n
    ensures Trace(step, view, Iterate(step, s, keys[..b], b), keys[b..], n)[i] ==
            view(Iterate(step, s, keys, b + i + 1))
  {
    var warm := Iterate(step, s, keys[..b], b);
    assert keys[..b] + keys[b..] == keys;
    IteratePrefix(step, s, keys[..b], keys[b..], b);
    TraceAt(step, view, warm, keys[b..], n, i);
    IterateSplit(step, s, keys, b, i + 1);
  }
}
