/** Runs of any step machine, and what one side does when it runs alone: `next`
    relates a state, an event and the state that follows. */
module Runs {

  /** Guards a property that the solver should look into only on request. */
  predicate Asked(k: nat) { true }

  ghost predicate Path<S, E>(next: (S, E, S) -> bool, states: seq<S>, events: seq<E>)
  {
    && |states| == |events| + 1
    && forall i | 0 <= i < |events| :: next(states[i], events[i], states[i + 1])
  }

  /** From a state in `mid`, steps that each go on in `mid` with a lower rank, or
      are the last, make a path that ends with a last step. */
  lemma {:induction false} RunsOut<S, E>(next: (S, E, S) -> bool, pick: S -> E, step: S -> S,
      mid: S -> bool, rank: S -> nat, last: (S, S) -> bool, s: S) returns (states: seq<S>, events: seq<E>)
    requires mid(s)
    requires forall a: S :: mid(a) ==>
      next(a, pick(a), step(a)) && (last(a, step(a)) || (mid(step(a)) && rank(step(a)) < rank(a)))
    ensures Path(next, states, events) && 0 < |events| <= rank(s) + 1 && states[0] == s
    ensures forall i | 0 <= i < |events| :: mid(states[i]) && events[i] == pick(states[i])
    ensures last(states[|events| - 1], states[|events|])
    decreases rank(s)
  {
    if last(s, step(s)) {
      states, events := [s, step(s)], [pick(s)];
    } else {
      var ss, es := RunsOut(next, pick, step, mid, rank, last, step(s));
      states, events := [s] + ss, [pick(s)] + es;
    }
  }

  /** One path after another. */
  lemma Join<S, E>(next: (S, E, S) -> bool, a: seq<S>, e: seq<E>, b: seq<S>, f: seq<E>)
    requires Path(next, a, e) && Path(next, b, f) && a[|e|] == b[0]
    ensures Path(next, a + b[1..], e + f)
  {
    var s, g := a + b[1..], e + f;
    forall i | 0 <= i < |g| ensures next(s[i], g[i], s[i + 1]) {
      if i >= |e| { assert s[i] == b[i - |e|] && g[i] == f[i - |e|]; }
    }
  }

  /** The longer run goes on from the shorter one with `call` and then only with the
      events in `own`. */
  ghost predicate Continues<S, E>(states: seq<S>, events: seq<E>, states': seq<S>, events': seq<E>,
      call: E, own: E -> bool)
  {
    && states <= states' && events <= events' && |states| == |events| + 1 && |states'| == |events'| + 1
    && |events| < |events'| && events'[|events|] == call
    && forall k | |events| < k < |events'| :: own(events'[k])
  }

  /** Some state after event k, up to j, satisfies p. */
  ghost predicate Saw<S>(states: seq<S>, k: nat, j: nat, p: S -> bool)
  {
    exists m: nat :: k < m <= j < |states| && p(states[m])
  }

  /** What holds after event k holds at j, if only a state in p can end it. */
  lemma {:induction false} UntilSaw<S>(states: seq<S>, k: nat, j: nat, q: S -> bool, p: S -> bool)
    requires k < j < |states| && q(states[k + 1])
    requires forall m | k < m < j && q(states[m]) :: q(states[m + 1]) || p(states[m]) || p(states[m + 1])
    ensures q(states[j]) || Saw(states, k, j, p)
    decreases j
  {
    if j > k + 1 {
      UntilSaw(states, k, j - 1, q, p);
      if q(states[j - 1]) {
        if p(states[j - 1]) || p(states[j]) { assert Saw(states, k, j, p); }
      } else {
        var m: nat :| k < m <= j - 1 < |states| && p(states[m]);
        assert Saw(states, k, j, p);
      }
    }
  }

  /** A run with a call and a path from there on appended. */
  lemma Appended<S, E>(states: seq<S>, events: seq<E>, call: E, ss: seq<S>, es: seq<E>, own: E -> bool)
    requires |states| == |events| + 1 && |ss| == |es| + 1 > 1 && forall i | 0 <= i < |es| :: own(es[i])
    ensures var states', events' := states + ss, events + ([call] + es);
            && Continues(states, events, states', events', call, own)
            && states'[|events'|] == ss[|es|] && states'[|events'| - 1] == ss[|es| - 1]
            && events'[|events'| - 1] == es[|es| - 1]
  {
    var events' := events + ([call] + es);
    forall k | |events| < k < |events'| ensures own(events'[k]) {
      assert events'[k] == es[k - |events| - 1];
    }
  }
}
