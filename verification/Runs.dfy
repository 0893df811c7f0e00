/** Runs of a state machine: what every step keeps, every state of a run has. */
module Runs {

  lemma {:induction false} Along<S(!new), R(!new)>(step: (S, R, S) -> bool, good: S -> bool,
                                                   states: seq<S>, moves: seq<R>, k: nat)
    requires |states| == |moves| + 1 && k < |states| && good(states[0])
    requires forall i {:trigger moves[i]} :: 0 <= i < |moves| ==> step(states[i], moves[i], states[i + 1])
    requires forall s, r, s' :: step(s, r, s') && good(s) ==> good(s')
    ensures good(states[k])
  {
    if k > 0 {
      Along(step, good, states, moves, k - 1);
      assert step(states[k - 1], moves[k - 1], states[k]);
    }
  }

  /** The same from state k to state j. */
  lemma {:induction false} Between<S(!new), R(!new)>(step: (S, R, S) -> bool, good: S -> bool,
                                                     states: seq<S>, moves: seq<R>, k: nat, j: nat)
    requires |states| == |moves| + 1 && k <= j < |states| && good(states[k])
    requires forall i {:trigger moves[i]} :: k <= i < j ==> step(states[i], moves[i], states[i + 1])
    requires forall s, r, s' :: step(s, r, s') && good(s) ==> good(s')
    ensures good(states[j])
    decreases j
  {
    if k < j {
      Between(step, good, states, moves, k, j - 1);
      assert step(states[j - 1], moves[j - 1], states[j]);
    }
  }

  ghost predicate Path<S(!new), R(!new)>(step: (S, R, S) -> bool, states: seq<S>, moves: seq<R>) {
    && |states| == |moves| + 1
    && (forall i {:trigger moves[i]} :: 0 <= i < |moves| ==> step(states[i], moves[i], states[i + 1]))
  }

  lemma Longer<S(!new), R(!new)>(step: (S, R, S) -> bool, s: S, r: R, states: seq<S>, moves: seq<R>)
    requires Path(step, states, moves) && step(s, r, states[0])
    ensures Path(step, [s] + states, [r] + moves)
  {
    var states', moves' := [s] + states, [r] + moves;
    forall i {:trigger moves'[i]} | 0 <= i < |moves'| ensures step(states'[i], moves'[i], states'[i + 1]) {
      if i > 0 { assert moves'[i] == moves[i - 1]; }
    }
  }

  /** One run after another that starts where it ends. */
  lemma Joined<S(!new), R(!new)>(step: (S, R, S) -> bool, first: seq<S>, m: seq<R>, second: seq<S>, n: seq<R>)
      returns (states: seq<S>)
    requires Path(step, first, m) && Path(step, second, n) && first[|m|] == second[0]
    ensures Path(step, states, m + n) && states[0] == first[0] && states[|m| + |n|] == second[|n|]
  {
    states := first + second[1..];
    var moves := m + n;
    forall i {:trigger moves[i]} | 0 <= i < |moves| ensures step(states[i], moves[i], states[i + 1]) {
      if i < |m| {
        assert moves[i] == m[i] && states[i] == first[i] && states[i + 1] == first[i + 1];
      } else {
        assert moves[i] == n[i - |m|] && states[i] == second[i - |m|] && states[i + 1] == second[i - |m| + 1];
      }
    }
  }
}
