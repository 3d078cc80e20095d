/** Runs of a state machine: lists of actions, each allowed by the state the ones before it lead to. */
module Runs {
  import opened Options

  ghost function Exec<S, A>(next: (S, A) -> Option<S>, s: S, acts: seq<A>): Option<S> {
    if acts == [] then Some(s)
    else
      match Exec(next, s, acts[..|acts| - 1])
      case None => None
      case Some(mid) => next(mid, acts[|acts| - 1])
  }

  lemma {:induction false} ExecParts<S, A>(next: (S, A) -> Option<S>, s: S, front: seq<A>, back: seq<A>)
    ensures Exec(next, s, front + back)
         == if Exec(next, s, front).Some? then Exec(next, Exec(next, s, front).value, back) else None
  {
    if back == [] {
      assert front + back == front;
    } else {
      var last := |back| - 1;
      assert (front + back)[..|front + back| - 1] == front + back[..last];
      ExecParts(next, s, front, back[..last]);
    }
  }

  lemma {:induction false} Empty<S, A>(next: (S, A) -> Option<S>, s: S)
    ensures Exec(next, s, []) == Some(s)
  {
  }

  lemma {:induction false} Single<S, A>(next: (S, A) -> Option<S>, s: S, a: A)
    ensures Exec(next, s, [a]) == next(s, a)
  {
    assert [a][..0] == [];
  }

  /** A list of states, each the next of the one before, is the run of its actions. */
  lemma {:induction false} Chain<S, A>(next: (S, A) -> Option<S>, acts: seq<A>, states: seq<S>)
    requires |states| == |acts| + 1
    requires forall i | 0 <= i < |acts| :: next(states[i], acts[i]) == Some(states[i + 1])
    ensures Exec(next, states[0], acts) == Some(states[|acts|])
  {
    if acts != [] {
      Chain(next, acts[..|acts| - 1], states[..|acts|]);
    }
  }
}
