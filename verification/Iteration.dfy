// Running a step function until it stops or its fuel is spent.

module Iteration {

  datatype Exit = Optimal | Unbounded | Capped

  datatype Outcome<S> = Stop(exit: Exit) | Next(state: S)

  function Iterate<S>(step: S -> Outcome<S>, s: S, fuel: nat): (S, Exit)
    decreases fuel
  {
    if fuel == 0 then (s, Capped)
    else
      match step(s)
      case Stop(exit) => (s, exit)
      case Next(s') => Iterate(step, s', fuel - 1)
  }

  lemma IterateTurn<S>(step: S -> Outcome<S>, s: S, fuel: nat, left: nat)
    requires fuel == left + 1
    ensures step(s).Stop? ==> Iterate(step, s, fuel) == (s, step(s).exit)
    ensures step(s).Next? ==> Iterate(step, s, fuel) == Iterate(step, step(s).state, left)
  {
  }

  lemma {:induction false} IterateKeeps<S(!new)>(step: S -> Outcome<S>, inv: S -> bool, s: S, fuel: nat)
    requires inv(s)
    requires forall x :: inv(x) && step(x).Next? ==> inv(step(x).state)
    ensures inv(Iterate(step, s, fuel).0)
    decreases fuel
  {
    if fuel > 0 && step(s).Next? {
      IterateKeeps(step, inv, step(s).state, fuel - 1);
    }
  }

  lemma {:induction false} IterateStops<S>(step: S -> Outcome<S>, s: S, fuel: nat)
    requires forall x :: step(x).Stop? ==> step(x).exit != Capped
    ensures Iterate(step, s, fuel).1 != Capped ==>
              step(Iterate(step, s, fuel).0) == Stop(Iterate(step, s, fuel).1)
    decreases fuel
  {
    if fuel > 0 && step(s).Next? {
      IterateStops(step, step(s).state, fuel - 1);
    }
  }

  // The states a run that spends its fuel goes through.
  lemma {:induction false} CappedTrace<S>(step: S -> Outcome<S>, s: S, fuel: nat) returns (v: seq<S>)
    requires forall x :: step(x).Stop? ==> step(x).exit != Capped
    requires Iterate(step, s, fuel).1 == Capped
    ensures |v| == fuel + 1 && v[0] == s
    ensures forall k :: 0 <= k < fuel ==> step(v[k]) == Next(v[k + 1])
    decreases fuel
  {
    v := [s];
    if fuel > 0 {
      var rest := CappedTrace(step, step(s).state, fuel - 1);
      v := [s] + rest;
      forall k | 0 <= k < fuel ensures step(v[k]) == Next(v[k + 1]) {
        if k > 0 {
          assert v[k] == rest[k - 1] && v[k + 1] == rest[(k - 1) + 1];
        }
      }
    }
  }
}
