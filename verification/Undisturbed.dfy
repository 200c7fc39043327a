/** Steps of a state machine taken one after another with nothing in between. */
module Undisturbed {

  /** The steps, one after another from `s`, end in `s'`. */
  ghost predicate Leads<S(!new), T>(next: (S, T, S) -> bool, s: S, steps: seq<T>, s': S)
    decreases |steps|, 1
  {
    if steps == [] then s' == s else exists m :: LeadsVia(next, s, steps, m, s')
  }

  /** All but the last step end in `m`. */
  ghost predicate LeadsVia<S(!new), T>(next: (S, T, S) -> bool, s: S, steps: seq<T>, m: S, s': S)
    requires steps != []
    decreases |steps|, 0
  {
    Leads(next, s, steps[..|steps| - 1], m) && next(m, steps[|steps| - 1], s')
  }

  lemma LeadsNowhere<S(!new), T>(next: (S, T, S) -> bool, s: S)
    ensures Leads(next, s, [], s)
  {
  }

  lemma LeadsThen<S(!new), T>(next: (S, T, S) -> bool, s: S, steps: seq<T>, m: S, step: T, s': S)
    requires Leads(next, s, steps, m) && next(m, step, s')
    ensures Leads(next, s, steps + [step], s')
  {
    assert (steps + [step])[..|steps|] == steps;
    assert LeadsVia(next, s, steps + [step], m, s');
  }

  lemma LeadsByTwo<S(!new), T>(next: (S, T, S) -> bool, s: S, a: T, s1: S, b: T, s2: S)
    requires next(s, a, s1) && next(s1, b, s2)
    ensures Leads(next, s, [a, b], s2)
  {
    LeadsNowhere(next, s);
    LeadsThen(next, s, [], s, a, s1);
    LeadsThen(next, s, [] + [a], s1, b, s2);
    assert [] + [a] + [b] == [a, b];
  }

  lemma LeadsByThree<S(!new), T>(next: (S, T, S) -> bool, s: S, a: T, s1: S, b: T, s2: S, c: T, s3: S)
    requires next(s, a, s1) && next(s1, b, s2) && next(s2, c, s3)
    ensures Leads(next, s, [a, b, c], s3)
  {
    LeadsByTwo(next, s, a, s1, b, s2);
    LeadsThen(next, s, [a, b], s2, c, s3);
    assert [a, b] + [c] == [a, b, c];
  }

  lemma LeadsByFour<S(!new), T>(next: (S, T, S) -> bool, s: S, a: T, s1: S, b: T, s2: S, c: T, s3: S, d: T, s4: S)
    requires next(s, a, s1) && next(s1, b, s2) && next(s2, c, s3) && next(s3, d, s4)
    ensures Leads(next, s, [a, b, c, d], s4)
  {
    LeadsByThree(next, s, a, s1, b, s2, c, s3);
    LeadsThen(next, s, [a, b, c], s3, d, s4);
    assert [a, b, c] + [d] == [a, b, c, d];
  }

  lemma {:induction false} LeadsOn<S(!new), T>(next: (S, T, S) -> bool, s: S, a: seq<T>, m: S, b: seq<T>, s': S)
    requires Leads(next, s, a, m) && Leads(next, m, b, s')
    ensures Leads(next, s, a + b, s')
    decreases |b|
  {
    if b == [] {
      assert a + b == a;
    } else {
      var n :| LeadsVia(next, m, b, n, s');
      LeadsOn(next, s, a, m, b[..|b| - 1], n);
      LeadsThen(next, s, a + b[..|b| - 1], n, b[|b| - 1], s');
      assert a + b[..|b| - 1] + [b[|b| - 1]] == a + b;
    }
  }

  /** The states passed on the way. */
  lemma {:induction false} LeadsTakesItsSteps<S(!new), T>(next: (S, T, S) -> bool, s: S, steps: seq<T>, s': S)
    returns (states: seq<S>)
    requires Leads(next, s, steps, s')
    ensures |states| == |steps| + 1 && states[0] == s && states[|steps|] == s'
    ensures forall k :: 0 <= k < |steps| ==> next(states[k], steps[k], states[k + 1])
    decreases |steps|
  {
    if steps == [] {
      states := [s];
    } else {
      var last := |steps| - 1;
      var m :| LeadsVia(next, s, steps, m, s');
      states := LeadsTakesItsSteps(next, s, steps[..last], m);
      states := states + [s'];
      forall k | 0 <= k < |steps| ensures next(states[k], steps[k], states[k + 1]) {
        if k < last {
          assert steps[..last][k] == steps[k];
        }
      }
    }
  }
}
