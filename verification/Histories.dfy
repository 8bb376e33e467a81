/** Stacks of items that were added one on another, up to a view of the state. */
module Histories {
  import opened ChainTables

  /** Each item was added to its state, and what followed looks like the state of the next item or,
      after the last, like `s`. */
  ghost predicate Tracked<S(!new), A, V>(add: (S, A) -> Outcome<S>, inv: S -> bool, view: S -> V, empty: S,
                                         s: S, items: seq<A>, befores: seq<S>)
    decreases |items|
  {
    if items == [] then befores == [] && view(s) == view(empty) else
      var n := |items| - 1;
      && |befores| == |items| && inv(befores[n])
      && add(befores[n], items[n]).Done? && view(add(befores[n], items[n]).value) == view(s)
      && Tracked(add, inv, view, empty, befores[n], items[..n], befores[..n])
  }

  lemma {:induction false} TrackedLike<S(!new), A, V>(add: (S, A) -> Outcome<S>, inv: S -> bool, view: S -> V, empty: S,
                                                      s: S, s': S, items: seq<A>, befores: seq<S>)
    requires Tracked(add, inv, view, empty, s, items, befores) && view(s') == view(s)
    ensures Tracked(add, inv, view, empty, s', items, befores)
  {
  }

  lemma {:induction false} TrackedPush<S(!new), A, V>(add: (S, A) -> Outcome<S>, inv: S -> bool, view: S -> V, empty: S,
                                                      s: S, a: A, s': S, items: seq<A>, befores: seq<S>)
    requires Tracked(add, inv, view, empty, s, items, befores) && inv(s) && add(s, a) == Done(s')
    ensures Tracked(add, inv, view, empty, s', items + [a], befores + [s])
  {
    assert |befores| == |items|;
    assert (items + [a])[..|items|] == items && (befores + [s])[..|items|] == befores;
  }

  /** A pop that succeeds on what looks like the state after an add leaves what looks like the state before it. */
  ghost predicate TakesBack<S(!new), A(!new), R, V>(pop: S -> Outcome<(S, R)>, what: A -> R, add: (S, A) -> Outcome<S>,
                                                    inv: S -> bool, view: S -> V)
  {
    forall s, a, s' :: inv(s) && add(s, a).Done? && view(s') == view(add(s, a).value) && pop(s').Done? ==>
                         view(pop(s').value.0) == view(s) && pop(s').value.1 == what(a)
  }

  lemma {:induction false} TrackedPop<S(!new), A(!new), R, V>(
      pop: S -> Outcome<(S, R)>, what: A -> R, add: (S, A) -> Outcome<S>, inv: S -> bool, view: S -> V, empty: S,
      s: S, items: seq<A>, befores: seq<S>)
    requires TakesBack(pop, what, add, inv, view) && Tracked(add, inv, view, empty, s, items, befores)
    requires items != [] && pop(s).Done?
    ensures var n := |items| - 1;
            && |befores| == |items| && pop(s).value.1 == what(items[n])
            && Tracked(add, inv, view, empty, pop(s).value.0, items[..n], befores[..n])
  {
    var n := |items| - 1;
    TrackedLike(add, inv, view, empty, befores[n], pop(s).value.0, items[..n], befores[..n]);
  }

  /** A property of views that every add carries to one more item holds of the tracked items. */
  ghost predicate Carries<S(!new), A(!new), V>(p: (V, seq<A>) -> bool, add: (S, A) -> Outcome<S>, inv: S -> bool,
                                               view: S -> V)
  {
    forall s, a, items :: inv(s) && p(view(s), items) && add(s, a).Done? ==> p(view(add(s, a).value), items + [a])
  }

  lemma {:induction false} TrackedHas<S(!new), A(!new), V>(
      p: (V, seq<A>) -> bool, add: (S, A) -> Outcome<S>, inv: S -> bool, view: S -> V, empty: S, s: S, items: seq<A>,
      befores: seq<S>)
    requires Carries(p, add, inv, view) && p(view(empty), []) && Tracked(add, inv, view, empty, s, items, befores)
    ensures p(view(s), items)
    decreases |items|
  {
    if items != [] {
      var n := |items| - 1;
      TrackedHas(p, add, inv, view, empty, befores[n], items[..n], befores[..n]);
      assert items == items[..n] + [items[n]];
    }
  }
}
