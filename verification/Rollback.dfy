/** Loops of steps that may throw, and loops that take the steps back from the last to the first. */
module Rollback {
  import opened ChainTables

  // ----- a loop that stores, taken back by one that reports what it took

  /** Steps `0` to `n - 1`. */
  function Forward<S>(step: (S, nat) -> Outcome<S>, s: S, n: nat): Outcome<S>
  {
    if n == 0 then Done(s) else
      match Forward(step, s, n - 1)
      case Thrown(f) => Thrown(f)
      case Done(s') => step(s', n - 1)
  }

  /** Steps `n - 1` down to `0`, each reporting something. */
  function Backward<S, R>(undo: (S, nat) -> Outcome<(S, R)>, s: S, n: nat): Outcome<(S, seq<R>)>
    decreases n
  {
    if n == 0 then Done((s, [])) else
      match undo(s, n - 1)
      case Thrown(f) => Thrown(f)
      case Done((s', r)) =>
        match Backward(undo, s', n - 1)
        case Thrown(f) => Thrown(f)
        case Done((s'', rs)) => Done((s'', [r] + rs))
  }

  /** On states that satisfy the invariant, which the steps keep, each step can be taken back. */
  ghost predicate Undoes<S(!new), R>(undo: (S, nat) -> Outcome<(S, R)>, step: (S, nat) -> Outcome<S>,
                                     what: nat -> R, inv: S -> bool, n: nat)
  {
    forall s, i :: 0 <= i < n && inv(s) && step(s, i).Done? ==>
                     inv(step(s, i).value) && undo(step(s, i).value, i) == Done((s, what(i)))
  }

  function Countdown<R>(what: nat -> R, n: nat): seq<R>
  {
    if n == 0 then [] else [what(n - 1)] + Countdown(what, n - 1)
  }

  lemma {:induction false} BackwardUndoes<S(!new), R>(undo: (S, nat) -> Outcome<(S, R)>, step: (S, nat) -> Outcome<S>,
                                                      what: nat -> R, inv: S -> bool, s: S, n: nat)
    requires Undoes(undo, step, what, inv, n) && inv(s) && Forward(step, s, n).Done?
    ensures inv(Forward(step, s, n).value)
    ensures Backward(undo, Forward(step, s, n).value, n) == Done((s, Countdown(what, n)))
  {
    if n > 0 { BackwardUndoes(undo, step, what, inv, s, n - 1); }
  }

  /** From states with the invariant, which the steps keep: taking a step back from any state that looks like the one
      after it gives a state that looks like the one before it. */
  ghost predicate UndoesView<S(!new), R, V>(undo: (S, nat) -> Outcome<(S, R)>, step: (S, nat) -> Outcome<S>,
                                            what: nat -> R, inv: S -> bool, view: S -> V, n: nat)
  {
    && (forall s, i :: 0 <= i < n && inv(s) && step(s, i).Done? ==> inv(step(s, i).value))
    && forall s, s', i :: 0 <= i < n && inv(s) && step(s, i).Done? && view(s') == view(step(s, i).value) &&
                          undo(s', i).Done? ==>
                            view(undo(s', i).value.0) == view(s) && undo(s', i).value.1 == what(i)
  }

  lemma {:induction false} ForwardInvariant<S(!new), R, V>(
      undo: (S, nat) -> Outcome<(S, R)>, step: (S, nat) -> Outcome<S>, what: nat -> R, inv: S -> bool, view: S -> V,
      s: S, n: nat)
    requires UndoesView(undo, step, what, inv, view, n) && inv(s) && Forward(step, s, n).Done?
    ensures inv(Forward(step, s, n).value)
  {
    if n > 0 { ForwardInvariant(undo, step, what, inv, view, s, n - 1); }
  }

  lemma {:induction false} BackwardUndoesView<S(!new), R, V>(
      undo: (S, nat) -> Outcome<(S, R)>, step: (S, nat) -> Outcome<S>, what: nat -> R, inv: S -> bool, view: S -> V,
      s: S, s': S, n: nat)
    requires UndoesView(undo, step, what, inv, view, n) && inv(s) && Forward(step, s, n).Done?
    requires view(s') == view(Forward(step, s, n).value) && Backward(undo, s', n).Done?
    ensures view(Backward(undo, s', n).value.0) == view(s) && Backward(undo, s', n).value.1 == Countdown(what, n)
    decreases n
  {
    if n > 0 {
      ForwardInvariant(undo, step, what, inv, view, s, n - 1);
      BackwardUndoesView(undo, step, what, inv, view, s, undo(s', n - 1).value.0, n - 1);
    }
  }

  /** What no step changes, the loop does not change. */
  lemma {:induction false} ForwardKeeps<S(!new), V>(step: (S, nat) -> Outcome<S>, view: S -> V, s: S, n: nat)
    requires forall s', i :: 0 <= i < n && step(s', i).Done? ==> view(step(s', i).value) == view(s')
    requires Forward(step, s, n).Done?
    ensures view(Forward(step, s, n).value) == view(s)
  {
    if n > 0 { ForwardKeeps(step, view, s, n - 1); }
  }

  lemma {:induction false} BackwardKeeps<S(!new), R, V>(undo: (S, nat) -> Outcome<(S, R)>, view: S -> V, s: S, n: nat)
    requires forall s', i :: 0 <= i < n && undo(s', i).Done? ==> view(undo(s', i).value.0) == view(s')
    requires Backward(undo, s, n).Done?
    ensures view(Backward(undo, s, n).value.0) == view(s)
    decreases n
  {
    if n > 0 { BackwardKeeps(undo, view, undo(s, n - 1).value.0, n - 1); }
  }

  /** An invariant that every step carries one further. */
  lemma {:induction false} ForwardKeepsInvariant<S(!new)>(step: (S, nat) -> Outcome<S>, inv: (S, nat) -> bool,
                                                          s: S, n: nat)
    requires inv(s, 0) && Forward(step, s, n).Done?
    requires forall s', i :: 0 <= i < n && inv(s', i) && step(s', i).Done? ==> inv(step(s', i).value, i + 1)
    ensures inv(Forward(step, s, n).value, n)
  {
    if n > 0 { ForwardKeepsInvariant(step, inv, s, n - 1); }
  }

  function Sum(w: nat -> nat, n: nat): nat
  {
    if n == 0 then 0 else Sum(w, n - 1) + w(n - 1)
  }

  /** A measure that each step raises by its weight. */
  lemma {:induction false} ForwardCounts<S(!new)>(step: (S, nat) -> Outcome<S>, m: S -> nat,
                                                  w: nat -> nat, s: S, n: nat)
    requires forall s', i :: 0 <= i < n && step(s', i).Done? ==> m(step(s', i).value) == m(s') + w(i)
    requires Forward(step, s, n).Done?
    ensures m(Forward(step, s, n).value) == m(s) + Sum(w, n)
  {
    if n > 0 { ForwardCounts(step, m, w, s, n - 1); }
  }

  lemma {:induction false} SumBelow(w: nat -> nat, v: nat -> nat, n: nat)
    requires forall i: nat :: i < n ==> w(i) <= v(i)
    ensures Sum(w, n) <= Sum(v, n)
    ensures Sum(w, n) == Sum(v, n) <==> forall i: nat :: i < n ==> w(i) == v(i)
  {
    if n > 0 { SumBelow(w, v, n - 1); }
  }

  /** Each step back from a state that looks like the one after the step lowers the measure by its weight. */
  ghost predicate LowersView<S(!new), R, V>(undo: (S, nat) -> Outcome<(S, R)>, step: (S, nat) -> Outcome<S>,
                                            inv: S -> bool, view: S -> V, m: S -> nat, w: nat -> nat, n: nat)
  {
    forall s, s', i :: 0 <= i < n && inv(s) && step(s, i).Done? && view(s') == view(step(s, i).value) &&
                       undo(s', i).Done? ==>
                         m(s') == m(undo(s', i).value.0) + w(i)
  }

  lemma {:induction false} BackwardCounts<S(!new), R, V>(
      undo: (S, nat) -> Outcome<(S, R)>, step: (S, nat) -> Outcome<S>, what: nat -> R, inv: S -> bool, view: S -> V,
      m: S -> nat, w: nat -> nat, s: S, s': S, n: nat)
    requires UndoesView(undo, step, what, inv, view, n) && LowersView(undo, step, inv, view, m, w, n) && inv(s)
    requires Forward(step, s, n).Done? && view(s') == view(Forward(step, s, n).value) && Backward(undo, s', n).Done?
    ensures m(s') == m(Backward(undo, s', n).value.0) + Sum(w, n)
    decreases n
  {
    if n > 0 {
      ForwardInvariant(undo, step, what, inv, view, s, n - 1);
      BackwardCounts(undo, step, what, inv, view, m, w, s, undo(s', n - 1).value.0, n - 1);
    }
  }

  /** Every step of a loop that ends was taken. */
  lemma {:induction false} StepTaken<S>(step: (S, nat) -> Outcome<S>, s: S, n: nat, i: nat) returns (s': S)
    requires i < n && Forward(step, s, n).Done?
    ensures step(s', i).Done?
  {
    if i == n - 1 {
      s' := Forward(step, s, n - 1).value;
    } else {
      s' := StepTaken(step, s, n - 1, i);
    }
  }

  // ----- a loop that keeps a log, taken back with the help of the log

  /** Steps `0` to `n - 1`, with a log of what they returned. */
  function Logged<S, R>(step: (S, nat) -> Outcome<(S, R)>, s: S, n: nat): (r: Outcome<(S, seq<R>)>)
    ensures r.Done? ==> |r.value.1| == n
  {
    if n == 0 then Done((s, [])) else
      match Logged(step, s, n - 1)
      case Thrown(f) => Thrown(f)
      case Done((s', log)) =>
        match step(s', n - 1)
        case Thrown(f) => Thrown(f)
        case Done((s'', r)) => Done((s'', log + [r]))
  }

  /** Steps `n - 1` down to `0`, each with its entry in the log. */
  function Unlogged<S, R>(undo: (S, nat, R) -> Outcome<S>, s: S, log: seq<R>, n: nat): Outcome<S>
    requires n <= |log|
    decreases n
  {
    if n == 0 then Done(s) else
      match undo(s, n - 1, log[n - 1])
      case Thrown(f) => Thrown(f)
      case Done(s') => Unlogged(undo, s', log, n - 1)
  }

  ghost predicate Reverts<S(!new), R>(undo: (S, nat, R) -> Outcome<S>, step: (S, nat) -> Outcome<(S, R)>, n: nat)
  {
    forall s, i :: 0 <= i < n && step(s, i).Done? ==> undo(step(s, i).value.0, i, step(s, i).value.1) == Done(s)
  }

  lemma {:induction false} UnloggedReverts<S(!new), R>(undo: (S, nat, R) -> Outcome<S>,
                                                       step: (S, nat) -> Outcome<(S, R)>, s: S, log: seq<R>, n: nat)
    requires Reverts(undo, step, n) && Logged(step, s, n).Done? && Logged(step, s, n).value.1 <= log
    ensures Unlogged(undo, Logged(step, s, n).value.0, log, n) == Done(s)
  {
    if n > 0 { UnloggedReverts(undo, step, s, log, n - 1); }
  }

  lemma {:induction false} LoggedCounts<S(!new), R>(step: (S, nat) -> Outcome<(S, R)>, m: S -> nat,
                                                    w: nat -> nat, s: S, n: nat)
    requires forall s', i :: 0 <= i < n && step(s', i).Done? ==> m(step(s', i).value.0) == m(s') + w(i)
    requires Logged(step, s, n).Done?
    ensures m(Logged(step, s, n).value.0) == m(s) + Sum(w, n)
  {
    if n > 0 { LoggedCounts(step, m, w, s, n - 1); }
  }

  lemma {:induction false} UnloggedCounts<S(!new), R(!new)>(undo: (S, nat, R) -> Outcome<S>, m: S -> nat, w: nat -> nat,
                                                            s: S, log: seq<R>, n: nat)
    requires forall s', i, r :: 0 <= i < n && undo(s', i, r).Done? ==> m(s') == m(undo(s', i, r).value) + w(i)
    requires n <= |log| && Unlogged(undo, s, log, n).Done?
    ensures m(s) == m(Unlogged(undo, s, log, n).value) + Sum(w, n)
    decreases n
  {
    if n > 0 { UnloggedCounts(undo, m, w, undo(s, n - 1, log[n - 1]).value, log, n - 1); }
  }

  // ----- what loops leave

  /** `le` says that nothing is lost from one state to another, and what is recorded is not lost. */
  ghost predicate KeepsRecords<S(!new), R(!new)>(le: (S, S) -> bool, rec: (S, nat, R) -> bool)
  {
    && (forall s :: le(s, s))
    && (forall s, s', s'' :: le(s, s') && le(s', s'') ==> le(s, s''))
    && (forall s, s', i, r :: rec(s, i, r) && le(s, s') ==> rec(s', i, r))
  }

  lemma {:induction false} LoggedRecords<S(!new), R(!new)>(step: (S, nat) -> Outcome<(S, R)>, le: (S, S) -> bool,
                                                           rec: (S, nat, R) -> bool, s: S, n: nat)
    requires KeepsRecords(le, rec) && Logged(step, s, n).Done?
    requires forall s', i :: 0 <= i < n && step(s', i).Done? ==>
               le(s', step(s', i).value.0) && rec(step(s', i).value.0, i, step(s', i).value.1)
    ensures le(s, Logged(step, s, n).value.0)
    ensures forall i :: 0 <= i < n ==> rec(Logged(step, s, n).value.0, i, Logged(step, s, n).value.1[i])
  {
    if n > 0 { LoggedRecords(step, le, rec, s, n - 1); }
  }

  // ----- when loops succeed

  /** On states with the invariant, which the steps keep, each step succeeds exactly under its condition. */
  ghost predicate LogsExactly<S(!new), R>(step: (S, nat) -> Outcome<(S, R)>, inv: S -> bool, ok: nat -> bool, n: nat)
  {
    forall s, i :: 0 <= i < n && inv(s) ==>
                     step(s, i).Done? == ok(i) && (step(s, i).Done? ==> inv(step(s, i).value.0))
  }

  lemma {:induction false} LoggedExactly<S(!new), R>(step: (S, nat) -> Outcome<(S, R)>, inv: S -> bool, ok: nat -> bool,
                                                     s: S, n: nat)
    requires inv(s) && LogsExactly(step, inv, ok, n)
    ensures Logged(step, s, n).Done? <==> forall i: nat :: i < n ==> ok(i)
    ensures Logged(step, s, n).Done? ==> inv(Logged(step, s, n).value.0)
  {
    if n > 0 { LoggedExactly(step, inv, ok, s, n - 1); }
  }

  // ----- loops that stop early

  lemma {:induction false} ForwardThrows<S>(step: (S, nat) -> Outcome<S>, s: S, i: nat, n: nat)
    requires i <= n && Forward(step, s, i).Thrown?
    ensures Forward(step, s, n) == Forward(step, s, i)
  {
    if i < n { ForwardThrows(step, s, i, n - 1); }
  }

  /** A first step, and then a loop over the others. */
  lemma {:induction false} ForwardCons<S(!new)>(step: (S, nat) -> Outcome<S>, rest: (S, nat) -> Outcome<S>,
                                                s: S, n: nat)
    requires forall s', i :: 0 <= i < n ==> rest(s', i) == step(s', i + 1)
    ensures Forward(step, s, n + 1)
            == match step(s, 0) case Thrown(f) => Thrown(f) case Done(s') => Forward(rest, s', n)
  {
    if n == 0 {
      assert Forward(step, s, 0) == Done(s);
    } else {
      ForwardCons(step, rest, s, n - 1);
    }
  }

  lemma {:induction false} LoggedThrows<S, R>(step: (S, nat) -> Outcome<(S, R)>, s: S, i: nat, n: nat)
    requires i <= n && Logged(step, s, i).Thrown?
    ensures Logged(step, s, n) == Logged(step, s, i)
  {
    if i < n { LoggedThrows(step, s, i, n - 1); }
  }

  /** What is still to come after `taken`. */
  function Prepend<S, R>(taken: seq<R>, r: Outcome<(S, seq<R>)>): Outcome<(S, seq<R>)>
  {
    match r
    case Thrown(f) => Thrown(f)
    case Done((s, rs)) => Done((s, taken + rs))
  }

  lemma {:induction false} PrependNothing<S, R>(r: Outcome<(S, seq<R>)>)
    ensures Prepend([], r) == r
  {
    if r.Done? { assert [] + r.value.1 == r.value.1; }
  }

  lemma {:induction false} BackwardStep<S, R>(undo: (S, nat) -> Outcome<(S, R)>, s: S, n: nat, taken: seq<R>,
                                              s': S, r: R)
    requires n > 0 && undo(s, n - 1) == Done((s', r))
    ensures Prepend(taken, Backward(undo, s, n)) == Prepend(taken + [r], Backward(undo, s', n - 1))
  {
    if Backward(undo, s', n - 1).Done? {
      var rs := Backward(undo, s', n - 1).value.1;
      assert taken + ([r] + rs) == taken + [r] + rs;
    }
  }
}
