/** The guard that opens a batch where there is none and ends it at the end of its scope. */
module LockedTransactions {
  import opened Wrappers

  // ----- the database's batch

  datatype How = Stop | Abort

  /** A call that ends a batch may do so, or throw before ending it, or throw after having ended it. */
  datatype CallResult = Ends | ThrowsKeeping | ThrowsEnded

  /** Batches are numbered; an end names the batch, the call, and the calling guard by the batch that it started. */
  datatype Event = Started(id: nat) | Ended(id: nat, how: How, threw: bool, owner: nat)

  datatype Batches = Batches(current: Option<nat>, next: nat, log: seq<Event>)

  const NO_BATCHES := Batches(None, 0, [])

  function Opened(b: Batches): Batches
  {
    if b.current.Some? then b else Batches(Some(b.next), b.next + 1, b.log + [Started(b.next)])
  }

  class Database {
    var state: Batches

    constructor ()
      ensures state == NO_BATCHES
    {
      state := NO_BATCHES;
    }

    /** `batch_start`: whether it started one; None is a throw. */
    method BatchStart(throws: bool) returns (r: Option<bool>)
      modifies this
      ensures r == if throws then None else Some(old(state).current.None?)
      ensures state == if throws then old(state) else Opened(old(state))
    {
      if throws {
        return None;
      }
      if state.current.Some? {
        return Some(false);
      }
      state := Batches(Some(state.next), state.next + 1, state.log + [Started(state.next)]);
      return Some(true);
    }

    /** `batch_stop` and `batch_abort`; false is a throw. */
    method BatchEnd(how: How, owner: nat, result: CallResult) returns (ok: bool)
      modifies this
      ensures ok == (old(state).current.Some? && result == Ends)
      ensures state == if old(state).current.None? || result == ThrowsKeeping then old(state) else
                         Batches(None, old(state).next,
                                 old(state).log + [Ended(old(state).current.value, how, result == ThrowsEnded, owner)])
    {
      if state.current.None? || result == ThrowsKeeping {
        return false;
      }
      state := Batches(None, state.next, state.log + [Ended(state.current.value, how, result == ThrowsEnded, owner)]);
      return result == Ends;
    }
  }

  // ----- the guard

  /** The batch that the guard started, if it did, and whether it may still have to end it. */
  datatype Guard = Guard(started: Option<nat>, active: bool)

  /** Whether a call on the guard ends whatever batch is in progress. */
  predicate CanEnd(g: Guard, result: CallResult)
  {
    g.started.Some? && g.active && result != ThrowsKeeping
  }

  /** What `commit` or `abort` does to the batch and to the guard. */
  function End(b: Batches, g: Guard, how: How, result: CallResult): (Batches, Guard)
  {
    if CanEnd(g, result) && b.current.Some? then
      (Batches(None, b.next, b.log + [Ended(b.current.value, how, result == ThrowsEnded, g.started.value)]),
       g.(active := result == ThrowsEnded))
    else (b, g)
  }

  class LockedTxn {
    const db: Database
    var guard: Guard

    constructor (db: Database, started: Option<nat>)
      ensures this.db == db && guard == Guard(started, true)
    {
      this.db, guard := db, Guard(started, true);
    }

    /** The constructor of `LockedTXN`; a throw leaves no guard. */
    static method Open(db: Database, throws: bool) returns (r: Option<LockedTxn>)
      modifies db
      ensures r.None? <==> throws
      ensures r.Some? ==> fresh(r.value) && r.value.db == db && r.value.guard == Fresh(old(db.state))
      ensures db.state == if throws then old(db.state) else Opened(old(db.state))
    {
      var batch := db.BatchStart(throws);
      if batch.None? {
        return None;
      }
      var g := new LockedTxn(db, if batch.value then Some(db.state.next - 1) else None);
      return Some(g);
    }

    /** `commit`; exceptions are filtered. */
    method Commit(result: CallResult)
      modifies this, db
      ensures (db.state, guard) == End(old(db.state), old(guard), Stop, result)
    {
      if guard.started.Some? && guard.active {
        var ok := db.BatchEnd(Stop, guard.started.value, result);
        if ok {
          guard := guard.(active := false);
        }
      }
    }

    /** `abort`, which is also the destructor; exceptions are filtered. */
    method Abort(result: CallResult)
      modifies this, db
      ensures (db.state, guard) == End(old(db.state), old(guard), How.Abort, result)
    {
      if guard.started.Some? && guard.active {
        var ok := db.BatchEnd(How.Abort, guard.started.value, result);
        if ok {
          guard := guard.(active := false);
        }
      }
    }
  }

  // ----- scopes

  /** What the code inside scopes does: a call on any guard in scope, counted from the outermost, an exception,
      or a scope with a guard of its own. A call on a guard that is not in scope does nothing. */
  datatype Action =
    | Call(guard: nat, how: How, result: CallResult)
    | Raise
    | Scope(startThrows: bool, body: seq<Action>, endResult: CallResult)

  /** The batch, the guards in scope, and whether an exception is on its way. */
  datatype State = State(b: Batches, gs: seq<Guard>, raised: bool)

  function Fresh(b: Batches): Guard
  {
    Guard(if b.current.None? then Some(b.next) else None, true)
  }

  /** One action. The destructor of a scope's guard runs however the scope is left. */
  function Exec(b: Batches, gs: seq<Guard>, a: Action): (s: State)
    ensures |s.gs| == |gs|
    decreases a
  {
    match a
    case Call(k, how, result) =>
      if k >= |gs| then State(b, gs, false) else
        var (b', g) := End(b, gs[k], how, result);
        State(b', gs[k := g], false)
    case Raise => State(b, gs, true)
    case Scope(startThrows, body, endResult) =>
      if startThrows then State(b, gs, true) else
        var s := ExecAll(Opened(b), gs + [Fresh(b)], body);
        State(End(s.b, s.gs[|gs|], Abort, endResult).0, s.gs[..|gs|], s.raised)
  }

  /** Actions in order, up to an exception. */
  function ExecAll(b: Batches, gs: seq<Guard>, actions: seq<Action>): (s: State)
    ensures |s.gs| == |gs|
    decreases actions
  {
    if actions == [] then State(b, gs, false) else
      var s := Exec(b, gs, actions[0]);
      if s.raised then s else ExecAll(s.b, s.gs, actions[1..])
  }

  // ----- the same with objects

  ghost function Guards(gs: seq<LockedTxn>): (r: seq<Guard>)
    reads gs
    ensures |r| == |gs|
  {
    seq(|gs|, i requires 0 <= i < |gs| reads gs => gs[i].guard)
  }

  ghost predicate OnOne(db: Database, gs: seq<LockedTxn>)
  {
    && (forall i :: 0 <= i < |gs| ==> gs[i].db == db)
    && (forall i, j :: 0 <= i < j < |gs| ==> gs[i] != gs[j])
  }

  /** Carrying out an action with guards and database does what `Exec` says. */
  method Perform(db: Database, gs: seq<LockedTxn>, a: Action) returns (raised: bool)
    requires OnOne(db, gs)
    modifies db, gs
    ensures State(db.state, Guards(gs), raised) == Exec(old(db.state), old(Guards(gs)), a)
    decreases a
  {
    match a {
      case Call(k, how, result) =>
        if k < |gs| {
          ghost var before := Guards(gs);
          if how == Stop {
            gs[k].Commit(result);
          } else {
            gs[k].Abort(result);
          }
          assert Guards(gs) == before[k := gs[k].guard];
        }
        return false;
      case Raise =>
        return true;
      case Scope(startThrows, body, endResult) =>
        var inner := LockedTxn.Open(db, startThrows);
        if inner.None? {
          return true;
        }
        var g := inner.value;
        assert Guards(gs + [g]) == old(Guards(gs)) + [g.guard];
        raised := PerformAll(db, gs + [g], body);
        assert Guards(gs) == Guards(gs + [g])[..|gs|];
        assert g.guard == Guards(gs + [g])[|gs|];
        ghost var left := Guards(gs);
        g.Abort(endResult);
        assert Guards(gs) == left;
    }
  }

  method PerformAll(db: Database, gs: seq<LockedTxn>, actions: seq<Action>) returns (raised: bool)
    requires OnOne(db, gs)
    modifies db, gs
    ensures State(db.state, Guards(gs), raised) == ExecAll(old(db.state), old(Guards(gs)), actions)
    decreases actions
  {
    if actions == [] {
      return false;
    }
    raised := Perform(db, gs, actions[0]);
    if !raised {
      raised := PerformAll(db, gs, actions[1..]);
    }
  }

  // ----- logs

  /** Batches are numbered in order, one is in progress at a time, and each is ended at most once. */
  predicate IsLog(log: seq<Event>, current: Option<nat>, next: nat)
    decreases |log|
  {
    if log == [] then current.None? && next == 0 else
      var init, last := log[..|log| - 1], log[|log| - 1];
      match last
      case Started(id) => current == Some(id) && next == id + 1 && IsLog(init, None, id)
      case Ended(id, _, _, owner) => current.None? && owner < next && IsLog(init, Some(id), next)
  }

  predicate Legal(b: Batches)
  {
    IsLog(b.log, b.current, b.next)
  }

  /** How often a batch was ended. */
  function TimesEnded(log: seq<Event>, id: nat): nat
  {
    if log == [] then 0 else
      var last := log[|log| - 1];
      TimesEnded(log[..|log| - 1], id) + if last.Ended? && last.id == id then 1 else 0
  }

  /** Batches that were started and are not in progress have been ended exactly once. */
  lemma {:induction false} EndedOnce(log: seq<Event>, current: Option<nat>, next: nat, id: nat)
    requires IsLog(log, current, next)
    ensures TimesEnded(log, id) == if id < next && current != Some(id) then 1 else 0
    ensures current.Some? ==> current.value < next
    decreases |log|
  {
    if log != [] {
      var init := log[..|log| - 1];
      match log[|log| - 1] {
        case Started(k) => EndedOnce(init, None, k, id);
        case Ended(k, _, _, _) => EndedOnce(init, Some(k), next, id);
      }
    }
  }

  lemma {:induction false} OwnersBelow(log: seq<Event>, current: Option<nat>, next: nat)
    requires IsLog(log, current, next)
    ensures forall i :: 0 <= i < |log| && log[i].Ended? ==> log[i].owner < next
    decreases |log|
  {
    if log != [] {
      var init := log[..|log| - 1];
      assert forall i :: 0 <= i < |init| ==> init[i] == log[i];
      match log[|log| - 1] {
        case Started(k) => OwnersBelow(init, None, k);
        case Ended(k, _, _, _) => OwnersBelow(init, Some(k), next);
      }
    }
  }

  // ----- what every step keeps

  /** Some call on the guard that started batch `m` has ended a batch without throwing. */
  ghost predicate Succeeded(log: seq<Event>, m: nat)
  {
    exists i :: 0 <= i < |log| && log[i].Ended? && log[i].owner == m && !log[i].threw
  }

  lemma {:induction false} SucceededSnoc(log: seq<Event>, e: Event, m: nat)
    ensures Succeeded(log + [e], m) <==> Succeeded(log, m) || (e.Ended? && e.owner == m && !e.threw)
  {
    var all := log + [e];
    if Succeeded(log, m) {
      var i :| 0 <= i < |log| && log[i].Ended? && log[i].owner == m && !log[i].threw;
      assert all[i] == log[i];
    }
    assert all[|log|] == e;
    assert forall i :: 0 <= i < |log| ==> all[i] == log[i];
  }

  /** A guard is active until a call on it succeeds, and by then its batch has been ended. */
  ghost predicate GuardOk(b: Batches, g: Guard)
  {
    if g.started.None? then g.active else
      var m := g.started.value;
      m < b.next && (g.active <==> !Succeeded(b.log, m)) && (!g.active ==> b.current != Some(m))
  }

  ghost predicate Consistent(b: Batches, gs: seq<Guard>)
  {
    && Legal(b)
    && (forall i :: 0 <= i < |gs| ==> GuardOk(b, gs[i]))
    && (forall i, j :: 0 <= i < j < |gs| && gs[i].started.Some? ==> gs[i].started != gs[j].started)
  }

  lemma {:induction false} LegalEnd(b: Batches, g: Guard, how: How, result: CallResult)
    requires Legal(b) && GuardOk(b, g)
    ensures Legal(End(b, g, how, result).0) && GuardOk(End(b, g, how, result).0, End(b, g, how, result).1)
  {
    if CanEnd(g, result) && b.current.Some? {
      var e := Ended(b.current.value, how, result == ThrowsEnded, g.started.value);
      assert (b.log + [e])[..|b.log|] == b.log;
      SucceededSnoc(b.log, e, g.started.value);
    }
  }

  lemma {:induction false} OtherGuard(b: Batches, g: Guard, how: How, result: CallResult, other: Guard)
    requires GuardOk(b, other) && (g.started.Some? ==> other.started != g.started)
    ensures GuardOk(End(b, g, how, result).0, other)
  {
    if CanEnd(g, result) && b.current.Some? && other.started.Some? {
      SucceededSnoc(b.log, Ended(b.current.value, how, result == ThrowsEnded, g.started.value), other.started.value);
    }
  }

  lemma {:induction false} CallKeeps(b: Batches, gs: seq<Guard>, k: nat, how: How, result: CallResult)
    requires Consistent(b, gs) && k < |gs|
    ensures var (b', g) := End(b, gs[k], how, result); Consistent(b', gs[k := g])
  {
    LegalEnd(b, gs[k], how, result);
    forall i | 0 <= i < |gs| && i != k
      ensures GuardOk(End(b, gs[k], how, result).0, gs[i])
    {
      OtherGuard(b, gs[k], how, result, gs[i]);
    }
  }

  lemma {:induction false} FreshKeeps(b: Batches, gs: seq<Guard>)
    requires Consistent(b, gs)
    ensures Consistent(Opened(b), gs + [Fresh(b)])
  {
    if b.current.None? {
      var e := Started(b.next);
      assert (b.log + [e])[..|b.log|] == b.log;
      OwnersBelow(b.log, b.current, b.next);
      SucceededSnoc(b.log, e, b.next);
      forall i | 0 <= i < |gs| && gs[i].started.Some?
        ensures GuardOk(Opened(b), gs[i])
      {
        SucceededSnoc(b.log, e, gs[i].started.value);
      }
    }
  }

  lemma {:induction false} ExecKeeps(b: Batches, gs: seq<Guard>, a: Action)
    requires Consistent(b, gs)
    ensures Consistent(Exec(b, gs, a).b, Exec(b, gs, a).gs)
    decreases a
  {
    match a {
      case Call(k, how, result) => if k < |gs| { CallKeeps(b, gs, k, how, result); }
      case Raise =>
      case Scope(startThrows, body, endResult) =>
        if !startThrows {
          FreshKeeps(b, gs);
          ExecAllKeeps(Opened(b), gs + [Fresh(b)], body);
          var s := ExecAll(Opened(b), gs + [Fresh(b)], body);
          CallKeeps(s.b, s.gs, |gs|, Abort, endResult);
        }
    }
  }

  /** Over every run, with any calls on any guards in scope and any outcomes, each batch is ended at most once, and
      a guard is active exactly until a call on it ends a batch without throwing. */
  lemma {:induction false} ExecAllKeeps(b: Batches, gs: seq<Guard>, actions: seq<Action>)
    requires Consistent(b, gs)
    ensures Consistent(ExecAll(b, gs, actions).b, ExecAll(b, gs, actions).gs)
    decreases actions
  {
    if actions != [] {
      ExecKeeps(b, gs, actions[0]);
      var s := Exec(b, gs, actions[0]);
      if !s.raised { ExecAllKeeps(s.b, s.gs, actions[1..]); }
    }
  }

  /** Over every run, a batch that was started and is not in progress has been ended exactly once. */
  lemma {:induction false} RunsEndOnce(actions: seq<Action>, id: nat)
    ensures var b := ExecAll(NO_BATCHES, [], actions).b;
            TimesEnded(b.log, id) == if id < b.next && b.current != Some(id) then 1 else 0
  {
    ExecAllKeeps(NO_BATCHES, [], actions);
    var b := ExecAll(NO_BATCHES, [], actions).b;
    EndedOnce(b.log, b.current, b.next, id);
  }

  lemma {:induction false} LogGrows(b: Batches, gs: seq<Guard>, a: Action)
    ensures b.log <= Exec(b, gs, a).b.log
    decreases a
  {
    if a.Scope? && !a.startThrows { LogGrowsAll(Opened(b), gs + [Fresh(b)], a.body); }
  }

  lemma {:induction false} LogGrowsAll(b: Batches, gs: seq<Guard>, actions: seq<Action>)
    ensures b.log <= ExecAll(b, gs, actions).b.log
    decreases actions
  {
    if actions != [] {
      LogGrows(b, gs, actions[0]);
      var s := Exec(b, gs, actions[0]);
      if !s.raised { LogGrowsAll(s.b, s.gs, actions[1..]); }
    }
  }

  // ----- who ends the batch in progress

  /** Whether an exception leaves the action. */
  predicate Raises(a: Action)
    decreases a
  {
    a.Raise? || (a.Scope? && (a.startThrows || RaisesAny(a.body)))
  }

  predicate RaisesAny(actions: seq<Action>)
    decreases actions
  {
    actions != [] && (Raises(actions[0]) || RaisesAny(actions[1..]))
  }

  lemma {:induction false} RaisedExactly(b: Batches, gs: seq<Guard>, a: Action)
    ensures Exec(b, gs, a).raised == Raises(a)
    decreases a
  {
    if a.Scope? && !a.startThrows { RaisedExactlyAll(Opened(b), gs + [Fresh(b)], a.body); }
  }

  lemma {:induction false} RaisedExactlyAll(b: Batches, gs: seq<Guard>, actions: seq<Action>)
    ensures ExecAll(b, gs, actions).raised == RaisesAny(actions)
    decreases actions
  {
    if actions != [] {
      RaisedExactly(b, gs, actions[0]);
      var s := Exec(b, gs, actions[0]);
      if !s.raised { RaisedExactlyAll(s.b, s.gs, actions[1..]); }
    }
  }

  /** A guard whose `batch_start` returned false. */
  const BYSTANDER := Guard(None, true)

  datatype EndCall = EndCall(how: How, threw: bool, owner: nat) {
    function Event(id: nat): Event
    {
      Ended(id, how, threw, owner)
    }
  }

  /** The first call, in these actions or the scopes nested in them, that can end the batch in progress: one on an
      active guard that started a batch, whether it throws afterwards or not. */
  function FirstEnd(gs: seq<Guard>, actions: seq<Action>): Option<EndCall>
    decreases actions
  {
    if actions == [] then None else
      match actions[0]
      case Call(k, how, result) =>
        if k < |gs| && CanEnd(gs[k], result) then Some(EndCall(how, result == ThrowsEnded, gs[k].started.value))
        else FirstEnd(gs, actions[1..])
      case Raise => None
      case Scope(startThrows, body, _) =>
        if startThrows then None else
          var e := FirstEnd(gs + [BYSTANDER], body);
          if e.Some? || RaisesAny(body) then e else FirstEnd(gs, actions[1..])
  }

  /** While a batch is in progress nothing happens, in any nested scope, until the first call that can end it,
      which does. */
  lemma {:induction false} NothingUntilFirstEnd(b: Batches, gs: seq<Guard>, actions: seq<Action>)
    requires b.current.Some?
    ensures var s := ExecAll(b, gs, actions);
            match FirstEnd(gs, actions)
            case None => s.b == b && s.gs == gs
            case Some(e) => b.log + [e.Event(b.current.value)] <= s.b.log
    decreases actions
  {
    if actions != [] {
      var a, rest := actions[0], actions[1..];
      var s := Exec(b, gs, a);
      LogGrowsAll(s.b, s.gs, rest);
      RaisedExactly(b, gs, a);
      match a {
        case Call(k, how, result) =>
          if k < |gs| && !CanEnd(gs[k], result) { assert gs[k := gs[k]] == gs; }
          if s.b == b { NothingUntilFirstEnd(b, gs, rest); }
        case Raise =>
        case Scope(startThrows, body, endResult) =>
          if !startThrows {
            NothingUntilFirstEnd(b, gs + [BYSTANDER], body);
            if s.b == b && s.gs == gs && !s.raised { NothingUntilFirstEnd(b, gs, rest); }
          }
      }
    }
  }

  /** The guards outside are the only ones that can end a batch in progress: no scope nested in it
      does so by its own guard. */
  lemma {:induction false} EndedFromOutside(gs: seq<Guard>, actions: seq<Action>)
    requires FirstEnd(gs, actions).Some?
    ensures exists k :: 0 <= k < |gs| && gs[k].active && gs[k].started == Some(FirstEnd(gs, actions).value.owner)
    decreases actions
  {
    match actions[0] {
      case Call(k, how, result) => if !(k < |gs| && CanEnd(gs[k], result)) { EndedFromOutside(gs, actions[1..]); }
      case Scope(_, body, _) =>
        var inner := gs + [BYSTANDER];
        if FirstEnd(inner, body).Some? {
          EndedFromOutside(inner, body);
          var k :| 0 <= k < |inner| && inner[k].active && inner[k].started == Some(FirstEnd(inner, body).value.owner);
          assert k < |gs| && inner[k] == gs[k];
        } else {
          EndedFromOutside(gs, actions[1..]);
        }
    }
  }

  /** A scope inside a batch leaves it alone if and only if no call on an enclosing guard in it can end the batch;
      its own guard never does. */
  lemma {:induction false} ScopeInBatch(b: Batches, gs: seq<Guard>, a: Action)
    requires b.current.Some? && a.Scope?
    ensures Exec(b, gs, a).b == b <==> FirstEnd(gs, [a]).None?
    ensures FirstEnd(gs, [a]).Some? ==>
              exists k :: 0 <= k < |gs| && gs[k].active && gs[k].started == Some(FirstEnd(gs, [a]).value.owner)
  {
    NothingUntilFirstEnd(b, gs, [a]);
    assert ExecAll(b, gs, [a]).b == Exec(b, gs, a).b by {
      assert [a][1..] == [];
    }
    if FirstEnd(gs, [a]).Some? { EndedFromOutside(gs, [a]); }
  }

  lemma {:induction false} TimesEndedGrows(log: seq<Event>, more: seq<Event>, id: nat)
    requires log <= more
    ensures TimesEnded(log, id) <= TimesEnded(more, id)
    decreases |more|
  {
    if |log| < |more| {
      TimesEndedGrows(log, more[..|more| - 1], id);
    } else {
      assert log == more;
    }
  }

  /** The batch that a scope's guard starts is the next to be ended: by the first call that can end it, on this
      guard or on one around it, or else by the destructor. */
  lemma {:induction false} NextEnd(b: Batches, gs: seq<Guard>, a: Action)
    requires b.current.None? && a.Scope? && !a.startThrows
    ensures match FirstEnd(gs + [Fresh(b)], a.body)
            case None => Exec(b, gs, a).b == End(Opened(b), Fresh(b), Abort, a.endResult).0
            case Some(e) => Opened(b).log + [e.Event(b.next)] <= Exec(b, gs, a).b.log
  {
    NothingUntilFirstEnd(Opened(b), gs + [Fresh(b)], a.body);
  }

  /** By the end of the scope that batch has been ended exactly once, if and only if there was such a call or the
      destructor did not throw before ending it. */
  lemma {:induction false} EndedOnceByExit(b: Batches, gs: seq<Guard>, a: Action)
    requires Consistent(b, gs) && b.current.None? && a.Scope? && !a.startThrows
    ensures TimesEnded(Exec(b, gs, a).b.log, b.next)
            == if FirstEnd(gs + [Fresh(b)], a.body).None? && a.endResult == ThrowsKeeping then 0 else 1
  {
    var after, start := Exec(b, gs, a).b, Opened(b);
    NextEnd(b, gs, a);
    ExecKeeps(b, gs, a);
    FreshKeeps(b, gs);
    EndedOnce(start.log, start.current, start.next, b.next);
    EndedOnce(after.log, after.current, after.next, b.next);
    match FirstEnd(gs + [Fresh(b)], a.body) {
      case Some(e) =>
        var upTo := start.log + [e.Event(b.next)];
        assert upTo[..|start.log|] == start.log;
        TimesEndedGrows(upTo, after.log, b.next);
      case None =>
        if a.endResult != ThrowsKeeping { assert after.log[..|start.log|] == start.log; }
    }
  }

  // ----- what scopes leave behind

  /** No destructor throws before ending the batch. */
  predicate EndsInTime(a: Action)
  {
    a.Scope? ==> a.endResult != ThrowsKeeping && forall i :: 0 <= i < |a.body| ==> EndsInTime(a.body[i])
  }

  /** A scope opens no batch that is still in progress at its end: there is the one from before, or none. */
  lemma {:induction false} ScopeReturns(b: Batches, gs: seq<Guard>, a: Action)
    requires Consistent(b, gs) && EndsInTime(a)
    ensures Exec(b, gs, a).b.current in {b.current, None}
    decreases a
  {
    if a.Scope? && !a.startThrows {
      FreshKeeps(b, gs);
      ExecAllKeeps(Opened(b), gs + [Fresh(b)], a.body);
      ScopesReturn(Opened(b), gs + [Fresh(b)], a.body);
      GuardsStay(Opened(b), gs + [Fresh(b)], a.body, |gs|);
      var s := ExecAll(Opened(b), gs + [Fresh(b)], a.body);
      DestructorReturns(b, s.b, s.gs[|gs|], a.endResult);
    }
  }

  lemma {:induction false} DestructorReturns(b: Batches, b': Batches, g: Guard, result: CallResult)
    requires b'.current in {Opened(b).current, None} && g.started == Fresh(b).started && GuardOk(b', g)
    requires result != ThrowsKeeping
    ensures End(b', g, Abort, result).0.current in {b.current, None}
  {
  }

  lemma {:induction false} ScopesReturn(b: Batches, gs: seq<Guard>, actions: seq<Action>)
    requires Consistent(b, gs) && forall i :: 0 <= i < |actions| ==> EndsInTime(actions[i])
    ensures ExecAll(b, gs, actions).b.current in {b.current, None}
    decreases actions
  {
    if actions != [] {
      ScopeReturns(b, gs, actions[0]);
      ExecKeeps(b, gs, actions[0]);
      var s := Exec(b, gs, actions[0]);
      if !s.raised { ScopesReturn(s.b, s.gs, actions[1..]); }
    }
  }

  /** A guard keeps the batch that it started. */
  lemma {:induction false} GuardStays(b: Batches, gs: seq<Guard>, a: Action, k: nat)
    requires k < |gs|
    ensures Exec(b, gs, a).gs[k].started == gs[k].started
    decreases a
  {
    if a.Scope? && !a.startThrows { GuardsStay(Opened(b), gs + [Fresh(b)], a.body, k); }
  }

  lemma {:induction false} GuardsStay(b: Batches, gs: seq<Guard>, actions: seq<Action>, k: nat)
    requires k < |gs|
    ensures ExecAll(b, gs, actions).gs[k].started == gs[k].started
    decreases actions
  {
    if actions != [] {
      GuardStays(b, gs, actions[0], k);
      var s := Exec(b, gs, actions[0]);
      if !s.raised { GuardsStay(s.b, s.gs, actions[1..], k); }
    }
  }

  // ----- a guard that ends a batch of another

  /** An end by a guard that did not start the batch. */
  predicate Foreign(e: Event)
  {
    e.Ended? && e.owner != e.id
  }

  /** A call ends a batch that its guard did not start if and only if it does not throw before ending one, a batch is in
      progress, the guard's own batch has already been ended, and no earlier call on the guard succeeded. */
  lemma {:induction false} EndsForeignBatch(b: Batches, gs: seq<Guard>, k: nat, how: How, result: CallResult)
    requires Consistent(b, gs) && k < |gs| && gs[k].started.Some?
    ensures var log, m := End(b, gs[k], how, result).0.log, gs[k].started.value;
            (|log| > |b.log| && Foreign(log[|log| - 1])) <==>
            result != ThrowsKeeping && b.current.Some? && TimesEnded(b.log, m) == 1 && !Succeeded(b.log, m)
  {
    EndedOnce(b.log, b.current, b.next, gs[k].started.value);
  }

  /** The end of a batch that was started and is no longer in progress. */
  lemma {:induction false} FindEnd(log: seq<Event>, id: nat) returns (i: nat)
    requires TimesEnded(log, id) > 0
    ensures i < |log| && log[i].Ended? && log[i].id == id
  {
    var last := log[|log| - 1];
    if last.Ended? && last.id == id {
      i := |log| - 1;
    } else {
      i := FindEnd(log[..|log| - 1], id);
    }
  }

  /** A call by which a guard ended its own batch and threw. */
  predicate OwnFailure(e: Event)
  {
    e.Ended? && e.threw && e.owner == e.id
  }

  /** Before every foreign end some guard's own call ended its batch and threw. */
  ghost predicate FailureFirst(log: seq<Event>)
  {
    forall i :: 0 <= i < |log| && Foreign(log[i]) ==> exists j :: 0 <= j < i && OwnFailure(log[j])
  }

  lemma {:induction false} FailureBefore(b: Batches, g: Guard)
    requires Legal(b) && GuardOk(b, g) && FailureFirst(b.log)
    requires g.started.Some? && g.active && b.current != g.started
    ensures exists j :: 0 <= j < |b.log| && OwnFailure(b.log[j])
  {
    var m := g.started.value;
    EndedOnce(b.log, b.current, b.next, m);
    var i := FindEnd(b.log, m);
    if b.log[i].owner == m {
      assert b.log[i].threw;
      assert OwnFailure(b.log[i]);
    } else {
      assert Foreign(b.log[i]);
    }
  }

  lemma {:induction false} EndKeepsFailureFirst(b: Batches, g: Guard, how: How, result: CallResult)
    requires Legal(b) && GuardOk(b, g) && FailureFirst(b.log)
    ensures FailureFirst(End(b, g, how, result).0.log)
  {
    var log := End(b, g, how, result).0.log;
    assert forall i :: 0 <= i < |b.log| ==> log[i] == b.log[i];
    if |log| > |b.log| && Foreign(log[|b.log|]) {
      FailureBefore(b, g);
      var j :| 0 <= j < |b.log| && OwnFailure(b.log[j]);
      assert OwnFailure(log[j]);
    }
    forall i | 0 <= i < |b.log| && Foreign(log[i])
      ensures exists j :: 0 <= j < i && OwnFailure(log[j])
    {
      var j :| 0 <= j < i && OwnFailure(b.log[j]);
      assert OwnFailure(log[j]);
    }
  }

  lemma {:induction false} StartKeepsFailureFirst(b: Batches)
    requires FailureFirst(b.log)
    ensures FailureFirst(Opened(b).log)
  {
    var log := Opened(b).log;
    assert forall i :: 0 <= i < |b.log| ==> log[i] == b.log[i];
    forall i | 0 <= i < |log| && Foreign(log[i])
      ensures exists j :: 0 <= j < i && OwnFailure(log[j])
    {
      var j :| 0 <= j < i && OwnFailure(b.log[j]);
      assert OwnFailure(log[j]);
    }
  }

  lemma {:induction false} ExecKeepsFailureFirst(b: Batches, gs: seq<Guard>, a: Action)
    requires Consistent(b, gs) && FailureFirst(b.log)
    ensures FailureFirst(Exec(b, gs, a).b.log)
    decreases a
  {
    match a {
      case Call(k, how, result) => if k < |gs| { EndKeepsFailureFirst(b, gs[k], how, result); }
      case Raise =>
      case Scope(startThrows, body, endResult) =>
        if !startThrows {
          FreshKeeps(b, gs);
          StartKeepsFailureFirst(b);
          ForeignOnlyAfterFailure(Opened(b), gs + [Fresh(b)], body);
          ExecAllKeeps(Opened(b), gs + [Fresh(b)], body);
          var s := ExecAll(Opened(b), gs + [Fresh(b)], body);
          EndKeepsFailureFirst(s.b, s.gs[|gs|], Abort, endResult);
        }
    }
  }

  /** Over every run, a guard ends a batch that it did not start only after some guard's own call
      ended its batch and threw. */
  lemma {:induction false} ForeignOnlyAfterFailure(b: Batches, gs: seq<Guard>, actions: seq<Action>)
    requires Consistent(b, gs) && FailureFirst(b.log)
    ensures FailureFirst(ExecAll(b, gs, actions).b.log)
    decreases actions
  {
    if actions != [] {
      ExecKeepsFailureFirst(b, gs, actions[0]);
      ExecKeeps(b, gs, actions[0]);
      var s := Exec(b, gs, actions[0]);
      if !s.raised { ForeignOnlyAfterFailure(s.b, s.gs, actions[1..]); }
    }
  }

  /** No call throws after having ended a batch. */
  predicate NeverThrowsEnded(a: Action)
  {
    match a
    case Call(_, _, result) => result != ThrowsEnded
    case Raise => true
    case Scope(_, body, endResult) =>
      endResult != ThrowsEnded && forall i :: 0 <= i < |body| ==> NeverThrowsEnded(body[i])
  }

  ghost predicate NoneThrew(log: seq<Event>)
  {
    forall i :: 0 <= i < |log| && log[i].Ended? ==> !log[i].threw
  }

  lemma {:induction false} QuietAction(b: Batches, gs: seq<Guard>, a: Action)
    requires NoneThrew(b.log) && NeverThrowsEnded(a)
    ensures NoneThrew(Exec(b, gs, a).b.log)
    decreases a
  {
    if a.Scope? && !a.startThrows { QuietRun(Opened(b), gs + [Fresh(b)], a.body); }
  }

  lemma {:induction false} QuietRun(b: Batches, gs: seq<Guard>, actions: seq<Action>)
    requires NoneThrew(b.log) && forall i :: 0 <= i < |actions| ==> NeverThrowsEnded(actions[i])
    ensures NoneThrew(ExecAll(b, gs, actions).b.log)
    decreases actions
  {
    if actions != [] {
      QuietAction(b, gs, actions[0]);
      var s := Exec(b, gs, actions[0]);
      if !s.raised { QuietRun(s.b, s.gs, actions[1..]); }
    }
  }

  /** If no call throws after having ended a batch, every batch is ended by the guard that started it. */
  lemma {:induction false} OwnEndsOnly(actions: seq<Action>)
    requires forall i :: 0 <= i < |actions| ==> NeverThrowsEnded(actions[i])
    ensures var log := ExecAll(NO_BATCHES, [], actions).b.log; forall i :: 0 <= i < |log| ==> !Foreign(log[i])
  {
    QuietRun(NO_BATCHES, [], actions);
    ForeignOnlyAfterFailure(NO_BATCHES, [], actions);
  }

  /** A guard loses its batch to a `commit` that throws, and its `abort` inside a later scope
      ends the batch of that scope. */
  lemma {:induction false} ForeignEndHappens()
    ensures var inner := Scope(false, [Call(0, Abort, Ends)], Ends);
            var outer := Scope(false, [Call(0, Stop, ThrowsEnded), inner], Ends);
            Exec(NO_BATCHES, [], outer).b.log
            == [Started(0), Ended(0, Stop, true, 0), Started(1), Ended(1, Abort, false, 0)]
  {
    var inner := Scope(false, [Call(0, Abort, Ends)], Ends);
    var b1 := Opened(NO_BATCHES);
    var g0, g1 := Guard(Some(0), true), Guard(Some(1), true);
    var b2 := Batches(None, 1, [Started(0), Ended(0, Stop, true, 0)]);
    assert Exec(b1, [g0], Call(0, Stop, ThrowsEnded)) == State(b2, [g0], false);
    var b3 := Opened(b2);
    var b4 := Batches(None, 2, b3.log + [Ended(1, Abort, false, 0)]);
    assert Exec(b3, [g0, g1], Call(0, Abort, Ends)) == State(b4, [g0.(active := false), g1], false);
    assert [g0] + [g1] == [g0, g1];
    assert [Call(0, Abort, Ends)][1..] == [];
    assert ExecAll(b3, [g0, g1], [Call(0, Abort, Ends)]) == State(b4, [g0.(active := false), g1], false);
    assert Exec(b2, [g0], inner) == State(b4, [g0.(active := false)], false);
    assert [Call(0, Stop, ThrowsEnded), inner][1..] == [inner] && [inner][1..] == [];
    assert ExecAll(b2, [g0], [inner]) == State(b4, [g0.(active := false)], false);
    assert [] + [g0] == [g0];
  }

  /** After a `commit` that throws the guard stays active, so that the destructor tries to abort: it ends the batch
      if the `commit` did not, and finds none if it did. */
  lemma {:induction false} AbortAfterThrow(b: Batches, m: nat)
    requires b.current == Some(m)
    ensures var g := Guard(Some(m), true);
            && End(b, g, Stop, ThrowsKeeping) == (b, g)
            && End(b, g, Abort, Ends).0.log == b.log + [Ended(m, Abort, false, m)]
            && var (b', g') := End(b, g, Stop, ThrowsEnded);
               g' == g && b'.log == b.log + [Ended(m, Stop, true, m)] && End(b', g', Abort, Ends) == (b', g')
  {
  }
}
