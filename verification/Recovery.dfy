/** Crash recovery: whatever the interleaving and wherever the crashes, a tree of `all`
    blocks comes to the result and the events of its uninterrupted run. */
module Recovery {
  import opened Text
  import opened Kernel
  import opened Generator
  import opened Lanes
  import opened Journal
  import opened RunPlan
  import opened PlanIndex
  import opened Engine
  import opened EngineRecord
  import opened EngineInvariant

  /** `root` records the uninterrupted run of `p`. */
  ghost predicate PlanOf(w: World, p: Program, root: Plan)
  {
    Valid(w, root) && root.id == p.root && root.expr == p.expr && root.env == p.env
  }

  // ----- every reachable state -----

  /** The invariant holds after every schedule of steps and crashes. */
  lemma {:induction false} AlwaysInv(w: World, p: Program, root: Plan, schedule: seq<Action>)
    requires PlanOf(w, p, root)
    ensures Inv(w, IndexOf(w, root), root, StateAfter(w, p, schedule))
    decreases |schedule|
  {
    hide Inv, StepOf, Valid;
    var ps := IndexOf(w, root);
    if schedule == [] {
      assert forall c :: Proj([], c) <= Planned(ps, c);
      RestartInv(w, p, ps, root, []);
    } else {
      var n := |schedule| - 1;
      var s := StateAfter(w, p, schedule[..n]);
      AlwaysInv(w, p, root, schedule[..n]);
      match schedule[n]
      case Go(c) =>
        if c in s.tasks && StepOf(w, s, c).Some? {
          StepKeeps(w, ps, root, s, c);
        }
      case Crash => CrashKeeps(w, p, ps, root, s);
    }
  }

  /** Every stream that sessions and crashes leave behind is fit for the next session. */
  lemma {:induction false} StreamAlwaysFits(w: World, p: Program, root: Plan, schedule: seq<Action>)
    requires PlanOf(w, p, root)
    ensures StreamFits(IndexOf(w, root), StateAfter(w, p, schedule).record.stream)
  {
    hide Valid, StateAfter, Indexed, Linked;
    var s, ps := StateAfter(w, p, schedule), IndexOf(w, root);
    AlwaysInv(w, p, root, schedule);
    forall c ensures Proj(s.record.stream, c) <= Planned(ps, c) {
      assert FitsAt(ps, s.record, c);
    }
  }

  // ----- the end of a run -----

  /** When a coroutine has ended, so has everything below it. */
  lemma {:induction false} BelowEnded(w: World, ps: Plans, root: Plan, s: State, c: Id, q: Plan)
    requires Inv(w, ps, root, s) && c in s.tasks && s.tasks[c].phase.Ended? && c in ps && q in Subplans(ps[c])
    ensures q.id in s.tasks && s.tasks[q.id].phase.Ended? && q.id in ps && ps[q.id] == q
    decreases ps[c]
  {
    hide Valid, RecordFits;
    InvAt(w, ps, root, s, c);
    SubplanCases(ps[c], q);
    if q != ps[c] {
      var j: nat, i: nat, d :| IsChild(ps[c], j, i, d) && q in Subplans(d);
      assert Passed(s.tasks[c], j);
      assert d.id in s.tasks && s.tasks[d.id].phase.Ended?;
      assert ps[d.id] == d;
      BelowEnded(w, ps, root, s, d.id, q);
    }
  }

  lemma {:induction false} FullPrefix<T>(a: seq<T>, b: seq<T>)
    requires a <= b && |a| == |b|
    ensures a == b
  {
  }

  lemma {:induction false} EndedComplete(w: World, ps: Plans, root: Plan, s: State, c: Id)
    requires Inv(w, ps, root, s) && c in s.tasks && s.tasks[c].phase.Ended?
    ensures c in ps && s.tasks[c].phase.result == ps[c].result
    ensures Proj(s.record.stream, c) == Planned(ps, c) && Proj(s.record.journal, c) == Planned(ps, c)
  {
    hide Valid, Linked, Indexed;
    InvAt(w, ps, root, s, c);
    assert FitsAt(ps, s.record, c);
    PlannedShape(ps[c]);
    FullPrefix(Proj(s.record.journal, c), Planned(ps, c));
    FullPrefix(Proj(s.record.stream, c), Planned(ps, c));
  }

  /** Crash recovery. After any schedule of steps and crashes that finishes the program,
      the result is that of the uninterrupted run, and of every coroutine the stream holds
      exactly the events of the uninterrupted run, as does the journal of the last session. */
  lemma {:induction false} CrashRecovery(w: World, p: Program, root: Plan, schedule: seq<Action>)
    requires PlanOf(w, p, root)
    requires Finished(p, StateAfter(w, p, schedule))
    ensures var s := StateAfter(w, p, schedule);
            && s.tasks[p.root].phase.result == root.result
            && (forall c :: Proj(s.record.stream, c) == Planned(IndexOf(w, root), c))
            && (forall c :: Proj(s.record.journal, c) == Planned(IndexOf(w, root), c))
  {
    hide Valid, StateAfter, Inv, Planned;
    var s := StateAfter(w, p, schedule);
    var ps := IndexOf(w, root);
    AlwaysInv(w, p, root, schedule);
    InvAt(w, ps, root, s, p.root);
    EndedComplete(w, ps, root, s, p.root);
    forall c ensures Proj(s.record.stream, c) == Planned(ps, c) && Proj(s.record.journal, c) == Planned(ps, c) {
      if c in ps {
        BelowEnded(w, ps, root, s, p.root, ps[c]);
        EndedComplete(w, ps, root, s, c);
      } else {
        NothingElse(w, ps, root, s, c);
      }
    }
  }

  lemma {:induction false} NothingElse(w: World, ps: Plans, root: Plan, s: State, c: Id)
    requires Inv(w, ps, root, s) && c !in ps
    ensures Proj(s.record.stream, c) == [] && Proj(s.record.journal, c) == [] && Planned(ps, c) == []
  {
    assert FitsAt(ps, s.record, c);
  }

  /** Any two schedules that finish agree on the result and on every coroutine's events. */
  lemma {:induction false} RunsAgree(w: World, p: Program, root: Plan, one: seq<Action>, two: seq<Action>)
    requires PlanOf(w, p, root)
    requires Finished(p, StateAfter(w, p, one)) && Finished(p, StateAfter(w, p, two))
    ensures StateAfter(w, p, one).tasks[p.root].phase.result == StateAfter(w, p, two).tasks[p.root].phase.result
    ensures forall c :: Proj(StateAfter(w, p, one).record.stream, c) == Proj(StateAfter(w, p, two).record.stream, c)
  {
    hide Valid, StateAfter;
    CrashRecovery(w, p, root, one);
    CrashRecovery(w, p, root, two);
  }

  // ----- progress -----

  /** A coroutine that has not ended can step, or waits for one below it that can. */
  lemma {:induction false} SomeStep(w: World, ps: Plans, root: Plan, s: State, c: Id) returns (d: Id)
    requires Inv(w, ps, root, s) && c in s.tasks && !s.tasks[c].phase.Ended? && c in ps
    ensures d in s.tasks && StepOf(w, s, d).Some?
    decreases ps[c]
  {
    hide Valid, RecordFits, Act, Inv;
    InvAt(w, ps, root, s, c);
    var t := s.tasks[c];
    d := c;
    match t.phase
    case Ready => ActKeeps(w, ps, root, s, c);
    case Unrecorded(_) =>
    case Resumable(_) => StepResume(w, ps, root, s, c);
    case Joining(first, count) =>
      if !AllEnded(s.tasks, c, first, count) {
        var i: nat :| i < count && !EndedOk(s.tasks, Nth(c, first, i));
        var e := ps[c].moves[t.fed].children[i];
        WaitingChild(w, ps, root, s, c, i);
        d := SomeStep(w, ps, root, s, e.id);
      }
    case Failed =>
  }

  /** A child that has not ended well has not ended. */
  lemma {:induction false} WaitingChild(w: World, ps: Plans, root: Plan, s: State, c: Id, i: nat)
    requires Inv(w, ps, root, s) && c in s.tasks && s.tasks[c].phase.Joining? && i < s.tasks[c].phase.count
    requires !EndedOk(s.tasks, Nth(c, s.tasks[c].phase.first, i))
    ensures c in ps && s.tasks[c].fed < |ps[c].moves| && ps[c].moves[s.tasks[c].fed].ForkMove?
    ensures i < |ps[c].moves[s.tasks[c].fed].children|
    ensures var e := ps[c].moves[s.tasks[c].fed].children[i];
            e.id in s.tasks && e.id in ps && ps[e.id] == e && !s.tasks[e.id].phase.Ended?
  {
    hide Valid, RecordFits;
    InvAt(w, ps, root, s, c);
    var t := s.tasks[c];
    var e := ps[c].moves[t.fed].children[i];
    assert IsChild(ps[c], t.fed, i, e);
    ChildResult(w, ps, root, s, c, t.fed, i, e);
    assert Opened(t, t.fed);
  }

  /** No reachable state is stuck before the root has ended. */
  lemma {:induction false} NoDeadlock(w: World, p: Program, root: Plan, schedule: seq<Action>) returns (c: Id)
    requires PlanOf(w, p, root) && !Finished(p, StateAfter(w, p, schedule))
    ensures var s := StateAfter(w, p, schedule); c in s.tasks && StepOf(w, s, c).Some?
  {
    hide Valid, StateAfter, Inv;
    AlwaysInv(w, p, root, schedule);
    var s := StateAfter(w, p, schedule);
    RootRuns(w, IndexOf(w, root), root, s);
    InvAt(w, IndexOf(w, root), root, s, p.root);
    c := SomeStep(w, IndexOf(w, root), root, s, p.root);
  }

  lemma {:induction false} RootRuns(w: World, ps: Plans, root: Plan, s: State)
    requires Inv(w, ps, root, s)
    ensures root.id in s.tasks
  {
  }

  // ----- termination -----

  /** How far a task is through its plan. */
  function Rank(t: Task): nat
  {
    3 * t.fed +
    match t.phase
    case Ready => 0
    case Unrecorded(_) => 1
    case Joining(_, _) => 1
    case Resumable(_) => 2
    case Ended(_) => 1
    case Failed => 2
  }

  /** What is left of a coroutine. */
  ghost function LeftOf(ps: Plans, s: State, c: Id): int
    requires c in ps
  {
    3 * |ps[c].moves| + 1 - (if c in s.tasks then Rank(s.tasks[c]) else 0)
  }

  ghost function Left(ps: Plans, s: State, keys: seq<Id>): int
    requires forall c :: c in keys ==> c in ps
  {
    if keys == [] then 0
    else assert keys[0] in keys; LeftOf(ps, s, keys[0]) + Left(ps, s, keys[1..])
  }

  /** The steps that can still be taken before the next crash. */
  ghost function StepsLeft(ps: Plans, s: State): int
  {
    Left(ps, s, SortedKeys(ps.Keys))
  }

  lemma {:induction false} LeftDrops(ps: Plans, s: State, s': State, keys: seq<Id>, c: Id)
    requires forall d :: d in keys ==> d in ps
    requires c in keys && LeftOf(ps, s', c) < LeftOf(ps, s, c)
    requires forall d :: d in keys && d != c ==> LeftOf(ps, s', d) <= LeftOf(ps, s, d)
    ensures Left(ps, s', keys) < Left(ps, s, keys)
    decreases |keys|
  {
    assert keys[0] in keys;
    if c in keys[1..] {
      LeftDrops(ps, s, s', keys[1..], c);
    } else {
      LeftKeeps(ps, s, s', keys[1..]);
    }
  }

  lemma {:induction false} LeftKeeps(ps: Plans, s: State, s': State, keys: seq<Id>)
    requires forall d :: d in keys ==> d in ps
    requires forall d :: d in keys ==> LeftOf(ps, s', d) <= LeftOf(ps, s, d)
    ensures Left(ps, s', keys) <= Left(ps, s, keys)
    decreases |keys|
  {
    if keys != [] {
      assert keys[0] in keys;
      LeftKeeps(ps, s, s', keys[1..]);
    }
  }

  lemma {:induction false} LeftNatural(w: World, ps: Plans, root: Plan, s: State, keys: seq<Id>)
    requires Inv(w, ps, root, s) && forall d :: d in keys ==> d in ps
    ensures Left(ps, s, keys) >= 0
    decreases |keys|
  {
    if keys != [] {
      assert keys[0] in keys;
      if keys[0] in s.tasks {
        assert TaskOk(ps, s, keys[0]);
      }
      LeftNatural(w, ps, root, s, keys[1..]);
    }
  }

  /** What a step does to the tasks: the stepping task advances, others stay. */
  ghost predicate Advances(s: State, s': State, c: Id)
    requires c in s.tasks
  {
    && c in s'.tasks && Rank(s'.tasks[c]) > Rank(s.tasks[c])
    && (forall d :: d in s.tasks && d != c ==> d in s'.tasks && s'.tasks[d] == s.tasks[d])
  }

  lemma {:induction false} OneTaskAdvances(s: State, s': State, c: Id, t: Task)
    requires c in s.tasks && s'.tasks == s.tasks[c := t] && Rank(t) > Rank(s.tasks[c])
    ensures Advances(s, s', c)
  {
  }

  lemma {:induction false} ForkAdvances(w: World, ps: Plans, root: Plan, s: State, c: Id)
    requires Inv(w, ps, root, s) && c in s.tasks && s.tasks[c].phase.Ready?
    requires s.tasks[c].gen.control.YieldC? && s.tasks[c].gen.control.request.Fork?
    requires s.tasks[c].gen.control.request.branches != []
    ensures Act(w, s, c).Some? && Advances(s, Act(w, s, c).value, c)
  {
    hide Inv, Act, TaskFits, IsChild;
    ForkChildren(w, ps, root, s, c);
    ActFork(w, s, c);
  }

  lemma {:induction false} ActAdvances(w: World, ps: Plans, root: Plan, s: State, c: Id)
    requires Inv(w, ps, root, s) && c in s.tasks && s.tasks[c].phase.Ready? && Act(w, s, c).Some?
    ensures Advances(s, Act(w, s, c).value, c)
  {
    hide Inv, RunOn, DispatchOf, RecordClose, RecordReplay, Settle, Feed, Advances, Children;
    var g := s.tasks[c].gen.control;
    if g.YieldC? && g.request.Fork? && g.request.branches != [] {
      ForkAdvances(w, ps, root, s, c);
    } else {
      var s' := Act(w, s, c).value;
      OneTaskAdvances(s, s', c, s'.tasks[c]);
    }
  }

  lemma {:induction false} StepAdvances(w: World, ps: Plans, root: Plan, s: State, c: Id)
    requires Inv(w, ps, root, s) && c in s.tasks && StepOf(w, s, c).Some?
    ensures Advances(s, StepOf(w, s, c).value, c)
  {
    hide Inv, Act, RunOn, RecordLive, Results, AllEnded, Advances;
    if s.tasks[c].phase.Ready? {
      ActAdvances(w, ps, root, s, c);
    } else {
      var s' := StepOf(w, s, c).value;
      OneTaskAdvances(s, s', c, s'.tasks[c]);
    }
  }

  /** Every step leaves fewer: a session takes at most `StepsLeft` steps. */
  lemma {:induction false} StepsDecrease(w: World, ps: Plans, root: Plan, s: State, c: Id)
    requires Inv(w, ps, root, s) && c in s.tasks && StepOf(w, s, c).Some?
    ensures StepsLeft(ps, StepOf(w, s, c).value) < StepsLeft(ps, s)
    ensures StepsLeft(ps, s) > 0
  {
    hide Valid, Inv, StepOf;
    InvAt(w, ps, root, s, c);
    StepAdvances(w, ps, root, s, c);
    StepKeeps(w, ps, root, s, c);
    var s' := StepOf(w, s, c).value;
    LeftDrops(ps, s, s', SortedKeys(ps.Keys), c);
    LeftNatural(w, ps, root, s', SortedKeys(ps.Keys));
  }

  predicate CrashFree(schedule: seq<Action>) { forall i :: 0 <= i < |schedule| ==> schedule[i].Go? }

  /** From every reachable state the program can be driven to its end without a crash. */
  lemma {:induction false} CanFinish(w: World, p: Program, root: Plan,
                                     schedule: seq<Action>) returns (more: seq<Action>)
    requires PlanOf(w, p, root)
    ensures CrashFree(more) && Finished(p, StateAfter(w, p, schedule + more))
    decreases var n := StepsLeft(IndexOf(w, root), StateAfter(w, p, schedule)); if n < 0 then 0 else n
  {
    hide Valid, Inv, StepsLeft, StepOf;
    var s := StateAfter(w, p, schedule);
    if Finished(p, s) {
      more := [];
      assert schedule + [] == schedule;
    } else {
      var c := NoDeadlock(w, p, root, schedule);
      AlwaysInv(w, p, root, schedule);
      StepsDecrease(w, IndexOf(w, root), root, s, c);
      var next := schedule + [Go(c)];
      assert next[..|schedule|] == schedule;
      var rest := CanFinish(w, p, root, next);
      more := [Go(c)] + rest;
      assert schedule + more == next + rest;
    }
  }

  // ----- durability -----

  /** The kernel is resumed with an effect's result only after the effect's event is in the
      stream: at every reachable point a coroutine's generator is what the events that the
      stream holds make of it, and the stream holds no event of another run. */
  lemma {:induction false} ResumedFromStream(w: World, p: Program, root: Plan, schedule: seq<Action>, c: Id)
    requires PlanOf(w, p, root) && c in StateAfter(w, p, schedule).tasks
    ensures var s, ps := StateAfter(w, p, schedule), IndexOf(w, root);
            && c in ps && s.tasks[c].fed <= |ps[c].moves|
            && s.tasks[c].gen == GenAt(ps[c], s.tasks[c].fed)
            && YieldEvents(ps[c], s.tasks[c].fed) <= Proj(s.record.stream, c) <= Planned(ps, c)
            && !s.tasks[c].phase.Failed?
  {
    hide Valid, StateAfter, Inv, RecordFits, GenAt;
    var s, ps := StateAfter(w, p, schedule), IndexOf(w, root);
    AlwaysInv(w, p, root, schedule);
    InvAt(w, ps, root, s, c);
    StreamHolds(ps, s, c);
  }

  lemma {:induction false} StreamHolds(ps: Plans, s: State, c: Id)
    requires c in s.tasks && TaskOk(ps, s, c) && RecordFits(ps, s.record)
    ensures YieldEvents(ps[c], s.tasks[c].fed) <= Proj(s.record.stream, c) <= Planned(ps, c)
  {
    hide GenAt;
    var p, t := ps[c], s.tasks[c];
    assert FitsAt(ps, s.record, c);
    YieldEventsLength(p, t.fed);
    YieldEventsLength(p, |p.moves|);
    YieldEventsPrefix(p, t.fed, |p.moves|);
    if t.fed < |p.moves| {
      YieldEventsPrefix(p, t.fed, t.fed + 1);
    }
    var a, b := YieldEvents(p, t.fed), Proj(s.record.stream, c);
    assert a <= EventsOf(p) && b <= EventsOf(p) && |a| <= |b|;
    assert forall i :: 0 <= i < |a| ==> a[i] == EventsOf(p)[i] == b[i];
  }

  /** Each coroutine has at most one Close in the stream, and nothing after it. */
  lemma {:induction false} CloseIsLast(w: World, p: Program, root: Plan, schedule: seq<Action>, c: Id, i: nat)
    requires PlanOf(w, p, root) && i < |Proj(StateAfter(w, p, schedule).record.stream, c)|
    requires Proj(StateAfter(w, p, schedule).record.stream, c)[i].Close?
    ensures i == |Proj(StateAfter(w, p, schedule).record.stream, c)| - 1
  {
    hide Valid, StateAfter, Indexed, Linked;
    var s, ps := StateAfter(w, p, schedule), IndexOf(w, root);
    AlwaysInv(w, p, root, schedule);
    assert FitsAt(ps, s.record, c);
    if c in ps {
      PlannedShape(ps[c]);
    }
  }
}
