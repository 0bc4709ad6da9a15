/** The invariant of every session, and that each step and each crash keeps it. */
module EngineInvariant {
  import opened Text
  import opened Ir
  import opened Kernel
  import opened Generator
  import opened Lanes
  import opened Journal
  import opened RunPlan
  import opened PlanIndex
  import opened Engine
  import opened EngineRecord

  // ----- one coroutine -----

  /** A task is at a point of the coroutine's plan. */
  ghost predicate TaskFits(p: Plan, t: Task)
  {
    && t.fed <= |p.moves| && t.gen == GenAt(p, t.fed)
    && match t.phase
       case Ready => t.spawned == Forks(p.moves, t.fed)
       case Unrecorded(entry) =>
         t.fed < |p.moves| && p.moves[t.fed] == EffectMove(entry) && t.spawned == Forks(p.moves, t.fed)
       case Resumable(a) =>
         t.fed < |p.moves| && a == AnswerOf(p.moves[t.fed]) && t.spawned == Forks(p.moves, t.fed + 1)
       case Joining(first, count) =>
         && t.fed < |p.moves| && p.moves[t.fed].ForkMove? && count == |p.moves[t.fed].children|
         && first == Forks(p.moves, t.fed) && t.spawned == Forks(p.moves, t.fed + 1)
       case Ended(result) => t.fed == |p.moves| && result == p.result
       case Failed => false
  }

  /** The events of the coroutine that the session's journal holds at that point. */
  ghost function Journaled(p: Plan, t: Task): nat
    requires t.fed <= |p.moves|
  {
    match t.phase
    case Resumable(_) => if t.fed < |p.moves| then Effects(p.moves, t.fed + 1) else 0
    case Ended(_) => Effects(p.moves, t.fed) + 1
    case _ => Effects(p.moves, t.fed)
  }

  /** Move `j` has been started: its children, if it is a fork, exist. */
  predicate Opened(t: Task, j: nat)
  {
    t.fed > j || (t.fed == j && (t.phase.Joining? || t.phase.Resumable?))
  }

  /** Move `j` is over: its children, if it is a fork, have ended. */
  predicate Passed(t: Task, j: nat) { t.fed > j || (t.fed == j && t.phase.Resumable?) }

  // ----- the invariant -----

  ghost predicate Inv(w: World, ps: Plans, root: Plan, s: State)
  {
    && Indexed(w, ps, root)
    && RecordFits(ps, s.record)
    && root.id in s.tasks
    && (forall c :: c in s.tasks ==> TaskOk(ps, s, c))
    && (forall c :: c !in s.tasks ==> Proj(s.record.journal, c) == [])
    && Linked(ps, s)
  }

  ghost predicate TaskOk(ps: Plans, s: State, c: Id)
    requires c in s.tasks
  {
    && c in ps && TaskFits(ps[c], s.tasks[c])
    && |Proj(s.record.journal, c)| == Journaled(ps[c], s.tasks[c])
    && (s.tasks[c].phase.Unrecorded? ==> |Proj(s.record.stored, c)| <= Journaled(ps[c], s.tasks[c]))
  }

  /** Children exist from the moment their parent forks them, and have ended when it goes on. */
  ghost predicate Linked(ps: Plans, s: State)
  {
    forall c, j: nat, i: nat, d ::
      c in ps && IsChild(ps[c], j, i, d) ==>
        && (d.id in s.tasks <==> c in s.tasks && Opened(s.tasks[c], j))
        && (c in s.tasks && Passed(s.tasks[c], j) ==> d.id in s.tasks && s.tasks[d.id].phase.Ended?)
  }

  // ----- the beginning of a session -----

  /** A stream that holds, of every coroutine, a prefix of its planned events. */
  ghost predicate StreamFits(ps: Plans, stream: seq<Event>)
  {
    forall c :: Proj(stream, c) <= Planned(ps, c)
  }

  lemma {:induction false} RestartFits(ps: Plans, stream: seq<Event>, c: Id)
    requires StreamFits(ps, stream)
    ensures FitsAt(ps, Record(stream, stream, map[], []), c)
  {
    assert Proj(stream, c) <= Planned(ps, c);
  }

  lemma {:induction false} RootOk(w: World, p: Program, ps: Plans, root: Plan, stream: seq<Event>)
    requires Indexed(w, ps, root) && root.id == p.root && root.expr == p.expr && root.env == p.env
    ensures root.id in Restart(p, stream).tasks && TaskOk(ps, Restart(p, stream), root.id)
  {
    hide Valid, RunOn;
  }

  lemma {:induction false} RestartInv(w: World, p: Program, ps: Plans, root: Plan, stream: seq<Event>)
    requires Indexed(w, ps, root) && StreamFits(ps, stream)
    requires root.id == p.root && root.expr == p.expr && root.env == p.env
    ensures Inv(w, ps, root, Restart(p, stream))
  {
    hide Valid, RunOn, Planned, FitsAt, TaskOk;
    var s := Restart(p, stream);
    forall c ensures FitsAt(ps, s.record, c) {
      RestartFits(ps, stream, c);
    }
    RootOk(w, p, ps, root, stream);
    forall c, j: nat, i: nat, d | c in ps && IsChild(ps[c], j, i, d)
      ensures d.id !in s.tasks && !(c in s.tasks && Opened(s.tasks[c], j))
    {
      assert NoParent(ps, root.id);
    }
  }

  // ----- replacing one task -----

  /** A step that changes one task and neither opens nor ends anything. */
  lemma {:induction false} QuietStep(w: World, ps: Plans, root: Plan, s: State, s': State, c: Id, t': Task)
    requires Inv(w, ps, root, s) && c in s.tasks
    requires s'.tasks == s.tasks[c := t'] && RecordFits(ps, s'.record)
    requires forall d :: d != c ==> Proj(s'.record.journal, d) == Proj(s.record.journal, d)
    requires s'.record.stored == s.record.stored
    requires TaskOk(ps, s', c)
    requires forall j: nat :: Opened(t', j) == Opened(s.tasks[c], j) || !HasChildren(ps[c], j)
    requires forall j: nat :: Passed(t', j) ==> Passed(s.tasks[c], j) || ChildrenEnded(ps[c], s, j)
    requires !s.tasks[c].phase.Ended?
    ensures Inv(w, ps, root, s')
  {
    hide Indexed, TaskFits, Journaled;
    forall d | d in s'.tasks ensures TaskOk(ps, s', d) {
      if d != c {
        assert TaskOk(ps, s, d);
      }
    }
    forall p, j: nat, i: nat, d | p in ps && IsChild(ps[p], j, i, d)
      ensures d.id in s'.tasks <==> p in s'.tasks && Opened(s'.tasks[p], j)
      ensures p in s'.tasks && Passed(s'.tasks[p], j) ==> d.id in s'.tasks && s'.tasks[d.id].phase.Ended?
    {
      assert d.id in s.tasks <==> p in s.tasks && Opened(s.tasks[p], j);
      if p == c {
        assert HasChildren(ps[c], j);
      }
    }
  }

  ghost predicate HasChildren(p: Plan, j: nat)
  {
    exists i: nat, d :: IsChild(p, j, i, d)
  }

  ghost predicate ChildrenEnded(p: Plan, s: State, j: nat)
  {
    forall i: nat, d :: IsChild(p, j, i, d) ==> d.id in s.tasks && s.tasks[d.id].phase.Ended?
  }

  lemma {:induction false} IndexedAt(w: World, ps: Plans, root: Plan, c: Id)
    requires Indexed(w, ps, root) && c in ps
    ensures ps[c].id == c && Valid(w, ps[c])
  {
  }

  lemma {:induction false} ValidMove(w: World, p: Plan, k: nat)
    requires Valid(w, p) && k <= |p.moves|
    ensures k < |p.moves| ==> MoveShape(w, p, k) && GenAt(p, k).control.YieldC?
    ensures k == |p.moves| ==>
              GenAt(p, k).control.OutC? && GenAt(p, k).stack == [] && p.result == Settle(GenAt(p, k).control.answer)
  {
    hide GenAt;
  }

  /** What the invariant says of a running coroutine. */
  lemma {:induction false} InvAt(w: World, ps: Plans, root: Plan, s: State, c: Id)
    requires Inv(w, ps, root, s) && c in s.tasks
    ensures c in ps && ps[c].id == c && Valid(w, ps[c])
    ensures TaskOk(ps, s, c) && RecordFits(ps, s.record) && FitsAt(ps, s.record, c)
  {
    assert TaskOk(ps, s, c);
  }

  // ----- the steps -----

  /** What acting on an effect does, by the outcome of its dispatch. */
  lemma {:induction false} ActEffect(w: World, s: State, c: Id)
    requires c in s.tasks && s.tasks[c].gen.control.YieldC? && s.tasks[c].gen.control.request.Standard?
    ensures var t, req := s.tasks[c], s.tasks[c].gen.control.request;
            var d := DispatchOf(w, s.record, c, req.id, req.data);
            && (d.Some? && d.value.Live? ==>
                  Act(w, s, c) == Some(s.(tasks := s.tasks[c := t.(phase := Unrecorded(d.value.entry))])))
            && (d.Some? && d.value.Replayed? ==>
                  Act(w, s, c) == Some(State(RecordReplay(s.record, c, d.value.entry),
                                             s.tasks[c := t.(phase := Resumable(Feed(d.value.entry.result)))])))
  {
    hide DispatchOf, RecordReplay, Feed;
  }

  /** The move that answers an effect. */
  lemma {:induction false} EffectShape(w: World, p: Plan, k: nat)
    requires Valid(w, p) && k <= |p.moves|
    requires GenAt(p, k).control.YieldC? && GenAt(p, k).control.request.Standard?
    ensures k < |p.moves| && p.moves[k].EffectMove?
    ensures var req := GenAt(p, k).control.request;
            Dispatch(w.max, w.handler(p.id, Effects(p.moves, k)), req.id, req.data, None).entry == p.moves[k].entry
  {
    hide GenAt, Valid, Dispatch;
    ValidMove(w, p, k);
  }

  /** An effect on the replay boundary. */
  lemma {:induction false} StepEffect(w: World, ps: Plans, root: Plan, s: State, c: Id)
    requires Inv(w, ps, root, s) && c in s.tasks && s.tasks[c].phase.Ready?
    requires s.tasks[c].gen.control.YieldC? && s.tasks[c].gen.control.request.Standard?
    ensures Act(w, s, c).Some? && Inv(w, ps, root, Act(w, s, c).value)
  {
    hide GenAt, Valid, Inv, Indexed, Linked, RecordFits, FitsAt, EventsOf, YieldEvents, Act, DispatchOf, Dispatch;
    hide Feed, MoveShape;
    InvAt(w, ps, root, s, c);
    var t, p := s.tasks[c], ps[c];
    var k := t.fed;
    var req := t.gen.control.request;
    EffectShape(w, p, k);
    var entry := p.moves[k].entry;
    DispatchPlanned(w, ps, s.record, c, k, req.id, req.data);
    EffectAt(p, k);
    ActEffect(w, s, c);
    var s' := Act(w, s, c).value;
    if |Proj(s.record.stored, c)| <= Effects(p.moves, k) {
      QuietStep(w, ps, root, s, s', c, t.(phase := Unrecorded(entry)));
    } else {
      RecordNext(ps, s.record, s'.record, c, Yield(c, entry));
      QuietStep(w, ps, root, s, s', c, t.(phase := Resumable(Feed(entry.result))));
    }
  }

  /** The append of a live effect's event. */
  lemma {:induction false} StepAppend(w: World, ps: Plans, root: Plan, s: State, c: Id)
    requires Inv(w, ps, root, s) && c in s.tasks && s.tasks[c].phase.Unrecorded?
    ensures StepOf(w, s, c).Some? && Inv(w, ps, root, StepOf(w, s, c).value)
  {
    hide GenAt, Valid, Inv, Indexed, Linked, RecordFits, FitsAt, EventsOf, YieldEvents;
    InvAt(w, ps, root, s, c);
    var t, p := s.tasks[c], ps[c];
    var entry := t.phase.entry;
    EffectAt(p, t.fed);
    var s' := StepOf(w, s, c).value;
    RecordNext(ps, s.record, s'.record, c, Yield(c, entry));
    QuietStep(w, ps, root, s, s', c, t.(phase := Resumable(Feed(entry.result))));
  }

  /** The resumption of a generator. */
  lemma {:induction false} StepResume(w: World, ps: Plans, root: Plan, s: State, c: Id)
    requires Inv(w, ps, root, s) && c in s.tasks && s.tasks[c].phase.Resumable?
    ensures StepOf(w, s, c).Some? && Inv(w, ps, root, StepOf(w, s, c).value)
  {
    hide Valid, Inv, Indexed, Linked, RecordFits, Halted, ComesTo;
    InvAt(w, ps, root, s, c);
    var t, p := s.tasks[c], ps[c];
    ValidMove(w, p, t.fed);
    var s' := StepOf(w, s, c).value;
    var t' := Task(RunOn(Resume(t.gen, t.phase.answer)), t.fed + 1, t.spawned, Ready);
    assert t'.gen == GenAt(p, t.fed + 1);
    QuietStep(w, ps, root, s, s', c, t');
  }

  /** An `all` without branches. */
  lemma {:induction false} StepEmptyFork(w: World, ps: Plans, root: Plan, s: State, c: Id)
    requires Inv(w, ps, root, s) && c in s.tasks && s.tasks[c].phase.Ready?
    requires s.tasks[c].gen.control.YieldC? && s.tasks[c].gen.control.request.Fork?
    requires s.tasks[c].gen.control.request.branches == []
    ensures Act(w, s, c).Some? && Inv(w, ps, root, Act(w, s, c).value)
  {
    hide GenAt, Valid, Inv, Indexed, Linked, RecordFits, FitsAt, EventsOf, YieldEvents;
    InvAt(w, ps, root, s, c);
    var t, p := s.tasks[c], ps[c];
    ValidMove(w, p, t.fed);
    assert p.moves[t.fed].ForkMove? && p.moves[t.fed].children == [];
    assert ChildValues(p.moves[t.fed].children) == [];
    var s' := Act(w, s, c).value;
    var t' := t.(phase := Resumable(Ok(Arr([]))));
    forall j: nat ensures Opened(t', j) == Opened(t, j) || !HasChildren(p, j) {
      assert forall i: nat, d :: !IsChild(p, t.fed, i, d);
    }
    QuietStep(w, ps, root, s, s', c, t');
  }

  /** The children have ended: their results are put together in source order. */
  lemma {:induction false} StepJoin(w: World, ps: Plans, root: Plan, s: State, c: Id)
    requires Inv(w, ps, root, s) && c in s.tasks && s.tasks[c].phase.Joining?
    requires StepOf(w, s, c).Some?
    ensures Inv(w, ps, root, StepOf(w, s, c).value)
  {
    hide GenAt, Valid, Inv, Indexed, Linked, RecordFits, FitsAt, EventsOf, YieldEvents;
    InvAt(w, ps, root, s, c);
    var t, p := s.tasks[c], ps[c];
    var cs := p.moves[t.fed].children;
    var first := t.phase.first;
    forall i: nat, d | IsChild(p, t.fed, i, d)
      ensures d.id in s.tasks && s.tasks[d.id].phase.Ended? && s.tasks[d.id].phase.result == d.result
    {
      JoinChild(w, ps, root, s, c, i);
    }
    var values := Results(s.tasks, c, first, |cs|);
    forall i | 0 <= i < |cs| ensures values[i] == ChildValues(cs)[i] {
      JoinChild(w, ps, root, s, c, i);
      assert IsChild(p, t.fed, i, cs[i]);
    }
    assert values == ChildValues(cs);
    assert ChildrenEnded(p, s, t.fed);
    QuietStep(w, ps, root, s, StepOf(w, s, c).value, c, t.(phase := Resumable(Ok(Arr(values)))));
  }

  /** A child that has ended has its planned result. */
  lemma {:induction false} ChildResult(w: World, ps: Plans, root: Plan, s: State, c: Id, j: nat, i: nat, d: Plan)
    requires Inv(w, ps, root, s) && c in ps && IsChild(ps[c], j, i, d)
    ensures ps[c].id == c && d.id == Nth(c, Forks(ps[c].moves, j), i) && d.result.OkResult?
    ensures d.id in s.tasks && s.tasks[d.id].phase.Ended? ==> s.tasks[d.id].phase.result == d.result
  {
    hide GenAt, Valid, Inv, Indexed, IsChild, RecordFits, Journaled;
    ChildIndexed(w, ps, root, s, c, j, i, d);
    IndexedAt(w, ps, root, c);
    ChildFacts(w, ps[c], j, i, d);
    if d.id in s.tasks {
      InvAt(w, ps, root, s, d.id);
    }
  }

  lemma {:induction false} ChildIndexed(w: World, ps: Plans, root: Plan, s: State, c: Id, j: nat, i: nat, d: Plan)
    requires Inv(w, ps, root, s) && c in ps && IsChild(ps[c], j, i, d)
    ensures Indexed(w, ps, root) && d.id in ps && ps[d.id] == d
  {
    hide Valid, Linked, RecordFits, IsChild;
  }

  lemma {:induction false} JoinChild(w: World, ps: Plans, root: Plan, s: State, c: Id, i: nat)
    requires Inv(w, ps, root, s) && c in s.tasks && s.tasks[c].phase.Joining?
    requires AllEnded(s.tasks, c, s.tasks[c].phase.first, s.tasks[c].phase.count)
    requires c in ps && TaskOk(ps, s, c)
    requires i < |ps[c].moves[s.tasks[c].fed].children|
    ensures var d := ps[c].moves[s.tasks[c].fed].children[i];
            && d.id == Nth(c, s.tasks[c].phase.first, i)
            && EndedOk(s.tasks, d.id) && s.tasks[d.id].phase.result == d.result
  {
    hide GenAt, Valid, Inv;
    var t, p := s.tasks[c], ps[c];
    var d := p.moves[t.fed].children[i];
    assert IsChild(p, t.fed, i, d);
    ChildResult(w, ps, root, s, c, t.fed, i, d);
    assert EndedOk(s.tasks, Nth(c, t.phase.first, i));
  }

  /** The end of a coroutine. */
  lemma {:induction false} StepClose(w: World, ps: Plans, root: Plan, s: State, c: Id)
    requires Inv(w, ps, root, s) && c in s.tasks && s.tasks[c].phase.Ready?
    requires s.tasks[c].gen.control.OutC?
    ensures Act(w, s, c).Some? && Inv(w, ps, root, Act(w, s, c).value)
  {
    hide GenAt, Valid, Inv, Indexed, Linked, RecordFits, FitsAt, EventsOf, YieldEvents;
    InvAt(w, ps, root, s, c);
    var t, p := s.tasks[c], ps[c];
    ValidMove(w, p, t.fed);
    assert t.fed == |p.moves|;
    ClosePlanned(ps, s.record, c);
    var s' := Act(w, s, c).value;
    RecordNext(ps, s.record, s'.record, c, Close(c, p.result));
    QuietStep(w, ps, root, s, s', c, t.(phase := Ended(p.result)));
  }

  // ----- forks -----

  lemma {:induction false} ChildrenAt(c: Id, first: nat, branches: seq<Node>, env: Env)
    ensures forall i: nat :: i < |branches| ==>
              Nth(c, first, i) in Children(c, first, branches, env) &&
              Children(c, first, branches, env)[Nth(c, first, i)] == NewTask(branches[i], env)
    ensures forall d :: d in Children(c, first, branches, env) ==>
              exists i: nat :: i < |branches| && d == Nth(c, first, i)
    decreases |branches|
  {
    hide NewTask, Decimal, ChildId;
    if branches != [] {
      var n := |branches| - 1;
      ChildrenAt(c, first, branches[..n], env);
      forall i: nat | i < n ensures Nth(c, first, i) != Nth(c, first, n) {
        NthDistinct(c, first, i, n);
      }
      forall d | d in Children(c, first, branches, env)
        ensures exists i: nat :: i < |branches| && d == Nth(c, first, i)
      {
        if d == Nth(c, first, n) {
        } else {
          assert d in Children(c, first, branches[..n], env);
          var i: nat :| i < n && d == Nth(c, first, i);
        }
      }
    }
  }

  lemma {:induction false} NthDistinct(c: Id, first: nat, i: nat, j: nat)
    requires i != j
    ensures Nth(c, first, i) != Nth(c, first, j)
  {
    if Nth(c, first, i) == Nth(c, first, j) {
      ChildIdInjective(c, first + i, c, first + j);
    }
  }

  /** The children of a fork: their ids are new, and each starts at the beginning of its plan. */
  lemma {:induction false} ForkChildren(w: World, ps: Plans, root: Plan, s: State, c: Id)
    requires Inv(w, ps, root, s) && c in s.tasks && s.tasks[c].phase.Ready?
    requires s.tasks[c].gen.control.YieldC? && s.tasks[c].gen.control.request.Fork?
    ensures s.tasks[c].gen.control.request.kind == All
    ensures var t, req := s.tasks[c], s.tasks[c].gen.control.request;
            var added := Children(c, t.spawned, req.branches, req.env);
            && c in ps && t.fed < |ps[c].moves| && ps[c].moves[t.fed].ForkMove?
            && t.spawned == Forks(ps[c].moves, t.fed)
            && |ps[c].moves[t.fed].children| == |req.branches|
            && (forall i: nat, d :: IsChild(ps[c], t.fed, i, d) ==> d.id in added)
            && (forall e :: e in added ==>
                  && e !in s.tasks && e in ps
                  && (exists i: nat, d :: IsChild(ps[c], t.fed, i, d) && d.id == e)
                  && TaskFits(ps[e], added[e]) && added[e].fed == 0 && added[e].phase == Ready)
  {
    hide GenAt, Valid, Inv, RecordFits, FitsAt, RunOn, Decimal, Children, Dispatch, EventsOf;
    InvAt(w, ps, root, s, c);
    var t, p, req := s.tasks[c], ps[c], s.tasks[c].gen.control.request;
    var k := t.fed;
    ValidMove(w, p, k);
    ChildrenAt(c, t.spawned, req.branches, req.env);
    var added := Children(c, t.spawned, req.branches, req.env);
    forall i: nat, d | IsChild(p, k, i, d) ensures d.id in added {
      ChildFacts(w, p, k, i, d);
      assert d.id == Nth(c, t.spawned, i);
    }
    forall e | e in added
      ensures e !in s.tasks && e in ps && (exists i: nat, d :: IsChild(p, k, i, d) && d.id == e)
      ensures e in ps ==> TaskFits(ps[e], added[e]) && added[e].fed == 0 && added[e].phase == Ready
    {
      var i: nat :| i < |req.branches| && e == Nth(c, t.spawned, i);
      ForkChild(w, ps, root, s, c, i, e);
    }
  }

  /** One of the children that a fork adds. */
  lemma {:induction false} ForkChild(w: World, ps: Plans, root: Plan, s: State, c: Id, i: nat, e: Id)
    requires Inv(w, ps, root, s) && c in s.tasks && s.tasks[c].phase.Ready?
    requires s.tasks[c].gen.control.YieldC? && s.tasks[c].gen.control.request.Fork?
    requires i < |s.tasks[c].gen.control.request.branches| && e == Nth(c, s.tasks[c].spawned, i)
    ensures var t, req := s.tasks[c], s.tasks[c].gen.control.request;
            var added := Children(c, t.spawned, req.branches, req.env);
            && c in ps && t.fed < |ps[c].moves| && ps[c].moves[t.fed].ForkMove?
            && e !in s.tasks && e in ps && e in added && i < |ps[c].moves[t.fed].children|
            && IsChild(ps[c], t.fed, i, ps[c].moves[t.fed].children[i])
            && ps[c].moves[t.fed].children[i].id == e
            && TaskFits(ps[e], added[e]) && added[e].fed == 0 && added[e].phase == Ready
  {
    hide GenAt, Valid, Inv, RecordFits, FitsAt, RunOn, Decimal, Children, Dispatch, EventsOf;
    InvAt(w, ps, root, s, c);
    var t, p, req := s.tasks[c], ps[c], s.tasks[c].gen.control.request;
    var k := t.fed;
    ValidMove(w, p, k);
    ChildrenAt(c, t.spawned, req.branches, req.env);
    var d := p.moves[k].children[i];
    assert IsChild(p, k, i, d);
    ChildFacts(w, p, k, i, d);
    NewChild(w, ps, root, s, c, k, i, d);
    FirstGen(d);
  }

  lemma {:induction false} FirstGen(p: Plan)
    ensures GenAt(p, 0) == RunOn(Start(p.expr, p.env)) && Forks(p.moves, 0) == 0 && Effects(p.moves, 0) == 0
  {
  }

  lemma {:induction false} NewChild(w: World, ps: Plans, root: Plan, s: State, c: Id, k: nat, i: nat, d: Plan)
    requires Inv(w, ps, root, s) && c in s.tasks && c in ps && IsChild(ps[c], k, i, d) && !Opened(s.tasks[c], k)
    ensures d.id !in s.tasks && d.id in ps && ps[d.id] == d
  {
  }

  lemma {:induction false} ActFork(w: World, s: State, c: Id)
    requires c in s.tasks && s.tasks[c].gen.control.YieldC? && s.tasks[c].gen.control.request.Fork?
    requires s.tasks[c].gen.control.request.kind == All && s.tasks[c].gen.control.request.branches != []
    ensures var t, req := s.tasks[c], s.tasks[c].gen.control.request;
            var t' := t.(spawned := t.spawned + |req.branches|, phase := Joining(t.spawned, |req.branches|));
            Act(w, s, c) == Some(State(s.record, s.tasks[c := t'] + Children(c, t.spawned, req.branches, req.env)))
  {
  }

  /** The start of an `all`. */
  lemma {:induction false} StepFork(w: World, ps: Plans, root: Plan, s: State, c: Id)
    requires Inv(w, ps, root, s) && c in s.tasks && s.tasks[c].phase.Ready?
    requires s.tasks[c].gen.control.YieldC? && s.tasks[c].gen.control.request.Fork?
    requires s.tasks[c].gen.control.request.branches != []
    ensures Act(w, s, c).Some? && Inv(w, ps, root, Act(w, s, c).value)
  {
    hide GenAt, Valid, RecordFits, FitsAt, TaskOk, TaskFits, Act, Indexed, Linked, IsChild, Journaled, Children,
      MoveShape;
    InvAt(w, ps, root, s, c);
    ForkChildren(w, ps, root, s, c);
    ActFork(w, s, c);
    var t, p, req := s.tasks[c], ps[c], s.tasks[c].gen.control.request;
    var added := Children(c, t.spawned, req.branches, req.env);
    var s' := Act(w, s, c).value;
    var t' := t.(spawned := t.spawned + |req.branches|, phase := Joining(t.spawned, |req.branches|));
    forall d | d in s'.tasks ensures TaskOk(ps, s', d) {
      if d in added {
        NewTaskOk(ps, s, s', d, added[d]);
      } else if d == c {
        JoiningOk(ps, s, s', c, t');
      } else {
        assert TaskOk(ps, s, d);
        StaysOk(ps, s, s', d);
      }
    }
    ForkLinked(w, ps, root, s, s', c, t', added);
  }

  lemma {:induction false} JoiningFits(p: Plan, t: Task, t': Task)
    requires TaskFits(p, t) && t.phase.Ready? && t.fed < |p.moves| && p.moves[t.fed].ForkMove?
    requires t' == t.(spawned := t.spawned + |p.moves[t.fed].children|,
                      phase := Joining(t.spawned, |p.moves[t.fed].children|))
    ensures TaskFits(p, t') && Journaled(p, t') == Journaled(p, t)
  {
  }

  lemma {:induction false} JoiningOk(ps: Plans, s: State, s': State, c: Id, t': Task)
    requires c in s.tasks && TaskOk(ps, s, c) && s'.record == s.record && c in s'.tasks && s'.tasks[c] == t'
    requires var t := s.tasks[c];
             t.phase.Ready? && t.fed < |ps[c].moves| && ps[c].moves[t.fed].ForkMove? &&
             t' == t.(spawned := t.spawned + |ps[c].moves[t.fed].children|,
                      phase := Joining(t.spawned, |ps[c].moves[t.fed].children|))
    ensures TaskOk(ps, s', c)
  {
    hide TaskFits, Journaled;
    JoiningFits(ps[c], s.tasks[c], t');
  }

  lemma {:induction false} StaysOk(ps: Plans, s: State, s': State, d: Id)
    requires d in s.tasks && TaskOk(ps, s, d) && s'.record == s.record && d in s'.tasks && s'.tasks[d] == s.tasks[d]
    ensures TaskOk(ps, s', d)
  {
    hide TaskFits, Journaled;
  }

  lemma {:induction false} NewTaskOk(ps: Plans, s: State, s': State, d: Id, t: Task)
    requires d in s'.tasks && s'.tasks[d] == t && s'.record == s.record
    requires Proj(s.record.journal, d) == []
    requires d in ps && TaskFits(ps[d], t) && t.fed == 0 && t.phase == Ready
    ensures TaskOk(ps, s', d)
  {
    FirstGen(ps[d]);
  }

  lemma {:induction false} ForkLinked(w: World, ps: Plans, root: Plan, s: State, s': State, c: Id, t': Task,
                                      added: map<Id, Task>)
    requires Inv(w, ps, root, s) && c in s.tasks && s.tasks[c].phase.Ready? && c in ps
    requires s'.tasks == s.tasks[c := t'] + added
    requires t'.fed == s.tasks[c].fed && t'.phase.Joining?
    requires forall i: nat, d :: IsChild(ps[c], t'.fed, i, d) ==> d.id in added
    requires forall e :: e in added ==>
               && e !in s.tasks && e in ps
               && (exists i: nat, d :: IsChild(ps[c], t'.fed, i, d) && d.id == e)
               && added[e].fed == 0 && added[e].phase == Ready
    ensures Linked(ps, s')
  {
    hide GenAt, Valid, RecordFits, TaskFits;
    forall p, j: nat, i: nat, d | p in ps && IsChild(ps[p], j, i, d)
      ensures d.id in s'.tasks <==> p in s'.tasks && Opened(s'.tasks[p], j)
      ensures p in s'.tasks && Passed(s'.tasks[p], j) ==> d.id in s'.tasks && s'.tasks[d.id].phase.Ended?
    {
      assert d.id in s.tasks <==> p in s.tasks && Opened(s.tasks[p], j);
      if d.id in added {
        NewParent(w, ps, root, c, t'.fed, p, j, i, d);
      }
    }
  }

  /** The parent of a new child is the coroutine that forks. */
  lemma {:induction false} NewParent(w: World, ps: Plans, root: Plan, c: Id, k: nat, p: Id, j: nat, i: nat, d: Plan)
    requires Indexed(w, ps, root) && c in ps && p in ps && IsChild(ps[p], j, i, d)
    requires exists i': nat, d' :: IsChild(ps[c], k, i', d') && d'.id == d.id
    ensures p == c && j == k
  {
    hide Valid;
    var i': nat, d' :| IsChild(ps[c], k, i', d') && d'.id == d.id;
    assert ps[d.id] == d && ps[d'.id] == d';
    IndexedAt(w, ps, root, c);
    IndexedAt(w, ps, root, p);
    ParentUnique(w, ps[p], j, i, ps[c], k, i', d);
  }

  // ----- every step -----

  /** Every step keeps the invariant; no coroutine ever fails. */
  lemma {:induction false} StepKeeps(w: World, ps: Plans, root: Plan, s: State, c: Id)
    requires Inv(w, ps, root, s) && c in s.tasks && StepOf(w, s, c).Some?
    ensures Inv(w, ps, root, StepOf(w, s, c).value)
  {
    hide Inv, Act;
    var t := s.tasks[c];
    match t.phase
    case Ready => ActKeeps(w, ps, root, s, c);
    case Unrecorded(_) => StepAppend(w, ps, root, s, c);
    case Resumable(_) => StepResume(w, ps, root, s, c);
    case Joining(_, _) => StepJoin(w, ps, root, s, c);
    case _ =>
  }

  /** A coroutine that is ready always acts, and the invariant holds after it. */
  lemma {:induction false} ActKeeps(w: World, ps: Plans, root: Plan, s: State, c: Id)
    requires Inv(w, ps, root, s) && c in s.tasks && s.tasks[c].phase.Ready?
    ensures Act(w, s, c).Some? && Inv(w, ps, root, Act(w, s, c).value)
  {
    hide Inv, Act, Valid;
    InvAt(w, ps, root, s, c);
    ValidMove(w, ps[c], s.tasks[c].fed);
    var g := s.tasks[c].gen.control;
    if g.OutC? {
      StepClose(w, ps, root, s, c);
    } else if g.request.Standard? {
      StepEffect(w, ps, root, s, c);
    } else if g.request.branches == [] {
      StepEmptyFork(w, ps, root, s, c);
    } else {
      StepFork(w, ps, root, s, c);
    }
  }

  /** A crash at any point leaves a stream from which the next session starts well. */
  lemma {:induction false} CrashKeeps(w: World, p: Program, ps: Plans, root: Plan, s: State)
    requires Inv(w, ps, root, s)
    requires root.id == p.root && root.expr == p.expr && root.env == p.env
    ensures Inv(w, ps, root, Restart(p, s.record.stream))
  {
    hide Valid;
    forall c ensures Proj(s.record.stream, c) <= Planned(ps, c) {
      assert FitsAt(ps, s.record, c);
    }
    RestartInv(w, p, ps, root, s.record.stream);
  }
}
