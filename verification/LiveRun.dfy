/** An uninterrupted run, in whatever interleaving, is itself a record of what every other
    run must do: from the states it passes through the plan of the program is put together. */
module LiveRun {
  import opened Text
  import opened Ir
  import opened Kernel
  import opened Generator
  import opened Lanes
  import opened Journal
  import opened RunPlan
  import opened Engine
  import opened EngineInvariant
  import opened Recovery
  import opened Story

  /** What each coroutine of a run has done so far. */
  type Histories = map<Id, Plan>

  /** The moves of `q` were made as the uninterrupted run makes them. */
  ghost predicate Faithful(w: World, q: Plan)
  {
    forall k :: 0 <= k < |q.moves| ==>
      MoveShape(w, q, k) &&
      (q.moves[k].ForkMove? ==> forall i :: 0 <= i < |q.moves[k].children| ==> Valid(w, q.moves[k].children[i]))
  }

  ghost predicate TaskTold(w: World, r: Record, hs: Histories, tasks: map<Id, Task>, c: Id, q: Plan, t: Task)
  {
    && q.id == c && Faithful(w, q)
    && t.fed <= |q.moves| && t.gen == GenAt(q, t.fed)
    && |YieldsOf(r.journal, c)| == Effects(q.moves, |q.moves|)
    && match t.phase
       case Ready => |q.moves| == t.fed && t.spawned == Forks(q.moves, t.fed)
       case Unrecorded(entry) =>
         && |q.moves| == t.fed && t.spawned == Forks(q.moves, t.fed)
         && t.gen.control.YieldC? && t.gen.control.request.Standard?
         && Dispatch(w.max, w.handler(c, Effects(q.moves, t.fed)), t.gen.control.request.id,
                     t.gen.control.request.data, None).entry == entry
       case Resumable(a) =>
         |q.moves| == t.fed + 1 && t.spawned == Forks(q.moves, t.fed + 1) && a == AnswerOf(q.moves[t.fed])
       case Joining(first, count) =>
         && |q.moves| == t.fed && first == Forks(q.moves, t.fed) && t.spawned == first + count
         && t.gen.control.YieldC? && t.gen.control.request.Fork? && t.gen.control.request.kind == All
         && count == |t.gen.control.request.branches|
         && Started(hs, tasks, c, first, t.gen.control.request)
       case Ended(result) => |q.moves| == t.fed && Valid(w, q) && q.result == result
       case Failed => false
  }

  /** The children of a fork have been started on its branches. */
  ghost predicate Started(hs: Histories, tasks: map<Id, Task>, c: Id, first: nat, req: Request)
    requires req.Fork?
  {
    forall i: nat :: i < |req.branches| ==>
      var d := Nth(c, first, i);
      d in tasks && d in hs && hs[d].expr == req.branches[i] && hs[d].env == req.env
  }

  /** Every id was allocated by a coroutine that is there. */
  ghost predicate Allocated(p: Program, tasks: map<Id, Task>, d: Id)
  {
    d == p.root ||
    (|d| > |p.root| && exists c, n: nat :: c in tasks && n < tasks[c].spawned && d == ChildId(c, n))
  }

  ghost predicate Told(w: World, p: Program, hs: Histories, s: State)
  {
    && s.record.stored == []
    && hs.Keys == s.tasks.Keys
    && p.root in hs && hs[p.root].expr == p.expr && hs[p.root].env == p.env
    && (forall c :: c in s.tasks ==> TaskTold(w, s.record, hs, s.tasks, c, hs[c], s.tasks[c]))
    && (forall c :: c in s.tasks ==> Allocated(p, s.tasks, c))
    && (forall c :: c !in s.tasks ==> YieldsOf(s.record.journal, c) == [])
  }

  // ----- histories grow -----

  /** Neither the result nor later moves change what earlier moves came to. */
  lemma {:induction false} Longer(q: Plan, q': Plan, k: nat)
    requires q.expr == q'.expr && q.env == q'.env && q.moves <= q'.moves && k <= |q.moves|
    ensures GenAt(q', k) == GenAt(q, k)
    ensures Effects(q'.moves, k) == Effects(q.moves, k) && Forks(q'.moves, k) == Forks(q.moves, k)
  {
    assert q.moves[..k] == q'.moves[..k];
    SamePrefix(q, q', k);
  }

  lemma {:induction false} FaithfulNext(w: World, q: Plan, q': Plan, m: Move)
    requires Faithful(w, q) && q' == q.(moves := q.moves + [m])
    requires MoveShape(w, q', |q.moves|)
    requires m.ForkMove? ==> forall i :: 0 <= i < |m.children| ==> Valid(w, m.children[i])
    ensures Faithful(w, q')
    ensures GenAt(q', |q.moves|) == GenAt(q, |q.moves|)
    ensures Effects(q'.moves, |q'.moves|) == Effects(q.moves, |q.moves|) + (if m.EffectMove? then 1 else 0)
    ensures Forks(q'.moves, |q'.moves|) == Forks(q.moves, |q.moves|) + (if m.ForkMove? then |m.children| else 0)
  {
    hide GenAt, Valid, Dispatch;
    Longer(q, q', |q.moves|);
    forall k | 0 <= k < |q'.moves|
      ensures MoveShape(w, q', k)
      ensures q'.moves[k].ForkMove? ==> forall i :: 0 <= i < |q'.moves[k].children| ==>
                Valid(w, q'.moves[k].children[i])
    {
      if k < |q.moves| {
        Longer(q, q', k);
        assert MoveShape(w, q, k);
      }
    }
  }

  /** The tasks of a state are still there, on the same expressions. */
  ghost predicate Kept(hs: Histories, tasks: map<Id, Task>, hs': Histories, tasks': map<Id, Task>)
  {
    && hs.Keys == tasks.Keys && hs'.Keys == tasks'.Keys
    && forall d :: d in tasks ==>
         && d in tasks' && tasks'[d].spawned >= tasks[d].spawned
         && hs'[d].expr == hs[d].expr && hs'[d].env == hs[d].env
  }

  lemma {:induction false} ToldStays(w: World, r: Record, r': Record, hs: Histories, tasks: map<Id, Task>,
                  hs': Histories, tasks': map<Id, Task>, c: Id, q: Plan, t: Task)
    requires TaskTold(w, r, hs, tasks, c, q, t) && Kept(hs, tasks, hs', tasks')
    requires YieldsOf(r'.journal, c) == YieldsOf(r.journal, c)
    ensures TaskTold(w, r', hs', tasks', c, q, t)
  {
    hide Faithful, GenAt, Valid, Dispatch, YieldsOf, Effects, Forks, Nth;
    if t.phase.Joining? && t.gen.control.YieldC? && t.gen.control.request.Fork? {
      var req := t.gen.control.request;
      assert Started(hs', tasks', c, t.phase.first, req);
    }
  }

  lemma {:induction false} StaysAllocated(p: Program, hs: Histories, tasks: map<Id, Task>, hs': Histories,
                                          tasks': map<Id, Task>, d: Id)
    requires Allocated(p, tasks, d) && Kept(hs, tasks, hs', tasks')
    ensures Allocated(p, tasks', d)
  {
  }

  /** One task changes, with its own history; what it started stays started. */
  lemma {:induction false} OneTold(w: World, p: Program, hs: Histories, s: State, s': State, c: Id, q': Plan, t': Task)
    requires Told(w, p, hs, s) && c in s.tasks
    requires s'.tasks == s.tasks[c := t'] && s'.record.stored == []
    requires forall d :: d != c ==> YieldsOf(s'.record.journal, d) == YieldsOf(s.record.journal, d)
    requires q'.expr == hs[c].expr && q'.env == hs[c].env && t'.spawned >= s.tasks[c].spawned
    requires TaskTold(w, s'.record, hs, s.tasks, c, q', t')
    ensures Told(w, p, hs[c := q'], s')
  {
    hide TaskTold, Allocated, YieldsOf;
    var hs' := hs[c := q'];
    forall d | d in s'.tasks
      ensures TaskTold(w, s'.record, hs', s'.tasks, d, hs'[d], s'.tasks[d]) && Allocated(p, s'.tasks, d)
    {
      StaysAllocated(p, hs, s.tasks, hs', s'.tasks, d);
      if d == c {
        ToldStays(w, s'.record, s'.record, hs, s.tasks, hs', s'.tasks, d, q', t');
      } else {
        ToldStays(w, s.record, s'.record, hs, s.tasks, hs', s'.tasks, d, hs[d], s.tasks[d]);
      }
    }
  }

  // ----- the steps of a live run -----

  lemma {:induction false} ToldAt(w: World, p: Program, hs: Histories, s: State, c: Id)
    requires Told(w, p, hs, s) && c in s.tasks
    ensures c in hs && TaskTold(w, s.record, hs, s.tasks, c, hs[c], s.tasks[c])
    ensures s.record.stored == []
  {
  }

  /** Nothing is stored, so every dispatch is live. */
  lemma {:induction false} LiveDispatch(w: World, r: Record, c: Id, id: string, data: Node)
    requires r.stored == []
    ensures var d := DispatchOf(w, r, c, id, data);
            && d.Some? && d.value.Live?
            && d.value == Dispatch(w.max, w.handler(c, |YieldsOf(r.journal, c)|), id, data, None)
  {
  }

  lemma {:induction false} TellEffect(w: World, p: Program, hs: Histories, s: State, c: Id)
    requires Told(w, p, hs, s) && c in s.tasks && s.tasks[c].phase.Ready?
    requires s.tasks[c].gen.control.YieldC? && s.tasks[c].gen.control.request.Standard?
    requires Act(w, s, c).Some?
    ensures Told(w, p, hs, Act(w, s, c).value)
  {
    hide Told, Faithful, GenAt, Dispatch, DispatchOf, YieldsOf;
    ToldAt(w, p, hs, s, c);
    var t, q := s.tasks[c], hs[c];
    var req := t.gen.control.request;
    LiveDispatch(w, s.record, c, req.id, req.data);
    var entry := DispatchOf(w, s.record, c, req.id, req.data).value.entry;
    OneTold(w, p, hs, s, Act(w, s, c).value, c, q, t.(phase := Unrecorded(entry)));
    assert hs[c := q] == hs;
  }

  lemma {:induction false} JournalYield(journal: seq<Event>, c: Id, entry: Entry, d: Id)
    ensures YieldsOf(journal + [Yield(c, entry)], d) == YieldsOf(journal, d) + (if d == c then [entry] else [])
  {
    assert (journal + [Yield(c, entry)])[..|journal|] == journal;
  }

  lemma {:induction false} JournalClose(journal: seq<Event>, c: Id, r: EventResult, d: Id)
    ensures YieldsOf(journal + [Close(c, r)], d) == YieldsOf(journal, d)
  {
    assert (journal + [Close(c, r)])[..|journal|] == journal;
    assert YieldsOf(journal, d) + [] == YieldsOf(journal, d);
  }

  lemma {:induction false} TellAppend(w: World, p: Program, hs: Histories, s: State, c: Id) returns (hs': Histories)
    requires Told(w, p, hs, s) && c in s.tasks && s.tasks[c].phase.Unrecorded? && StepOf(w, s, c).Some?
    ensures Told(w, p, hs', StepOf(w, s, c).value)
  {
    hide Told, Faithful, GenAt, Dispatch, YieldsOf;
    ToldAt(w, p, hs, s, c);
    var t, q := s.tasks[c], hs[c];
    var entry := t.phase.entry;
    var m := EffectMove(entry);
    var q' := q.(moves := q.moves + [m]);
    Longer(q, q', |q.moves|);
    FaithfulNext(w, q, q', m);
    forall d ensures YieldsOf(s.record.journal + [Yield(c, entry)], d)
                     == YieldsOf(s.record.journal, d) + (if d == c then [entry] else [])
    {
      JournalYield(s.record.journal, c, entry, d);
    }
    hs' := hs[c := q'];
    OneTold(w, p, hs, s, StepOf(w, s, c).value, c, q', t.(phase := Resumable(Feed(entry.result))));
  }

  lemma {:induction false} TellResume(w: World, p: Program, hs: Histories, s: State, c: Id)
    requires Told(w, p, hs, s) && c in s.tasks && s.tasks[c].phase.Resumable? && StepOf(w, s, c).Some?
    ensures Told(w, p, hs, StepOf(w, s, c).value)
  {
    hide Told, Faithful, YieldsOf, RunOn;
    ToldAt(w, p, hs, s, c);
    var t, q := s.tasks[c], hs[c];
    var t' := Task(RunOn(Resume(t.gen, t.phase.answer)), t.fed + 1, t.spawned, Phase.Ready);
    assert t'.gen == GenAt(q, t.fed + 1);
    OneTold(w, p, hs, s, StepOf(w, s, c).value, c, q, t');
    assert hs[c := q] == hs;
  }

  lemma {:induction false} TellEmptyFork(w: World, p: Program, hs: Histories, s: State, c: Id) returns (hs': Histories)
    requires Told(w, p, hs, s) && c in s.tasks && s.tasks[c].phase.Ready?
    requires s.tasks[c].gen.control.YieldC? && s.tasks[c].gen.control.request.Fork?
    requires s.tasks[c].gen.control.request.branches == [] && Act(w, s, c).Some?
    ensures Told(w, p, hs', Act(w, s, c).value)
  {
    hide Told, Faithful, GenAt, YieldsOf;
    ToldAt(w, p, hs, s, c);
    var t, q := s.tasks[c], hs[c];
    var m := ForkMove([]);
    var q' := q.(moves := q.moves + [m]);
    Longer(q, q', |q.moves|);
    FaithfulNext(w, q, q', m);
    assert ChildValues(m.children) == [];
    hs' := hs[c := q'];
    OneTold(w, p, hs, s, Act(w, s, c).value, c, q', t.(phase := Resumable(Ok(Arr([])))));
  }

  lemma {:induction false} TellJoin(w: World, p: Program, hs: Histories, s: State, c: Id) returns (hs': Histories)
    requires Told(w, p, hs, s) && c in s.tasks && s.tasks[c].phase.Joining? && StepOf(w, s, c).Some?
    ensures Told(w, p, hs', StepOf(w, s, c).value)
  {
    hide Told, Faithful, GenAt, YieldsOf, Valid;
    ToldAt(w, p, hs, s, c);
    var t, q := s.tasks[c], hs[c];
    var first, req := t.phase.first, t.gen.control.request;
    var n := |req.branches|;
    var cs := seq(n, i requires 0 <= i < n => assert Nth(c, first, i) in hs; hs[Nth(c, first, i)]);
    forall i | 0 <= i < n
      ensures Valid(w, cs[i]) && cs[i].id == Nth(c, first, i) && cs[i].result.OkResult?
      ensures cs[i].expr == req.branches[i] && cs[i].env == req.env
      ensures Results(s.tasks, c, first, n)[i] == ChildValues(cs)[i]
    {
      assert EndedOk(s.tasks, Nth(c, first, i));
      ToldAt(w, p, hs, s, Nth(c, first, i));
    }
    assert Results(s.tasks, c, first, n) == ChildValues(cs);
    var m := ForkMove(cs);
    var q' := q.(moves := q.moves + [m]);
    Longer(q, q', |q.moves|);
    FaithfulNext(w, q, q', m);
    hs' := hs[c := q'];
    OneTold(w, p, hs, s, StepOf(w, s, c).value, c, q', t.(phase := Resumable(Ok(Arr(ChildValues(cs))))));
  }

  lemma {:induction false} TellClose(w: World, p: Program, hs: Histories, s: State, c: Id) returns (hs': Histories)
    requires Told(w, p, hs, s) && c in s.tasks && s.tasks[c].phase.Ready?
    requires s.tasks[c].gen.control.OutC? && Act(w, s, c).Some?
    ensures Told(w, p, hs', Act(w, s, c).value)
  {
    hide Told, GenAt, YieldsOf, MoveShape, Settle;
    ToldAt(w, p, hs, s, c);
    var t, q := s.tasks[c], hs[c];
    var result := Settle(t.gen.control.answer);
    var q' := q.(result := result);
    forall k | 0 <= k <= |q.moves| ensures GenAt(q', k) == GenAt(q, k) {
      Longer(q, q', k);
    }
    forall k | 0 <= k < |q.moves| ensures MoveShape(w, q', k) {
      assert MoveShape(w, q, k);
      SameShape(w, q, q', k);
    }
    forall d ensures YieldsOf(s.record.journal + [Close(c, result)], d) == YieldsOf(s.record.journal, d) {
      JournalClose(s.record.journal, c, result, d);
    }
    hs' := hs[c := q'];
    OneTold(w, p, hs, s, Act(w, s, c).value, c, q', t.(phase := Ended(result)));
  }

  lemma {:induction false} SameShape(w: World, q: Plan, q': Plan, k: nat)
    requires k < |q.moves| && MoveShape(w, q, k) && q' == q.(result := q'.result)
    ensures MoveShape(w, q', k)
  {
    hide GenAt, Dispatch;
    Longer(q, q', k);
  }

  // ----- forks -----

  ghost function Told0(c: Id, first: nat, req: Request, added: map<Id, Task>): Histories
    requires req.Fork?
    requires forall d :: d in added ==> exists i: nat :: i < |req.branches| && d == Nth(c, first, i)
  {
    map d | d in added ::
      var i: nat :| i < |req.branches| && d == Nth(c, first, i);
      Plan(d, req.branches[i], req.env, [], Cancelled)
  }

  lemma {:induction false} FreshChild(p: Program, tasks: map<Id, Task>, c: Id, n: nat)
    requires c in tasks && forall d :: d in tasks ==> Allocated(p, tasks, d)
    requires n >= tasks[c].spawned
    ensures ChildId(c, n) !in tasks && |ChildId(c, n)| > |p.root|
  {
    assert Allocated(p, tasks, c);
    var d := ChildId(c, n);
    assert |d| > |c|;
    if d in tasks {
      assert Allocated(p, tasks, d);
      var e, m: nat :| e in tasks && m < tasks[e].spawned && d == ChildId(e, m);
      ChildIdInjective(c, n, e, m);
    }
  }

  lemma {:induction false} TellFork(w: World, p: Program, hs: Histories, s: State, c: Id) returns (hs': Histories)
    requires Told(w, p, hs, s) && c in s.tasks && s.tasks[c].phase.Ready?
    requires s.tasks[c].gen.control.YieldC? && s.tasks[c].gen.control.request.Fork?
    requires s.tasks[c].gen.control.request.kind == All && s.tasks[c].gen.control.request.branches != []
    requires Act(w, s, c).Some?
    ensures Told(w, p, hs', Act(w, s, c).value)
  {
    hide TaskTold, Allocated, YieldsOf, Act, NewTask, Nth, Children, ChildId;
    ActFork(w, s, c);
    var t, q, req := s.tasks[c], hs[c], s.tasks[c].gen.control.request;
    var first := t.spawned;
    ChildrenAt(c, first, req.branches, req.env);
    var added := Children(c, first, req.branches, req.env);
    var s' := Act(w, s, c).value;
    var t' := t.(spawned := first + |req.branches|, phase := Joining(first, |req.branches|));
    assert s'.tasks == s.tasks[c := t'] + added;
    forall d | d in added ensures d !in s.tasks && d != p.root {
      ForkedFresh(p, s.tasks, c, first, |req.branches|, d);
    }
    forall d | d in added ensures Allocated(p, s'.tasks, d) {
      ForkedAllocated(p, s.tasks, s'.tasks, c, first, |req.branches|, d);
    }
    var fresh_ := Told0(c, first, req, added);
    hs' := hs + fresh_;
    forall i: nat | i < |req.branches|
      ensures var d := Nth(c, first, i);
              d in added && fresh_[d] == Plan(d, req.branches[i], req.env, [], Cancelled)
    {
      Told0At(c, first, req, added, i);
    }
    forall d | d in s'.tasks
      ensures Allocated(p, s'.tasks, d)
      ensures TaskTold(w, s'.record, hs', s'.tasks, d, hs'[d], s'.tasks[d])
    {
      if d in added {
        var i: nat :| i < |req.branches| && d == Nth(c, first, i);
        NewTold(w, s'.record, hs', s'.tasks, d, req.branches[i], req.env);
      } else {
        StaysAllocated(p, hs, s.tasks, hs', s'.tasks, d);
        if d == c {
          JoiningTold(w, s.record, hs, s.tasks, hs', s'.tasks, c, q, t);
        } else {
          ToldStays(w, s.record, s'.record, hs, s.tasks, hs', s'.tasks, d, hs[d], s.tasks[d]);
        }
      }
    }
  }

  lemma {:induction false} Told0At(c: Id, first: nat, req: Request, added: map<Id, Task>, i: nat)
    requires req.Fork? && i < |req.branches| && Nth(c, first, i) in added
    requires forall d :: d in added ==> exists i: nat :: i < |req.branches| && d == Nth(c, first, i)
    ensures var d := Nth(c, first, i);
            Told0(c, first, req, added)[d] == Plan(d, req.branches[i], req.env, [], Cancelled)
  {
    hide ChildId;
    forall j: nat | Nth(c, first, i) == Nth(c, first, j) ensures i == j {
      ChildIdInjective(c, first + i, c, first + j);
    }
  }

  lemma {:induction false} ForkedFresh(p: Program, tasks: map<Id, Task>, c: Id, first: nat, count: nat, d: Id)
    requires c in tasks && tasks[c].spawned == first && forall d :: d in tasks ==> Allocated(p, tasks, d)
    requires exists i: nat :: i < count && d == Nth(c, first, i)
    ensures d !in tasks && |d| > |p.root|
  {
    hide ChildId;
    var i: nat :| i < count && d == Nth(c, first, i);
    FreshChild(p, tasks, c, first + i);
  }

  lemma {:induction false} ForkedAllocated(p: Program, tasks: map<Id, Task>, tasks': map<Id, Task>, c: Id, first: nat,
                                           count: nat, d: Id)
    requires c in tasks && tasks[c].spawned == first && forall d :: d in tasks ==> Allocated(p, tasks, d)
    requires c in tasks' && tasks'[c].spawned == first + count
    requires exists i: nat :: i < count && d == Nth(c, first, i)
    ensures Allocated(p, tasks', d)
  {
    hide ChildId;
    ForkedFresh(p, tasks, c, first, count, d);
    var i: nat :| i < count && d == Nth(c, first, i);
    assert c in tasks' && first + i < tasks'[c].spawned && d == ChildId(c, first + i);
  }

  /** The forking task waits for children that have just been started. */
  lemma {:induction false} JoiningTold(w: World, r: Record, hs: Histories, tasks: map<Id, Task>,
                    hs': Histories, tasks': map<Id, Task>, c: Id, q: Plan, t: Task)
    requires TaskTold(w, r, hs, tasks, c, q, t) && t.phase.Ready?
    requires t.gen.control.YieldC? && t.gen.control.request.Fork? && t.gen.control.request.kind == All
    requires Started(hs', tasks', c, t.spawned, t.gen.control.request)
    ensures var n := |t.gen.control.request.branches|;
            TaskTold(w, r, hs', tasks', c, q, t.(spawned := t.spawned + n, phase := Joining(t.spawned, n)))
  {
    hide Faithful, GenAt, Valid, Dispatch, YieldsOf, Effects, Forks, Nth, Started;
  }

  lemma {:induction false} NewTold(w: World, r: Record, hs: Histories, tasks: map<Id, Task>, d: Id, e: Node, env: Env)
    requires YieldsOf(r.journal, d) == []
    ensures TaskTold(w, r, hs, tasks, d, Plan(d, e, env, [], Cancelled), NewTask(e, env))
  {
    hide RunOn;
  }

  // ----- a whole run -----

  lemma {:induction false} TellStep(w: World, p: Program, hs: Histories, s: State, c: Id) returns (hs': Histories)
    requires Told(w, p, hs, s) && c in s.tasks && StepOf(w, s, c).Some?
    ensures Told(w, p, hs', StepOf(w, s, c).value)
  {
    hide Told, Act, TaskTold;
    var t := s.tasks[c];
    hs' := hs;
    match t.phase
    case Ready =>
      var g := t.gen.control;
      ActCases(w, s, c);
      if g.OutC? {
        hs' := TellClose(w, p, hs, s, c);
      } else if g.request.Standard? {
        TellEffect(w, p, hs, s, c);
      } else if g.request.branches == [] {
        hs' := TellEmptyFork(w, p, hs, s, c);
      } else {
        hs' := TellFork(w, p, hs, s, c);
      }
    case Unrecorded(_) => hs' := TellAppend(w, p, hs, s, c);
    case Resumable(_) => TellResume(w, p, hs, s, c);
    case Joining(_, _) => hs' := TellJoin(w, p, hs, s, c);
    case _ =>
  }

  lemma {:induction false} ActCases(w: World, s: State, c: Id)
    requires c in s.tasks && Act(w, s, c).Some?
    ensures var g := s.tasks[c].gen.control;
            g.OutC? || (g.YieldC? && (g.request.Fork? ==> g.request.kind == All))
  {
  }

  lemma {:induction false} TellStart(w: World, p: Program) returns (hs: Histories)
    ensures Told(w, p, hs, Restart(p, []))
  {
    hide RunOn;
    hs := map[p.root := Plan(p.root, p.expr, p.env, [], Cancelled)];
    NewTold(w, Restart(p, []).record, hs, Restart(p, []).tasks, p.root, p.expr, p.env);
  }

  lemma {:induction false} TellRun(w: World, p: Program, schedule: seq<Action>) returns (hs: Histories)
    requires CrashFree(schedule)
    ensures Told(w, p, hs, StateAfter(w, p, schedule))
    decreases |schedule|
  {
    hide Told, StepOf;
    if schedule == [] {
      hs := TellStart(w, p);
    } else {
      var n := |schedule| - 1;
      hs := TellRun(w, p, schedule[..n]);
      var s, c := StateAfter(w, p, schedule[..n]), schedule[n].c;
      if c in s.tasks && StepOf(w, s, c).Some? {
        hs := TellStep(w, p, hs, s, c);
      }
    }
  }

  /** An uninterrupted run that finishes determines the plan. */
  lemma {:induction false} RunGivesPlan(w: World, p: Program, live: seq<Action>) returns (root: Plan)
    requires CrashFree(live) && Finished(p, StateAfter(w, p, live))
    ensures PlanOf(w, p, root) && root.result == StateAfter(w, p, live).tasks[p.root].phase.result
  {
    hide StateAfter, Valid;
    var hs := TellRun(w, p, live);
    ToldAt(w, p, hs, StateAfter(w, p, live), p.root);
    root := hs[p.root];
  }

  /** Crash recovery, without reference to plans. If one uninterrupted interleaving finishes,
      then every schedule of steps and crashes that finishes comes to the same result and
      leaves, of every coroutine, the same events in the stream and in the last session's
      journal. */
  lemma {:induction false} AnyRecoveryAgrees(w: World, p: Program, live: seq<Action>, any: seq<Action>)
    requires CrashFree(live) && Finished(p, StateAfter(w, p, live))
    requires Finished(p, StateAfter(w, p, any))
    ensures var s, s' := StateAfter(w, p, live), StateAfter(w, p, any);
            && s'.tasks[p.root].phase.result == s.tasks[p.root].phase.result
            && forall c :: Proj(s'.record.stream, c) == Proj(s.record.stream, c) == Proj(s'.record.journal, c)
  {
    hide StateAfter, Valid;
    var root := RunGivesPlan(w, p, live);
    CrashRecovery(w, p, root, live);
    CrashRecovery(w, p, root, any);
  }

  /** And this is what the evaluator comes to on the answers of the middleware and handlers:
      whatever the interleaving and wherever the crashes, the result and the events of every
      coroutine are those of the one tale that happens. */
  lemma {:induction false} AnyRecoveryTells(w: World, p: Program, live: seq<Action>, any: seq<Action>) returns (t: Tale)
    requires CrashFree(live) && Finished(p, StateAfter(w, p, live))
    requires Finished(p, StateAfter(w, p, any))
    ensures Happens(w, p.root, p.expr, p.env, t)
    ensures var s := StateAfter(w, p, any);
            && Shown(t.outcome, s.tasks[p.root].phase.result)
            && Chronicled(s.record.stream, p.root, t) && Chronicled(s.record.journal, p.root, t)
  {
    hide StateAfter, Valid, Chronicled, Happens, Shown, TaleOf;
    var root := RunGivesPlan(w, p, live);
    CrashRecovery(w, p, root, any);
    t := TaleOf(w, root);
    TaleHappens(w, root);
    WholeTale(w, root, StateAfter(w, p, any).record.stream);
    WholeTale(w, root, StateAfter(w, p, any).record.journal);
  }

  /** And every schedule, wherever its crashes are, can be completed without another crash. */
  lemma {:induction false} AnyRunRecovers(w: World, p: Program, live: seq<Action>,
                                          any: seq<Action>) returns (more: seq<Action>)
    requires CrashFree(live) && Finished(p, StateAfter(w, p, live))
    ensures CrashFree(more) && Finished(p, StateAfter(w, p, any + more))
  {
    hide StateAfter, Valid;
    var root := RunGivesPlan(w, p, live);
    more := CanFinish(w, p, root, any);
  }
}
