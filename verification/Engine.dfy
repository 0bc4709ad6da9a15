/** The durable execution engine as a state machine: a tree of coroutines, each driven by
    its own generator, over one append-only stream. A step is taken by any coroutine that
    can take one; a crash keeps the stream and nothing else. */
module Engine {
  import opened Text
  import opened Ir
  import opened Kernel
  import opened Generator
  import opened Lanes
  import opened Journal
  import opened RunPlan

  // ----- state -----

  /** What a coroutine is about to do. */
  datatype Phase =
    | Ready                               // act on what its generator shows
    | Unrecorded(entry: Entry)            // append a live effect's event
    | Resumable(answer: Answer)           // resume the generator
    | Joining(first: nat, count: nat)     // wait for the children of an `all`
    | Ended(result: EventResult)
    | Failed                              // a divergence was detected

  /** A running coroutine: `fed` counts the resumptions of its generator, `spawned` the
      children it has allocated. */
  datatype Task = Task(gen: Gen, fed: nat, spawned: nat, phase: Phase)

  /** The durable side of a session: the stream, what it held when the session began, the
      replay cursors, and the session's own journal. */
  datatype Record = Record(stream: seq<Event>, stored: seq<Event>, cursors: map<Id, nat>, journal: seq<Event>)

  datatype State = State(record: Record, tasks: map<Id, Task>)

  /** What is run: the root coroutine. */
  datatype Program = Program(root: Id, expr: Node, env: Env)

  // ----- the durable side -----

  /** A live effect is appended before its result is used. */
  function RecordLive(r: Record, c: Id, entry: Entry): Record
  {
    r.(stream := r.stream + [Yield(c, entry)], journal := r.journal + [Yield(c, entry)])
  }

  /** A replayed effect goes to the journal of the session only. */
  function RecordReplay(r: Record, c: Id, entry: Entry): Record
  {
    r.(cursors := r.cursors[c := Cursor(r.cursors, c) + 1], journal := r.journal + [Yield(c, entry)])
  }

  /** A Close is appended unless the stream held one when the session began. */
  function RecordClose(r: Record, c: Id, result: EventResult): Record
  {
    r.(stream := if CloseOf(r.stored, c).None? then r.stream + [Close(c, result)] else r.stream,
       journal := r.journal + [Close(c, result)])
  }

  /** The dispatch of an effect of `c`; None is the divergence of a coroutine that goes on
      after its stored Close. */
  function DispatchOf(w: World, r: Record, c: Id, id: string, data: Node): Option<Dispatched>
  {
    DispatchWith(w.max, w.handler(c, |YieldsOf(r.journal, c)|), r, c, id, data)
  }

  function DispatchWith(max: seq<Middleware>, handler: Handler, r: Record, c: Id, id: string,
                        data: Node): Option<Dispatched>
  {
    var stored := Peek(r.stored, r.cursors, c);
    if stored.None? && CloseOf(r.stored, c).Some? then None
    else Some(Dispatch(max, handler, id, data, stored))
  }

  // ----- steps -----

  ghost function NewTask(expr: Node, env: Env): Task
  {
    Task(RunOn(Start(expr, env)), 0, 0, Ready)
  }

  /** Child number `i` of the fork whose first child has number `first`. */
  function Nth(c: Id, first: nat, i: nat): Id { ChildId(c, first + i) }

  ghost function Children(c: Id, first: nat, branches: seq<Node>, env: Env): map<Id, Task>
  {
    if branches == [] then map[]
    else
      var n := |branches| - 1;
      Children(c, first, branches[..n], env)[Nth(c, first, n) := NewTask(branches[n], env)]
  }

  predicate EndedOk(tasks: map<Id, Task>, c: Id)
  {
    c in tasks && tasks[c].phase.Ended? && tasks[c].phase.result.OkResult?
  }

  predicate AllEnded(tasks: map<Id, Task>, c: Id, first: nat, count: nat)
  {
    forall i: nat :: i < count ==> EndedOk(tasks, Nth(c, first, i))
  }

  /** The results of the children in source order. */
  function Results(tasks: map<Id, Task>, c: Id, first: nat, count: nat): (r: seq<Node>)
    ensures |r| == count
    ensures forall i: nat :: i < count && EndedOk(tasks, Nth(c, first, i)) ==>
              r[i] == tasks[Nth(c, first, i)].phase.result.value
  {
    seq(count, i requires 0 <= i < count =>
      var d := Nth(c, first, i);
      if EndedOk(tasks, d) then tasks[d].phase.result.value else Null)
  }

  /** The step of coroutine `c`, if it can take one. Only trees of `all` blocks are driven:
      a coroutine that asks for a `race`, or whose child fails, takes no step here. */
  ghost function StepOf(w: World, s: State, c: Id): Option<State>
    requires c in s.tasks
  {
    var t := s.tasks[c];
    match t.phase
    case Ready => Act(w, s, c)
    case Unrecorded(entry) =>
      Some(State(RecordLive(s.record, c, entry), s.tasks[c := t.(phase := Resumable(Feed(entry.result)))]))
    case Resumable(a) =>
      if t.gen.control.YieldC? then
        Some(s.(tasks := s.tasks[c := Task(RunOn(Resume(t.gen, a)), t.fed + 1, t.spawned, Ready)]))
      else None
    case Joining(first, count) =>
      if AllEnded(s.tasks, c, first, count) then
        Some(s.(tasks := s.tasks[c := t.(phase := Resumable(Ok(Arr(Results(s.tasks, c, first, count)))))]))
      else None
    case Ended(_) => None
    case Failed => None
  }

  /** Acting on what the generator shows. */
  ghost function Act(w: World, s: State, c: Id): Option<State>
    requires c in s.tasks
  {
    var t := s.tasks[c];
    match t.gen.control
    case YieldC(Standard(id, data)) =>
      (match DispatchOf(w, s.record, c, id, data)
       case None => Some(s.(tasks := s.tasks[c := t.(phase := Failed)]))
       case Some(Live(entry, _)) => Some(s.(tasks := s.tasks[c := t.(phase := Unrecorded(entry))]))
       case Some(Replayed(entry, _)) =>
         Some(State(RecordReplay(s.record, c, entry), s.tasks[c := t.(phase := Resumable(Feed(entry.result)))]))
       case Some(Diverged(_)) => Some(s.(tasks := s.tasks[c := t.(phase := Failed)])))
    case YieldC(Fork(kind, branches, env)) =>
      if kind != All then None
      else if branches == [] then Some(s.(tasks := s.tasks[c := t.(phase := Resumable(Ok(Arr([]))))]))
      else
        var t' := t.(spawned := t.spawned + |branches|, phase := Joining(t.spawned, |branches|));
        Some(s.(tasks := s.tasks[c := t'] + Children(c, t.spawned, branches, env)))
    case OutC(a) =>
      if t.gen.stack != [] then None
      else
        Some(State(RecordClose(s.record, c, Settle(a)), s.tasks[c := t.(phase := Ended(Settle(a)))]))
    case _ => None
  }

  /** A new session over the stream as it is. */
  ghost function Restart(p: Program, stream: seq<Event>): State
  {
    State(Record(stream, stream, map[], []), map[p.root := NewTask(p.expr, p.env)])
  }

  // ----- runs -----

  datatype Action = Go(c: Id) | Crash

  ghost function Perform(w: World, p: Program, s: State, a: Action): State
  {
    match a
    case Go(c) => if c in s.tasks && StepOf(w, s, c).Some? then StepOf(w, s, c).value else s
    case Crash => Restart(p, s.record.stream)
  }

  /** The state after any schedule of steps and crashes, from an empty stream. */
  ghost function StateAfter(w: World, p: Program, schedule: seq<Action>): State
  {
    if schedule == [] then Restart(p, [])
    else Perform(w, p, StateAfter(w, p, schedule[..|schedule| - 1]), schedule[|schedule| - 1])
  }

  /** The program's root has ended. */
  predicate Finished(p: Program, s: State)
  {
    p.root in s.tasks && s.tasks[p.root].phase.Ended?
  }
}
