/** Middleware lanes: how registrations across nested scopes are ordered, and what a
    dispatch does on its way through the `max` lane to the replay boundary. */
module Lanes {
  import opened Text
  import opened Ir
  import opened Kernel

  // ----- middleware -----

  /** What a middleware does with a request: answer it itself (with a value or an error),
      or delegate once, possibly rewritten, and rework the answer. */
  datatype Decision =
    | ShortCircuit(answer: Answer)
    | Delegate(id: string, data: Node, post: Answer -> Answer)

  type Middleware = (string, Node) -> Decision

  datatype Group = Max | Replay | Min

  /** Registrations of one scope, by group, in the order in which they run. */
  datatype ScopeState<M> = ScopeState(max: seq<M>, replay: seq<M>, min: seq<M>)

  function NoMiddleware<M>(): ScopeState<M> { ScopeState([], [], []) }

  /** `max` appends: earlier registrations run outer. The other groups prepend. */
  function Register<M>(s: ScopeState<M>, at: Group, m: M): ScopeState<M>
  {
    match at
    case Max => s.(max := s.max + [m])
    case Replay => s.(replay := [m] + s.replay)
    case Min => s.(min := [m] + s.min)
  }

  // ----- the stack of a dispatch -----

  /** A registration where it is held: its scope in the chain, innermost first, its group, and
      its index there. */
  datatype Place = Place(scope: nat, at: Group, index: nat)

  function Members<M>(s: ScopeState<M>, at: Group): seq<M>
  {
    match at
    case Max => s.max
    case Replay => s.replay
    case Min => s.min
  }

  predicate IsPlace<M>(window: seq<ScopeState<M>>, p: Place)
  {
    p.scope < |window| && p.index < |Members(window[p.scope], p.at)|
  }

  /** `p` runs outside `q`: `max` before `replay` before `min`; outer scopes first in `max`,
      inner ones first in the others; within a scope as registered. */
  predicate Outside(p: Place, q: Place)
  {
    || (p.at.Max? && !q.at.Max?)
    || (p.at.Replay? && q.at.Min?)
    || (p.at == q.at && (if p.at.Max? then p.scope > q.scope else p.scope < q.scope))
    || (p.at == q.at && p.scope == q.scope && p.index < q.index)
  }

  /** `order` names the registration at each position of `out`, from the outermost inward. */
  ghost predicate Placed<M>(window: seq<ScopeState<M>>, order: seq<Place>, out: seq<M>)
  {
    && |order| == |out|
    && (forall k :: 0 <= k < |out| ==>
          IsPlace(window, order[k]) && out[k] == Members(window[order[k].scope], order[k].at)[order[k].index])
    && (forall i, j :: 0 <= i < j < |order| ==> Outside(order[i], order[j]))
  }

  /** All registrations of the window are there, each once. */
  ghost predicate Arranged<M>(window: seq<ScopeState<M>>, order: seq<Place>, out: seq<M>)
  {
    Placed(window, order, out) && forall p :: IsPlace(window, p) ==> p in order
  }

  /** The same of one group in the first `n` scopes. */
  ghost predicate InGroup<M>(window: seq<ScopeState<M>>, n: nat, at: Group, order: seq<Place>, out: seq<M>)
  {
    && Placed(window, order, out)
    && (forall k :: 0 <= k < |order| ==> order[k].scope < n && order[k].at == at)
    && (forall p :: IsPlace(window, p) && p.scope < n && p.at == at ==> p in order)
  }

  function PlacesOf(scope: nat, at: Group, size: nat): (ps: seq<Place>)
    ensures |ps| == size && forall i :: 0 <= i < size ==> ps[i] == Place(scope, at, i)
  {
    seq(size, i requires 0 <= i < size => Place(scope, at, i))
  }

  /** The next scope goes before an appending lane and after a prepending one. */
  lemma {:induction false} LaneNext<M>(window: seq<ScopeState<M>>, n: nat, at: Group, order: seq<Place>, out: seq<M>)
    requires n < |window| && InGroup(window, n, at, order, out)
    ensures var more := Members(window[n], at);
            var places := PlacesOf(n, at, |more|);
            if at.Max? then InGroup(window, n + 1, at, places + order, more + out)
            else InGroup(window, n + 1, at, order + places, out + more)
  {
    hide Members;
    var more := Members(window[n], at);
    var places := PlacesOf(n, at, |more|);
    if at.Max? {
      PlacedJoin(window, places, more, order, out);
    } else {
      PlacedJoin(window, order, out, places, more);
    }
    assert forall p :: IsPlace(window, p) && p.scope == n && p.at == at ==> places[p.index] == p;
  }

  lemma {:induction false} PlacedJoin<M>(window: seq<ScopeState<M>>, a: seq<Place>, ms: seq<M>, b: seq<Place>,
                                         ns: seq<M>)
    requires Placed(window, a, ms) && Placed(window, b, ns)
    requires forall i, j :: 0 <= i < |a| && 0 <= j < |b| ==> Outside(a[i], b[j])
    ensures Placed(window, a + b, ms + ns)
  {
    hide Outside, Members;
  }

  lemma {:induction false} LanesTogether<M>(window: seq<ScopeState<M>>, a: seq<Place>, max: seq<M>, b: seq<Place>,
                                            replay: seq<M>, c: seq<Place>, min: seq<M>)
    requires InGroup(window, |window|, Max, a, max) && InGroup(window, |window|, Replay, b, replay)
    requires InGroup(window, |window|, Min, c, min)
    ensures Arranged(window, a + b + c, max + replay + min)
  {
    hide Members;
    PlacedJoin(window, a, max, b, replay);
    PlacedJoin(window, a + b, max + replay, c, min);
    forall p | IsPlace(window, p) ensures p in a + b + c {
      match p.at
      case Max => assert p in a;
      case Replay => assert p in b;
      case Min => assert p in c;
    }
  }

  /** The stack of one dispatch: the scope chain is walked from the innermost scope
      outward; each scope is put before what `max` has gathered and after what the other
      lanes have. */
  method CollectMiddleware<M>(window: seq<ScopeState<M>>) returns (out: seq<M>)
    ensures exists order :: Arranged(window, order, out)
  {
    var max, replay, min: seq<M> := [], [], [];
    ghost var a, b, c: seq<Place> := [], [], [];
    var i := 0;
    while i < |window|
      invariant 0 <= i <= |window|
      invariant InGroup(window, i, Max, a, max) && InGroup(window, i, Replay, b, replay)
      invariant InGroup(window, i, Min, c, min)
    {
      LaneNext(window, i, Max, a, max);
      LaneNext(window, i, Replay, b, replay);
      LaneNext(window, i, Min, c, min);
      max := window[i].max + max;
      replay := replay + window[i].replay;
      min := min + window[i].min;
      a := PlacesOf(i, Max, |window[i].max|) + a;
      b := b + PlacesOf(i, Replay, |window[i].replay|);
      c := c + PlacesOf(i, Min, |window[i].min|);
      i := i + 1;
    }
    LanesTogether(window, a, max, b, replay, c, min);
    out := max + replay + min;
  }

  /** There is one such arrangement. */
  lemma {:induction false} ArrangedUnique<M>(window: seq<ScopeState<M>>, order: seq<Place>, out: seq<M>,
                                             order': seq<Place>, out': seq<M>)
    requires Arranged(window, order, out) && Arranged(window, order', out')
    ensures order == order' && out == out'
  {
    SameOrder(order, order');
  }

  lemma {:induction false} SameOrder(a: seq<Place>, b: seq<Place>)
    requires forall i, j :: 0 <= i < j < |a| ==> Outside(a[i], a[j])
    requires forall i, j :: 0 <= i < j < |b| ==> Outside(b[i], b[j])
    requires forall p :: p in a <==> p in b
    ensures a == b
  {
    assert b != [] ==> b[0] in b;
    if a != [] {
      assert a[0] in b;
      assert b[0] in a;
      var j :| 0 <= j < |b| && b[j] == a[0];
      var i :| 0 <= i < |a| && a[i] == b[0];
      assert i == 0;
      forall p ensures p in a[1..] <==> p in b[1..] {
        InTail(a, p);
        InTail(b, p);
      }
      SameOrder(a[1..], b[1..]);
      assert a == [a[0]] + a[1..] && b == [b[0]] + b[1..];
    }
  }

  lemma {:induction false} InTail(a: seq<Place>, p: Place)
    requires a != [] && forall i, j :: 0 <= i < j < |a| ==> Outside(a[i], a[j])
    ensures p in a[1..] <==> p in a && p != a[0]
  {
    if p in a && p != a[0] {
      var i :| 0 <= i < |a| && a[i] == p;
      assert a[1..][i - 1] == p;
    }
    if p in a[1..] {
      var i :| 0 <= i < |a[1..]| && a[1..][i] == p;
      assert a[i + 1] == p;
    }
  }

  // ----- scopes -----

  /** A scope with its registrations; `around` replaces the scope's own state. */
  class Scope<M> {
    var state: ScopeState<M>

    constructor ()
      ensures state == NoMiddleware<M>()
    {
      state := NoMiddleware<M>();
    }

    method Around(at: Group, m: M)
      modifies this
      ensures state == Register(old(state), at, m)
    {
      match at {
        case Max => state := state.(max := state.max + [m]);
        case Replay => state := state.(replay := [m] + state.replay);
        case Min => state := state.(min := [m] + state.min);
      }
    }
  }

  datatype Registration<M> = Registration(depth: nat, at: Group, m: M)

  /** The scope chain (innermost first, `size` scopes) after a history of registrations. */
  function After<M>(history: seq<Registration<M>>, size: nat): (window: seq<ScopeState<M>>)
    ensures |window| == size
  {
    if history == [] then seq(size, i => NoMiddleware())
    else
      var n := |history| - 1;
      var before := After(history[..n], size);
      var r := history[n];
      if r.depth < size then before[r.depth := Register(before[r.depth], r.at, r.m)] else before
  }

  /** Registrations at one depth in one group, oldest first. */
  function Registered<M>(history: seq<Registration<M>>, depth: nat, at: Group): seq<M>
  {
    if history == [] then []
    else
      var n := |history| - 1;
      Registered(history[..n], depth, at) +
      (if history[n].depth == depth && history[n].at == at then [history[n].m] else [])
  }

  function Backwards<M>(ms: seq<M>): seq<M>
  {
    if ms == [] then [] else [ms[|ms| - 1]] + Backwards(ms[..|ms| - 1])
  }

  /** However registrations interleave, each scope holds its `max` middleware in the order
      of registration and the others latest first. */
  lemma {:induction false} RegistrationOrder<M>(history: seq<Registration<M>>, size: nat, depth: nat)
    requires depth < size
    ensures After(history, size)[depth].max == Registered(history, depth, Max)
    ensures After(history, size)[depth].replay == Backwards(Registered(history, depth, Replay))
    ensures After(history, size)[depth].min == Backwards(Registered(history, depth, Min))
  {
    if history != [] {
      var n := |history| - 1;
      RegistrationOrder(history[..n], size, depth);
      var r := history[n];
      if r.depth == depth {
        var before := Registered(history[..n], depth, r.at);
        assert (before + [r.m])[..|before|] == before;
      } else {
        forall g: Group ensures Registered(history, depth, g) == Registered(history[..n], depth, g) {
          assert Registered(history[..n], depth, g) + [] == Registered(history[..n], depth, g);
        }
      }
      forall g: Group | g != r.at ensures Registered(history, depth, g) == Registered(history[..n], depth, g) {
        assert Registered(history[..n], depth, g) + [] == Registered(history[..n], depth, g);
      }
    }
  }

  // ----- from registrations to the stack -----

  /** The registration that put a middleware where it is. */
  function Origin<M>(history: seq<Registration<M>>, size: nat, p: Place): nat
    decreases |history|
  {
    if history == [] then 0
    else
      var n := |history| - 1;
      var r := history[n];
      if r.depth != p.scope || r.at != p.at || r.depth >= size then Origin(history[..n], size, p)
      else if r.at.Max? then
        if p.index == |After(history[..n], size)[p.scope].max| then n else Origin(history[..n], size, p)
      else if p.index == 0 then n
      else Origin(history[..n], size, p.(index := p.index - 1))
  }

  lemma {:induction false} OriginHolds<M>(history: seq<Registration<M>>, size: nat, p: Place)
    requires IsPlace(After(history, size), p)
    ensures var o := Origin(history, size, p);
            && o < |history| && history[o].depth == p.scope && history[o].at == p.at
            && history[o].m == Members(After(history, size)[p.scope], p.at)[p.index]
    decreases |history|
  {
    if history != [] {
      var n := |history| - 1;
      var r, before := history[n], After(history[..n], size);
      if r.depth != p.scope || r.at != p.at || r.depth >= size {
        OriginHolds(history[..n], size, p);
      } else if r.at.Max? {
        if p.index < |before[p.scope].max| {
          OriginHolds(history[..n], size, p);
        }
      } else if p.index > 0 {
        OriginHolds(history[..n], size, p.(index := p.index - 1));
      }
    }
  }

  /** Within a scope `max` runs as registered, the other groups latest first. */
  lemma {:induction false} OriginOrder<M>(history: seq<Registration<M>>, size: nat, p: Place, q: Place)
    requires IsPlace(After(history, size), p) && IsPlace(After(history, size), q)
    requires p.scope == q.scope && p.at == q.at && p.index < q.index
    ensures var a, b := Origin(history, size, p), Origin(history, size, q); if p.at.Max? then a < b else a > b
    decreases |history|
  {
    if history != [] {
      var n := |history| - 1;
      var r, before := history[n], After(history[..n], size);
      if r.depth != p.scope || r.at != p.at || r.depth >= size {
        OriginOrder(history[..n], size, p, q);
      } else if r.at.Max? {
        OriginHolds(history[..n], size, p);
        if q.index < |before[p.scope].max| {
          OriginOrder(history[..n], size, p, q);
        }
      } else {
        OriginHolds(history[..n], size, q.(index := q.index - 1));
        if p.index > 0 {
          OriginOrder(history[..n], size, p.(index := p.index - 1), q.(index := q.index - 1));
        }
      }
    }
  }

  lemma {:induction false} PlaceOf<M>(history: seq<Registration<M>>, size: nat, i: nat) returns (p: Place)
    requires i < |history| && history[i].depth < size
    ensures IsPlace(After(history, size), p) && Origin(history, size, p) == i
    decreases |history|
  {
    var n := |history| - 1;
    var r, before := history[n], After(history[..n], size);
    if i == n {
      p := Place(r.depth, r.at, if r.at.Max? then |before[r.depth].max| else 0);
    } else {
      p := PlaceOf(history[..n], size, i);
      if r.depth == p.scope && r.at == p.at && !r.at.Max? {
        p := p.(index := p.index + 1);
      }
    }
  }

  /** Of two registrations the first runs outside the second. */
  predicate RunsOutside<M>(r: Registration<M>, i: nat, s: Registration<M>, j: nat)
  {
    || (r.at.Max? && !s.at.Max?)
    || (r.at.Replay? && s.at.Min?)
    || (r.at == s.at && (if r.at.Max? then r.depth > s.depth else r.depth < s.depth))
    || (r.at == s.at && r.depth == s.depth && (if r.at.Max? then i < j else i > j))
  }

  /** However registrations in the scopes of a chain interleave, the stack that is collected
      has each of them once. All of `max` come first, then `replay`, then `min`. In `max` outer
      scopes and earlier registrations come first, in the others inner scopes and later ones. */
  lemma {:induction false} StackOrder<M>(history: seq<Registration<M>>, size: nat, order: seq<Place>, out: seq<M>)
    returns (runs: seq<nat>)
    requires Arranged(After(history, size), order, out)
    ensures |runs| == |out|
    ensures forall k :: 0 <= k < |out| ==>
              runs[k] < |history| && history[runs[k]].depth < size && out[k] == history[runs[k]].m
    ensures forall i, j :: 0 <= i < j < |runs| ==>
              RunsOutside(history[runs[i]], runs[i], history[runs[j]], runs[j])
    ensures forall i: nat :: i < |history| && history[i].depth < size ==> i in runs
  {
    hide After, Origin;
    runs := seq(|order|, k requires 0 <= k < |order| => Origin(history, size, order[k]));
    forall k | 0 <= k < |out|
      ensures runs[k] < |history| && history[runs[k]].depth == order[k].scope && history[runs[k]].at == order[k].at
      ensures out[k] == history[runs[k]].m
    {
      OriginHolds(history, size, order[k]);
    }
    forall i, j | 0 <= i < j < |runs|
      ensures RunsOutside(history[runs[i]], runs[i], history[runs[j]], runs[j])
    {
      var p, q := order[i], order[j];
      assert Outside(p, q);
      if p.at == q.at && p.scope == q.scope {
        OriginOrder(history, size, p, q);
      }
    }
    forall i: nat | i < |history| && history[i].depth < size ensures i in runs {
      var p := PlaceOf(history, size, i);
      var k :| 0 <= k < |order| && order[k] == p;
      assert runs[k] == i;
    }
  }

  // ----- the way to the boundary -----

  /** Where a request ends up in the `max` lane. */
  datatype Passage =
    | Stopped(answer: Answer)                                   // no middleware reached the boundary
    | Reached(id: string, data: Node, post: Answer -> Answer)   // the request at the boundary

  function Through(max: seq<Middleware>, id: string, data: Node): Passage
  {
    if max == [] then Reached(id, data, a => a)
    else
      match max[0](id, data)
      case ShortCircuit(a) => Stopped(a)
      case Delegate(id', data', post) =>
        match Through(max[1..], id', data')
        case Stopped(a) => Stopped(post(a))
        case Reached(id'', data'', inner) => Reached(id'', data'', a => post(inner(a)))
  }

  // ----- journaled identities and results -----

  /** What the journal says of an effect: type, name and payload. The payload stands for
      its canonical encoding and the hash of it, taken to be collision-free. */
  datatype Identity = Identity(kind: string, name: string, payload: Node)

  /** The type and name of an effect id: around its first dot, or the whole id twice. */
  function ParseEffectId(id: string): (string, string)
  {
    var dot := FirstDot(id, 0);
    if dot == |id| then (id, id) else (id[..dot], id[dot + 1..])
  }

  function FirstDot(id: string, from: nat): (k: nat)
    requires from <= |id|
    ensures from <= k <= |id|
    ensures k < |id| ==> id[k] == '.'
    decreases |id| - from
  {
    if from == |id| || id[from] == '.' then from else FirstDot(id, from + 1)
  }

  function IdentityOf(id: string, data: Node): Identity
  {
    var p := ParseEffectId(id);
    Identity(p.0, p.1, data)
  }

  /** The journaled type and name: what stands before and behind the first dot; an id without
      a dot is both. */
  lemma {:induction false} IdentityNames(kind: string, name: string, data: Node)
    requires '.' !in kind
    ensures IdentityOf(kind, data) == Identity(kind, kind, data)
    ensures IdentityOf(kind + "." + name, data) == Identity(kind, name, data)
  {
    NoDot(kind, "", 0);
    assert kind + [] == kind;
    var id := kind + "." + name;
    assert id == kind + ("." + name);
    NoDot(kind, "." + name, 0);
  }

  lemma {:induction false} NoDot(a: string, b: string, from: nat)
    requires '.' !in a && from <= |a| && (b == [] || b[0] == '.')
    ensures FirstDot(a + b, from) == |a|
    decreases |a| - from
  {
    if from < |a| {
      assert (a + b)[from] == a[from];
      NoDot(a, b, from + 1);
    }
  }

  datatype EventResult = OkResult(value: Node) | ErrorResult(text: string, name: string) | Cancelled

  /** The journaled result of an answer. */
  function Settle(a: Answer): EventResult
  {
    match a
    case Ok(v) => OkResult(v)
    case Fail(e) => ErrorResult(ErrorText(e), ErrorName(e))
  }

  /** The answer the kernel receives for a journaled result. */
  function Feed(r: EventResult): Answer
  {
    match r
    case OkResult(v) => Ok(v)
    case ErrorResult(t, n) => Fail(EffectError(t, n))
    case Cancelled => Fail(HostError("Cannot replay cancelled result", "Error"))
  }

  datatype Entry = Entry(identity: Identity, result: EventResult)

  // ----- one dispatch -----

  /** The handler chain below the boundary: the `min` lane and the core handler. */
  type Handler = (string, Node) -> Answer

  /** A dispatch: what it came to, the identity and result to journal, and the requests
      that reached the handlers below the boundary. */
  datatype Dispatched =
    | Live(entry: Entry, handled: seq<(string, Node)>)
    | Replayed(entry: Entry, handled: seq<(string, Node)>)
    | Diverged(handled: seq<(string, Node)>)

  /** `dispatchStandardEffect` on the chain path, with the journal entry at the cursor. */
  function Dispatch(max: seq<Middleware>, handler: Handler, id: string, data: Node, stored: Option<Entry>): Dispatched
  {
    var source := IdentityOf(id, data);
    match Through(max, id, data)
    case Stopped(a) =>
      if stored.None? then Live(Entry(source, Settle(a)), [])
      else if stored.value.identity == source then Replayed(stored.value, [])
      else Diverged([])
    case Reached(id', data', post) =>
      var boundary := IdentityOf(id', data');
      if stored.None? then
        Live(Entry(boundary, Settle(post(handler(id', data')))), [(id', data')])
      else if stored.value.identity == boundary then Replayed(stored.value, [])
      // the lane's error may be caught above it; what then counts is the source identity
      else if stored.value.identity == source then Replayed(stored.value, [])
      else Diverged([])
  }

  /** What was journaled live is what replay compares: under the same middleware a replay
      never diverges, reaches no handler below the boundary, whatever handler is there,
      and gives back the stored entry unchanged. */
  lemma {:induction false} ReplayMatchesLive(max: seq<Middleware>, handler: Handler, handler': Handler, id: string,
                                             data: Node)
    ensures var live := Dispatch(max, handler, id, data, None);
            live.Live? && Dispatch(max, handler', id, data, Some(live.entry)) == Replayed(live.entry, [])
  {
    match Through(max, id, data)
    case Stopped(_) =>
    case Reached(_, _, _) =>
  }

  /** Conversely a replay that diverges met an entry that no live dispatch of this request
      under this middleware journals. */
  lemma {:induction false} DivergenceMeansForeign(max: seq<Middleware>, handler: Handler, id: string, data: Node,
                                                  stored: Entry)
    requires Dispatch(max, handler, id, data, Some(stored)).Diverged?
    ensures forall h: Handler :: Dispatch(max, h, id, data, None).entry.identity != stored.identity
  {
  }

  /** A replay gives the stored entry back exactly when that names the request at the boundary,
      if it gets there, or the request as it was made. */
  lemma {:induction false} ReplayedExactly(max: seq<Middleware>, handler: Handler, id: string, data: Node,
                                           stored: Entry)
    ensures var d := Dispatch(max, handler, id, data, Some(stored));
            && (d.Replayed? ==> d == Replayed(stored, []))
            && (d.Replayed? <==>
                  || stored.identity == IdentityOf(id, data)
                  || (match Through(max, id, data)
                      case Stopped(_) => false
                      case Reached(id', data', _) => stored.identity == IdentityOf(id', data')))
            && (d.Replayed? || d == Diverged([]))
  {
    hide IdentityOf;
  }

  /** One middleware answers itself, or hands the request it makes on and reworks what comes back. */
  lemma {:induction false} OneMiddleware(m: Middleware, id: string, data: Node, a: Answer)
    ensures match m(id, data)
            case ShortCircuit(b) => Through([m], id, data) == Stopped(b)
            case Delegate(id', data', post) =>
              var p := Through([m], id, data);
              p.Reached? && p.id == id' && p.data == data' && p.post(a) == post(a)
    ensures var p := Through([], id, data); p.Reached? && p.id == id && p.data == data && p.post(a) == a
  {
    assert [m][1..] == [];
  }

  // ----- layers of the lane -----

  /** Requests pass through two stacked lanes as through one. */
  lemma {:induction false} ThroughAppend(outer: seq<Middleware>, inner: seq<Middleware>, id: string, data: Node)
    ensures var whole := Through(outer + inner, id, data);
            match Through(outer, id, data)
            case Stopped(a) => whole == Stopped(a)
            case Reached(id', data', post) =>
              match Through(inner, id', data')
              case Stopped(a) => whole == Stopped(post(a))
              case Reached(id'', data'', post') =>
                whole.Reached? && whole.id == id'' && whole.data == data'' &&
                forall a :: whole.post(a) == post(post'(a))
    decreases |outer|
  {
    if outer == [] {
      assert outer + inner == inner;
    } else {
      assert (outer + inner)[0] == outer[0] && (outer + inner)[1..] == outer[1..] + inner;
      match outer[0](id, data) {
        case ShortCircuit(_) =>
        case Delegate(id', data', _) => ThroughAppend(outer[1..], inner, id', data');
      }
    }
  }
}
