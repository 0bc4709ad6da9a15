/** Resources of a coroutine: its ways out tear them down in the reverse order of their
    creation, each once, and each has its Close in the stream before the coroutine has. */
module Resources {
  import opened Journal
  import opened Lanes

  /** What happens to the resources of one coroutine: one is acquired, by the coroutine itself or
      in a lane that it runs inline; all are torn down; the Close of the coroutine is appended. */
  datatype Step = Acquire(id: Id) | TearDown | CloseOwner(owner: Id)

  /** The resources that are there, and the coroutines whose Close has been appended. A resource
      appends its Close before its cleanup counts as done. */
  datatype Held = Held(children: seq<Id>, closes: seq<Id>)

  function Next(h: Held, s: Step): Held
  {
    match s
    case Acquire(id) => Held(h.children + [id], h.closes)
    case TearDown => Held([], h.closes + Backwards(h.children))
    case CloseOwner(owner) => Held(h.children, h.closes + [owner])
  }

  /** The ways out of a coroutine: its generator returns or an error is caught, and then its
      resources are torn down before its Close. When that Close cannot be appended the error is
      caught and the way out is taken again. */
  function WayOut(owner: Id, refused: bool): seq<Step>
  {
    if refused then [TearDown, TearDown, CloseOwner(owner)] else [TearDown, CloseOwner(owner)]
  }

  class ResourceChildren {
    const owner: Id
    var children: seq<Id>
    var closes: seq<Id>

    ghost function Now(): Held
      reads this
    {
      Held(children, closes)
    }

    constructor (owner: Id)
      ensures this.owner == owner && Now() == Held([], [])
    {
      this.owner := owner;
      children, closes := [], [];
    }

    method Push(id: Id)
      modifies this
      ensures Now() == Next(old(Now()), Acquire(id))
    {
      children := children + [id];
    }

    /** Signals each child, the latest first, and waits for its cleanup. */
    method TearDownAll()
      modifies this
      ensures Now() == Next(old(Now()), TearDown)
    {
      ghost var before := closes;
      var i := |children|;
      assert children[..i] == children;
      while i > 0
        invariant 0 <= i <= |children| && children == old(children)
        invariant closes + Backwards(children[..i]) == before + Backwards(children)
        decreases i
      {
        i := i - 1;
        assert children[..i + 1][..i] == children[..i];
        assert closes + Backwards(children[..i + 1]) == closes + [children[i]] + Backwards(children[..i]);
        closes := closes + [children[i]];
      }
      assert Backwards<Id>([]) == [];
      children := [];
    }

    /** The end of the coroutine; `refused` says that its Close is not accepted at first. */
    method Leave(refused: bool)
      modifies this
      ensures Now() == AfterFrom(old(Now()), WayOut(owner, refused))
    {
      ghost var before := Now();
      TearDownAll();
      if refused {
        TearDownAll();
      }
      closes := closes + [owner];
      LeaveSteps(before, owner, refused);
    }
  }

  /** A history that goes on from `h`. */
  function AfterFrom(h: Held, history: seq<Step>): Held
  {
    if history == [] then h
    else Next(AfterFrom(h, history[..|history| - 1]), history[|history| - 1])
  }

  lemma {:induction false} LeaveSteps(h: Held, owner: Id, refused: bool)
    ensures AfterFrom(h, WayOut(owner, refused)) ==
            (var once := Next(h, TearDown);
             Next(if refused then Next(once, TearDown) else once, CloseOwner(owner)))
    ensures AfterFrom(h, WayOut(owner, refused)) == Held([], h.closes + Backwards(h.children) + [owner])
  {
    var s := WayOut(owner, refused);
    assert [TearDown][..0] == [] && AfterFrom(h, []) == h;
    assert AfterFrom(h, [TearDown]) == Next(h, TearDown);
    assert Backwards<Id>([]) == [];
    if refused {
      assert s[..2] == [TearDown, TearDown] && [TearDown, TearDown][..1] == [TearDown];
    } else {
      assert s[..1] == [TearDown];
    }
  }

  function After(history: seq<Step>): Held { AfterFrom(Held([], []), history) }

  /** The coroutines that have a Close to append: resources in the order of their creation, and
      the coroutine itself where it closes. */
  function Owed(history: seq<Step>): seq<Id>
  {
    if history == [] then []
    else
      var n := |history| - 1;
      Owed(history[..n]) +
      (match history[n] case Acquire(id) => [id] case CloseOwner(owner) => [owner] case TearDown => [])
  }

  lemma {:induction false} BackwardsSame(ids: seq<Id>)
    ensures multiset(Backwards(ids)) == multiset(ids) && |Backwards(ids)| == |ids|
    ensures forall i :: 0 <= i < |ids| ==> Backwards(ids)[i] == ids[|ids| - 1 - i]
  {
    if ids != [] {
      var n := |ids| - 1;
      BackwardsSame(ids[..n]);
      assert ids == ids[..n] + [ids[n]];
    }
  }

  function All(h: Held): multiset<Id> { multiset(h.closes) + multiset(h.children) }

  lemma {:induction false} NextKeeps(h: Held, s: Step)
    ensures All(Next(h, s)) ==
            All(h) + (match s case Acquire(id) => multiset{id} case CloseOwner(id) => multiset{id}
                      case TearDown => multiset{})
  {
    BackwardsSame(h.children);
  }

  lemma {:induction false} OwedNext(history: seq<Step>)
    requires history != []
    ensures var n := |history| - 1;
            multiset(Owed(history)) == multiset(Owed(history[..n])) +
            (match history[n] case Acquire(id) => multiset{id} case CloseOwner(id) => multiset{id}
             case TearDown => multiset{})
  {
  }

  /** Whatever the history, each resource that was acquired is either there or has had its Close
      appended, and that once. */
  lemma {:induction false} TornDownOnce(history: seq<Step>)
    ensures All(After(history)) == multiset(Owed(history))
    decreases |history|
  {
    hide All, Next;
    if history == [] {
      assert All(Held([], [])) == multiset{} by { NothingHeld(); }
    } else {
      var n := |history| - 1;
      TornDownOnce(history[..n]);
      NextKeeps(After(history[..n]), history[n]);
      OwedNext(history);
    }
  }

  lemma {:induction false} NothingHeld()
    ensures All(Held([], [])) == multiset{}
  {
  }

  lemma {:induction false} AfterMore(history: seq<Step>, more: seq<Step>)
    ensures After(history + more) == AfterFrom(After(history), more)
    decreases |more|
  {
    if more == [] {
      assert history + more == history;
    } else {
      var n := |more| - 1;
      AfterMore(history, more[..n]);
      var all := history + more;
      assert all[..|all| - 1] == history + more[..n] && all[|all| - 1] == more[n];
    }
  }

  lemma {:induction false} OnlyAcquired(history: seq<Step>)
    requires forall i :: 0 <= i < |history| ==> history[i].Acquire?
    ensures After(history) == Held(Owed(history), [])
    decreases |history|
  {
    if history != [] {
      OnlyAcquired(history[..|history| - 1]);
    }
  }

  /** A coroutine that has acquired resources and leaves, whichever way out it takes: the Closes
      in the stream are those of its resources, the latest first, each once, and then its own. */
  lemma {:induction false} ClosesInOrder(history: seq<Step>, owner: Id, refused: bool)
    requires forall i :: 0 <= i < |history| ==> history[i].Acquire?
    ensures var h, created := After(history + WayOut(owner, refused)), Owed(history);
            && h.children == [] && |h.closes| == |created| + 1 && h.closes[|created|] == owner
            && forall i :: 0 <= i < |created| ==> h.closes[i] == created[|created| - 1 - i]
  {
    hide After, AfterFrom, WayOut, Owed, Backwards;
    OnlyAcquired(history);
    AfterMore(history, WayOut(owner, refused));
    LeaveSteps(After(history), owner, refused);
    var created := Owed(history);
    BackwardsSame(created);
    assert After(history + WayOut(owner, refused)).closes == Backwards(created) + [owner];
  }
}
