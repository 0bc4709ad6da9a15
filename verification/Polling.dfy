/** The polling program that the constructor `Converge` stands for, run by the kernel: it probes
    until a value is accepted, and sleeps once between two probes. The time limit around it is
    a matter of the runtime. */
module Polling {
  import opened Text
  import opened Ir
  import opened Kernel
  import Term

  // ----- nodes of terms -----

  /** The kernel's node for a term; None for what the kernel's IR here does not have. */
  function Code(t: Term.Term): Option<Node>
  {
    match t
    case Null => Some(Null)
    case Bool(b) => Some(Bool(b))
    case Num(text) => if text != [] && AllDigits(text) then Some(Num(Numeral(text))) else None
    case Str(s) => Some(Str(s))
    case Array(items) =>
      var vs := CodeAll(items);
      if vs.Some? then Some(Arr(vs.value)) else None
    case Ref(name) => Some(Ref(name))
    case Quote(e) =>
      var v := Code(e);
      if v.Some? then Some(Quote(v.value)) else None
    case Fn(params, body) =>
      var b := Code(body);
      if b.Some? then Some(Fn(params, b.value)) else None
    case Let(x, value, scope) =>
      var v, s := Code(value), Code(scope);
      if v.Some? && s.Some? then Some(Let(x, v.value, s.value)) else None
    case If(c, th, Some(el)) =>
      var a, b, d := Code(c), Code(th), Code(el);
      if a.Some? && b.Some? && d.Some? then Some(If(a.value, b.value, Some(d.value))) else None
    case Call(f, args) =>
      var g, vs := Code(f), CodeAll(args);
      if g.Some? && vs.Some? then Some(Call(g.value, vs.value)) else None
    case Get(o, key) =>
      var v := Code(o);
      if v.Some? then Some(Get(v.value, key)) else None
    case Binary(op, a, b) =>
      var x, y := Code(a), Code(b);
      if x.Some? && y.Some? then BinaryCode(op, x.value, y.value) else None
    case Eval(id, d) =>
      var v := Code(d);
      if v.Some? then Some(Effect(id, v.value)) else None
    case _ => None
  }

  function BinaryCode(op: Term.BinaryOp, a: Node, b: Node): Option<Node>
  {
    match op
    case Add => Some(Prim(Add, [a, b]))
    case Sub => Some(Prim(Sub, [a, b]))
    case Mul => Some(Prim(Mul, [a, b]))
    case Mod => Some(Prim(Mod, [a, b]))
    case Gt => Some(Prim(Gt, [a, b]))
    case Gte => Some(Prim(Gte, [a, b]))
    case Lt => Some(Prim(Lt, [a, b]))
    case Lte => Some(Prim(Lte, [a, b]))
    case Eq => Some(Prim(Eq, [a, b]))
    case Neq => Some(Prim(Neq, [a, b]))
    case And => Some(And(a, b))
    case Or => Some(Or(a, b))
    case Div => None
  }

  function CodeAll(ts: seq<Term.Term>): Option<seq<Node>>
  {
    if ts == [] then Some([])
    else
      var v, vs := Code(ts[0]), CodeAll(ts[1..]);
      if v.Some? && vs.Some? then Some([v.value] + vs.value) else None
  }

  // ----- one round -----

  /** The program around a probe, a condition and the data of a sleep. */
  function Round(probe: Node, sleep: Node): Node
  {
    Let("__probe_0", probe,
        If(Call(Ref("__until_0"), [Ref("__probe_0")]), Ref("__probe_0"),
           Some(Let("__discard_0", Effect("sleep", Arr([sleep])), Call(Ref("__poll_0"), [])))))
  }

  function Program(probe: Node, until: Node, sleep: Node): Node
  {
    Let("__until_0", until, Let("__poll_0", Fn([], Round(probe, sleep)), Call(Ref("__poll_0"), [])))
  }

  /** `Converge` is that program under a time limit. */
  lemma {:induction false} ConvergeCode(probe: Term.Term, until: Term.Term, interval: Term.Term, timeout: Term.Term)
    requires Code(probe).Some? && Code(until).Some? && Code(interval).Some?
    ensures var t := Term.Dispatch("Converge", [probe, until, interval, timeout]);
            && t.Some? && t.value.Timebox? && t.value.duration == timeout
            && Code(t.value.timed) ==
               Some(Program(Code(probe).value, Code(until).value, Code(interval).value))
  {
    hide Term.Dispatch, Code, CodeAll, Round;
    DispatchConverge(probe, until, interval, timeout);
    RoundCode(probe, interval);
    var round, poll := RoundTerm(probe, interval), Term.Call(Term.Ref("__poll_0"), []);
    CodeCalls();
    CodeFn([], round);
    CodeLet("__poll_0", Term.Fn([], round), poll);
    CodeLet("__until_0", until, Term.Let("__poll_0", Term.Fn([], round), poll));
  }

  /** A round as the constructor writes it. */
  function RoundTerm(probe: Term.Term, interval: Term.Term): Term.Term
  {
    var again := Term.Let("__discard_0", Term.Eval("sleep", Term.Array([interval])),
                          Term.Call(Term.Ref("__poll_0"), []));
    var test := Term.Call(Term.Ref("__until_0"), [Term.Ref("__probe_0")]);
    Term.Let("__probe_0", probe, Term.If(test, Term.Ref("__probe_0"), Some(again)))
  }

  lemma {:induction false} RoundCode(probe: Term.Term, interval: Term.Term)
    requires Code(probe).Some? && Code(interval).Some?
    ensures Code(RoundTerm(probe, interval)) == Some(Round(Code(probe).value, Code(interval).value))
  {
    hide Code, CodeAll;
    var sleep := Term.Eval("sleep", Term.Array([interval]));
    var again := Term.Let("__discard_0", sleep, Term.Call(Term.Ref("__poll_0"), []));
    var test := Term.Call(Term.Ref("__until_0"), [Term.Ref("__probe_0")]);
    CodeCalls();
    CodeSleep(interval);
    CodeLet("__discard_0", sleep, Term.Call(Term.Ref("__poll_0"), []));
    CodeIf(test, Term.Ref("__probe_0"), again);
    CodeLet("__probe_0", probe, Term.If(test, Term.Ref("__probe_0"), Some(again)));
  }

  lemma {:induction false} CodeCalls()
    ensures Code(Term.Call(Term.Ref("__poll_0"), [])) == Some(Call(Ref("__poll_0"), []))
    ensures Code(Term.Call(Term.Ref("__until_0"), [Term.Ref("__probe_0")])) ==
            Some(Call(Ref("__until_0"), [Ref("__probe_0")]))
    ensures Code(Term.Ref("__probe_0")) == Some(Ref("__probe_0"))
  {
    CodeOne(Term.Ref("__probe_0"));
  }

  lemma {:induction false} CodeSleep(interval: Term.Term)
    requires Code(interval).Some?
    ensures Code(Term.Eval("sleep", Term.Array([interval]))) == Some(Effect("sleep", Arr([Code(interval).value])))
  {
    hide CodeAll;
    CodeOne(interval);
  }

  lemma {:induction false} CodeLet(x: string, a: Term.Term, b: Term.Term)
    requires Code(a).Some? && Code(b).Some?
    ensures Code(Term.Let(x, a, b)) == Some(Let(x, Code(a).value, Code(b).value))
  {
  }

  lemma {:induction false} CodeFn(params: seq<string>, body: Term.Term)
    requires Code(body).Some?
    ensures Code(Term.Fn(params, body)) == Some(Fn(params, Code(body).value))
  {
  }

  lemma {:induction false} CodeIf(c: Term.Term, a: Term.Term, b: Term.Term)
    requires Code(c).Some? && Code(a).Some? && Code(b).Some?
    ensures Code(Term.If(c, a, Some(b))) == Some(If(Code(c).value, Code(a).value, Some(Code(b).value)))
  {
  }

  lemma {:induction false} DispatchConverge(probe: Term.Term, until: Term.Term, interval: Term.Term,
                                            timeout: Term.Term)
    ensures Term.Dispatch("Converge", [probe, until, interval, timeout]) ==
            Some(Term.Converge(probe, until, interval, timeout))
  {
  }

  lemma {:induction false} CodeOne(t: Term.Term)
    requires Code(t).Some?
    ensures CodeAll([t]) == Some([Code(t).value]) && CodeAll([]) == Some([])
  {
    assert [t][1..] == [] && [Code(t).value] + [] == [Code(t).value];
  }

  /** What a poll consists of: the probe asks one thing each time, the condition asks nothing and
      says what it makes of a value, and the interval comes to one value. */
  datatype Poll = Poll(probe: Node, asked: Request, x: string, test: Node, verdict: Node -> Node, sleep: Node,
                       interval: Node)

  ghost predicate IsPoll(p: Poll)
  {
    && (forall env, answers, fuel :: Eval(p.probe, env, answers, fuel) == Ask(p.asked, answers))
    && (forall env, v, answers, fuel ::
          Eval(p.test, ExtendMulti(env, [p.x], [v]), answers, fuel) == Done(p.verdict(v), answers))
    && (forall env, answers, fuel :: Resolve(p.sleep, env, answers, fuel) == Done(p.interval, answers))
  }

  /** The poll can be called here. */
  predicate Ready(p: Poll, env: Env)
  {
    && Lookup("__poll_0", env) == Some(Fn([], Round(p.probe, p.sleep)))
    && Lookup("__until_0", env) == Some(Fn([p.x], p.test))
  }

  lemma {:induction false} CallPoll(p: Poll, env: Env, answers: seq<Answer>, fuel: nat)
    requires Ready(p, env) && fuel > 0
    ensures Eval(Call(Ref("__poll_0"), []), env, answers, fuel) ==
            Eval(Round(p.probe, p.sleep), Frame(map[], env), answers, fuel - 1)
    ensures Ready(p, Frame(map[], env))
  {
    assert EvalList(ArrayOf, [], [], env, answers, fuel) == Done(Arr([]), answers);
    assert ExtendMulti(env, [], []) == Frame(map[], env);
  }

  lemma {:induction false} AskUntil(p: Poll, env: Env, v: Node, answers: seq<Answer>, fuel: nat)
    requires IsPoll(p) && Ready(p, env) && Lookup("__probe_0", env) == Some(v) && fuel > 0
    ensures Eval(Call(Ref("__until_0"), [Ref("__probe_0")]), env, answers, fuel) == Done(p.verdict(v), answers)
  {
    hide IsPoll;
    hide EvalList;
    GivenProbe(env, v, answers, fuel);
    Verdict(p, env, v, answers, fuel - 1);
  }

  lemma {:induction false} GivenProbe(env: Env, v: Node, answers: seq<Answer>, fuel: nat)
    requires Lookup("__probe_0", env) == Some(v)
    ensures EvalList(ArrayOf, [], [Ref("__probe_0")], env, answers, fuel) == Done(Arr([v]), answers)
  {
    assert [Ref("__probe_0")][1..] == [] && [] + [v] == [v];
    assert Eval(Ref("__probe_0"), env, answers, fuel) == Done(v, answers);
    hide Eval;
    assert EvalList(ArrayOf, [v], [], env, answers, fuel) == Done(Arr([v]), answers);
  }

  lemma {:induction false} Verdict(p: Poll, env: Env, v: Node, answers: seq<Answer>, fuel: nat)
    requires IsPoll(p)
    ensures Eval(p.test, ExtendMulti(env, [p.x], [v]), answers, fuel) == Done(p.verdict(v), answers)
  {
  }

  lemma {:induction false} Probed(p: Poll, env: Env, answers: seq<Answer>, fuel: nat)
    requires IsPoll(p)
    ensures Eval(p.probe, env, answers, fuel) == Ask(p.asked, answers)
    ensures Eval(Effect("sleep", Arr([p.sleep])), env, answers, fuel) ==
            Ask(Standard("sleep", Arr([p.interval])), answers)
  {
    assert Resolve(p.sleep, env, answers, fuel) == Done(p.interval, answers);
    hide Eval;
    assert [p.sleep][1..] == [] && [] + [p.interval] == [p.interval];
    assert ResolveItems([p.interval], [], env, answers, fuel) == Done(Arr([p.interval]), answers);
    assert ResolveItems([], [p.sleep], env, answers, fuel) == Done(Arr([p.interval]), answers);
    assert Resolve(Arr([p.sleep]), env, answers, fuel) == Done(Arr([p.interval]), answers);
    EffectAsks(p, env, answers, fuel);
  }

  lemma {:induction false} EffectAsks(p: Poll, env: Env, answers: seq<Answer>, fuel: nat)
    requires Resolve(Arr([p.sleep]), env, answers, fuel) == Done(Arr([p.interval]), answers)
    ensures Eval(Effect("sleep", Arr([p.sleep])), env, answers, fuel) ==
            Ask(Standard("sleep", Arr([p.interval])), answers)
  {
    hide Resolve;
  }

  /** One round: the probe; if its value is accepted that is the result, otherwise there is one
      sleep and the next round. */
  lemma {:induction false} OneRound(p: Poll, env: Env, answers: seq<Answer>, fuel: nat) returns (env': Env)
    requires IsPoll(p) && Ready(p, env) && fuel > 1
    ensures Ready(p, env')
    ensures var o := Eval(Call(Ref("__poll_0"), []), env, answers, fuel);
            if answers == [] then o == Suspended(p.asked)
            else if answers[0].Fail? then o == Raised(answers[0].error, answers[1..])
            else if Truthy(p.verdict(answers[0].value)) then o == Done(answers[0].value, answers[1..])
            else if |answers| == 1 then o == Suspended(Standard("sleep", Arr([p.interval])))
            else if answers[1].Fail? then o == Raised(answers[1].error, answers[1..][1..])
            else o == Eval(Call(Ref("__poll_0"), []), env', answers[1..][1..], fuel - 1)
  {
    hide IsPoll, Resolve, EvalList;
    CallPoll(p, env, answers, fuel);
    var env1 := Frame(map[], env);
    Probed(p, env1, answers, fuel - 1);
    env' := env1;
    if answers != [] && answers[0].Ok? {
      var v, rest := answers[0].value, answers[1..];
      var env2 := Extend(env1, "__probe_0", v);
      Within(p, env1, "__probe_0", v);
      AskUntil(p, env2, v, rest, fuel - 1);
      Probed(p, env2, rest, fuel - 1);
      if rest != [] && rest[0].Ok? {
        env' := Extend(env2, "__discard_0", rest[0].value);
        Within(p, env2, "__discard_0", rest[0].value);
      }
      RoundOutcome(p, env1, answers, fuel - 1);
    } else {
      assert Eval(Round(p.probe, p.sleep), env1, answers, fuel - 1) == Ask(p.asked, answers);
    }
  }

  lemma {:induction false} Within(p: Poll, env: Env, x: string, v: Node)
    requires Ready(p, env) && x in {"__probe_0", "__discard_0"}
    ensures Ready(p, Extend(env, x, v)) && Lookup(x, Extend(env, x, v)) == Some(v)
  {
  }

  lemma {:induction false} RoundOutcome(p: Poll, env: Env, answers: seq<Answer>, fuel: nat)
    requires answers != [] && answers[0].Ok?
    requires Eval(p.probe, env, answers, fuel) == Ask(p.asked, answers)
    requires var env2 := Extend(env, "__probe_0", answers[0].value);
             && Eval(Call(Ref("__until_0"), [Ref("__probe_0")]), env2, answers[1..], fuel) ==
                Done(p.verdict(answers[0].value), answers[1..])
             && Eval(Effect("sleep", Arr([p.sleep])), env2, answers[1..], fuel) ==
                Ask(Standard("sleep", Arr([p.interval])), answers[1..])
    ensures var v, rest := answers[0].value, answers[1..];
            var env2 := Extend(env, "__probe_0", v);
            Eval(Round(p.probe, p.sleep), env, answers, fuel) ==
            if Truthy(p.verdict(v)) then Done(v, rest)
            else if rest == [] then Suspended(Standard("sleep", Arr([p.interval])))
            else if rest[0].Fail? then Raised(rest[0].error, rest[1..])
            else Eval(Call(Ref("__poll_0"), []), Extend(env2, "__discard_0", rest[0].value), rest[1..], fuel)
  {
    hide Resolve, EvalList;
    var v, rest := answers[0].value, answers[1..];
    var env2 := Extend(env, "__probe_0", v);
    var sleep, again := Effect("sleep", Arr([p.sleep])), Call(Ref("__poll_0"), []);
    var next := Let("__discard_0", sleep, again);
    var test := Call(Ref("__until_0"), [Ref("__probe_0")]);
    var choice := If(test, Ref("__probe_0"), Some(next));
    assert Eval(Ref("__probe_0"), env2, rest, fuel) == Done(v, rest);
    assert Eval(p.probe, env, answers, fuel) == Done(v, rest);
    LetThen("__probe_0", p.probe, choice, env, answers, fuel);
    LetThen("__discard_0", sleep, again, env2, rest, fuel);
    IfThen(test, Ref("__probe_0"), next, env2, rest, fuel);
  }

  lemma {:induction false} LetThen(x: string, a: Node, b: Node, env: Env, answers: seq<Answer>, fuel: nat)
    ensures var o := Eval(a, env, answers, fuel);
            Eval(Let(x, a, b), env, answers, fuel) ==
            if o.Done? then Eval(b, Extend(env, x, o.value), o.rest, fuel) else o
  {
  }

  lemma {:induction false} IfThen(c: Node, a: Node, b: Node, env: Env, answers: seq<Answer>, fuel: nat)
    ensures var o := Eval(c, env, answers, fuel);
            Eval(If(c, a, Some(b)), env, answers, fuel) ==
            if o.Done? then (if Truthy(o.value) then Eval(a, env, o.rest, fuel) else Eval(b, env, o.rest, fuel)) else o
  {
  }

  // ----- whole runs -----

  /** The answers of rounds that are not accepted: a value, and the answer to a sleep. */
  predicate Rejected(p: Poll, rounds: seq<(Node, Node)>)
  {
    forall i :: 0 <= i < |rounds| ==> !Truthy(p.verdict(rounds[i].0))
  }

  function AnswersOf(rounds: seq<(Node, Node)>): seq<Answer>
  {
    if rounds == [] then [] else [Ok(rounds[0].0), Ok(rounds[0].1)] + AnswersOf(rounds[1..])
  }

  /** After rounds that are not accepted the poll goes on as one that is called for the first
      time. */
  lemma {:induction false} Rounds(p: Poll, env: Env, rounds: seq<(Node, Node)>, answers: seq<Answer>, fuel: nat)
    returns (env': Env)
    requires IsPoll(p) && Ready(p, env) && Rejected(p, rounds) && fuel > |rounds| + 1
    ensures Ready(p, env')
    ensures Eval(Call(Ref("__poll_0"), []), env, AnswersOf(rounds) + answers, fuel) ==
            Eval(Call(Ref("__poll_0"), []), env', answers, fuel - |rounds|)
    decreases |rounds|
  {
    hide IsPoll, Ready, Eval;
    env' := env;
    var all := AnswersOf(rounds) + answers;
    if rounds == [] {
      assert all == answers;
    } else {
      assert all[0] == Ok(rounds[0].0) && all[1] == Ok(rounds[0].1);
      assert all[1..][1..] == AnswersOf(rounds[1..]) + answers;
      var next := OneRound(p, env, all, fuel);
      env' := Rounds(p, next, rounds[1..], answers, fuel - 1);
    }
  }

  /** The polling program: however many probes are not accepted, each is followed by one sleep of
      the interval and the next probe; the first value that is accepted is the result. An error
      of a probe ends it. */
  lemma {:induction false} Polls(p: Poll, rounds: seq<(Node, Node)>, v: Node, e: Error, rest: seq<Answer>, env: Env,
                                 fuel: nat)
    requires IsPoll(p) && Rejected(p, rounds) && fuel > |rounds| + 1
    ensures var program := Program(p.probe, Fn([p.x], p.test), p.sleep);
            var before := AnswersOf(rounds);
            && Eval(program, env, before, fuel) == Suspended(p.asked)
            && (!Truthy(p.verdict(v)) ==>
                  Eval(program, env, before + [Ok(v)], fuel) == Suspended(Standard("sleep", Arr([p.interval]))))
            && (Truthy(p.verdict(v)) ==> Eval(program, env, before + ([Ok(v)] + rest), fuel) == Done(v, rest))
            && Eval(program, env, before + ([Fail(e)] + rest), fuel) == Raised(e, rest)
  {
    hide IsPoll, Ready, Eval, Rejected;
    var start := Extend(Extend(env, "__until_0", Fn([p.x], p.test)), "__poll_0", Fn([], Round(p.probe, p.sleep)));
    forall answers: seq<Answer>
      ensures var program := Program(p.probe, Fn([p.x], p.test), p.sleep);
              Eval(program, env, answers, fuel) == Eval(Call(Ref("__poll_0"), []), start, answers, fuel)
      ensures Ready(p, start)
    {
      Starts(p, env, answers, fuel);
    }
    Starts(p, env, [], fuel);
    After(p, start, rounds, [], fuel);
    assert AnswersOf(rounds) + [] == AnswersOf(rounds);
    After(p, start, rounds, [Ok(v)], fuel);
    After(p, start, rounds, [Ok(v)] + rest, fuel);
    After(p, start, rounds, [Fail(e)] + rest, fuel);
    assert ([Ok(v)] + rest)[1..] == rest && ([Fail(e)] + rest)[1..] == rest && [Ok(v)][1..] == [];
  }

  lemma {:induction false} Starts(p: Poll, env: Env, answers: seq<Answer>, fuel: nat)
    ensures var round := Fn([], Round(p.probe, p.sleep));
            var start := Extend(Extend(env, "__until_0", Fn([p.x], p.test)), "__poll_0", round);
            && Ready(p, start)
            && Eval(Program(p.probe, Fn([p.x], p.test), p.sleep), env, answers, fuel) ==
               Eval(Call(Ref("__poll_0"), []), start, answers, fuel)
  {
    hide EvalList;
    assert |"__until_0"| != |"__poll_0"|;
    var f, g := Fn([p.x], p.test), Fn([], Round(p.probe, p.sleep));
    var env1 := Extend(env, "__until_0", f);
    assert Lookup("__until_0", Extend(env1, "__poll_0", g)) == Lookup("__until_0", env1) == Some(f);
    assert Eval(f, env, answers, fuel) == Done(f, answers);
    assert Eval(g, env1, answers, fuel) == Done(g, answers);
  }

  /** What happens behind the rounds. */
  lemma {:induction false} After(p: Poll, env: Env, rounds: seq<(Node, Node)>, answers: seq<Answer>, fuel: nat)
    requires IsPoll(p) && Ready(p, env) && Rejected(p, rounds) && fuel > |rounds| + 1
    ensures var o := Eval(Call(Ref("__poll_0"), []), env, AnswersOf(rounds) + answers, fuel);
            if answers == [] then o == Suspended(p.asked)
            else if answers[0].Fail? then o == Raised(answers[0].error, answers[1..])
            else if Truthy(p.verdict(answers[0].value)) then o == Done(answers[0].value, answers[1..])
            else |answers| == 1 ==> o == Suspended(Standard("sleep", Arr([p.interval])))
  {
    hide IsPoll, Ready, Eval, Rejected, AnswersOf;
    var there := Rounds(p, env, rounds, answers, fuel);
    var next := OneRound(p, there, answers, fuel - |rounds|);
  }
}
