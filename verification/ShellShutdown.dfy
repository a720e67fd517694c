/** The exactly-once cleanup of the desktop shell.  Any number of callers (the last window's close event, the
    AppKit quit, the end of main) enter `shutdown` concurrently; the statements under the lock and the four
    cleanup steps are the events. */
module ShellShutdown {
  import opened Options

  type CallId = nat

  datatype Part = Runtime | Push | Gateway | Bridge

  // The cleanup steps, each named by the part it stops: push.stop, gateway.stop (which uses runtime.run to wait for
  // its server), bridge._close, runtime.stop.
  const STEPS: seq<Part> := [Push, Gateway, Bridge, Runtime]

  // How one cleanup step ends: normally, with an ordinary exception (logged and swallowed), or with an
  // exception outside `Exception` (propagated).
  datatype StepEnd = Fine | Ordinary | Fatal

  datatype Pc =
    | AtAcquire | AtCheck | AtStep(i: nat) | AtSetDone | AtRelease(raising: bool)
    | Returned | Raised

  // `log` lists the cleanup steps in the order they were attempted, over all callers; `finished` counts how
  // often the whole body ran to its end and `escaped` how often a fatal exception left it.
  datatype State = State(holder: Option<CallId>, done: bool, calls: map<CallId, Pc>, log: seq<Part>,
                         finished: nat, escaped: nat)

  datatype Event = Enter(c: CallId) | Move(c: CallId, end: StepEnd) | GiveUp(c: CallId)

  const INITIAL := State(None, false, map[], [], 0, 0)

  function PcAfter(s: State, pc: Pc, end: StepEnd): Pc {
    match pc
    case AtAcquire => if s.holder.None? then AtCheck else AtAcquire
    case AtCheck => if s.done then AtRelease(false) else AtStep(0)
    case AtStep(i) => if i >= |STEPS| then AtSetDone else if end.Fatal? then AtRelease(true) else AtStep(i + 1)
    case AtSetDone => AtRelease(false)
    case AtRelease(raising) => if raising then Raised else Returned
    case _ => pc
  }

  function MoveNext(s: State, c: CallId, end: StepEnd): State
    requires c in s.calls
  {
    var pc := s.calls[c];
    var attempts := pc.AtStep? && pc.i < |STEPS|;
    State(if pc.AtAcquire? && s.holder.None? then Some(c) else if pc.AtRelease? then None else s.holder,
          s.done || pc.AtSetDone?,
          s.calls[c := PcAfter(s, pc, end)],
          if attempts then s.log + [STEPS[pc.i]] else s.log,
          if pc.AtStep? && !attempts then s.finished + 1 else s.finished,
          if attempts && end.Fatal? then s.escaped + 1 else s.escaped)
  }

  function Next(s: State, e: Event): State {
    match e
    case Enter(c) => if c in s.calls then s else s.(calls := s.calls[c := AtAcquire])
    case Move(c, end) => if c in s.calls then MoveNext(s, c, end) else s
    // the 20 second wait for the lock runs out
    case GiveUp(c) =>
      if c in s.calls && s.calls[c].AtAcquire? && s.holder.Some? then s.(calls := s.calls[c := Raised]) else s
  }

  function RunFrom(s: State, es: seq<Event>): State
    decreases |es|
  {
    if es == [] then s else RunFrom(Next(s, es[0]), es[1..])
  }

  function Run(es: seq<Event>): State { RunFrom(INITIAL, es) }

  // ---- invariant ----

  predicate Inside(pc: Pc) { pc.AtCheck? || pc.AtStep? || pc.AtSetDone? || pc.AtRelease? }

  ghost predicate HolderOk(s: State) {
    && (forall c :: c in s.calls ==> (Inside(s.calls[c]) <==> s.holder == Some(c)))
    && (s.holder.Some? ==> s.holder.value in s.calls)
    && (forall c :: c in s.calls && s.calls[c] == Returned ==> s.done)
  }

  // How far the current attempt has got: the number of steps it has put into the log.
  function Progress(s: State): nat {
    if s.done then |STEPS|
    else if s.holder.Some? && s.holder.value in s.calls then
      match s.calls[s.holder.value]
      case AtStep(i) => i
      case AtSetDone => |STEPS|
      case _ => 0
    else 0
  }

  // The last `n` attempts are the first `n` steps, and there are others only if something escaped.
  ghost predicate LogOk(log: seq<Part>, n: nat, escaped: nat) {
    && n <= |STEPS|
    && escaped + n <= |log|
    && log[|log| - n..] == STEPS[..n]
    && (escaped == 0 ==> |log| == n)
  }

  ghost predicate BodyOk(s: State) {
    && LogOk(s.log, Progress(s), s.escaped)
    && (s.holder.Some? && s.holder.value in s.calls ==>
          var pc := s.calls[s.holder.value];
          && (pc.AtStep? || pc.AtSetDone? || pc == AtRelease(true) ==> !s.done)
          && (pc == AtRelease(false) ==> s.done))
    && s.finished == (if s.done || (s.holder.Some? && s.holder.value in s.calls && s.calls[s.holder.value].AtSetDone?)
                      then 1 else 0)
  }

  lemma HolderStep(s: State, e: Event)
    requires HolderOk(s) && BodyOk(s)
    ensures HolderOk(Next(s, e))
  { }

  // One more step attempted.
  lemma BodyAttempt(s: State, c: CallId, end: StepEnd)
    requires HolderOk(s) && BodyOk(s) && c in s.calls && s.calls[c].AtStep? && s.calls[c].i < |STEPS|
    ensures BodyOk(MoveNext(s, c, end))
  {
    var t := MoveNext(s, c, end);
    var i := s.calls[c].i;
    assert s.holder == Some(c) && Progress(s) == i;
    if end.Fatal? {
      assert Progress(t) == 0;
      assert t.log[|t.log|..] == [] == STEPS[..0];
    } else {
      assert Progress(t) == i + 1;
      assert t.log[|t.log| - (i + 1)..] == s.log[|s.log| - i..] + [STEPS[i]];
      assert STEPS[..i + 1] == STEPS[..i] + [STEPS[i]];
    }
  }

  lemma BodyMove(s: State, c: CallId, end: StepEnd)
    requires HolderOk(s) && BodyOk(s) && c in s.calls && !(s.calls[c].AtStep? && s.calls[c].i < |STEPS|)
    ensures BodyOk(MoveNext(s, c, end))
  {
    assert MoveNext(s, c, end).log == s.log;
    assert Progress(MoveNext(s, c, end)) == Progress(s);
  }

  lemma BodyArrival(s: State, e: Event)
    requires HolderOk(s) && BodyOk(s) && (e.Enter? || e.GiveUp?)
    ensures BodyOk(Next(s, e))
  {
    assert Next(s, e).log == s.log && Progress(Next(s, e)) == Progress(s);
  }

  lemma BodyStep(s: State, e: Event)
    requires HolderOk(s) && BodyOk(s)
    ensures BodyOk(Next(s, e))
  {
    if !e.Move? {
      BodyArrival(s, e);
    } else if e.c in s.calls {
      if s.calls[e.c].AtStep? && s.calls[e.c].i < |STEPS| {
        BodyAttempt(s, e.c, e.end);
      } else {
        BodyMove(s, e.c, e.end);
      }
    }
  }

  lemma StepKeeps(s: State, e: Event)
    requires HolderOk(s) && BodyOk(s)
    ensures HolderOk(Next(s, e)) && BodyOk(Next(s, e))
  {
    HolderStep(s, e);
    BodyStep(s, e);
  }

  lemma {:induction false} InvFrom(s: State, es: seq<Event>)
    requires HolderOk(s) && BodyOk(s)
    ensures HolderOk(RunFrom(s, es)) && BodyOk(RunFrom(s, es))
    decreases |es|
  {
    if es != [] {
      StepKeeps(s, es[0]);
      InvFrom(Next(s, es[0]), es[1..]);
    }
  }

  /** However the callers interleave and whatever the steps raise: at most one caller is inside, the body runs
      to its end at most once, and it has done so before any caller returns normally. */
  lemma CleanupOnce(es: seq<Event>)
    ensures var s := Run(es);
      && (forall c, d :: c in s.calls && d in s.calls && Inside(s.calls[c]) && Inside(s.calls[d]) ==> c == d)
      && s.finished <= 1
      && (forall c :: c in s.calls && s.calls[c] == Returned ==> s.finished == 1)
  {
    InvFrom(INITIAL, es);
  }

  /** What a finished cleanup has attempted, over all callers together: its log ends with the four steps in order,
      however many of them failed, and it is exactly these four if and only if no step let a fatal exception escape. */
  lemma StepsOnceIffNothingEscapes(es: seq<Event>)
    requires Run(es).done
    ensures var log := Run(es).log;
      && |log| >= 4 && log[|log| - 4..] == [Push, Gateway, Bridge, Runtime]
      && (log == [Push, Gateway, Bridge, Runtime] <==> Run(es).escaped == 0)
  {
    InvFrom(INITIAL, es);
    var s := Run(es);
    assert STEPS[..|STEPS|] == STEPS;
    if s.escaped == 0 { assert s.log == s.log[|s.log| - |STEPS|..]; }
  }

  // Wherever the runtime is stopped, the steps right before are those of the push channel, the gateway and the bridge.
  predicate RuntimeLast(log: seq<Part>) {
    forall i :: 0 <= i < |log| && log[i] == Runtime ==> i >= 3 && log[i - 3..i] == [Push, Gateway, Bridge]
  }

  lemma RuntimeLastAttempt(log: seq<Part>, i: nat)
    requires i < |STEPS| && |log| >= i && log[|log| - i..] == STEPS[..i] && RuntimeLast(log)
    ensures RuntimeLast(log + [STEPS[i]])
  {
    var grown := log + [STEPS[i]];
    forall k | 0 <= k < |grown| && grown[k] == Runtime ensures k >= 3 && grown[k - 3..k] == [Push, Gateway, Bridge] {
      if k < |log| {
        assert grown[k - 3..k] == log[k - 3..k];
      } else {
        assert i == 3 && grown[k - 3..k] == log[|log| - 3..];
      }
    }
  }

  lemma RuntimeLastStep(s: State, e: Event)
    requires HolderOk(s) && BodyOk(s) && RuntimeLast(s.log)
    ensures RuntimeLast(Next(s, e).log)
  {
    if e.Move? && e.c in s.calls && s.calls[e.c].AtStep? && s.calls[e.c].i < |STEPS| {
      assert s.holder == Some(e.c) && Progress(s) == s.calls[e.c].i;
      RuntimeLastAttempt(s.log, s.calls[e.c].i);
    }
  }

  lemma {:induction false} RuntimeLastFrom(s: State, es: seq<Event>)
    requires HolderOk(s) && BodyOk(s) && RuntimeLast(s.log)
    ensures RuntimeLast(RunFrom(s, es).log)
    decreases |es|
  {
    if es != [] {
      RuntimeLastStep(s, es[0]);
      StepKeeps(s, es[0]);
      RuntimeLastFrom(Next(s, es[0]), es[1..]);
    }
  }

  /** In every run, whatever the steps raise and however often the cleanup starts over, the runtime is stopped only
      right after the push channel, the gateway and the bridge, so that the gateway can still use it. */
  lemma GatewayBeforeRuntime(es: seq<Event>)
    ensures RuntimeLast(Run(es).log)
  {
    RuntimeLastFrom(INITIAL, es);
  }

  /** A caller whose wait for the lock runs out while another is inside raises, and leaves everything else to that
      one. */
  lemma GivesUpIff(s: State, c: CallId)
    ensures Next(s, GiveUp(c)) ==
      if c in s.calls && s.calls[c].AtAcquire? && s.holder != None then s.(calls := s.calls[c := Raised]) else s
  { }

  lemma LogIsPrefix(log: seq<Part>, n: nat)
    requires LogOk(log, n, 0)
    ensures log <= STEPS
  {
    WholeSuffix(log, STEPS, n);
  }

  lemma LogRun(es: seq<Event>)
    ensures LogOk(Run(es).log, Progress(Run(es)), Run(es).escaped)
  {
    InvFrom(INITIAL, es);
  }

  /** While nothing has escaped, the steps attempted so far are a prefix of the four: none is repeated and
      none is skipped, whichever of them raised an ordinary exception. */
  lemma NothingSkipped(es: seq<Event>)
    requires Run(es).escaped == 0
    ensures Run(es).log <= [Push, Gateway, Bridge, Runtime]
  {
    LogRun(es);
    LogIsPrefix(Run(es).log, Progress(Run(es)));
  }

  lemma WholeSuffix<T>(log: seq<T>, steps: seq<T>, n: nat)
    requires |log| == n <= |steps| && log[|log| - n..] == steps[..n]
    ensures log <= steps
  {
    assert log[0..] == log;
  }

  // ---- building the shell ----

  datatype Action = Start(p: Part) | Stop(p: Part)

  // The partially built context: which parts exist.  The runtime object always does.
  datatype Context = Context(push: bool, gateway: bool, bridge: bool)

  // The parts of a context in the order they are begun, and their stops in the order of the cleanup steps; an
  // absent part is skipped.
  function Starts(ctx: Context): seq<Action> {
    Opt(true, Start(Runtime)) + Opt(ctx.push, Start(Push))
    + Opt(ctx.gateway, Start(Gateway)) + Opt(ctx.bridge, Start(Bridge))
  }

  function Opt(b: bool, a: Action): seq<Action> { if b then [a] else [] }

  function StopsOf(steps: seq<(bool, Part)>): seq<Action> {
    if steps == [] then [] else Opt(steps[0].0, Stop(steps[0].1)) + StopsOf(steps[1..])
  }

  predicate Has(ctx: Context, p: Part) {
    match p
    case Runtime => true
    case Push => ctx.push
    case Gateway => ctx.gateway
    case Bridge => ctx.bridge
  }

  function StepList(ctx: Context): (steps: seq<(bool, Part)>)
    ensures |steps| == |STEPS| && forall i :: 0 <= i < |STEPS| ==> steps[i] == (Has(ctx, STEPS[i]), STEPS[i])
  {
    [(ctx.push, Push), (ctx.gateway, Gateway), (ctx.bridge, Bridge), (true, Runtime)]
  }

  function Stops(ctx: Context): seq<Action> { StopsOf(StepList(ctx)) }

  lemma {:induction false} StopsOfConcat(s: seq<(bool, Part)>, t: seq<(bool, Part)>)
    ensures StopsOf(s + t) == StopsOf(s) + StopsOf(t)
    decreases |s|
  {
    if s == [] {
      assert s + t == t;
    } else {
      var head := Opt(s[0].0, Stop(s[0].1));
      assert (s + t)[0] == s[0] && (s + t)[1..] == s[1..] + t;
      StopsOfConcat(s[1..], t);
      assert StopsOf(s + t) == head + StopsOf(s[1..] + t);
      assert head + (StopsOf(s[1..]) + StopsOf(t)) == head + StopsOf(s[1..]) + StopsOf(t);
    }
  }

  function Count(s: seq<Action>, a: Action): nat {
    if s == [] then 0 else (if s[0] == a then 1 else 0) + Count(s[1..], a)
  }

  lemma {:induction false} CountConcat(s: seq<Action>, t: seq<Action>, a: Action)
    ensures Count(s + t, a) == Count(s, a) + Count(t, a)
    decreases |s|
  {
    if s == [] {
      assert s + t == t;
    } else {
      assert (s + t)[0] == s[0] && (s + t)[1..] == s[1..] + t;
      CountConcat(s[1..], t, a);
    }
  }

  lemma {:induction false} CountIf(b: bool, x: Action, a: Action)
    ensures Count(Opt(b, x), a) == One(b && x == a)
  {
    assert [x][1..] == [];
    assert Count([x], a) == (if x == a then 1 else 0) + Count([], a);
  }

  lemma {:induction false} CountStarts(ctx: Context, a: Action)
    ensures Count(Starts(ctx), a) == One(a == Start(Runtime)) + One(ctx.push && a == Start(Push))
                                   + One(ctx.gateway && a == Start(Gateway)) + One(ctx.bridge && a == Start(Bridge))
  {
    var runtime, push := Opt(true, Start(Runtime)), Opt(ctx.push, Start(Push));
    var gateway, bridge := Opt(ctx.gateway, Start(Gateway)), Opt(ctx.bridge, Start(Bridge));
    CountConcat(runtime + push + gateway, bridge, a);
    CountConcat(runtime + push, gateway, a);
    CountConcat(runtime, push, a);
    CountIf(true, Start(Runtime), a);
    CountIf(ctx.push, Start(Push), a);
    CountIf(ctx.gateway, Start(Gateway), a);
    CountIf(ctx.bridge, Start(Bridge), a);
  }

  function CountSteps(steps: seq<(bool, Part)>, a: Action): nat {
    if steps == [] then 0 else (if steps[0].0 && a == Stop(steps[0].1) then 1 else 0) + CountSteps(steps[1..], a)
  }

  lemma {:induction false} CountStops(steps: seq<(bool, Part)>, a: Action)
    ensures Count(StopsOf(steps), a) == CountSteps(steps, a)
    decreases |steps|
  {
    if steps != [] {
      CountIf(steps[0].0, Stop(steps[0].1), a);
      CountConcat(Opt(steps[0].0, Stop(steps[0].1)), StopsOf(steps[1..]), a);
      CountStops(steps[1..], a);
    }
  }

  lemma {:induction false} CountStepsCons(x: (bool, Part), r: seq<(bool, Part)>, a: Action)
    ensures CountSteps([x] + r, a) == One(x.0 && a == Stop(x.1)) + CountSteps(r, a)
  {
    assert ([x] + r)[1..] == r;
  }

  function One(b: bool): nat { if b then 1 else 0 }

  lemma {:induction false} CountStepList(ctx: Context, a: Action)
    ensures Count(Stops(ctx), a) == One(ctx.push && a == Stop(Push)) + One(ctx.gateway && a == Stop(Gateway))
                                  + One(ctx.bridge && a == Stop(Bridge)) + One(a == Stop(Runtime))
  {
    var l3 := [(true, Runtime)];
    var l2 := [(ctx.bridge, Bridge)] + l3;
    var l1 := [(ctx.gateway, Gateway)] + l2;
    assert StepList(ctx) == [(ctx.push, Push)] + l1;
    CountStops(StepList(ctx), a);
    CountStepsCons((ctx.push, Push), l1, a);
    CountStepsCons((ctx.gateway, Gateway), l2, a);
    CountStepsCons((ctx.bridge, Bridge), l3, a);
    assert l3 == [(true, Runtime)] + [];
    CountStepsCons((true, Runtime), [], a);
    assert CountSteps([], a) == 0;
  }

  // The push channel, the gateway and the bridge as far as they exist, then the runtime.
  function AllStops(ctx: Context): seq<Action> {
    Opt(ctx.push, Stop(Push)) + Opt(ctx.gateway, Stop(Gateway)) + Opt(ctx.bridge, Stop(Bridge)) + [Stop(Runtime)]
  }

  function Parts(steps: seq<(bool, Part)>): (ps: seq<Part>)
    ensures |ps| == |steps| && forall i :: 0 <= i < |steps| ==> ps[i] == steps[i].1
  {
    seq(|steps|, i requires 0 <= i < |steps| => steps[i].1)
  }

  lemma PartsOfStepList(ctx: Context, n: nat)
    requires n <= 4
    ensures Parts(StepList(ctx)[..n]) == STEPS[..n]
  { }

  lemma StopsCons(has: bool, p: Part, rest: seq<(bool, Part)>)
    ensures StopsOf([(has, p)] + rest) == Opt(has, Stop(p)) + StopsOf(rest)
  {
    assert ([(has, p)] + rest)[1..] == rest;
  }

  lemma StopsListed(ctx: Context)
    ensures Stops(ctx) == AllStops(ctx)
  {
    var l3 := [(true, Runtime)] + [];
    var l2 := [(ctx.bridge, Bridge)] + l3;
    var l1 := [(ctx.gateway, Gateway)] + l2;
    assert StepList(ctx) == [(ctx.push, Push)] + l1;
    StopsCons(ctx.push, Push, l1);
    StopsCons(ctx.gateway, Gateway, l2);
    StopsCons(ctx.bridge, Bridge, l3);
    StopsCons(true, Runtime, []);
    FourTogether(Opt(ctx.push, Stop(Push)), Opt(ctx.gateway, Stop(Gateway)), Opt(ctx.bridge, Stop(Bridge)),
                 [Stop(Runtime)]);
  }

  lemma FourTogether<T>(a: seq<T>, b: seq<T>, c: seq<T>, d: seq<T>)
    ensures a + (b + (c + (d + []))) == a + b + c + d
  { }

  // Every part begun has been stopped once, and no other.
  ghost predicate EachStoppedOnce(all: seq<Action>) {
    forall p :: Count(all, Stop(p)) == Count(all, Start(p)) <= 1
  }

  /** After a failed build every part that was begun has been stopped once, no other part has, and the runtime
      is stopped last. */
  lemma BegunIsStoppedOnce(ctx: Context, p: Part)
    ensures var all := Starts(ctx) + Stops(ctx);
      && Count(all, Stop(p)) == Count(all, Start(p)) <= 1
      && all[|all| - 1] == Stop(Runtime)
  {
    CountStarts(ctx, Start(p));
    CountStarts(ctx, Stop(p));
    CountStepList(ctx, Start(p));
    CountStepList(ctx, Stop(p));
    CountConcat(Starts(ctx), Stops(ctx), Start(p));
    CountConcat(Starts(ctx), Stops(ctx), Stop(p));
    StopsOfConcat([(ctx.push, Push), (ctx.gateway, Gateway), (ctx.bridge, Bridge)], [(true, Runtime)]);
    assert StepList(ctx) == [(ctx.push, Push), (ctx.gateway, Gateway), (ctx.bridge, Bridge)] + [(true, Runtime)];
  }

  // ---- one caller by itself ----

  // How the four steps end if they are reached.
  type Ends = ends: seq<StepEnd> | |ends| == 4 witness [Fine, Fine, Fine, Fine]

  // How many steps are attempted, counting from step `i`: a fatal exception ends the attempt.
  function Reached(ends: Ends, i: nat): (n: nat)
    requires i <= 4
    ensures i <= n <= 4
    decreases 4 - i
  {
    if i == 4 || ends[i].Fatal? then (if i == 4 then 4 else i + 1) else Reached(ends, i + 1)
  }

  predicate Escapes(ends: Ends) { exists i :: 0 <= i < 4 && ends[i].Fatal? }

  // A caller from the body's first step on: its attempts, then the flag and the release.
  function BodyMoves(c: CallId, ends: Ends, i: nat): seq<Event>
    requires i <= 4
    decreases 4 - i
  {
    if i == 4 then [Move(c, Fine), Move(c, Fine), Move(c, Fine)]
    else if ends[i].Fatal? then [Move(c, ends[i]), Move(c, Fine)]
    else [Move(c, ends[i])] + BodyMoves(c, ends, i + 1)
  }

  lemma Ahead(s: State, e: Event, es: seq<Event>)
    ensures RunFrom(s, [e] + es) == RunFrom(Next(s, e), es)
  {
    assert ([e] + es)[1..] == es;
  }

  lemma EndFatal(s: State, c: CallId, i: nat)
    requires c in s.calls && s.calls[c] == AtStep(i) && i < |STEPS|
    ensures var t := RunFrom(s, [Move(c, Fatal), Move(c, Fine)]);
      && t.log == s.log + [STEPS[i]] && t.done == s.done
      && c in t.calls && t.calls[c].Raised? && t.escaped == s.escaped + 1
  {
    var t := Next(s, Move(c, Fatal));
    assert [Move(c, Fatal), Move(c, Fine)] == [Move(c, Fatal)] + ([Move(c, Fine)] + []);
    Ahead(s, Move(c, Fatal), [Move(c, Fine)] + []);
    Ahead(t, Move(c, Fine), []);
  }

  lemma EndWell(s: State, c: CallId)
    requires c in s.calls && s.calls[c] == AtStep(|STEPS|)
    ensures var t := RunFrom(s, [Move(c, Fine), Move(c, Fine), Move(c, Fine)]);
      t.log == s.log && t.done && c in t.calls && t.calls[c].Returned? && t.escaped == s.escaped
  {
    var e := Move(c, Fine);
    assert [e, e, e] == [e] + ([e] + ([e] + []));
    Ahead(s, e, [e] + ([e] + []));
    Ahead(Next(s, e), e, [e] + []);
    Ahead(Next(Next(s, e), e), e, []);
  }

  /** The machine's account of one undisturbed body: it attempts the steps up to the first fatal one, and sets the
      flag and returns exactly if there is none. */
  lemma {:induction false} BodyRun(s: State, c: CallId, ends: Ends, i: nat)
    requires i <= 4 && c in s.calls && s.calls[c] == AtStep(i) && !s.done
    ensures var t := RunFrom(s, BodyMoves(c, ends, i));
      && t.log == s.log + STEPS[i..Reached(ends, i)]
      && t.done == (forall j :: i <= j < 4 ==> !ends[j].Fatal?)
      && c in t.calls && t.calls[c] == (if t.done then Returned else Raised)
    decreases 4 - i
  {
    if i == 4 {
      EndWell(s, c);
    } else if ends[i].Fatal? {
      EndFatal(s, c, i);
      assert STEPS[i..i + 1] == [STEPS[i]];
    } else {
      var t := Next(s, Move(c, ends[i]));
      Ahead(s, Move(c, ends[i]), BodyMoves(c, ends, i + 1));
      Attempt(s, c, ends[i], i);
      BodyRun(t, c, ends, i + 1);
      LogGrows(s.log, i, Reached(ends, i + 1));
    }
  }

  lemma Attempt(s: State, c: CallId, end: StepEnd, i: nat)
    requires c in s.calls && s.calls[c] == AtStep(i) && i < |STEPS| && !end.Fatal?
    ensures var t := Next(s, Move(c, end));
      c in t.calls && t.calls[c] == AtStep(i + 1) && t.done == s.done && t.log == s.log + [STEPS[i]]
  { }

  lemma LogGrows(log: seq<Part>, i: nat, n: nat)
    requires i < n <= |STEPS|
    ensures log + [STEPS[i]] + STEPS[i + 1..n] == log + STEPS[i..n]
  {
    StepsCons(i, n);
  }

  lemma StepsCons(i: nat, n: nat)
    requires i < n <= |STEPS|
    ensures STEPS[i..n] == [STEPS[i]] + STEPS[i + 1..n]
  { }

  // A caller from its entry on, when the lock is free.
  function WholeCall(c: CallId, done: bool, ends: Ends): seq<Event> {
    [Enter(c), Move(c, Fine), Move(c, Fine)] + if done then [Move(c, Fine)] else BodyMoves(c, ends, 0)
  }

  lemma CallRun(s: State, c: CallId, ends: Ends)
    requires s.holder.None? && c !in s.calls
    ensures var t := RunFrom(s, WholeCall(c, s.done, ends));
      && t.log == s.log + (if s.done then [] else STEPS[..Reached(ends, 0)])
      && t.done == (s.done || !Escapes(ends))
      && c in t.calls && t.calls[c] == (if t.done then Returned else Raised)
  {
    var e := Move(c, Fine);
    var s1 := Next(s, Enter(c));
    var s2 := Next(s1, e);
    var s3 := Next(s2, e);
    var rest := if s.done then [e] else BodyMoves(c, ends, 0);
    assert WholeCall(c, s.done, ends) == [Enter(c)] + ([e] + ([e] + rest));
    Ahead(s, Enter(c), [e] + ([e] + rest));
    Ahead(s1, e, [e] + rest);
    Ahead(s2, e, rest);
    if s.done {
      assert [e] == [e] + [];
      Ahead(s3, e, []);
    } else {
      BodyRun(s3, c, ends, 0);
      assert STEPS[0..Reached(ends, 0)] == STEPS[..Reached(ends, 0)];
    }
  }

  /** The cleanup is not exactly-once under fatal exceptions: one that escapes the second step leaves the flag unset,
      and the next caller attempts the first two steps again. */
  lemma StepsAttemptedTwice()
    ensures var ends: Ends := [Fine, Fatal, Fine, Fine];
      var well: Ends := [Fine, Fine, Fine, Fine];
      Run(WholeCall(0, false, ends) + WholeCall(1, false, well)).log
      == [Push, Gateway] + [Push, Gateway, Bridge, Runtime]
  {
    var ends: Ends, well: Ends := [Fine, Fatal, Fine, Fine], [Fine, Fine, Fine, Fine];
    var first := WholeCall(0, false, ends);
    CallRun(INITIAL, 0, ends);
    assert Reached(ends, 0) == Reached(ends, 1) == 2;
    assert ends[1].Fatal?;
    RunAppend(INITIAL, first, WholeCall(1, false, well));
    OneCaller(0, ends);
    CallRun(Run(first), 1, well);
    assert Reached(well, 3) == Reached(well, 2) == Reached(well, 1) == 4;
    assert STEPS[..4] == STEPS;
  }

  lemma {:induction false} RunAppend(s: State, a: seq<Event>, b: seq<Event>)
    ensures RunFrom(s, a + b) == RunFrom(RunFrom(s, a), b)
    decreases |a|
  {
    if a == [] {
      assert a + b == b;
    } else {
      assert a + b == [a[0]] + (a[1..] + b);
      Ahead(s, a[0], a[1..] + b);
      RunAppend(Next(s, a[0]), a[1..], b);
    }
  }

  // Events of one caller only.
  predicate Only(es: seq<Event>, c: CallId) { forall i :: 0 <= i < |es| ==> es[i].c == c }

  lemma {:induction false} OnlyFrom(s: State, es: seq<Event>, c: CallId)
    requires Only(es, c) && HolderOk(s) && BodyOk(s) && s.calls.Keys <= {c}
    ensures HolderOk(RunFrom(s, es)) && RunFrom(s, es).calls.Keys <= {c}
    decreases |es|
  {
    if es != [] {
      assert es[0].c == c;
      assert forall i :: 0 <= i < |es[1..]| ==> es[1..][i] == es[i + 1];
      StepKeeps(s, es[0]);
      OnlyFrom(Next(s, es[0]), es[1..], c);
    }
  }

  lemma {:induction false} BodyMovesOnly(c: CallId, ends: Ends, i: nat)
    requires i <= 4
    ensures Only(BodyMoves(c, ends, i), c)
    decreases 4 - i
  {
    if i < 4 && !ends[i].Fatal? { BodyMovesOnly(c, ends, i + 1); }
  }

  // After a whole call of a first caller the lock is free again.
  lemma OneCaller(c: CallId, ends: Ends)
    ensures var t := Run(WholeCall(c, false, ends)); t.holder.None? && t.calls.Keys == {c}
  {
    BodyMovesOnly(c, ends, 0);
    OnlyFrom(INITIAL, WholeCall(c, false, ends), c);
    CallRun(INITIAL, c, ends);
  }

  // The statements of the build that can raise, in their order; the last finds the page and makes the bridge.
  datatype BuildStep = RuntimeStarted | ChannelMade | ChannelStarted | GatewayMade | GatewayStarted | BridgeMade

  predicate OfGateway(b: BuildStep) { b.GatewayMade? || b.GatewayStarted? }

  lemma SixSteps(b: BuildStep)
    ensures b in {RuntimeStarted, ChannelMade, ChannelStarted, BridgeMade} || OfGateway(b)
    ensures OfGateway(b) ==> b in {GatewayMade, GatewayStarted}
  { }

  // ---- the shell itself ----

  class Shell {
    var log: seq<Part>          // the steps attempted
    var actions: seq<Action>    // the parts begun and stopped
    var done: bool

    constructor ()
      ensures log == [] && actions == [] && !done
    {
      log, actions, done := [], [], false;
    }

    // The loop over the steps, whatever parts they stop.
    method TrySteps(steps: seq<(bool, Part)>, ends: Ends) returns (escaped: bool)
      requires |steps| == 4
      modifies this`log, this`actions
      ensures log == old(log) + Parts(steps[..Reached(ends, 0)])
      ensures actions == old(actions) + StopsOf(steps[..Reached(ends, 0)])
      ensures escaped <==> Escapes(ends)
    {
      var i := 0;
      while i < 4
        invariant 0 <= i <= 4 && Reached(ends, i) == Reached(ends, 0)
        invariant log == old(log) + Parts(steps[..i])
        invariant actions == old(actions) + StopsOf(steps[..i])
        invariant forall j :: 0 <= j < i ==> !ends[j].Fatal?
      {
        log := log + [steps[i].1];
        if steps[i].0 { actions := actions + [Stop(steps[i].1)]; }
        OneMoreStep(steps, i);
        if ends[i].Fatal? { return true; }
        i := i + 1;
      }
      escaped := false;
    }

    /** The steps are tried in turn.  One that raises an ordinary exception is logged and the next follows; a fatal one
        ends the attempt. */
    method StopResources(ctx: Context, ends: Ends) returns (escaped: bool)
      modifies this`log, this`actions
      ensures log == old(log) + STEPS[..Reached(ends, 0)]
      ensures actions == old(actions) + StopsOf(StepList(ctx)[..Reached(ends, 0)])
      ensures escaped <==> Escapes(ends)
    {
      escaped := TrySteps(StepList(ctx), ends);
      PartsOfStepList(ctx, Reached(ends, 0));
    }

    /** A whole call that finds the lock free: what it attempts, and whether it sets the flag, is what the machine says
        of an undisturbed caller. */
    method Shutdown(ctx: Context, ends: Ends) returns (raised: bool)
      modifies this
      ensures log == old(log) + if old(done) then [] else STEPS[..Reached(ends, 0)]
      ensures actions == old(actions) + if old(done) then [] else StopsOf(StepList(ctx)[..Reached(ends, 0)])
      ensures done == (old(done) || !Escapes(ends)) && raised == !done
      ensures forall s: State, c :: s.holder.None? && c !in s.calls && s.done == old(done) && s.log == old(log) ==>
        var t := RunFrom(s, WholeCall(c, s.done, ends)); t.log == log && t.done == done
    {
      ghost var was, before := done, log;
      if done {
        raised := false;
      } else {
        raised := StopResources(ctx, ends);
        if !raised { done := true; }
      }
      forall s: State, c | s.holder.None? && c !in s.calls && s.done == was && s.log == before
        ensures var t := RunFrom(s, WholeCall(c, s.done, ends)); t.log == log && t.done == done
      {
        CallRun(s, c, ends);
      }
    }

    // Adds a part that is being begun to the record.
    method Begin(p: Part, ghost ctx: Context, ghost next: Context, ghost before: seq<Action>)
      requires actions == before + Starts(ctx) && Starts(next) == Starts(ctx) + [Start(p)]
      modifies this`actions
      ensures actions == before + Starts(next)
    {
      actions := actions + [Start(p)];
    }

    /** Any statement of the build may raise.  Then exactly what was begun so far is stopped, in the order of the
        cleanup and up to a fatal exception in it; a build that succeeds has begun every part and stops nothing. */
    method Build(gatewayEnabled: bool, raises: Option<BuildStep>, ends: Ends)
      returns (ctx: Context, ok: bool, escaped: bool)
      modifies this`log, this`actions
      ensures ok <==> raises == None || (OfGateway(raises.value) && !gatewayEnabled)
      ensures ctx.push <==> ok || (raises != Some(RuntimeStarted) && raises != Some(ChannelMade))
      ensures ctx.gateway <==> gatewayEnabled && (ok || raises == Some(GatewayStarted) || raises == Some(BridgeMade))
      ensures ctx.bridge <==> ok
      ensures ok ==> actions == old(actions) + Starts(ctx)
      ensures !ok && !escaped ==> actions == old(actions) + Starts(ctx) + Stops(ctx)
      ensures !ok && !escaped ==> EachStoppedOnce(actions[|old(actions)|..])
      ensures escaped <==> !ok && Escapes(ends)
      ensures escaped ==> actions == old(actions) + Starts(ctx) + StopsOf(StepList(ctx)[..Reached(ends, 0)])
    {
      ghost var before := actions;
      ctx, escaped := Context(false, false, false), false;
      actions := actions + [Start(Runtime)];
      assert Starts(ctx) == [Start(Runtime)];
      if raises.Some? { SixSteps(raises.value); }
      ok := raises != Some(RuntimeStarted) && raises != Some(ChannelMade);
      if ok {
        PushNext(ctx);
        Begin(Push, ctx, ctx.(push := true), before);
        ctx := ctx.(push := true);
        ok := raises != Some(ChannelStarted);
      }
      if ok && gatewayEnabled {
        ok := raises != Some(GatewayMade);
        if ok {
          GatewayNext(ctx);
          Begin(Gateway, ctx, ctx.(gateway := true), before);
          ctx := ctx.(gateway := true);
          ok := raises != Some(GatewayStarted);
        }
      }
      if ok { ok := raises != Some(BridgeMade); }
      if ok {
        BridgeNext(ctx);
        Begin(Bridge, ctx, ctx.(bridge := true), before);
        ctx := ctx.(bridge := true);
      } else {
        escaped := StopResources(ctx, ends);
        if !escaped { BuildUndone(ctx, ends, before); }
      }
    }
  }

  lemma BuildUndone(ctx: Context, ends: Ends, before: seq<Action>)
    requires !Escapes(ends)
    ensures StopsOf(StepList(ctx)[..Reached(ends, 0)]) == Stops(ctx)
    ensures EachStoppedOnce((before + Starts(ctx) + Stops(ctx))[|before|..])
  {
    AllReached(ends, 0);
    assert StepList(ctx)[..4] == StepList(ctx);
    assert (before + Starts(ctx) + Stops(ctx))[|before|..] == Starts(ctx) + Stops(ctx);
    forall p { BegunIsStoppedOnce(ctx, p); }
  }

  lemma OneMoreStep(steps: seq<(bool, Part)>, i: nat)
    requires i < |steps|
    ensures StopsOf(steps[..i + 1]) == StopsOf(steps[..i]) + Opt(steps[i].0, Stop(steps[i].1))
    ensures Parts(steps[..i + 1]) == Parts(steps[..i]) + [steps[i].1]
  {
    var last := [steps[i]];
    assert steps[..i + 1] == steps[..i] + last && last == last + [];
    StopsOfConcat(steps[..i], last);
    StopsCons(steps[i].0, steps[i].1, []);
    NothingMore(Opt(steps[i].0, Stop(steps[i].1)));
  }

  lemma NothingMore<T>(s: seq<T>)
    ensures s + [] == s
  { }

  /** When nothing escapes, all four steps are attempted, in this order, and the parts that exist are stopped in it. */
  lemma CleanupInOrder(ctx: Context, ends: Ends)
    requires !Escapes(ends)
    ensures STEPS[..Reached(ends, 0)] == [Push, Gateway, Bridge, Runtime]
    ensures StopsOf(StepList(ctx)[..Reached(ends, 0)]) == AllStops(ctx)
  {
    AllReached(ends, 0);
    StopsListed(ctx);
    assert STEPS[..4] == STEPS && StepList(ctx)[..4] == StepList(ctx);
  }

  lemma {:induction false} AllReached(ends: Ends, i: nat)
    requires i <= 4 && !Escapes(ends)
    ensures Reached(ends, i) == 4
    decreases 4 - i
  {
    if i < 4 { AllReached(ends, i + 1); }
  }

  lemma PushNext(ctx: Context)
    requires !ctx.push && !ctx.gateway && !ctx.bridge
    ensures Starts(ctx.(push := true)) == Starts(ctx) + [Start(Push)]
  { }

  lemma GatewayNext(ctx: Context)
    requires !ctx.gateway && !ctx.bridge
    ensures Starts(ctx.(gateway := true)) == Starts(ctx) + [Start(Gateway)]
  { }

  lemma BridgeNext(ctx: Context)
    requires !ctx.bridge
    ensures Starts(ctx.(bridge := true)) == Starts(ctx) + [Start(Bridge)]
  { }
}
