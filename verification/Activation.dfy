/**
 Agent activation, version 2 (application/agent_activation_coordinator_v2.go and
 application/contract/agent_activation_v2.go).

 An activation is one append-only log of step events in a compare-and-swap store.
 Any number of coordinators read it, extend it and call the step owners; any of them
 can crash, lose a reply, or have a write land after it stopped waiting.  `Step` is the
 coordinator's code cut at its store and owner calls, so a run is a list of actions and
 every interleaving is some list.
 */
module Activation {
  import opened Wrappers

  const STEP_COUNT: nat := 8
  const COMMIT: nat := 4
  const SANDBOX_ACTIVATE: nat := 5
  const EXECUTION_OPEN: nat := 6
  const READY_INSPECT: nat := 7

  // ---------------------------------------------------------------- facts

  /** A request names the exact fact it was prepared from; digests are modelled by their content. */
  datatype Request = Request(coordination: seq<Event>, sequence: nat, step: nat,
                             predecessor: Option<nat>, payload: nat)

  datatype Proof = Proof(expires: int, primary: nat, secondary: Option<nat>, endpoint: Option<nat>,
                         lease: Option<nat>, scope: Option<nat>)

  datatype StepResult = StepResult(ref: nat, request: Request, proof: Proof)

  datatype Event =
    | Intent(step: nat, at: int, predecessor: Option<nat>)
    | Invocation(step: nat, at: int, request: Request)
    | Unknown(step: nat, at: int, request: Request)
    | Recorded(step: nat, at: int, request: Request, result: StepResult)

  datatype Phase = BeforeIntent | AfterIntent | AfterInvocation(request: Request) | AfterUnknown(request: Request)

  datatype Position = Position(step: nat, phase: Phase, predecessor: Option<nat>, last: int)

  /** The validation loop's body: where one more event leads, if it is allowed. */
  function Extend(p: Position, prefix: seq<Event>, e: Event): Option<Position> {
    if p.step >= STEP_COUNT || e.step != p.step || e.at < p.last then None
    else match p.phase
      case BeforeIntent =>
        if e.Intent? && e.predecessor == p.predecessor then Some(p.(phase := AfterIntent, last := e.at)) else None
      case AfterIntent =>
        if e.Invocation? && e.request.step == e.step && e.request.coordination == prefix
           && e.request.sequence == |prefix| + 1 && e.request.predecessor == p.predecessor
        then Some(p.(phase := AfterInvocation(e.request), last := e.at)) else None
      case AfterInvocation(r) =>
        if e.Unknown? && e.request == r then Some(p.(phase := AfterUnknown(r), last := e.at))
        else if e.Recorded? && e.request == r && e.result.request == r
        then Some(Position(p.step + 1, BeforeIntent, Some(e.result.ref), e.at)) else None
      case AfterUnknown(r) =>
        if e.Recorded? && e.request == r && e.result.request == r
        then Some(Position(p.step + 1, BeforeIntent, Some(e.result.ref), e.at)) else None
  }

  function Scan(events: seq<Event>, k: nat): Option<Position>
    requires k <= |events|
  {
    if k == 0 then Some(Position(0, BeforeIntent, None, 0)) else
    match Scan(events, k - 1)
    case None => None
    case Some(p) => Extend(p, events[..k - 1], events[k - 1])
  }

  ghost predicate Valid(events: seq<Event>) { events != [] && Scan(events, |events|).Some? }

  function End(events: seq<Event>): Position
    requires Valid(events)
  {
    Scan(events, |events|).value
  }

  ghost predicate Complete(events: seq<Event>) { Valid(events) && End(events).step == STEP_COUNT }

  lemma {:induction false} ScanPrefix(a: seq<Event>, b: seq<Event>, k: nat)
    requires a <= b && k <= |a|
    ensures Scan(a, k) == Scan(b, k)
  {
    if k > 0 {
      ScanPrefix(a, b, k - 1);
      assert a[..k - 1] == b[..k - 1];
    }
  }

  /** Validation is incremental: a fact is valid exactly when its prefix is and the last event extends it. */
  lemma AppendValid(events: seq<Event>, e: Event)
    requires Valid(events)
    ensures Valid(events + [e]) <==> Extend(End(events), events, e).Some?
    ensures Valid(events + [e]) ==> Some(End(events + [e])) == Extend(End(events), events, e)
  {
    var next := events + [e];
    ScanPrefix(events, next, |events|);
    assert next[..|events|] == events;
  }

  lemma {:induction false} PrefixesScan(events: seq<Event>, k: nat, n: nat)
    requires k <= n <= |events| && Scan(events, n).Some?
    ensures Scan(events, k).Some?
  {
    if k < n {
      PrefixesScan(events, k, n - 1);
    }
  }

  /** How far a position has come: four events at most per step. */
  function Progress(p: Position): nat {
    4 * p.step + match p.phase
                 case BeforeIntent => 0
                 case AfterIntent => 1
                 case AfterInvocation(_) => 2
                 case AfterUnknown(_) => 3
  }

  /** Every event strictly advances, so a valid log has at most thirty-two events. */
  lemma {:induction false} ProgressClimbs(events: seq<Event>, i: nat, j: nat)
    requires i <= j <= |events| && Scan(events, j).Some?
    ensures Scan(events, i).Some?
    ensures Progress(Scan(events, i).value) + (j - i) <= Progress(Scan(events, j).value) <= 4 * STEP_COUNT
  {
    PrefixesScan(events, i, j);
    if i < j {
      ProgressClimbs(events, i, j - 1);
    } else if j > 0 {
      PrefixesScan(events, j - 1, j);
    }
  }

  lemma LogIsBounded(events: seq<Event>)
    requires Valid(events)
    ensures |events| <= 4 * STEP_COUNT
  {
    ProgressClimbs(events, 0, |events|);
  }

  lemma InvocationProgress(events: seq<Event>, i: nat)
    requires Valid(events) && i < |events| && events[i].Invocation?
    ensures Scan(events, i + 1).Some? && Progress(Scan(events, i + 1).value) == 4 * events[i].step + 2
  {
    PrefixesScan(events, i + 1, |events|);
    PrefixesScan(events, i, i + 1);
  }

  /** A step is invoked by at most one event of a valid log. */
  lemma OneInvocationPerStep(events: seq<Event>, i: nat, j: nat)
    requires Valid(events) && i < |events| && j < |events|
    requires events[i].Invocation? && events[j].Invocation? && events[i].step == events[j].step
    ensures i == j
  {
    InvocationProgress(events, i);
    InvocationProgress(events, j);
    if i < j {
      ProgressClimbs(events, i + 1, j + 1);
    } else if j < i {
      ProgressClimbs(events, j + 1, i + 1);
    }
  }

  ghost predicate HasResult(events: seq<Event>, step: nat) {
    exists i :: 0 <= i < |events| && events[i].Recorded? && events[i].step == step
  }

  ghost predicate ResultsBefore(events: seq<Event>, step: nat) {
    forall k :: 0 <= k < step ==> HasResult(events, k)
  }

  /** The reference of the last result recorded, if any. */
  function LastResult(events: seq<Event>): Option<nat> {
    if events == [] then None else
    var e := events[|events| - 1];
    if e.Recorded? then Some(e.result.ref) else LastResult(events[..|events| - 1])
  }

  /** The log up to a position holds a result of every earlier step, the last of them the predecessor. */
  lemma {:induction false} EarlierResults(events: seq<Event>, n: nat)
    requires n <= |events| && Scan(events, n).Some?
    ensures var p := Scan(events, n).value;
            ResultsBefore(events[..n], p.step) && p.predecessor == LastResult(events[..n])
  {
    if n > 0 {
      PrefixesScan(events, n - 1, n);
      EarlierResults(events, n - 1);
      var before, p, q := events[..n - 1], Scan(events, n - 1).value, Scan(events, n).value;
      assert events[..n] == before + [events[n - 1]];
      forall k | 0 <= k < q.step ensures HasResult(events[..n], k) {
        if k < p.step {
          assert HasResult(before, k);
          var i :| 0 <= i < |before| && before[i].Recorded? && before[i].step == k;
          assert events[..n][i] == before[i];
        } else {
          assert events[..n][n - 1] == events[n - 1];
        }
      }
    }
  }

  // ----------------------------------------------------- where a fact stands

  /** The coordinator's loop over the events finds the position that validation defines. */
  method ActivationPosition(events: seq<Event>)
    returns (step: nat, last: Event, predecessor: Option<nat>, invocation: Option<Request>)
    requires Valid(events)
    ensures last == events[|events| - 1]
    ensures var p := End(events);
            && step == (if p.step < STEP_COUNT then p.step else STEP_COUNT - 1)
            && predecessor == p.predecessor
            && (p.phase == BeforeIntent <==> last.Recorded?)
            && (p.phase == AfterIntent <==> last.Intent?)
            && invocation == (if p.phase.AfterInvocation? || p.phase.AfterUnknown? then Some(p.phase.request) else None)
  {
    var completed := 0;
    predecessor, invocation := None, None;
    var i := 0;
    while i < |events|
      invariant 0 <= i <= |events| && Scan(events, i).Some?
      invariant var p := Scan(events, i).value;
                && completed == p.step && predecessor == p.predecessor
                && invocation
                   == (if p.phase.AfterInvocation? || p.phase.AfterUnknown? then Some(p.phase.request) else None)
      invariant i > 0 ==> var phase := Scan(events, i).value.phase;
                          && (phase == BeforeIntent <==> events[i - 1].Recorded?)
                          && (phase == AfterIntent <==> events[i - 1].Intent?)
    {
      PrefixesScan(events, i + 1, |events|);
      var event := events[i];
      if !event.Intent? {
        invocation := Some(event.request);
      }
      if event.Recorded? {
        completed := completed + 1;
        predecessor := Some(event.result.ref);
        invocation := None;
      }
      i := i + 1;
    }
    last := events[|events| - 1];
    ProgressClimbs(events, 0, |events|);
    step := if completed >= STEP_COUNT then completed - 1 else completed;
  }

  // ------------------------------------------------------ the final result

  datatype Summary = Summary(scope: nat, activation: nat, sandbox: nat, open: nat, endpoint: nat, ready: nat,
                             expires: int)

  /** The earliest of the request's deadline and every recorded proof's expiry. */
  function Expiry(events: seq<Event>, notAfter: int): (expires: int)
    ensures expires <= notAfter
    ensures forall e :: e in events && e.Recorded? ==> expires <= e.result.proof.expires
    ensures expires == notAfter || exists e :: e in events && e.Recorded? && expires == e.result.proof.expires
  {
    if events == [] then notAfter else
    var front, e := events[..|events| - 1], events[|events| - 1];
    assert events == front + [e];
    var earlier := Expiry(front, notAfter);
    if e.Recorded? && e.result.proof.expires < earlier then e.result.proof.expires else earlier
  }

  /** The last recorded proof of a step. */
  function ProofOf(events: seq<Event>, step: nat): Option<Proof> {
    if events == [] then None else
    var e := events[|events| - 1];
    if e.Recorded? && e.step == step then Some(e.result.proof) else ProofOf(events[..|events| - 1], step)
  }

  /** None stands for the binding-drift conflict: the step results are not one closure. */
  function BuildResult(events: seq<Event>, notAfter: int): Option<Summary> {
    match (ProofOf(events, COMMIT), ProofOf(events, SANDBOX_ACTIVATE),
           ProofOf(events, EXECUTION_OPEN), ProofOf(events, READY_INSPECT))
    case (Some(commit), Some(active), Some(open), Some(ready)) =>
      if commit.scope.None? || commit.lease.None? || active.lease.None? || open.lease.None? || ready.lease.None?
         || open.endpoint.None? || ready.secondary.None? || ready.endpoint.None?
         || commit.lease != active.lease || commit.lease != open.lease || commit.lease != ready.lease
         || ready.primary != commit.primary || ready.secondary.value != active.primary
      then None
      else Some(Summary(commit.scope.value, commit.primary, active.primary, open.primary,
                        open.endpoint.value, ready.endpoint.value, Expiry(events, notAfter)))
    case _ => None
  }

  // ---------------------------------------------------------- the protocol

  datatype Write = Write(expected: seq<Event>, next: seq<Event>)

  /** A linearizable compare-and-swap on (revision, digest) that checks the transition. */
  ghost function Commit(log: seq<Event>, w: Write): seq<Event> {
    if log == w.expected && Valid(w.next) then w.next else log
  }

  /** What can become of one write: answered, applied or refused without an answer, or still on its way. */
  datatype Delivery = Answered | AnswerLost | Delayed

  datatype After = ToLoop | ToInspect(request: Request)

  /** Where a coordinator stands between two calls to the store or to a step owner. */
  datatype Local =
    | Out
    | Looping(fact: seq<Event>)
    | Recovering(fact: seq<Event>, after: After)
    | Authorized(fact: seq<Event>, request: Request)
    | Interrupted(fact: seq<Event>, request: Request)
    | Inspecting(fact: seq<Event>, request: Request)
    | Resolved(fact: seq<Event>, request: Request, result: StepResult)

  datatype StartCall = StartCall(fact: seq<Event>, request: Request)

  /** log is [] until created; starts and returned record the calls and answers of the whole run. */
  datatype State = State(notAfter: int, log: seq<Event>, delayed: set<Write>, locals: map<nat, Local>,
                         starts: seq<StartCall>, returned: seq<Summary>)

  datatype Action =
    | Open(c: nat, at: int, answered: bool)
    | Iterate(c: nat, at: int, payload: nat, delivery: Delivery)
    | Start(c: nat, answer: Option<StepResult>)
    | MarkUnknown(c: nat, at: int, delivery: Delivery)
    | Inspect(c: nat, answer: Option<StepResult>)
    | Record(c: nat, at: int, delivery: Delivery)
    | Reread(c: nat, reached: bool)
    | Crash(c: nat)
    | Land(w: Write)

  ghost function At(s: State, c: nat): Local { if c in s.locals then s.locals[c] else Out }

  ghost function Put(s: State, c: nat, l: Local): State { s.(locals := s.locals[c := l]) }

  /** Seal, compare-and-swap and the checks on its receipt; then what follows an own, exact, applied receipt. */
  ghost function Append(s: State, c: nat, fact: seq<Event>, e: Event, d: Delivery, own: Local, after: After): State {
    var w := Write(fact, fact + [e]);
    if !Valid(w.next) || (Complete(w.next) && BuildResult(w.next, s.notAfter).None?) then Put(s, c, Out)
    else match d
      case Answered =>
        if s.log == fact then Put(s.(log := w.next), c, own) else Put(s, c, Recovering(fact, after))
      case AnswerLost => Put(s.(log := Commit(s.log, w)), c, Recovering(fact, after))
      case Delayed => Put(s.(delayed := s.delayed + {w}), c, Recovering(fact, after))
  }

  ghost predicate StrictSuccessor(current: seq<Event>, next: seq<Event>) {
    Valid(next) && |next| > |current| && current <= next
  }

  ghost function Iteration(s: State, c: nat, fact: seq<Event>, at: int, payload: nat, d: Delivery): State {
    if !Valid(fact) then Put(s, c, Out)
    else if Complete(fact) then
      match BuildResult(fact, s.notAfter)
      case None => Put(s, c, Out)
      case Some(summary) => Put(s.(returned := s.returned + [summary]), c, Out)
    else
      var p := End(fact);
      match p.phase
      case BeforeIntent =>
        var e := Intent(p.step, at, p.predecessor);
        Append(s, c, fact, e, d, Looping(fact + [e]), ToLoop)
      case AfterIntent =>
        var request := Request(fact, |fact| + 1, p.step, p.predecessor, payload);
        var e := Invocation(p.step, at, request);
        Append(s, c, fact, e, d, Authorized(fact + [e], request), ToLoop)
      case AfterInvocation(request) => Put(s, c, Inspecting(fact, request))
      case AfterUnknown(request) => Put(s, c, Inspecting(fact, request))
  }

  ghost function Step(s: State, a: Action): State {
    match a
    case Open(c, at, answered) =>
      if At(s, c) != Out then s
      else if s.log != [] then Put(s, c, Looping(s.log))
      else
        var first := [Intent(0, at, None)];
        if !Valid(first) then s
        else Put(s.(log := first), c, if answered then Looping(first) else Out)
    case Iterate(c, at, payload, d) =>
      if At(s, c).Looping? then Iteration(s, c, At(s, c).fact, at, payload, d) else s
    case Start(c, answer) =>
      (match At(s, c)
       case Authorized(fact, request) =>
         Put(s.(starts := s.starts + [StartCall(fact, request)]), c,
             if answer.Some? then Resolved(fact, request, answer.value) else Interrupted(fact, request))
       case _ => s)
    case MarkUnknown(c, at, d) =>
      (match At(s, c)
       case Interrupted(fact, request) =>
         var e := Unknown(request.step, at, request);
         Append(s, c, fact, e, d, Inspecting(fact + [e], request), ToInspect(request))
       case _ => s)
    case Inspect(c, answer) =>
      (match At(s, c)
       case Inspecting(fact, request) =>
         Put(s, c, if answer.Some? then Resolved(fact, request, answer.value) else Out)
       case _ => s)
    case Record(c, at, d) =>
      (match At(s, c)
       case Resolved(fact, request, result) =>
         if result.request != request then Put(s, c, Out)
         else
           var e := Recorded(request.step, at, request, result);
           Append(s, c, fact, e, d, Looping(fact + [e]), ToLoop)
       case _ => s)
    case Reread(c, reached) =>
      (match At(s, c)
       case Recovering(fact, after) =>
         if reached && StrictSuccessor(fact, s.log)
         then Put(s, c, if after.ToLoop? then Looping(s.log) else Inspecting(s.log, after.request))
         else Put(s, c, Out)
       case _ => s)
    case Crash(c) => Put(s, c, Out)
    case Land(w) => if w in s.delayed then s.(log := Commit(s.log, w), delayed := s.delayed - {w}) else s
  }

  /** A run: the request's deadline and the actions taken, in order. */
  ghost function Run(notAfter: int, actions: seq<Action>): State {
    if actions == [] then State(notAfter, [], {}, map[], [], [])
    else Step(Run(notAfter, actions[..|actions| - 1]), actions[|actions| - 1])
  }

  // ---------------------------------------------------------- the invariant

  ghost predicate Invoked(fact: seq<Event>, request: Request) {
    && Valid(fact)
    && var last := fact[|fact| - 1];
       last.Invocation? && last.request == request && last.step == request.step
       && request.coordination == fact[..|fact| - 1]
  }

  ghost predicate LocalOk(log: seq<Event>, l: Local) {
    && (!l.Out? ==> l.fact != [] && l.fact <= log)
    && (l.Authorized? ==> Invoked(l.fact, l.request))
  }

  /** Authority to start is held, or was used, at one revision by one coordinator. */
  ghost predicate AuthorityUnique(s: State) {
    && (forall i, j :: 0 <= i < j < |s.starts| ==> |s.starts[i].fact| != |s.starts[j].fact|)
    && (forall c, i :: c in s.locals && s.locals[c].Authorized? && 0 <= i < |s.starts|
          ==> |s.locals[c].fact| != |s.starts[i].fact|)
    && (forall c, d :: c in s.locals && d in s.locals && c != d && s.locals[c].Authorized? && s.locals[d].Authorized?
          ==> |s.locals[c].fact| != |s.locals[d].fact|)
  }

  ghost predicate Inv(s: State) {
    && (s.log != [] ==> Valid(s.log))
    && (forall w :: w in s.delayed ==> w.expected != [] && w.expected <= w.next && |w.next| == |w.expected| + 1)
    && (forall c :: c in s.locals ==> LocalOk(s.log, s.locals[c]))
    && (forall i :: 0 <= i < |s.starts| ==> s.starts[i].fact <= s.log && Invoked(s.starts[i].fact, s.starts[i].request))
    && (forall r :: r in s.returned ==> Complete(s.log) && BuildResult(s.log, s.notAfter) == Some(r))
    && AuthorityUnique(s)
  }

  /** A complete log cannot be extended, so whoever holds a complete fact holds the log. */
  lemma CompleteIsFinal(fact: seq<Event>, log: seq<Event>)
    requires fact <= log && Complete(fact) && Valid(log)
    ensures fact == log
  {
    ScanPrefix(fact, log, |fact|);
    ProgressClimbs(log, |fact|, |log|);
    ProgressClimbs(log, 0, |fact|);
  }

  lemma {:induction false} LogGrows(s: State, log': seq<Event>)
    requires Inv(s) && s.log <= log' && (log' != [] ==> Valid(log'))
    ensures Inv(s.(log := log'))
  {
    if s.returned != [] {
      assert s.returned[0] in s.returned;
      CompleteIsFinal(s.log, log');
    }
  }

  lemma PutKeepsInv(s: State, c: nat, l: Local)
    requires Inv(s) && LocalOk(s.log, l) && !l.Authorized?
    ensures Inv(Put(s, c, l))
  {
  }

  lemma CommitGrows(s: State, w: Write)
    requires Inv(s) && w.expected <= w.next
    ensures s.log <= Commit(s.log, w) && Inv(s.(log := Commit(s.log, w)))
  {
    LogGrows(s, Commit(s.log, w));
  }

  lemma DelayKeepsInv(s: State, w: Write)
    requires Inv(s) && w.expected != [] && w.expected <= w.next && |w.next| == |w.expected| + 1
    ensures Inv(s.(delayed := s.delayed + {w}))
  {
    hide Valid, Complete, BuildResult, LocalOk, Invoked;
  }

  lemma AppendKeepsInv(s: State, c: nat, fact: seq<Event>, e: Event, d: Delivery, own: Local, after: After)
    requires Inv(s) && fact != [] && fact <= s.log
    requires !own.Out? && own.fact == fact + [e]
    requires own.Authorized? ==> (Valid(fact + [e]) ==> Invoked(fact + [e], own.request))
    ensures Inv(Append(s, c, fact, e, d, own, after))
  {
    hide Inv, Valid, Complete, BuildResult, Invoked;
    var w := Write(fact, fact + [e]);
    if !Valid(w.next) || (Complete(w.next) && BuildResult(w.next, s.notAfter).None?) {
      PutKeepsInv(s, c, Out);
    } else {
      match d
      case Answered =>
        if s.log == fact {
          LogGrows(s, w.next);
          OwnKeepsInv(s, c, w.next, own);
        } else {
          PutKeepsInv(s, c, Recovering(fact, after));
        }
      case AnswerLost =>
        CommitGrows(s, w);
        PutKeepsInv(s.(log := Commit(s.log, w)), c, Recovering(fact, after));
      case Delayed =>
        DelayKeepsInv(s, w);
        PutKeepsInv(s.(delayed := s.delayed + {w}), c, Recovering(fact, after));
    }
  }

  /** The one step that can create authority: it is at a revision nobody has seen before. */
  lemma OwnKeepsInv(s: State, c: nat, next: seq<Event>, own: Local)
    requires Inv(s) && Inv(s.(log := next)) && s.log < next
    requires !own.Out? && own.fact == next && LocalOk(next, own)
    ensures Inv(Put(s.(log := next), c, own))
  {
    assert forall d :: d in s.locals && s.locals[d].Authorized? ==> |s.locals[d].fact| <= |s.log|;
    assert forall i :: 0 <= i < |s.starts| ==> |s.starts[i].fact| <= |s.log|;
  }

  lemma IterationKeepsInv(s: State, c: nat, fact: seq<Event>, at: int, payload: nat, d: Delivery)
    requires Inv(s) && fact != [] && fact <= s.log
    ensures Inv(Iteration(s, c, fact, at, payload, d))
  {
    if !Valid(fact) {
      PutKeepsInv(s, c, Out);
    } else if Complete(fact) {
      CompleteIsFinal(fact, s.log);
      match BuildResult(fact, s.notAfter)
      case None => PutKeepsInv(s, c, Out);
      case Some(summary) => PutKeepsInv(s.(returned := s.returned + [summary]), c, Out);
    } else {
      var p := End(fact);
      match p.phase
      case BeforeIntent =>
        var e := Intent(p.step, at, p.predecessor);
        AppendKeepsInv(s, c, fact, e, d, Looping(fact + [e]), ToLoop);
      case AfterIntent =>
        var request := Request(fact, |fact| + 1, p.step, p.predecessor, payload);
        var e := Invocation(p.step, at, request);
        assert (fact + [e])[..|fact|] == fact;
        AppendKeepsInv(s, c, fact, e, d, Authorized(fact + [e], request), ToLoop);
      case AfterInvocation(request) => PutKeepsInv(s, c, Inspecting(fact, request));
      case AfterUnknown(request) => PutKeepsInv(s, c, Inspecting(fact, request));
    }
  }

  lemma StartKeepsInv(s: State, c: nat, answer: Option<StepResult>)
    requires Inv(s)
    ensures Inv(Step(s, Start(c, answer)))
  {
  }

  lemma LandKeepsInv(s: State, w: Write)
    requires Inv(s) && w in s.delayed
    ensures Inv(Step(s, Land(w)))
  {
    CommitGrows(s, w);
  }

  lemma StepKeepsInv(s: State, a: Action)
    requires Inv(s)
    ensures Inv(Step(s, a))
  {
    forall c ensures LocalOk(s.log, At(s, c)) { }
    hide Inv, Complete, BuildResult, Invoked, Iteration, Append;
    match a
    case Open(c, at, answered) =>
      var first := [Intent(0, at, None)];
      if At(s, c) == Out && s.log != [] {
        PutKeepsInv(s, c, Looping(s.log));
      } else if At(s, c) == Out && Valid(first) {
        LogGrows(s, first);
        PutKeepsInv(s.(log := first), c, if answered then Looping(first) else Out);
      }
    case Iterate(c, at, payload, d) =>
      if At(s, c).Looping? {
        IterationKeepsInv(s, c, At(s, c).fact, at, payload, d);
      }
    case Start(c, answer) => StartKeepsInv(s, c, answer);
    case MarkUnknown(c, at, d) =>
      if At(s, c).Interrupted? {
        var e := Unknown(At(s, c).request.step, at, At(s, c).request);
        AppendKeepsInv(s, c, At(s, c).fact, e, d, Inspecting(At(s, c).fact + [e], At(s, c).request),
                       ToInspect(At(s, c).request));
      }
    case Inspect(c, answer) =>
      if At(s, c).Inspecting? {
        PutKeepsInv(s, c, if answer.Some? then Resolved(At(s, c).fact, At(s, c).request, answer.value) else Out);
      }
    case Record(c, at, d) =>
      if At(s, c).Resolved? {
        var l := At(s, c);
        var e := Recorded(l.request.step, at, l.request, l.result);
        if l.result.request != l.request {
          PutKeepsInv(s, c, Out);
        } else {
          AppendKeepsInv(s, c, l.fact, e, d, Looping(l.fact + [e]), ToLoop);
        }
      }
    case Reread(c, reached) =>
      if At(s, c).Recovering? {
        if reached && StrictSuccessor(At(s, c).fact, s.log) {
          var after := At(s, c).after;
          PutKeepsInv(s, c, if after.ToLoop? then Looping(s.log) else Inspecting(s.log, after.request));
        } else {
          PutKeepsInv(s, c, Out);
        }
      }
    case Crash(c) => PutKeepsInv(s, c, Out);
    case Land(w) =>
      if w in s.delayed {
        LandKeepsInv(s, w);
      }
  }

  lemma {:induction false} RunKeepsInv(notAfter: int, actions: seq<Action>)
    ensures Inv(Run(notAfter, actions))
  {
    if actions != [] {
      RunKeepsInv(notAfter, actions[..|actions| - 1]);
      StepKeepsInv(Run(notAfter, actions[..|actions| - 1]), actions[|actions| - 1]);
    }
  }

  // ------------------------------------------------------------- theorems

  lemma OneStart(s: State, i: nat, j: nat)
    requires Inv(s) && i < |s.starts| && j < |s.starts|
    requires s.starts[i].request.step == s.starts[j].request.step
    ensures i == j
  {
    var a, b := s.starts[i].fact, s.starts[j].fact;
    assert s.log[|a| - 1] == a[|a| - 1] && s.log[|b| - 1] == b[|b| - 1];
    OneInvocationPerStep(s.log, |a| - 1, |b| - 1);
    assert i < j ==> |a| != |b|;
    assert j < i ==> |b| != |a|;
  }

  /** Over every interleaving, with crashes, lost answers and late writes, each step is started at most once. */
  lemma StartedAtMostOnce(notAfter: int, actions: seq<Action>)
    ensures var starts := Run(notAfter, actions).starts;
            forall i, j :: 0 <= i < |starts| && 0 <= j < |starts| && starts[i].request.step == starts[j].request.step
              ==> i == j
  {
    RunKeepsInv(notAfter, actions);
    hide Run, Step, Inv;
    var s := Run(notAfter, actions);
    forall i, j | 0 <= i < |s.starts| && 0 <= j < |s.starts| && s.starts[i].request.step == s.starts[j].request.step
      ensures i == j
    {
      OneStart(s, i, j);
    }
  }

  /**
   The log up to n is the fact a start was authorized on: the request is the next event, names exactly
   that fact, and the fact holds a result of every earlier step, the last one being the predecessor.
   */
  ghost predicate WrittenAhead(log: seq<Event>, n: nat, r: Request) {
    && n < |log| && log[n].Invocation? && log[n].request == r && log[n].step == r.step < STEP_COUNT
    && r.coordination == log[..n] && r.sequence == n + 1
    && ResultsBefore(log[..n], r.step) && r.predecessor == LastResult(log[..n])
  }

  lemma StartWrittenAhead(s: State, i: nat)
    requires Inv(s) && i < |s.starts|
    ensures s.starts[i].fact != [] && WrittenAhead(s.log, |s.starts[i].fact| - 1, s.starts[i].request)
  {
    var start, log := s.starts[i], s.log;
    var n := |start.fact| - 1;
    assert log[n] == start.fact[n] && log[..n] == start.fact[..n];
    PrefixesScan(log, n + 1, |log|);
    PrefixesScan(log, n, n + 1);
    EarlierResults(log, n);
  }

  /** No step owner is ever started without its request in the store, after results of all earlier steps. */
  lemma StartsAreWrittenAhead(notAfter: int, actions: seq<Action>)
    ensures var s := Run(notAfter, actions);
            forall i :: 0 <= i < |s.starts| ==>
              s.starts[i].fact != [] && WrittenAhead(s.log, |s.starts[i].fact| - 1, s.starts[i].request)
  {
    RunKeepsInv(notAfter, actions);
    hide Run, Step, Inv;
    var s := Run(notAfter, actions);
    forall i | 0 <= i < |s.starts|
      ensures s.starts[i].fact != [] && WrittenAhead(s.log, |s.starts[i].fact| - 1, s.starts[i].request)
    {
      StartWrittenAhead(s, i);
    }
  }

  /** Every coordinator that returns a result returns the one result of the one complete log. */
  lemma ReturnedResultsAgree(notAfter: int, actions: seq<Action>)
    ensures var s := Run(notAfter, actions);
            forall r :: r in s.returned ==> Complete(s.log) && BuildResult(s.log, s.notAfter) == Some(r)
  {
    RunKeepsInv(notAfter, actions);
  }

  lemma AppendExtendsLog(s: State, c: nat, fact: seq<Event>, e: Event, d: Delivery, own: Local, after: After)
    ensures s.log <= Append(s, c, fact, e, d, own, after).log
  {
  }

  lemma StepExtendsLog(s: State, a: Action)
    requires Inv(s)
    ensures s.log <= Step(s, a).log
  {
    hide Append, Valid, Complete, End, BuildResult, StrictSuccessor;
    forall c, fact, e, d, own, after ensures s.log <= Append(s, c, fact, e, d, own, after).log {
      AppendExtendsLog(s, c, fact, e, d, own, after);
    }
    if a.Land? && a.w in s.delayed {
      CommitGrows(s, a.w);
    }
  }

  /** What one coordinator ever read stays a prefix of the log, whoever acts afterwards. */
  lemma {:induction false} LogIsAppendOnly(notAfter: int, actions: seq<Action>, n: nat)
    requires n <= |actions|
    ensures Run(notAfter, actions[..n]).log <= Run(notAfter, actions).log
  {
    if n == |actions| {
      assert actions[..n] == actions;
    } else {
      var front := actions[..|actions| - 1];
      LogIsAppendOnly(notAfter, front, n);
      assert front[..n] == actions[..n];
      RunKeepsInv(notAfter, front);
      StepExtendsLog(Run(notAfter, front), actions[|actions| - 1]);
    }
  }
}
