/**
 Single-call tool action, version 2 (application/single_call_tool_action_coordinator_v2.go and
 application/contract/single_call_tool_action_v2.go).

 prepared -> dispatch_intent -> waiting_inspect -> completed, each edge one compare-and-swap.
 The start claim is derived from the request, so rival coordinators offer equal successors:
 what keeps the tool from running twice is that a swap whose predecessor is gone is refused
 even when the stored fact equals the one offered, and that recovery never grants authority.
 */
module SingleCall {
  import opened Wrappers

  datatype Phase = Prepared | DispatchIntent | WaitingInspect | Completed

  /** A digest covers the whole fact, so equal digests are equal facts. */
  datatype Fact = Fact(revision: nat, phase: Phase, claimed: bool, result: Option<nat>, at: int)

  predicate Shape(f: Fact) {
    && f.revision > 0
    && (f.claimed <==> f.phase.WaitingInspect? || f.phase.Completed?)
    && (f.result.Some? <==> f.phase.Completed?)
  }

  predicate Edge(from: Phase, to: Phase) {
    match from
    case Prepared => to.DispatchIntent?
    case DispatchIntent => to.WaitingInspect?
    case WaitingInspect => to.Completed?
    case Completed => false
  }

  predicate Transition(current: Fact, next: Fact) {
    && Shape(current) && Shape(next) && next.revision == current.revision + 1 && current.at <= next.at
    && Edge(current.phase, next.phase) && (current.claimed ==> next.claimed)
  }

  function Initial(at: int): Fact { Fact(1, Prepared, false, None, at) }

  function Dispatch(f: Fact, now: int): Option<Fact> {
    if !Shape(f) || now < f.at || f.phase != Prepared then None
    else Some(f.(revision := f.revision + 1, phase := DispatchIntent, at := now))
  }

  function ClaimStart(f: Fact, now: int): Option<Fact> {
    if !Shape(f) || now < f.at || f.phase != DispatchIntent then None
    else Some(f.(revision := f.revision + 1, phase := WaitingInspect, claimed := true, at := now))
  }

  function Complete(f: Fact, result: nat, now: int): Option<Fact> {
    if !Shape(f) || now < f.at || f.phase != WaitingInspect then None
    else Some(f.(revision := f.revision + 1, phase := Completed, result := Some(result), at := now))
  }

  // ------------------------------------------------------------- the store

  datatype Write = Create(initial: Fact) | Swap(expected: Fact, next: Fact)

  predicate Applies(current: Option<Fact>, w: Write) {
    match w
    case Create(initial) => current.None? && Shape(initial) && initial.phase.Prepared?
    case Swap(expected, next) => current == Some(expected) && Transition(expected, next)
  }

  function After(current: Option<Fact>, w: Write): Option<Fact> {
    if Applies(current, w) then Some(if w.Create? then w.initial else w.next) else current
  }

  // -------------------------------------------------------- the coordinator

  datatype Delivery = Prompt | AnswerLost | Delayed

  datatype Goal = ToDispatch | ToClaim | ToComplete(result: nat)

  datatype Local =
    | Out
    | Creating(initial: Fact)
    | CreateFailed
    | Have(fact: Fact)
    | Swapping(fact: Fact, next: Fact, goal: Goal)
    | SwapFailed(fact: Fact, next: Fact, goal: Goal)
    | Dispatched(fact: Fact)
    | Authorized(fact: Fact)
    | Observing(fact: Fact)
    | Finalizing(result: nat)

  /** executions and returned record the tool runs and the results returned over the whole run. */
  datatype State = State(current: Option<Fact>, delayed: set<Write>, locals: map<nat, Local>,
                         executions: nat, returned: seq<nat>)

  datatype Action =
    | Begin(c: nat, at: int)
    | Send(c: nat, delivery: Delivery)
    | Reread(c: nat, reached: bool)
    | Advance(c: nat, current: bool, now: int)
    | Execute(c: nat, answer: Option<nat>)
    | Inspect(c: nat, answer: Option<nat>)
    | Finalize(c: nat, valid: bool, now: int)
    | Crash(c: nat)
    | Land(w: Write)

  ghost function At(s: State, c: nat): Local { if c in s.locals then s.locals[c] else Out }

  ghost function Put(s: State, c: nat, l: Local): State { s.(locals := s.locals[c := l]) }

  ghost function Return(s: State, c: nat, result: nat): State { Put(s.(returned := s.returned + [result]), c, Out) }

  function Pending(l: Local): Option<Write> {
    match l
    case Creating(initial) => Some(Create(initial))
    case Swapping(fact, next, _) => Some(Swap(fact, next))
    case _ => None
  }

  /** The own write was applied and the answer arrived. */
  ghost function OnApplied(s: State, c: nat, l: Local): State {
    match l
    case Creating(initial) => Put(s, c, Have(initial))
    case Swapping(_, next, ToDispatch) => Put(s, c, Dispatched(next))
    case Swapping(_, next, ToClaim) => Put(s, c, Authorized(next))
    case Swapping(_, next, ToComplete(result)) => Return(s, c, result)
    case _ => s
  }

  function OnFailure(l: Local): Local {
    match l
    case Creating(_) => CreateFailed
    case Swapping(fact, next, goal) => SwapFailed(fact, next, goal)
    case _ => l
  }

  ghost function SendStep(s: State, c: nat, d: Delivery): State {
    var l := At(s, c);
    match Pending(l)
    case None => s
    case Some(w) =>
      var s' := s.(current := After(s.current, w));
      match d
      case Prompt => if Applies(s.current, w) then OnApplied(s', c, l) else Put(s, c, OnFailure(l))
      case AnswerLost => Put(s', c, OnFailure(l))
      case Delayed => Put(s.(delayed := s.delayed + {w}), c, OnFailure(l))
  }

  predicate Started(f: Fact) { f.phase.WaitingInspect? || f.phase.Completed? }

  /** The recovery reads: none of them leads to authority. */
  ghost function RereadStep(s: State, c: nat, reached: bool): State {
    var l := At(s, c);
    if !l.CreateFailed? && !l.SwapFailed? then s
    else if !reached || s.current.None? then Put(s, c, Out)
    else
      var f := s.current.value;
      match l
      case CreateFailed => Put(s, c, Have(f))
      case SwapFailed(_, next, ToDispatch) => Put(s, c, if f == next || Started(f) then Observing(f) else Out)
      case SwapFailed(_, _, ToClaim) => Put(s, c, if Started(f) then Observing(f) else Out)
      case SwapFailed(_, next, ToComplete(result)) => if f == next then Return(s, c, result) else Put(s, c, Out)
      case _ => s
  }

  function SwappingOr(fact: Fact, next: Option<Fact>, goal: Goal): Local {
    if next.Some? then Swapping(fact, next.value, goal) else Out
  }

  /** One step towards the tool; current says whether the inputs and the request are still current. */
  ghost function AdvanceStep(s: State, c: nat, current: bool, now: int): State {
    match At(s, c)
    case Have(f) =>
      if f.phase.Prepared? then Put(s, c, if current then SwappingOr(f, Dispatch(f, now), ToDispatch) else Out)
      else Put(s, c, Observing(f))
    case Dispatched(f) => Put(s, c, if current then SwappingOr(f, ClaimStart(f, now), ToClaim) else Out)
    case _ => s
  }

  /** The settled result is in hand: re-read the fact, then complete it or compare with what completed it. */
  ghost function FinalizeStep(s: State, c: nat, valid: bool, now: int): State {
    match At(s, c)
    case Finalizing(result) =>
      if !valid || s.current.None? then Put(s, c, Out)
      else if s.current.value.phase.Completed? then
        if s.current.value.result == Some(result) then Return(s, c, result) else Put(s, c, Out)
      else Put(s, c, SwappingOr(s.current.value, Complete(s.current.value, result, now), ToComplete(result)))
    case _ => s
  }

  ghost function Step(s: State, a: Action): State {
    match a
    case Begin(c, at) => if At(s, c).Out? then Put(s, c, Creating(Initial(at))) else s
    case Send(c, d) => SendStep(s, c, d)
    case Reread(c, reached) => RereadStep(s, c, reached)
    case Advance(c, current, now) => AdvanceStep(s, c, current, now)
    case Execute(c, answer) =>
      if At(s, c).Authorized?
      then Put(s.(executions := s.executions + 1), c, if answer.Some? then Finalizing(answer.value) else Out) else s
    case Inspect(c, answer) =>
      if At(s, c).Observing? then Put(s, c, if answer.Some? then Finalizing(answer.value) else Out) else s
    case Finalize(c, valid, now) => FinalizeStep(s, c, valid, now)
    case Crash(c) => Put(s, c, Out)
    case Land(w) => if w in s.delayed then s.(current := After(s.current, w), delayed := s.delayed - {w}) else s
  }

  ghost function Run(actions: seq<Action>): State {
    if actions == [] then State(None, {}, map[], 0, [])
    else Step(Run(actions[..|actions| - 1]), actions[|actions| - 1])
  }

  // ---------------------------------------------------------- the invariant

  ghost predicate LocalOk(l: Local) {
    l.Swapping? || l.SwapFailed? ==>
      && Transition(l.fact, l.next)
      && (l.goal.ToDispatch? ==> l.next.phase.DispatchIntent?)
      && (l.goal.ToClaim? ==> l.next.phase.WaitingInspect?)
      && (l.goal.ToComplete? ==> l.next.result == Some(l.goal.result))
  }

  /** Authority is used or held once, and only after the claim left dispatch_intent for good. */
  ghost predicate OneAuthority(s: State) {
    && s.executions <= 1
    && (s.executions == 1 ==> s.current.Some? && Started(s.current.value))
    && (forall c :: c in s.locals && s.locals[c].Authorized? ==>
          s.executions == 0 && s.current.Some? && Started(s.current.value))
    && (forall c, d :: c in s.locals && d in s.locals && s.locals[c].Authorized? && s.locals[d].Authorized? ==> c == d)
  }

  ghost predicate Inv(s: State) {
    && (s.current.Some? ==> Shape(s.current.value))
    && (forall c :: c in s.locals ==> LocalOk(s.locals[c]))
    && (forall r :: r in s.returned ==> s.current.Some? && s.current.value.result == Some(r))
    && OneAuthority(s)
  }

  lemma StoreKeepsInv(s: State, w: Write)
    requires Inv(s)
    ensures Inv(s.(current := After(s.current, w)))
  {
  }

  lemma PutKeepsInv(s: State, c: nat, l: Local)
    requires Inv(s) && LocalOk(l) && !l.Authorized?
    ensures Inv(Put(s, c, l))
  {
  }

  /** The only step that creates authority leaves a phase in which there was none. */
  lemma ClaimKeepsInv(s: State, c: nat, next: Fact)
    requires Inv(s) && s.current.Some? && Transition(s.current.value, next) && next.phase.WaitingInspect?
    ensures Inv(Put(s.(current := Some(next)), c, Authorized(next)))
  {
    assert !Started(s.current.value);
    assert forall r :: r !in s.returned;
  }

  lemma SendKeepsInv(s: State, c: nat, d: Delivery)
    requires Inv(s)
    ensures Inv(SendStep(s, c, d))
  {
    var l := At(s, c);
    if Pending(l).Some? {
      var w := Pending(l).value;
      var s' := s.(current := After(s.current, w));
      StoreKeepsInv(s, w);
      PutKeepsInv(s, c, OnFailure(l));
      PutKeepsInv(s', c, OnFailure(l));
      PutKeepsInv(s.(delayed := s.delayed + {w}), c, OnFailure(l));
      if d.Prompt? && Applies(s.current, w) {
        match l
        case Creating(initial) => PutKeepsInv(s', c, Have(initial));
        case Swapping(_, next, ToDispatch) => PutKeepsInv(s', c, Dispatched(next));
        case Swapping(_, next, ToClaim) => ClaimKeepsInv(s, c, next);
        case Swapping(_, next, ToComplete(result)) =>
      }
    }
  }

  lemma RereadKeepsInv(s: State, c: nat, reached: bool)
    requires Inv(s)
    ensures Inv(RereadStep(s, c, reached))
  {
    PutKeepsInv(s, c, Out);
    if s.current.Some? {
      var f := s.current.value;
      PutKeepsInv(s, c, Have(f));
      PutKeepsInv(s, c, Observing(f));
      var l := At(s, c);
    }
  }

  lemma FinalizeKeepsInv(s: State, c: nat, valid: bool, now: int)
    requires Inv(s)
    ensures Inv(FinalizeStep(s, c, valid, now))
  {
    PutKeepsInv(s, c, Out);
    if At(s, c).Finalizing? && s.current.Some? {
      var result, f := At(s, c).result, s.current.value;
      PutKeepsInv(s, c, SwappingOr(f, Complete(f, result, now), ToComplete(result)));
    }
  }

  lemma ExecuteKeepsInv(s: State, c: nat, answer: Option<nat>)
    requires Inv(s)
    ensures Inv(Step(s, Execute(c, answer)))
  {
  }

  lemma LandKeepsInv(s: State, w: Write)
    requires Inv(s)
    ensures Inv(Step(s, Land(w)))
  {
    StoreKeepsInv(s, w);
  }

  lemma StepKeepsInv(s: State, a: Action)
    requires Inv(s)
    ensures Inv(Step(s, a))
  {
    hide Inv;
    match a
    case Begin(c, at) => PutKeepsInv(s, c, Creating(Initial(at)));
    case Send(c, d) => SendKeepsInv(s, c, d);
    case Reread(c, reached) => RereadKeepsInv(s, c, reached);
    case Advance(c, current, now) =>
      PutKeepsInv(s, c, Out);
      match At(s, c) {
        case Have(f) =>
          PutKeepsInv(s, c, SwappingOr(f, Dispatch(f, now), ToDispatch));
          PutKeepsInv(s, c, Observing(f));
        case Dispatched(f) => PutKeepsInv(s, c, SwappingOr(f, ClaimStart(f, now), ToClaim));
        case _ =>
      }
    case Execute(c, answer) => ExecuteKeepsInv(s, c, answer);
    case Inspect(c, answer) =>
      if At(s, c).Observing? {
        PutKeepsInv(s, c, if answer.Some? then Finalizing(answer.value) else Out);
      }
    case Finalize(c, valid, now) => FinalizeKeepsInv(s, c, valid, now);
    case Crash(c) => PutKeepsInv(s, c, Out);
    case Land(w) => LandKeepsInv(s, w);
  }

  lemma {:induction false} RunKeepsInv(actions: seq<Action>)
    ensures Inv(Run(actions))
  {
    if actions != [] {
      RunKeepsInv(actions[..|actions| - 1]);
      StepKeepsInv(Run(actions[..|actions| - 1]), actions[|actions| - 1]);
    }
  }

  // ------------------------------------------------------------- theorems

  /** Across all coordinators, crashes, lost answers and late writes the tool is executed at most once. */
  lemma ExecutedAtMostOnce(actions: seq<Action>)
    ensures Run(actions).executions <= 1
    ensures Run(actions).executions == 1 ==> Run(actions).current.Some? && Run(actions).current.value.claimed
  {
    RunKeepsInv(actions);
  }

  /** Any two calls that succeed return the same result: the one stored by the completion. */
  lemma SuccessesAgree(actions: seq<Action>)
    ensures var s := Run(actions);
            forall r :: r in s.returned ==> s.current.Some? && s.current.value.result == Some(r)
  {
    RunKeepsInv(actions);
  }

  // ------------------------------------ the strict refusal cannot be given up

  /** A store that, like review waiting's, answers an equal offer without an error. */
  predicate LenientlyAnswers(current: Option<Fact>, w: Write) {
    Applies(current, w) || (w.Swap? && current == Some(w.next))
  }

  /** Both coordinators would be told yes: the claim's successor does not name its owner. */
  lemma LenientStoreGrantsTwice(f: Fact, now: int)
    requires Shape(f) && f.phase == DispatchIntent && f.at <= now
    ensures var w := Swap(f, ClaimStart(f, now).value);
            && LenientlyAnswers(Some(f), w) && LenientlyAnswers(After(Some(f), w), w)
            && Applies(Some(f), w) && !Applies(After(Some(f), w), w)
  {
  }
}
