/**
 The workflow journal (application/journal_coordinator_v2.go, application/governed_journal_completion_v3.go,
 application/outbox_dispatcher_v2.go and application/contract/journal_v2.go).

 Three writers share one journal: step advances, skips of optional steps, and governed completions.
 The store checks each transition, but only the writers know what a settlement stands for; the rule
 that a completed governed step names one exactly settled attempt is proved across all of them.
 */
module WorkflowJournal {
  import opened Wrappers

  // --------------------------------------------------------- plan and journal

  datatype StepPlan = StepPlan(id: nat, governed: bool, required: bool, dependencies: seq<nat>)

  datatype State = Pending | Ready | DispatchIntent | WaitingInspect | Completed | Skipped | Indeterminate | Blocked

  datatype Ref = Ref(id: nat, revision: nat, digest: nat)

  datatype Progress = Progress(id: nat, state: State, attempt: nat, effect: Option<Ref>, settlement: Option<Ref>,
                               lastError: string, updated: int)

  datatype Journal = Journal(revision: nat, steps: seq<Progress>, created: int, updated: int)

  type Plan = seq<StepPlan>

  predicate DistinctIds(plan: Plan) { forall i, j :: 0 <= i < j < |plan| ==> plan[i].id != plan[j].id }

  /** The fields each state may carry. */
  predicate ValidProgress(p: Progress) {
    match p.state
    case Pending => p.attempt == 0 && p.effect.None? && p.settlement.None? && p.lastError == ""
    case Ready => p.attempt == 0 && p.effect.None? && p.settlement.None? && p.lastError == ""
    case DispatchIntent => p.attempt > 0 && p.effect.Some? && p.settlement.None? && p.lastError == ""
    case WaitingInspect => p.attempt > 0 && p.effect.Some? && p.settlement.None?
    case Completed => p.attempt > 0 && p.settlement.Some? && p.lastError == ""
    case Skipped => p.attempt == 0 && p.effect.None? && p.settlement.None? && p.lastError != ""
    case Indeterminate => p.attempt > 0 && p.effect.Some? && p.settlement.None? && p.lastError != ""
    case Blocked => p.attempt == 0 && p.effect.None? && p.settlement.None? && p.lastError != ""
  }

  predicate ValidFor(plan: Plan, j: Journal) {
    && j.revision > 0 && j.created <= j.updated && |j.steps| == |plan|
    && forall i :: 0 <= i < |plan| ==> ValidProgress(j.steps[i]) && j.steps[i].id == plan[i].id
  }

  predicate DependencySatisfied(s: State) { s.Completed? || s.Skipped? }

  /** A dependency named by ID is satisfied; an unknown ID never is. */
  predicate SatisfiedIn(steps: seq<Progress>, id: nat) {
    exists i :: 0 <= i < |steps| && steps[i].id == id && DependencySatisfied(steps[i].state)
  }

  predicate DependenciesSatisfied(steps: seq<Progress>, step: StepPlan) {
    forall d :: d in step.dependencies ==> SatisfiedIn(steps, d)
  }

  predicate Allowed(from: State, to: State) {
    match from
    case Pending => to.Ready? || to.Skipped?
    case Ready => to.DispatchIntent? || to.Completed? || to.Skipped?
    case DispatchIntent => to.WaitingInspect? || to.Completed?
    case WaitingInspect => to.Completed?
    case _ => false
  }

  /** The transition rule of one step. */
  predicate StepTransition(steps: seq<Progress>, step: StepPlan, before: Progress, after: Progress) {
    && before.updated <= after.updated && Allowed(before.state, after.state)
    && (before.state.Ready? && step.governed ==> !after.state.Completed?)
    && (before.state.Ready? && !step.governed ==> !after.state.DispatchIntent?)
    && (after.state.Completed? ==>
          if step.governed then before.effect.Some? && after.effect == before.effect else after.effect.None?)
    && (after.state.Ready? ==> DependenciesSatisfied(steps, step))
  }

  /** The store's rule: one revision, exactly one step. */
  predicate Transition(plan: Plan, a: Journal, b: Journal) {
    && ValidFor(plan, a) && ValidFor(plan, b)
    && b.revision == a.revision + 1 && a.created == b.created && a.updated <= b.updated
    && exists i :: 0 <= i < |plan| && b.steps == a.steps[i := b.steps[i]] && b.steps[i] != a.steps[i]
                   && StepTransition(a.steps, plan[i], a.steps[i], b.steps[i])
  }

  function Initial(plan: Plan, now: int): Journal {
    Journal(1, seq(|plan|, i requires 0 <= i < |plan| =>
      Progress(plan[i].id, if plan[i].dependencies == [] then Ready else Pending, 0, None, None, "", now)), now, now)
  }

  // ------------------------------------------------------------ the writers

  datatype Request = Request(step: nat, target: State, effect: Option<Ref>, settlement: Option<Ref>, reason: string)

  datatype JournalError =
    | NotFound | Forbidden | PlanExpired | ClockRegressed | UnsupportedTarget | Conflict | Precondition | Unavailable

  function IndexOf(steps: seq<Progress>, id: nat): (i: nat)
    ensures i <= |steps| && (i < |steps| ==> steps[i].id == id) && (forall k :: 0 <= k < i ==> steps[k].id != id)
  {
    if steps == [] then 0 else if steps[0].id == id then 0 else 1 + IndexOf(steps[1..], id)
  }

  predicate IsGoverned(plan: Plan, id: nat) { exists k :: 0 <= k < |plan| && plan[k].id == id && plan[k].governed }

  predicate AlreadyMatches(p: Progress, r: Request) {
    p.state == r.target &&
    match r.target
    case Ready => true
    case DispatchIntent => p.effect == r.effect
    case WaitingInspect => r.effect.None? || p.effect == r.effect
    case Completed => p.settlement == r.settlement
    case Skipped => p.lastError == r.reason
    case _ => false
  }

  /** The progress AdvanceStepV2 writes for a target it supports. */
  function Advanced(p: Progress, r: Request, now: int): Option<Progress> {
    var base := p.(state := r.target, effect := r.effect, settlement := r.settlement, lastError := r.reason,
                   updated := now);
    match r.target
    case Ready => Some(base.(attempt := 0, effect := None, settlement := None, lastError := ""))
    case DispatchIntent => Some(base.(attempt := p.attempt + 1))
    case WaitingInspect => Some(base.(effect := p.effect, settlement := None))
    case Completed =>
      Some(base.(attempt := if p.attempt == 0 then 1 else p.attempt,
                 effect := if r.effect.None? then p.effect else r.effect, lastError := ""))
    case Skipped => Some(base.(attempt := 0, effect := None, settlement := None))
    case _ => None
  }

  function WithStep(j: Journal, i: nat, p: Progress, now: int): Journal
    requires i < |j.steps|
  {
    j.(revision := j.revision + 1, steps := j.steps[i := p], updated := now)
  }

  /** Starting work needs a plan that has not expired; recording what was done does not. */
  predicate NeedsCurrentPlan(p: Progress, target: State) {
    target.Ready? || target.DispatchIntent? || (target.Completed? && p.state.Ready?)
  }

  /** What an advance wants to store; Success(None) means the step is there already. */
  function AdvanceNext(plan: Plan, j: Journal, r: Request, now: int, current: bool)
    : Result<Option<Journal>, JournalError>
  {
    var i := IndexOf(j.steps, r.step);
    if i == |j.steps| then Failure(NotFound)
    else if r.target.Completed? && IsGoverned(plan, r.step) then Failure(Forbidden)
    else if NeedsCurrentPlan(j.steps[i], r.target) && !current then Failure(PlanExpired)
    else if AlreadyMatches(j.steps[i], r) then Success(None)
    else if now < j.updated then Failure(ClockRegressed)
    else match Advanced(j.steps[i], r, now)
      case None => Failure(UnsupportedTarget)
      case Some(p) => Success(Some(WithStep(j, i, p, now)))
  }

  const UNAVAILABLE: string := "optional_step_kind_unavailable"

  /** The dispatcher's skip of an optional step whose kind no component offers. */
  function SkipNext(j: Journal, i: nat, now: int): Result<Option<Journal>, JournalError>
    requires i < |j.steps|
  {
    var p := j.steps[i];
    if p.state.Skipped? then Success(None)
    else if !p.state.Pending? && !p.state.Ready? then Failure(Conflict)
    else if now < j.updated then Failure(ClockRegressed)
    else Success(Some(WithStep(j, i, p.(state := Skipped, lastError := UNAVAILABLE, updated := now), now)))
  }

  /** A settled attempt as its owner reports it. */
  datatype Attempt = Attempt(id: nat, step: nat, workflowAttempt: nat, initialDigest: nat, revision: nat, digest: nat)
  {
    function EffectRef(): Ref { Ref(id, 1, initialDigest) }
    function SettlementRef(): Ref { Ref(id, revision, digest) }
  }

  function CompleteNext(plan: Plan, j: Journal, a: Attempt, now: int): Result<Option<Journal>, JournalError> {
    var i := IndexOf(j.steps, a.step);
    if i == |j.steps| then Failure(NotFound)
    else
      var p := j.steps[i];
      if p.state.Completed? then
        if p.effect == Some(a.EffectRef()) && p.settlement == Some(a.SettlementRef()) && p.attempt == a.workflowAttempt
        then Success(None) else Failure(Conflict)
      else if !p.state.WaitingInspect? || p.effect != Some(a.EffectRef()) || p.attempt != a.workflowAttempt
        then Failure(Precondition)
      else if now < j.updated then Failure(ClockRegressed)
      else Success(Some(WithStep(j, i, p.(state := Completed, effect := Some(a.EffectRef()),
                                          settlement := Some(a.SettlementRef()), lastError := "",
                                          updated := now), now)))
  }

  /** current: the plan had not expired when the advance looked. */
  datatype Op = Advance(r: Request, current: bool) | Skip(i: nat) | Complete(a: Attempt)

  function NextOf(plan: Plan, settled: set<Attempt>, j: Journal, op: Op, now: int)
    : Result<Option<Journal>, JournalError>
  {
    match op
    case Advance(r, current) => AdvanceNext(plan, j, r, now, current)
    case Skip(i) => if i < |j.steps| then SkipNext(j, i, now) else Failure(NotFound)
    case Complete(a) => if a in settled then CompleteNext(plan, j, a, now) else Failure(Precondition)
  }

  // ------------------------------------------------------------- every run

  /** One write: built from the journal at some earlier revision, applied only if that is still the current one. */
  datatype Write = Write(read: nat, op: Op, now: int)

  ghost function Apply(plan: Plan, settled: set<Attempt>, h: seq<Journal>, w: Write): seq<Journal>
    requires h != []
  {
    if w.read >= |h| then h
    else
      var next := NextOf(plan, settled, h[w.read], w.op, w.now);
      if next.Success? && next.value.Some? && w.read == |h| - 1 && Transition(plan, h[w.read], next.value.value)
      then h + [next.value.value] else h
  }

  ghost function Run(plan: Plan, settled: set<Attempt>, created: int, writes: seq<Write>): (h: seq<Journal>)
    ensures h != []
  {
    if writes == [] then [Initial(plan, created)]
    else Apply(plan, settled, Run(plan, settled, created, writes[..|writes| - 1]), writes[|writes| - 1])
  }

  /**
   A governed step completed by exactly one settled attempt: its revision one as effect, its settled revision as
   settlement.
   */
  predicate ExactlySettled(settled: set<Attempt>, p: Progress) {
    exists a :: a in settled && a.step == p.id && p.effect == Some(a.EffectRef())
      && p.settlement == Some(a.SettlementRef()) && p.attempt == a.workflowAttempt
  }

  predicate StepOk(plan: Plan, settled: set<Attempt>, j: Journal, i: nat)
    requires i < |plan| && |j.steps| == |plan|
  {
    var p := j.steps[i];
    && (plan[i].governed && p.state.Completed? ==> ExactlySettled(settled, p))
    && (!plan[i].governed ==> !p.state.DispatchIntent? && !p.state.WaitingInspect?)
    && (!p.state.Pending? && !p.state.Skipped? ==> DependenciesSatisfied(j.steps, plan[i]))
  }

  ghost predicate Inv(plan: Plan, settled: set<Attempt>, j: Journal) {
    ValidFor(plan, j) && forall i :: 0 <= i < |plan| ==> StepOk(plan, settled, j, i)
  }

  /** A satisfied dependency stays satisfied: completed and skipped steps never move again. */
  lemma SatisfiedStays(plan: Plan, a: Journal, b: Journal, id: nat)
    requires Transition(plan, a, b) && SatisfiedIn(a.steps, id)
    ensures SatisfiedIn(b.steps, id)
  {
    var k :| 0 <= k < |a.steps| && a.steps[k].id == id && DependencySatisfied(a.steps[k].state);
    assert b.steps[k] == a.steps[k];
  }

  lemma WriteKeepsInv(plan: Plan, settled: set<Attempt>, j: Journal, op: Op, now: int)
    requires Inv(plan, settled, j) && NextOf(plan, settled, j, op, now).Success?
    requires NextOf(plan, settled, j, op, now).value.Some?
        && Transition(plan, j, NextOf(plan, settled, j, op, now).value.value)
    ensures Inv(plan, settled, NextOf(plan, settled, j, op, now).value.value)
  {
    var next := NextOf(plan, settled, j, op, now).value.value;
    forall i | 0 <= i < |plan| ensures StepOk(plan, settled, next, i) {
      assert StepOk(plan, settled, j, i);
      StepKeeps(plan, j, next, i);
    }
  }

  lemma StepKeeps(plan: Plan, j: Journal, next: Journal, i: nat)
    requires Transition(plan, j, next) && i < |plan|
    ensures !plan[i].governed && !j.steps[i].state.DispatchIntent? && !j.steps[i].state.WaitingInspect? ==>
      !next.steps[i].state.DispatchIntent? && !next.steps[i].state.WaitingInspect?
    ensures (!j.steps[i].state.Pending? && !j.steps[i].state.Skipped? ==> DependenciesSatisfied(j.steps, plan[i])) ==>
      (!next.steps[i].state.Pending? && !next.steps[i].state.Skipped? ==> DependenciesSatisfied(next.steps, plan[i]))
  {
    forall d | d in plan[i].dependencies && SatisfiedIn(j.steps, d) ensures SatisfiedIn(next.steps, d) {
      SatisfiedStays(plan, j, next, d);
    }
  }

  lemma InitialInv(plan: Plan, settled: set<Attempt>, now: int)
    ensures Inv(plan, settled, Initial(plan, now))
  {
  }

  lemma {:induction false} RunInv(plan: Plan, settled: set<Attempt>, created: int, writes: seq<Write>)
    ensures forall k :: 0 <= k < |Run(plan, settled, created, writes)| ==>
        Inv(plan, settled, Run(plan, settled, created, writes)[k])
  {
    InitialInv(plan, settled, created);
    if writes != [] {
      RunInv(plan, settled, created, writes[..|writes| - 1]);
      var h, w := Run(plan, settled, created, writes[..|writes| - 1]), writes[|writes| - 1];
      if |Apply(plan, settled, h, w)| > |h| {
        WriteKeepsInv(plan, settled, h[w.read], w.op, w.now);
      }
    }
  }

  /**
   In every journal any sequence of advances, skips and governed completions can produce, each completed
   governed step carries the revision-one reference and the settled reference of one settled attempt.
   */
  lemma CompletedGovernedIsSettled(plan: Plan, settled: set<Attempt>, created: int, writes: seq<Write>, k: nat, i: nat)
    requires k < |Run(plan, settled, created, writes)| && i < |plan| && plan[i].governed
    ensures var j := Run(plan, settled, created, writes)[k];
            |j.steps| == |plan| && (j.steps[i].state.Completed? ==> ExactlySettled(settled, j.steps[i]))
  {
    RunInv(plan, settled, created, writes);
    hide Run;
    var j := Run(plan, settled, created, writes)[k];
    assert Inv(plan, settled, j);
    assert StepOk(plan, settled, j, i);
  }

  /** No step starts before its dependencies are resolved, and coordination steps never reach a provider. */
  lemma StepsStartInOrder(plan: Plan, settled: set<Attempt>, created: int, writes: seq<Write>, k: nat, i: nat)
    requires k < |Run(plan, settled, created, writes)| && i < |plan|
    ensures var j := Run(plan, settled, created, writes)[k];
            && |j.steps| == |plan|
            && (!j.steps[i].state.Pending? && !j.steps[i].state.Skipped? ==> DependenciesSatisfied(j.steps, plan[i]))
            && (!plan[i].governed ==> !j.steps[i].state.DispatchIntent? && !j.steps[i].state.WaitingInspect?)
  {
    RunInv(plan, settled, created, writes);
    hide Run;
    var j := Run(plan, settled, created, writes)[k];
    assert Inv(plan, settled, j);
    assert StepOk(plan, settled, j, i);
  }
}
