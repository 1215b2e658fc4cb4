/**
 Review waiting, version 1 (application/review_waiting_coordinator_v1.go and
 application/contract/review_waiting_v1.go).

 One coordination fact lives in a compare-and-swap store.  Coordinators create it, race to
 claim the right to start the review, and record what the review says.  A create or swap can
 lose its answer, or land after its sender gave up or retried; any coordinator can crash.
 A digest is modelled by the content it covers, so a fact holds its predecessor.
 */
module ReviewWaiting {
  import opened Wrappers

  // ---------------------------------------------------------------- facts

  datatype Phase = WaitingReview | WaitingInspect | Completed | Superseded

  datatype Case = Case(revision: nat, digest: nat)

  /** What the review owner answers; a deferred review is not a terminal decision. */
  datatype Projection = Projection(case_: Case, deferred: bool, decision: nat)

  datatype Receipt = Receipt(coordination: Fact, case_: Case, decision: nat)

  datatype Fact = Fact(revision: nat, previous: Option<Fact>, phase: Phase, claim: Option<nat>,
                       case_: Option<Case>, receipt: Option<Receipt>, reason: Option<nat>, at: int)

  predicate Shape(f: Fact) {
    && f.revision > 0 && (f.revision == 1 <==> f.previous.None?)
    && match f.phase
       case WaitingReview => f.claim.None? && f.case_.None? && f.receipt.None? && f.reason.None?
       case WaitingInspect => f.claim.Some? && f.receipt.None? && f.reason.None?
       case Completed => f.claim.Some? && f.case_.Some? && f.receipt.Some? && f.reason.None?
                         && f.receipt.value.case_ == f.case_.value
       case Superseded => f.receipt.None? && f.reason.Some?
  }

  predicate Allowed(from: Phase, to: Phase) {
    match from
    case WaitingReview => to.WaitingInspect? || to.Superseded?
    case WaitingInspect => !to.WaitingReview?
    case Completed => to.Superseded?
    case Superseded => false
  }

  predicate CaseKept(current: Option<Case>, next: Option<Case>) {
    current.Some? && next.Some? ==>
      && current.value.revision <= next.value.revision
      && (current.value.revision == next.value.revision ==> current == next)
  }

  predicate Transition(current: Fact, next: Fact) {
    && Shape(current) && Shape(next)
    && next.revision == current.revision + 1 && next.previous == Some(current) && current.at <= next.at
    && (current.claim.Some? ==> next.claim == current.claim)
    && Allowed(current.phase, next.phase) && CaseKept(current.case_, next.case_)
  }

  function Initial(at: int): Fact { Fact(1, None, WaitingReview, None, None, None, None, at) }

  function Successor(f: Fact, phase: Phase, at: int): Fact {
    f.(revision := f.revision + 1, previous := Some(f), phase := phase, at := at)
  }

  /** The four constructors of the contract; None is their refusal. */
  function Checked(current: Fact, next: Fact): (r: Option<Fact>)
    ensures r.Some? ==> r.value == next && Transition(current, next)
  {
    if Transition(current, next) then Some(next) else None
  }

  function ClaimStart(f: Fact, claim: nat, at: int): Option<Fact> {
    if f.phase != WaitingReview then None else Checked(f, Successor(f, WaitingInspect, at).(claim := Some(claim)))
  }

  function RecordCase(f: Fact, p: Projection, at: int): Option<Fact> {
    if f.phase != WaitingInspect || !p.deferred then None
    else Checked(f, Successor(f, WaitingInspect, at).(case_ := Some(p.case_)))
  }

  function Complete(f: Fact, p: Projection, at: int): Option<Fact> {
    if f.phase != WaitingInspect || p.deferred then None
    else
      var receipt := Receipt(f, p.case_, p.decision);
      Checked(f, Successor(f, Completed, at).(case_ := Some(p.case_), receipt := Some(receipt)))
  }

  function Supersede(f: Fact, reason: nat, at: int): Option<Fact> {
    Checked(f, Successor(f, Superseded, at).(receipt := None, reason := Some(reason)))
  }

  // ------------------------------------------------------------- the store

  datatype Write = Create(initial: Fact) | Swap(expected: Fact, next: Fact)

  /** Applied is false when the stored fact already is the one offered. */
  datatype Answer = Stored(fact: Fact, applied: bool) | Refused

  function Answered(current: Option<Fact>, w: Write): Answer {
    match w
    case Create(initial) =>
      if current.None? then (if Shape(initial) && initial.phase.WaitingReview? && initial.revision == 1
                             then Stored(initial, true) else Refused)
      else if current.value == initial then Stored(initial, false) else Refused
    case Swap(expected, next) =>
      if current.None? then Refused
      else if current.value == next then Stored(next, false)
      else if current.value == expected && Transition(expected, next) then Stored(next, true)
      else Refused
  }

  function After(current: Option<Fact>, w: Write): Option<Fact> {
    var a := Answered(current, w);
    if a.Stored? then Some(a.fact) else current
  }

  // -------------------------------------------------------- the coordinator

  datatype Delivery = Prompt | AnswerLost(indeterminate: bool) | Delayed(indeterminate: bool)

  datatype Purpose = Defer(projection: Projection) | Finish(projection: Projection) | Abandon

  /** Where a coordinator stands between two calls to the store or the review owner. */
  datatype Local =
    | Out
    | Creating(initial: Fact, retried: bool)
    | CreateFailed(initial: Fact, retried: bool, indeterminate: bool)
    | Deciding(fact: Fact)
    | Claiming(fact: Fact, next: Fact, retried: bool)
    | ClaimFailed(fact: Fact, next: Fact, retried: bool, indeterminate: bool)
    | Ready(fact: Fact, owner: bool)
    | Reviewed(fact: Fact, projection: Projection)
    | Saving(fact: Fact, next: Fact, purpose: Purpose)
    | SaveFailed(fact: Fact, next: Fact, purpose: Purpose)

  /** A deferred outcome names the fact it was built on; a terminal one carries the stored receipt. */
  datatype Outcome = Deferred(fact: Fact, projection: Projection) | Terminal(receipt: Receipt)

  /** starts and outcomes record what happened over the whole run. */
  datatype State = State(current: Option<Fact>, delayed: set<Write>, locals: map<nat, Local>,
                         starts: seq<Option<nat>>, outcomes: seq<Outcome>)

  datatype Action =
    | Begin(c: nat, at: int)
    | Send(c: nat, delivery: Delivery)
    | Reread(c: nat, reached: bool)
    | Decide(c: nat, drifted: bool, claim: nat, reason: nat, at: int)
    | Review(c: nat, drifted: bool, reason: nat, at: int, answer: Option<Projection>)
    | Persist(c: nat, drifted: bool, reason: nat, at: int)
    | Crash(c: nat)
    | Land(w: Write)

  ghost function At(s: State, c: nat): Local { if c in s.locals then s.locals[c] else Out }

  ghost function Put(s: State, c: nat, l: Local): State { s.(locals := s.locals[c := l]) }

  function SavingOr(fact: Fact, next: Option<Fact>, purpose: Purpose): Local {
    if next.Some? then Saving(fact, next.value, purpose) else Out
  }

  /** The write a coordinator is about to send. */
  function Pending(l: Local): Option<Write> {
    match l
    case Creating(initial, _) => Some(Create(initial))
    case Claiming(fact, next, _) => Some(Swap(fact, next))
    case Saving(fact, next, _) => Some(Swap(fact, next))
    case _ => None
  }

  /** claimStartV1 after the claim is settled: completed or superseded facts are never started. */
  function Claimed(fact: Fact, owner: bool): Local {
    if fact.phase.Completed? then Ready(fact, false)
    else if fact.phase.WaitingInspect? then Ready(fact, owner) else Out
  }

  ghost function Finished(s: State, c: nat, stored: Fact, purpose: Purpose): State {
    match purpose
    case Abandon => Put(s, c, Out)
    case Defer(p) => Put(s.(outcomes := s.outcomes + [Deferred(stored, p)]), c, Out)
    case Finish(p) =>
      if stored.phase.Completed? && stored.receipt.Some?
         && stored.receipt.value.case_ == p.case_ && stored.receipt.value.decision == p.decision
      then Put(s.(outcomes := s.outcomes + [Terminal(stored.receipt.value)]), c, Out)
      else Put(s, c, Out)
  }

  /** An answer that arrived. */
  ghost function OnAnswer(s: State, c: nat, l: Local, a: Answer): State {
    match l
    case Creating(initial, retried) =>
      if a.Stored? then Put(s, c, Deciding(a.fact)) else Put(s, c, CreateFailed(initial, retried, false))
    case Claiming(fact, next, retried) =>
      if a.Refused? then Put(s, c, ClaimFailed(fact, next, retried, false))
      else if a.fact != next || a.fact.claim != next.claim then Put(s, c, Out)
      else Put(s, c, Claimed(a.fact, a.applied))
    case Saving(fact, next, purpose) =>
      if a.Refused? then Put(s, c, SaveFailed(fact, next, purpose))
      else if a.fact != next then Put(s, c, Out)
      else Finished(s, c, a.fact, purpose)
    case _ => s
  }

  /** No answer arrived. */
  function OnSilence(l: Local, indeterminate: bool): Local {
    match l
    case Creating(initial, retried) => CreateFailed(initial, retried, indeterminate)
    case Claiming(fact, next, retried) => ClaimFailed(fact, next, retried, indeterminate)
    case Saving(fact, next, purpose) => SaveFailed(fact, next, purpose)
    case _ => l
  }

  ghost function SendStep(s: State, c: nat, d: Delivery): State {
    var l := At(s, c);
    match Pending(l)
    case None => s
    case Some(w) =>
      match d
      case Prompt => OnAnswer(s.(current := After(s.current, w)), c, l, Answered(s.current, w))
      case AnswerLost(i) => Put(s.(current := After(s.current, w)), c, OnSilence(l, i))
      case Delayed(i) => Put(s.(delayed := s.delayed + {w}), c, OnSilence(l, i))
  }

  /** The recovery read after a failed create, claim or save. */
  ghost function RereadStep(s: State, c: nat, reached: bool): State {
    match At(s, c)
    case CreateFailed(initial, retried, indeterminate) =>
      if reached && s.current.Some? then Put(s, c, Deciding(s.current.value))
      else if reached && s.current.None? && indeterminate && !retried then Put(s, c, Creating(initial, true))
      else Put(s, c, Out)
    case ClaimFailed(fact, next, retried, indeterminate) =>
      if !reached || s.current.None? then Put(s, c, Out)
      else
        var f := s.current.value;
        if !retried then
          if f.phase.WaitingInspect? || f.phase.Completed? || f == next || f.revision > next.revision
          then Put(s, c, Claimed(f, false))
          else if f == fact && indeterminate then Put(s, c, Claiming(fact, next, true))
          else Put(s, c, Out)
        else if f == next || f.revision > next.revision then Put(s, c, Claimed(f, false))
        else Put(s, c, Out)
    case SaveFailed(fact, next, purpose) =>
      if reached && s.current.Some? && (s.current.value == next || s.current.value.revision > next.revision)
      then Finished(s, c, s.current.value, purpose)
      else Put(s, c, Out)
    case _ => s
  }

  function Decision(f: Fact, drifted: bool, claim: nat, reason: nat, at: int): Local {
    if f.phase.Superseded? then Out
    else if drifted then SavingOr(f, Supersede(f, reason, at), Abandon)
    else if f.phase.WaitingReview? then
      var next := ClaimStart(f, claim, at);
      if next.Some? then Claiming(f, next.value, false) else Out
    else Ready(f, false)
  }

  ghost function PersistStep(s: State, c: nat, f: Fact, p: Projection, drifted: bool, reason: nat, at: int): State {
    if drifted then Put(s, c, SavingOr(f, Supersede(f, reason, at), Abandon))
    else if f.phase.Completed? then Finished(s, c, f, Finish(p))
    else if p.deferred then
      if f.case_ == Some(p.case_) then Finished(s, c, f, Defer(p))
      else Put(s, c, SavingOr(f, RecordCase(f, p, at), Defer(p)))
    else Put(s, c, SavingOr(f, Complete(f, p, at), Finish(p)))
  }

  ghost function Step(s: State, a: Action): State {
    match a
    case Begin(c, at) => if At(s, c).Out? then Put(s, c, Creating(Initial(at), false)) else s
    case Send(c, d) => SendStep(s, c, d)
    case Reread(c, reached) => RereadStep(s, c, reached)
    case Decide(c, drifted, claim, reason, at) =>
      if At(s, c).Deciding? then Put(s, c, Decision(At(s, c).fact, drifted, claim, reason, at)) else s
    case Review(c, drifted, reason, at, answer) =>
      if !At(s, c).Ready? then s
      else
        var l := At(s, c);
        if drifted && l.fact.phase.WaitingInspect?
          then Put(s, c, SavingOr(l.fact, Supersede(l.fact, reason, at), Abandon))
        else
        var called := if l.owner then s.(starts := s.starts + [l.fact.claim]) else s;
        Put(called, c, if answer.Some? then Reviewed(l.fact, answer.value) else Out)
    case Persist(c, drifted, reason, at) =>
      if At(s, c).Reviewed? then PersistStep(s, c, At(s, c).fact, At(s, c).projection, drifted, reason, at) else s
    case Crash(c) => Put(s, c, Out)
    case Land(w) => if w in s.delayed then s.(current := After(s.current, w), delayed := s.delayed - {w}) else s
  }

  ghost function Run(actions: seq<Action>): State {
    if actions == [] then State(None, {}, map[], [], [])
    else Step(Run(actions[..|actions| - 1]), actions[|actions| - 1])
  }

  // ---------------------------------------------------------- the invariant

  /** The receipt of the one completed fact a history can hold. */
  function FinalReceipt(f: Option<Fact>): Option<Receipt> {
    if f.None? then None
    else if f.value.phase.Completed? then f.value.receipt
    else if f.value.phase.Superseded? && f.value.previous.Some? then f.value.previous.value.receipt
    else None
  }

  /** A fact whose whole history is legal, back to waiting_review at revision one. */
  ghost predicate Legal(f: Fact) {
    match f.previous
    case None => Shape(f) && f.phase.WaitingReview?
    case Some(before) => Transition(before, f) && Legal(before)
  }

  ghost predicate Owns(l: Local) { l.Ready? && l.owner }

  ghost predicate LocalOk(current: Option<Fact>, l: Local) {
    && (l.Deciding? || l.Ready? || l.Reviewed? ==>
          && current.Some? && Shape(l.fact)
          && (l.fact.phase.Completed? ==> l.fact.receipt == FinalReceipt(current)))
    && (l.Ready? || l.Reviewed? ==> l.fact.phase.Completed? || l.fact.phase.WaitingInspect?)
    && (l.Claiming? || l.ClaimFailed? ==> l.fact.phase.WaitingReview? && l.next.phase.WaitingInspect?
                                          && Transition(l.fact, l.next))
    && (Owns(l) ==> l.fact.claim.Some? && l.fact.claim == current.value.claim)
    && (l.Creating? || l.CreateFailed? ==> Shape(l.initial))
    && (l.Saving? || l.SaveFailed? ==> Transition(l.fact, l.next))
  }

  /** Authority to start the review is held or used once, and only after waiting_review has been left. */
  ghost predicate OneOwner(s: State) {
    && |s.starts| <= 1
    && (s.starts != [] ==> s.current.Some? && s.starts[0].Some? && s.current.value.claim == s.starts[0])
    && (forall c :: c in s.locals && Owns(s.locals[c]) ==> s.starts == [])
    && (forall c, d :: c in s.locals && d in s.locals && Owns(s.locals[c]) && Owns(s.locals[d]) ==> c == d)
  }

  ghost predicate Inv(s: State) {
    && (s.current.Some? ==> Legal(s.current.value))
    && (forall w :: w in s.delayed ==> if w.Create? then Shape(w.initial) else Transition(w.expected, w.next))
    && (forall c :: c in s.locals ==> LocalOk(s.current, s.locals[c]))
    && (forall o :: o in s.outcomes && o.Terminal? ==> FinalReceipt(s.current) == Some(o.receipt))
    && OneOwner(s)
  }

  /** What the store may do to its fact. */
  ghost predicate Advances(before: Option<Fact>, after: Option<Fact>) {
    || after == before
    || (before.None? && after.Some? && after.value.previous.None? && Legal(after.value))
    || (before.Some? && after.Some? && Transition(before.value, after.value))
  }

  lemma AfterAdvances(current: Option<Fact>, w: Write)
    ensures Advances(current, After(current, w))
    ensures var a := Answered(current, w); a.Stored? && a.applied ==> After(current, w) != current
    ensures Answered(current, w).Stored? ==> After(current, w) == Some(Answered(current, w).fact)
  {
    if w.Swap? && current == Some(w.expected) && Transition(w.expected, w.next) {
      assert w.next.revision == w.expected.revision + 1;
    }
  }

  lemma AdvanceKeeps(before: Option<Fact>, after: Option<Fact>)
    requires Advances(before, after) && (before.Some? ==> Legal(before.value))
    ensures after.Some? ==> Legal(after.value)
    ensures FinalReceipt(before).Some? ==> FinalReceipt(after) == FinalReceipt(before)
    ensures before.Some? ==> after.Some? && (before.value.claim.Some? ==> after.value.claim == before.value.claim)
  {
  }

  lemma StoreKeepsInv(s: State, after: Option<Fact>)
    requires Inv(s) && Advances(s.current, after)
    ensures Inv(s.(current := after))
  {
    AdvanceKeeps(s.current, after);
    forall c | c in s.locals ensures LocalOk(after, s.locals[c]) {
      assert LocalOk(s.current, s.locals[c]);
    }
  }

  lemma PutKeepsInv(s: State, c: nat, l: Local)
    requires Inv(s) && LocalOk(s.current, l) && !Owns(l)
    ensures Inv(Put(s, c, l))
  {
  }

  /** Authority appears only while no claim has ever been stored. */
  lemma OwnKeepsInv(s: State, c: nat, next: Fact)
    requires Inv(s) && Inv(s.(current := Some(next))) && next.phase.WaitingInspect? && next.claim.Some?
    requires s.current.Some? && s.current.value.phase.WaitingReview?
    ensures Inv(Put(s.(current := Some(next)), c, Ready(next, true)))
  {
    assert s.current.value.claim.None?;
    assert s.starts == [];
    assert forall d :: d in s.locals ==> !Owns(s.locals[d]);
  }

  lemma FinishedKeepsInv(s: State, c: nat, stored: Fact, purpose: Purpose)
    requires Inv(s) && Shape(stored)
    requires stored.phase.Completed? ==> FinalReceipt(s.current) == stored.receipt
    ensures Inv(Finished(s, c, stored, purpose))
  {
    match purpose
    case Abandon => PutKeepsInv(s, c, Out);
    case Defer(p) => PutKeepsInv(s.(outcomes := s.outcomes + [Deferred(stored, p)]), c, Out);
    case Finish(p) =>
      if stored.phase.Completed? {
        PutKeepsInv(s.(outcomes := s.outcomes + [Terminal(stored.receipt.value)]), c, Out);
      }
      PutKeepsInv(s, c, Out);
  }

  lemma LocalHolds(s: State, c: nat)
    requires Inv(s)
    ensures LocalOk(s.current, At(s, c))
  {
  }

  lemma AnswerKeepsInv(s: State, c: nat, l: Local, w: Write)
    requires Inv(s) && l == At(s, c) && Pending(l) == Some(w)
    ensures Inv(OnAnswer(s.(current := After(s.current, w)), c, l, Answered(s.current, w)))
  {
    hide Inv, Legal, FinalReceipt;
    var a := Answered(s.current, w);
    var s' := s.(current := After(s.current, w));
    AfterAdvances(s.current, w);
    StoreKeepsInv(s, s'.current);
    LocalHolds(s, c);
    LocalHolds(s', c);
    match l
    case Creating(initial, retried) =>
      if a.Refused? {
        PutKeepsInv(s', c, CreateFailed(initial, retried, false));
      } else {
        CurrentIsFinal(s');
        PutKeepsInv(s', c, Deciding(a.fact));
      }
    case Claiming(fact, next, retried) =>
      if a.Refused? {
        PutKeepsInv(s', c, ClaimFailed(fact, next, retried, false));
      } else if a.applied {
        OwnKeepsInv(s, c, next);
      } else {
        PutKeepsInv(s', c, Ready(next, false));
      }
    case Saving(fact, next, purpose) =>
      if a.Refused? {
        PutKeepsInv(s', c, SaveFailed(fact, next, purpose));
      } else {
        CurrentIsFinal(s');
        FinishedKeepsInv(s', c, a.fact, purpose);
      }
    case _ =>
  }

  lemma CurrentIsFinal(s: State)
    requires Inv(s) && s.current.Some?
    ensures Shape(s.current.value)
    ensures s.current.value.phase.Completed? ==> s.current.value.receipt == FinalReceipt(s.current)
  {
  }

  lemma SilenceKeepsInv(s: State, c: nat, indeterminate: bool)
    requires Inv(s)
    ensures Inv(Put(s, c, OnSilence(At(s, c), indeterminate))) || Pending(At(s, c)).None?
  {
    if Pending(At(s, c)).Some? {
      PutKeepsInv(s, c, OnSilence(At(s, c), indeterminate));
    }
  }

  lemma SendKeepsInv(s: State, c: nat, d: Delivery)
    requires Inv(s)
    ensures Inv(SendStep(s, c, d))
  {
    var l := At(s, c);
    LocalHolds(s, c);
    hide Inv, OnAnswer, Legal, FinalReceipt;
    if Pending(l).Some? {
      var w := Pending(l).value;
      match d
      case Prompt =>
        AnswerKeepsInv(s, c, l, w);
      case AnswerLost(i) =>
        AfterAdvances(s.current, w);
        StoreKeepsInv(s, After(s.current, w));
        SilenceKeepsInv(s.(current := After(s.current, w)), c, i);
      case Delayed(i) =>
        DelayKeepsInv(s, w);
        SilenceKeepsInv(s.(delayed := s.delayed + {w}), c, i);
    }
  }

  lemma DelayKeepsInv(s: State, w: Write)
    requires Inv(s) && if w.Create? then Shape(w.initial) else Transition(w.expected, w.next)
    ensures Inv(s.(delayed := s.delayed + {w}))
  {
  }

  lemma RereadKeepsInv(s: State, c: nat, reached: bool)
    requires Inv(s)
    ensures Inv(RereadStep(s, c, reached))
  {
    LocalHolds(s, c);
    if s.current.Some? {
      CurrentIsFinal(s);
    }
    hide Inv, Legal, FinalReceipt;
    PutKeepsInv(s, c, Out);
    match At(s, c)
    case CreateFailed(initial, retried, _) =>
      PutKeepsInv(s, c, Creating(initial, true));
      if s.current.Some? { PutKeepsInv(s, c, Deciding(s.current.value)); }
    case ClaimFailed(fact, next, retried, _) =>
      PutKeepsInv(s, c, Claiming(fact, next, true));
      if s.current.Some? { PutKeepsInv(s, c, Claimed(s.current.value, false)); }
    case SaveFailed(fact, next, purpose) =>
      if s.current.Some? { FinishedKeepsInv(s, c, s.current.value, purpose); }
    case _ =>
  }

  lemma StartKeepsInv(s: State, c: nat, answer: Option<Projection>)
    requires Inv(s) && At(s, c).Ready?
    ensures var l := At(s, c);
            Inv(Put(if l.owner then s.(starts := s.starts + [l.fact.claim]) else s, c,
                    if answer.Some? then Reviewed(l.fact, answer.value) else Out))
  {
    LocalHolds(s, c);
    var l := At(s, c);
    var next := if answer.Some? then Reviewed(l.fact, answer.value) else Out;
    assert LocalOk(s.current, next);
    if l.owner {
      assert l.fact.claim.Some? && l.fact.claim == s.current.value.claim && s.starts == [];
      hide Legal, FinalReceipt, LocalOk;
    } else {
      PutKeepsInv(s, c, next);
    }
  }

  lemma ReviewKeepsInv(s: State, c: nat, drifted: bool, reason: nat, at: int, answer: Option<Projection>)
    requires Inv(s) && At(s, c).Ready?
    ensures Inv(Step(s, Review(c, drifted, reason, at, answer)))
  {
    var l := At(s, c);
    LocalHolds(s, c);
    hide Inv;
    if drifted && l.fact.phase.WaitingInspect? {
      PutKeepsInv(s, c, SavingOr(l.fact, Supersede(l.fact, reason, at), Abandon));
    } else {
      StartKeepsInv(s, c, answer);
    }
  }

  lemma PersistKeepsInv(s: State, c: nat, drifted: bool, reason: nat, at: int)
    requires Inv(s) && At(s, c).Reviewed?
    ensures Inv(PersistStep(s, c, At(s, c).fact, At(s, c).projection, drifted, reason, at))
  {
    var f, p := At(s, c).fact, At(s, c).projection;
    LocalHolds(s, c);
    hide Inv, Legal, FinalReceipt;
    PutKeepsInv(s, c, SavingOr(f, Supersede(f, reason, at), Abandon));
    PutKeepsInv(s, c, SavingOr(f, RecordCase(f, p, at), Defer(p)));
    PutKeepsInv(s, c, SavingOr(f, Complete(f, p, at), Finish(p)));
    FinishedKeepsInv(s, c, f, if f.phase.Completed? then Finish(p) else Defer(p));
  }

  lemma StepKeepsInv(s: State, a: Action)
    requires Inv(s)
    ensures Inv(Step(s, a))
  {
    match a
    case Begin(c, at) => PutKeepsInv(s, c, Creating(Initial(at), false));
    case Send(c, d) => SendKeepsInv(s, c, d);
    case Reread(c, reached) => RereadKeepsInv(s, c, reached);
    case Decide(c, drifted, claim, reason, at) =>
      if At(s, c).Deciding? {
        PutKeepsInv(s, c, Decision(At(s, c).fact, drifted, claim, reason, at));
      }
    case Review(c, drifted, reason, at, answer) =>
      if At(s, c).Ready? {
        ReviewKeepsInv(s, c, drifted, reason, at, answer);
      }
    case Persist(c, drifted, reason, at) =>
      if At(s, c).Reviewed? {
        PersistKeepsInv(s, c, drifted, reason, at);
      }
    case Crash(c) => PutKeepsInv(s, c, Out);
    case Land(w) =>
      AfterAdvances(s.current, w);
      StoreKeepsInv(s, After(s.current, w));
  }

  lemma {:induction false} RunKeepsInv(actions: seq<Action>)
    ensures Inv(Run(actions))
  {
    if actions != [] {
      RunKeepsInv(actions[..|actions| - 1]);
      StepKeepsInv(Run(actions[..|actions| - 1]), actions[|actions| - 1]);
    }
  }

  lemma StepAdvances(s: State, a: Action)
    ensures Advances(s.current, Step(s, a).current)
  {
    if a.Send? && Pending(At(s, a.c)).Some? {
      AfterAdvances(s.current, Pending(At(s, a.c)).value);
    } else if a.Land? {
      AfterAdvances(s.current, a.w);
    }
  }

  // ------------------------------------------------------------- theorems

  /** The stored fact always ends a legal history. */
  lemma StoredHistoryIsLegal(actions: seq<Action>)
    ensures Run(actions).current.Some? ==> Legal(Run(actions).current.value)
  {
    RunKeepsInv(actions);
  }

  /** A stored start claim is never replaced, whatever happens later. */
  lemma {:induction false} ClaimIsForever(actions: seq<Action>, n: nat)
    requires n <= |actions| && Run(actions[..n]).current.Some? && Run(actions[..n]).current.value.claim.Some?
    ensures Run(actions).current.Some? && Run(actions).current.value.claim == Run(actions[..n]).current.value.claim
  {
    if n == |actions| {
      assert actions[..n] == actions;
    } else {
      var front := actions[..|actions| - 1];
      assert front[..n] == actions[..n];
      ClaimIsForever(front, n);
      RunKeepsInv(front);
      StepAdvances(Run(front), actions[|actions| - 1]);
      AdvanceKeeps(Run(front).current, Run(actions).current);
    }
  }

  /**
   However claims race, get lost, land late or are retried, the review is started at most once, under the stored claim.
   */
  lemma ReviewStartedAtMostOnce(actions: seq<Action>)
    ensures var s := Run(actions);
            |s.starts| <= 1
            && (s.starts != [] ==> s.current.Some? && s.starts[0].Some? && s.current.value.claim == s.starts[0])
  {
    RunKeepsInv(actions);
  }

  /** Every terminal outcome any coordinator returns carries the receipt of the one completed fact. */
  lemma TerminalOutcomesAgree(actions: seq<Action>)
    ensures var s := Run(actions);
            forall o :: o in s.outcomes && o.Terminal? ==> FinalReceipt(s.current) == Some(o.receipt)
  {
    RunKeepsInv(actions);
  }
}
