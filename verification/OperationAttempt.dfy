/**
 The governed operation attempt (application/governed_operation_coordinator_v3.go and
 application/contract/operation_attempt_v3.go).

 An attempt climbs through ten stages; each stage adds its own sidecars and nothing ever
 removes one.  A coordinator that loses the answer of a swap accepts what it reads back only
 if it provably extends what it had.  The bounded resume loop is modelled against the whole
 history of the store, so its reads interleave with any number of other coordinators.
 */
module OperationAttempt {
  import opened Wrappers
  import G = DispatchGateway
  import R = Reachability

  // --------------------------------------------------------------- stages

  datatype Stage = Intent | Reserved | Admitted | Issued | Begun | Declared | Prepared | Observed | Unknown | Settled

  predicate Direct(from: Stage, to: Stage) {
    match from
    case Intent => to.Reserved?
    case Reserved => to.Admitted?
    case Admitted => to.Issued?
    case Issued => to.Begun? || to.Unknown?
    case Begun => to.Declared? || to.Unknown?
    case Declared => to.Prepared? || to.Unknown?
    case Prepared => to.Observed? || to.Unknown?
    case Observed => to.Settled?
    case Unknown => to.Settled?
    case Settled => false
  }

  /** The list the search runs over: no edge leads to intent_recorded, so it is left out. */
  const CANDIDATES: seq<Stage> := [Reserved, Admitted, Issued, Begun, Declared, Prepared, Observed, Unknown, Settled]

  function Rank(s: Stage): nat {
    match s
    case Intent => 0 case Reserved => 1 case Admitted => 2 case Issued => 3 case Begun => 4
    case Declared => 5 case Prepared => 6 case Observed => 7 case Unknown => 7 case Settled => 8
  }

  ghost predicate StageReachable(from: Stage, to: Stage) { R.Reachable(Direct, from, to) }

  lemma {:induction false} PathClimbs(p: seq<Stage>)
    requires R.IsPath(Direct, p)
    ensures Rank(p[0]) + (|p| - 1) <= Rank(p[|p| - 1])
  {
    if |p| > 1 {
      assert R.IsPath(Direct, p[..|p| - 1]);
      PathClimbs(p[..|p| - 1]);
      assert Direct(p[|p| - 2], p[|p| - 1]);
    }
  }

  /** A state on the way from one rank to a higher one, through which everything below must pass or branch. */
  function NextTowards(from: Stage, to: Stage): (n: Stage)
    requires Rank(from) < Rank(to)
    ensures Direct(from, n) && (n == to || Rank(n) < Rank(to))
  {
    match from
    case Intent => Reserved
    case Reserved => Admitted
    case Admitted => Issued
    case Issued => Begun
    case Begun => Declared
    case Declared => Prepared
    case Prepared => if to.Unknown? then Unknown else Observed
    case Observed => Settled
    case Unknown => Settled
  }

  lemma {:induction false} RankReaches(from: Stage, to: Stage)
    requires Rank(from) < Rank(to)
    ensures StageReachable(from, to)
    decreases Rank(to) - Rank(from)
  {
    var n := NextTowards(from, to);
    R.ReachableReflexive(Direct, from);
    R.ReachableStep(Direct, from, from, n);
    if n != to {
      RankReaches(n, to);
      R.ReachableTransitive(Direct, from, n, to);
    }
  }

  /** What the search decides, without a search: the same stage, or a strictly higher rank. */
  lemma ReachableIffHigher(from: Stage, to: Stage)
    ensures StageReachable(from, to) <==> from == to || Rank(from) < Rank(to)
  {
    if StageReachable(from, to) {
      var p :| R.IsPath(Direct, p) && p[0] == from && p[|p| - 1] == to;
      PathClimbs(p);
    } else if from == to {
      R.ReachableReflexive(Direct, from);
    } else if Rank(from) < Rank(to) {
      RankReaches(from, to);
    }
  }

  method IsReachable(from: Stage, to: Stage) returns (found: bool)
    ensures found <==> StageReachable(from, to)
    ensures found <==> from == to || Rank(from) < Rank(to)
  {
    found := R.Reaches(Direct, CANDIDATES, from, to);
    ReachableIffHigher(from, to);
  }

  // ---------------------------------------------------------------- facts

  datatype Slot =
    | Reservation | Admission | IssuedAuth | BegunAuth | DelegationFact | DeclaredDelegation
    | PreparedDelegation | PreparedAttempt | Enforcement | Observation | UnknownAuth | Settlement | DomainResult

  /**
   A sidecar's content.  A settlement says whether it announces a domain result; an authorization has the effect
   and permit revisions it was read at, a persisted enforcement the permit revision that recorded it.
   */
  datatype Value = Value(digest: nat, announces: bool, effect: nat, permit: nat)

  datatype Fact = Fact(origin: nat, revision: nat, stage: Stage, sidecars: map<Slot, Value>, at: int)

  function SlotsOf(stage: Stage): set<Slot> {
    match stage
    case Intent => {}
    case Reserved => {Reservation}
    case Admitted => {Admission}
    case Issued => {IssuedAuth}
    case Begun => {BegunAuth}
    case Declared => {DelegationFact, DeclaredDelegation}
    case Prepared => {PreparedDelegation, PreparedAttempt, Enforcement}
    case Observed => {Observation}
    case Unknown => {UnknownAuth}
    case Settled => {Settlement, DomainResult}
  }

  predicate SomeDeclared(f: Fact) { DelegationFact in f.sidecars || DeclaredDelegation in f.sidecars }

  predicate SomePrepared(f: Fact) {
    PreparedDelegation in f.sidecars || PreparedAttempt in f.sidecars || Enforcement in f.sidecars
  }

  predicate AllPrepared(f: Fact) {
    PreparedDelegation in f.sidecars && PreparedAttempt in f.sidecars && Enforcement in f.sidecars
  }

  /** validUnknownPermitFactRevisionV3: only a persisted enforcement may have moved the begun permit, and once. */
  predicate UnknownPermit(s: map<Slot, Value>)
    requires BegunAuth in s && UnknownAuth in s
  {
    var before, after := s[BegunAuth].permit, s[UnknownAuth].permit;
    if PreparedAttempt !in s then Enforcement !in s && after == before
    else Enforcement in s && s[Enforcement].permit == after == before + 1
  }

  /** The authorizations of an attempt have one payload, and revisions that follow from one another. */
  predicate AuthorizationsAgree(s: map<Slot, Value>) {
    && (IssuedAuth in s && BegunAuth in s ==>
          var issued, begun := s[IssuedAuth], s[BegunAuth];
          begun.digest == issued.digest && begun.effect == issued.effect && begun.permit == issued.permit + 1)
    && (IssuedAuth in s && UnknownAuth in s ==>
          var issued, unknown := s[IssuedAuth], s[UnknownAuth];
          if BegunAuth !in s
          then unknown.digest == issued.digest && unknown.effect == issued.effect + 2
            && unknown.permit == issued.permit + 1
          else unknown.digest == s[BegunAuth].digest && unknown.effect == s[BegunAuth].effect + 1 && UnknownPermit(s))
  }

  /** What the validator asks of each stage. */
  predicate ValidStage(f: Fact) {
    var s, r := f.sidecars, Rank(f.stage);
    var unknown := UnknownAuth in s;
    && f.revision > 0 && AuthorizationsAgree(s)
    && (Reservation in s <==> r >= 1)
    && (Admission in s <==> r >= 2)
    && (IssuedAuth in s <==> r >= 3)
    && (f.stage.Unknown? ==> unknown)
    && (unknown ==> f.stage.Unknown? || f.stage.Settled?)
    && (Settlement in s <==> f.stage.Settled?)
    && (DomainResult in s <==> f.stage.Settled? && s[Settlement].announces)
    && (if unknown then
          && Observation !in s
          && (DelegationFact in s <==> DeclaredDelegation in s)
          && (SomePrepared(f) ==> AllPrepared(f) && SomeDeclared(f))
          && (BegunAuth !in s ==> !SomeDeclared(f) && !SomePrepared(f))
        else
          && (BegunAuth in s <==> r >= 4)
          && (SomeDeclared(f) <==> r >= 5)
          && (SomePrepared(f) <==> r >= 6)
          && (Observation in s <==> r >= 7))
  }

  /** The store's transition rule: one edge, one revision, only the new stage's sidecars added. */
  predicate Transition(current: Fact, next: Fact) {
    && ValidStage(current) && ValidStage(next)
    && next.origin == current.origin && next.revision == current.revision + 1 && current.at <= next.at
    && Direct(current.stage, next.stage)
    && next.sidecars - SlotsOf(next.stage) == current.sidecars
  }

  /** Strictly later, of the same origin, at the same or a reachable stage, with every sidecar kept. */
  predicate Successor(expected: Fact, actual: Fact) {
    && actual.revision > expected.revision && actual.origin == expected.origin
    && (expected.stage == actual.stage || Rank(expected.stage) < Rank(actual.stage))
    && expected.sidecars.Items <= actual.sidecars.Items
  }

  /** The comparison as the source makes it, with the search deciding the stages. */
  method IsSuccessor(expected: Fact, actual: Fact) returns (yes: bool)
    ensures yes <==> Successor(expected, actual)
    ensures yes ==> StageReachable(expected.stage, actual.stage)
  {
    if actual.revision <= expected.revision || actual.origin != expected.origin {
      return false;
    }
    var reachable := IsReachable(expected.stage, actual.stage);
    return reachable && expected.sidecars.Items <= actual.sidecars.Items;
  }

  /** Recovery composes: what extends an extension extends the original. */
  lemma SuccessorTransitive(a: Fact, b: Fact, c: Fact)
    requires Successor(a, b) && Successor(b, c)
    ensures Successor(a, c)
  {
  }

  lemma TransitionExtends(current: Fact, next: Fact)
    requires Transition(current, next)
    ensures Successor(current, next)
  {
    forall item | item in current.sidecars.Items ensures item in next.sidecars.Items {
      assert item.0 in next.sidecars - SlotsOf(next.stage);
    }
  }

  // -------------------------------------------------------- commit and recovery

  /** How a swap ends for its caller. */
  datatype Reply = Stored(fact: Fact) | Recoverable | Rejected

  function Accept(current: Fact, next: Fact, reply: Reply, inspected: Option<Fact>): Option<Fact> {
    match reply
    case Stored(f) => if ValidStage(f) && (f == next || Successor(next, f)) then Some(f) else None
    case Rejected => None
    case Recoverable =>
      if inspected.None? || !ValidStage(inspected.value) then None
      else if inspected.value == next || Successor(current, inspected.value) || Successor(next, inspected.value)
      then inspected else None
  }

  /** Whatever the store answered, an accepted fact extends the one held and loses no sidecar. */
  lemma AcceptedExtends(current: Fact, next: Fact, reply: Reply, inspected: Option<Fact>)
    requires Transition(current, next) && Accept(current, next, reply, inspected).Some?
    ensures var f := Accept(current, next, reply, inspected).value;
            ValidStage(f) && Successor(current, f)
    ensures reply.Stored? ==>
        var f := Accept(current, next, reply, inspected).value; next.sidecars.Items <= f.sidecars.Items
  {
    TransitionExtends(current, next);
    var f := Accept(current, next, reply, inspected).value;
    if f != next && Successor(next, f) {
      SuccessorTransitive(current, next, f);
    }
  }

  // ------------------------------------------------------ the store's history

  /** What a coordinator writes: a legal transition with every sidecar of its stage. */
  predicate Written(current: Fact, next: Fact) {
    && Transition(current, next)
    && SlotsOf(next.stage) - {DomainResult} <= next.sidecars.Keys
  }

  ghost predicate History(h: seq<Fact>) {
    && h != [] && ValidStage(h[0]) && h[0].stage.Intent? && h[0].revision == 1
    && forall i :: 0 <= i < |h| - 1 ==> Written(h[i], h[i + 1])
  }

  lemma {:induction false} HistoryExtends(h: seq<Fact>, i: nat, j: nat)
    requires History(h) && i < j < |h|
    ensures Successor(h[i], h[j])
  {
    TransitionExtends(h[j - 1], h[j]);
    if i < j - 1 {
      HistoryExtends(h, i, j - 1);
      SuccessorTransitive(h[i], h[j - 1], h[j]);
    }
  }

  lemma {:induction false} HistoryClimbs(h: seq<Fact>, i: nat, j: nat)
    requires History(h) && i <= j < |h|
    ensures Rank(h[i].stage) + (j - i) <= Rank(h[j].stage)
  {
    if i < j {
      HistoryClimbs(h, i, j - 1);
    }
  }

  /** Recovery accepts a read exactly when somebody has moved the attempt on. */
  lemma RecoveryAcceptsProgress(h: seq<Fact>, i: nat, j: nat, next: Fact)
    requires History(h) && i <= j < |h| && next.revision == h[i].revision + 1
    ensures Accept(h[i], next, Recoverable, Some(h[j])).Some? <==> i < j
  {
    HistoryValid(h, j);
    if i < j {
      HistoryExtends(h, i, j);
    }
  }

  lemma HistoryValid(h: seq<Fact>, j: nat)
    requires History(h) && j < |h|
    ensures ValidStage(h[j])
  {
    if j > 0 {
      assert Written(h[j - 1], h[j]);
    }
  }

  // ------------------------------------------- a stage implies its path's sidecars

  function PathSlots(stage: Stage): set<Slot>
    decreases Rank(stage)
  {
    match stage
    case Intent => {}
    case Reserved => {Reservation}
    case Admitted => {Reservation, Admission}
    case Issued => {Reservation, Admission, IssuedAuth}
    case Begun => PathSlots(Issued) + {BegunAuth}
    case Declared => PathSlots(Begun) + SlotsOf(Declared)
    case Prepared => PathSlots(Declared) + SlotsOf(Prepared)
    case Observed => PathSlots(Prepared) + {Observation}
    case Unknown => PathSlots(Issued) + {UnknownAuth}
    case Settled => PathSlots(Issued) + {Settlement}
  }

  /** The sidecars a history can have reached: complete up to the stage, or up to where it became unknown. */
  ghost predicate OnPath(f: Fact) {
    var k := f.sidecars.Keys - {Settlement, DomainResult};
    match f.stage
    case Unknown => exists s :: Rank(Issued) <= Rank(s) <= Rank(Prepared) && k == PathSlots(s) + {UnknownAuth}
    case Settled => k == PathSlots(Observed)
                    || exists s :: Rank(Issued) <= Rank(s) <= Rank(Prepared) && k == PathSlots(s) + {UnknownAuth}
    case _ => k == PathSlots(f.stage)
  }

  lemma WrittenOnPath(current: Fact, next: Fact)
    requires Written(current, next) && OnPath(current)
    ensures OnPath(next)
  {
    var k, k' := current.sidecars.Keys - {Settlement, DomainResult}, next.sidecars.Keys - {Settlement, DomainResult};
    var added := SlotsOf(next.stage);
    assert (next.sidecars - added).Keys == current.sidecars.Keys;
    assert next.sidecars.Keys == current.sidecars.Keys + (added * next.sidecars.Keys);
    if next.stage.Settled? {
      assert k' == k;
      assert current.stage.Observed? || current.stage.Unknown?;
    } else {
      assert added <= next.sidecars.Keys;
      assert k' == k + added;
      if next.stage.Unknown? {
        assert k' == PathSlots(current.stage) + {UnknownAuth};
      }
    }
  }

  lemma IntentIsBare(f: Fact)
    requires ValidStage(f) && f.stage.Intent?
    ensures f.sidecars.Keys == {}
  {
    var s := f.sidecars;
    assert Reservation !in s && Admission !in s && IssuedAuth !in s && BegunAuth !in s && DelegationFact !in s;
    assert DeclaredDelegation !in s && PreparedDelegation !in s && PreparedAttempt !in s && Enforcement !in s;
    assert Observation !in s && UnknownAuth !in s && Settlement !in s && DomainResult !in s;
    forall k: Slot ensures k !in s.Keys {
      match k
      case Reservation | Admission | IssuedAuth | BegunAuth | DelegationFact | DeclaredDelegation =>
      case PreparedDelegation | PreparedAttempt | Enforcement | Observation | UnknownAuth | Settlement | DomainResult =>
    }
  }

  lemma {:induction false} HistoryOnPath(h: seq<Fact>, j: nat)
    requires History(h) && j < |h|
    ensures OnPath(h[j])
  {
    if j > 0 {
      HistoryOnPath(h, j - 1);
      WrittenOnPath(h[j - 1], h[j]);
    } else {
      IntentIsBare(h[0]);
    }
  }

  /** An attempt never holds both an observation and an unknown authorization, settled or not. */
  lemma NeverObservedAndUnknown(f: Fact)
    requires ValidStage(f)
    ensures !(Observation in f.sidecars && UnknownAuth in f.sidecars)
  {
  }

  // --------------------------------------------- what execution may dereference

  /** What RelayExecutePrepared is handed, and what the settled run's attempt references read. */
  predicate ExecutionRefs(f: Fact) { {Admission, BegunAuth} <= f.sidecars.Keys && AllPrepared(f) }

  /** For a settled attempt with a history, the references exist exactly if preparation was recorded. */
  lemma SettledRefsIffPrepared(h: seq<Fact>, j: nat)
    requires History(h) && j < |h| && h[j].stage.Settled?
    ensures ExecutionRefs(h[j]) <==> PreparedAttempt in h[j].sidecars
  {
    HistoryOnPath(h, j);
    HistoryValid(h, j);
    var k := h[j].sidecars.Keys - {Settlement, DomainResult};
    if PreparedAttempt in h[j].sidecars {
      assert PreparedAttempt in k;
      if k != PathSlots(Observed) {
        var s :| Rank(Issued) <= Rank(s) <= Rank(Prepared) && k == PathSlots(s) + {UnknownAuth};
        assert s == Prepared;
      }
      assert {Admission, BegunAuth, PreparedDelegation, PreparedAttempt, Enforcement} <= k;
    }
  }

  const V: Value := Value(0, false, 1, 1)

  /** The attempt that is prepared at the provider, but whose preparation stays uncertain. */
  function FailedEarly(stage: Stage): Fact
    requires !stage.Prepared? && !stage.Observed?
    decreases Rank(stage)
  {
    match stage
    case Intent => Fact(0, 1, Intent, map[], 0)
    case Reserved => Fact(0, 2, Reserved, FailedEarly(Intent).sidecars[Reservation := V], 0)
    case Admitted => Fact(0, 3, Admitted, FailedEarly(Reserved).sidecars[Admission := V], 0)
    case Issued => Fact(0, 4, Issued, FailedEarly(Admitted).sidecars[IssuedAuth := V.(effect := 2)], 0)
    case Begun => Fact(0, 5, Begun, FailedEarly(Issued).sidecars[BegunAuth := V.(effect := 2, permit := 2)], 0)
    case Declared =>
      Fact(0, 6, Declared, FailedEarly(Begun).sidecars[DelegationFact := V][DeclaredDelegation := V], 0)
    case Unknown => Fact(0, 7, Unknown, FailedEarly(Declared).sidecars[UnknownAuth := V.(effect := 3, permit := 2)], 0)
    case Settled => Fact(0, 8, Settled, FailedEarly(Unknown).sidecars[Settlement := V], 0)
  }

  lemma SlotsWritten(f: Fact, g: Fact, added: set<Slot>)
    requires ValidStage(f) && ValidStage(g) && Direct(f.stage, g.stage)
    requires g.origin == f.origin && g.revision == f.revision + 1 && f.at <= g.at
    requires g.sidecars.Keys == f.sidecars.Keys + added && added !! f.sidecars.Keys
    requires SlotsOf(g.stage) - {DomainResult} == added && DomainResult !in g.sidecars
    requires forall s :: s in f.sidecars ==> g.sidecars[s] == f.sidecars[s]
    ensures Written(f, g)
  {
    assert g.sidecars - SlotsOf(g.stage) == f.sidecars;
  }

  lemma FailedEarlyToReserved()
    ensures FailedEarly(Reserved).sidecars.Keys == {Reservation}
    ensures Written(FailedEarly(Intent), FailedEarly(Reserved))
  {
    SlotsWritten(FailedEarly(Intent), FailedEarly(Reserved), {Reservation});
  }

  lemma FailedEarlyToAdmitted()
    ensures FailedEarly(Admitted).sidecars.Keys == {Reservation, Admission}
    ensures Written(FailedEarly(Reserved), FailedEarly(Admitted))
  {
    FailedEarlyToReserved();
    hide Written;
    SlotsWritten(FailedEarly(Reserved), FailedEarly(Admitted), {Admission});
  }

  lemma FailedEarlyToIssued()
    ensures FailedEarly(Issued).sidecars.Keys == {Reservation, Admission, IssuedAuth}
    ensures Written(FailedEarly(Admitted), FailedEarly(Issued))
  {
    FailedEarlyToAdmitted();
    hide Written;
    SlotsWritten(FailedEarly(Admitted), FailedEarly(Issued), {IssuedAuth});
  }

  lemma FailedEarlyToBegun()
    ensures FailedEarly(Begun).sidecars.Keys == {Reservation, Admission, IssuedAuth, BegunAuth}
    ensures Written(FailedEarly(Issued), FailedEarly(Begun))
  {
    FailedEarlyToIssued();
    hide Written;
    SlotsWritten(FailedEarly(Issued), FailedEarly(Begun), {BegunAuth});
  }

  lemma FailedEarlyToDeclared()
    ensures FailedEarly(Declared).sidecars.Keys
         == {Reservation, Admission, IssuedAuth, BegunAuth, DelegationFact, DeclaredDelegation}
    ensures Written(FailedEarly(Begun), FailedEarly(Declared))
  {
    FailedEarlyToBegun();
    hide Written;
    SlotsWritten(FailedEarly(Begun), FailedEarly(Declared), {DelegationFact, DeclaredDelegation});
  }

  lemma FailedEarlyToUnknown()
    ensures FailedEarly(Unknown).sidecars.Keys
         == {Reservation, Admission, IssuedAuth, BegunAuth, DelegationFact, DeclaredDelegation, UnknownAuth}
    ensures Written(FailedEarly(Declared), FailedEarly(Unknown))
  {
    FailedEarlyToDeclared();
    hide Written;
    SlotsWritten(FailedEarly(Declared), FailedEarly(Unknown), {UnknownAuth});
  }

  lemma SettlesAsFailed(f: Fact)
    requires ValidStage(f) && f.stage.Unknown?
    ensures Written(f, Fact(f.origin, f.revision + 1, Settled, f.sidecars[Settlement := V], f.at))
  {
    SlotsWritten(f, Fact(f.origin, f.revision + 1, Settled, f.sidecars[Settlement := V], f.at), {Settlement});
  }

  lemma FailedEarlyToSettled()
    ensures !ExecutionRefs(FailedEarly(Settled))
    ensures Written(FailedEarly(Unknown), FailedEarly(Settled))
  {
    FailedEarlyToUnknown();
    assert PreparedDelegation !in FailedEarly(Unknown).sidecars.Keys;
    SettlesAsFailed(FailedEarly(Unknown));
    hide Written, ValidStage;
  }

  lemma FailedEarlyAuthorizations()
    ensures IssuedAuth in FailedEarly(Settled).sidecars && BegunAuth in FailedEarly(Settled).sidecars
    ensures UnknownAuth in FailedEarly(Settled).sidecars && Enforcement !in FailedEarly(Settled).sidecars
    ensures FailedEarly(Settled).sidecars[IssuedAuth] == Value(0, false, 2, 1)
    ensures FailedEarly(Settled).sidecars[BegunAuth] == Value(0, false, 2, 2)
    ensures FailedEarly(Settled).sidecars[UnknownAuth] == Value(0, false, 3, 2)
  {
    assert FailedEarly(Declared).sidecars == FailedEarly(Begun).sidecars[DelegationFact := V][DeclaredDelegation := V];
    assert FailedEarly(Begun).sidecars == FailedEarly(Issued).sidecars[BegunAuth := V.(effect := 2, permit := 2)];
  }

  /**
   Not every settled attempt has them: the one that failed early has no preparation to refer to.  Its
   authorizations are the ones the gateways show when the permit is begun and the outcome then marked unknown.
   */
  lemma SettledWithoutRefs() returns (h: seq<Fact>)
    ensures History(h) && h[|h| - 1].stage.Settled? && !ExecutionRefs(h[|h| - 1])
    ensures FromGateway(h[|h| - 1], 0, 1) && UnknownAuth in h[|h| - 1].sidecars
    ensures h[|h| - 1].sidecars[UnknownAuth] == ReadOff(G.View(G.Run(0, 1, [G.Begin, G.MarkUnknown])))
  {
    FailedEarlyToReserved();
    FailedEarlyToAdmitted();
    FailedEarlyToIssued();
    FailedEarlyToBegun();
    FailedEarlyToDeclared();
    FailedEarlyToUnknown();
    FailedEarlyToSettled();
    FailedEarlyAuthorizations();
    assert [G.Begin, G.MarkUnknown][..1] == [G.Begin];
    hide Written, ExecutionRefs;
    h := [FailedEarly(Intent), FailedEarly(Reserved), FailedEarly(Admitted), FailedEarly(Issued), FailedEarly(Begun),
          FailedEarly(Declared), FailedEarly(Unknown), FailedEarly(Settled)];
  }

  /** The validator alone would let a partly prepared attempt stand: it asks for some of the three, not all. */
  lemma ValidatorAllowsPartialPreparation() returns (f: Fact)
    ensures ValidStage(f) && f.stage.Prepared? && !AllPrepared(f)
  {
    f := Fact(0, 7, Prepared, FailedEarly(Declared).sidecars[Enforcement := V.(permit := 3)], 0);
  }

  // ----------------------------------------- the gateway's unknown, committed

  function ReadOff(a: G.Authorization): Value { Value(a.payload, false, a.effect, a.permit) }

  /** The authorization sidecars are what one run of the gateways showed when they were written. */
  predicate FromGateway(f: Fact, payload: nat, accepted: nat) {
    var issued := G.Issue(payload, accepted);
    var begun := G.Apply(issued, G.Begin);
    && (IssuedAuth in f.sidecars ==> f.sidecars[IssuedAuth] == ReadOff(G.View(issued)))
    && (BegunAuth in f.sidecars ==> f.sidecars[BegunAuth] == ReadOff(G.View(begun)))
    && (Enforcement in f.sidecars ==> f.sidecars[Enforcement].permit == begun.permit + 1)
  }

  /**
   When an unknown outcome can be stored: exactly if the begun authorization was stored before, and the preparation
   was stored if and only if the permit carries its enforcement.  In particular an attempt at permit_issued can
   never store one, although the coordinator has a branch for it; and one at delegation_declared cannot while
   another coordinator's preparation is recorded at the permit only.
   */
  lemma UnknownStoresIff(f: Fact, payload: nat, accepted: nat, moves: seq<G.Move>, at: int)
    requires ValidStage(f) && OnPath(f) && Direct(f.stage, Unknown) && f.at <= at && FromGateway(f, payload, accepted)
    requires G.Run(payload, accepted, moves).effectState.UnknownOutcome?
    ensures var g := G.Run(payload, accepted, moves);
            var next := Fact(f.origin, f.revision + 1, Unknown, f.sidecars[UnknownAuth := ReadOff(G.View(g))], at);
            && (Transition(f, next) <==> BegunAuth in f.sidecars && (g.enforced <==> PreparedAttempt in f.sidecars))
            && (f.stage.Issued? ==> !Transition(f, next))
  {
    var g := G.Run(payload, accepted, moves);
    G.RunRevisions(payload, accepted, moves);
    var next := Fact(f.origin, f.revision + 1, Unknown, f.sidecars[UnknownAuth := ReadOff(G.View(g))], at);
    assert UnknownAuth !in f.sidecars;
    assert next.sidecars - SlotsOf(Unknown) == f.sidecars;
    KeysOnPath(f);
  }

  lemma KeysOnPath(f: Fact)
    requires OnPath(f) && Direct(f.stage, Unknown)
    ensures BegunAuth in f.sidecars <==> !f.stage.Issued?
    ensures if f.stage.Prepared? then AllPrepared(f) && SomeDeclared(f) else !SomePrepared(f)
    ensures DelegationFact in f.sidecars <==> DeclaredDelegation in f.sidecars
    ensures BegunAuth !in f.sidecars ==> !SomeDeclared(f)
  {
    var k := f.sidecars.Keys - {Settlement, DomainResult};
    assert k == PathSlots(f.stage);
    forall s | s != Settlement && s != DomainResult ensures s in f.sidecars <==> s in PathSlots(f.stage) {
      assert s in f.sidecars <==> s in k;
    }
  }

  // ------------------------------------------------- the bounded resume loop

  datatype Dispatch = DispatchBegun | DispatchUnknown | DispatchOther
  datatype Preparation = PrepareDone | PrepareUncertain | PrepareFailed
  datatype LocalAttempt = LocalAbsent | LocalPrepared | LocalObserved | LocalOther | LocalUnreachable
  datatype Execution = ExecuteObserved | ExecuteOther | ExecuteFailed(inspectedObserved: bool)

  /** What the swap and the recovery read say, as positions in the store's history. */
  datatype ReplyAt = StoredAt(i: nat) | RecoverableAt | RejectedAt

  /**
   Everything one iteration learns from outside: where it reads, what the owners answer, how the swap ends, and
   whether the domain port resolves when it finishes.
   */
  datatype Oracle = Oracle(read: nat, ready: bool, values: Slot -> Value, now: int, resolved: bool,
                           dispatch: Dispatch, preparation: Preparation, domainAhead: bool,
                           local: LocalAttempt, execution: Execution, unknownMarked: bool, recorded: bool,
                           reply: ReplyAt, inspected: Option<nat>)

  /** Reads and replies come from one linearizable store: positions never go back. */
  ghost predicate Sees(h: seq<Fact>, o: Oracle, later: int) {
    && o.read <= later < |h|
    && (o.reply.StoredAt? ==> o.read < o.reply.i <= later)
    && (o.inspected.Some? ==> o.read <= o.inspected.value <= later)
  }

  /** The position of the next read, or of the newest fact after the last one. */
  function Later(h: seq<Fact>, env: seq<Oracle>, i: nat): int
    requires i < |env|
  {
    if i + 1 < |env| then env[i + 1].read else |h| - 1
  }

  ghost predicate Environment(h: seq<Fact>, env: seq<Oracle>) {
    forall i :: 0 <= i < |env| ==> Sees(h, env[i], Later(h, env, i))
  }

  datatype Turn =
    | Fail
    | Again(seen: nat)
    | AheadAgain
    | Done(seen: nat)
    | NilDereference(seen: nat)

  function Next(f: Fact, stage: Stage, o: Oracle): Fact {
    var added := map k | k in SlotsOf(stage) :: o.values(k);
    Fact(f.origin, f.revision + 1, stage, f.sidecars + added, o.now)
  }

  /** commitAttemptV3: the position of the accepted fact, if one is accepted. */
  function CommitAt(h: seq<Fact>, o: Oracle, stage: Stage): Option<nat>
    requires Sees(h, o, |h| - 1)
  {
    var f := h[o.read];
    var next := Next(f, stage, o);
    match o.reply
    case StoredAt(i) => if Accept(f, next, Stored(h[i]), None).Some? then Some(i) else None
    case RejectedAt => None
    case RecoverableAt =>
      if o.inspected.Some? && Accept(f, next, Recoverable, Some(h[o.inspected.value])).Some? then o.inspected else None
  }

  function CommitAgain(h: seq<Fact>, o: Oracle, stage: Stage): Turn
    requires Sees(h, o, |h| - 1)
  {
    match CommitAt(h, o, stage) case None => Fail case Some(i) => Again(i)
  }

  /** finishUnknownV3, which asks for the unknown authorization of any prepared attempt it is given. */
  function FinishUnknown(f: Fact, seen: nat, o: Oracle): Turn {
    if PreparedAttempt !in f.sidecars then Done(seen)
    else if !o.resolved then Fail
    else if UnknownAuth !in f.sidecars then NilDereference(seen)
    else Done(seen)
  }

  /** The other two ways to finish: an observed or settled attempt is brought to its domain. */
  function Finish(seen: nat, o: Oracle): Turn { if o.resolved then Done(seen) else Fail }

  function MarkUnknown(h: seq<Fact>, o: Oracle): Turn
    requires Sees(h, o, |h| - 1)
  {
    if !o.unknownMarked then Fail
    else match CommitAt(h, o, Unknown)
      case None => Fail
      case Some(i) => if h[i].stage.Unknown? then FinishUnknown(h[i], i, o) else Again(i)
  }

  function RecordObserved(h: seq<Fact>, o: Oracle): Turn
    requires Sees(h, o, |h| - 1)
  {
    if !o.recorded then Fail
    else match CommitAt(h, o, Observed)
      case None => Fail
      case Some(i) => if h[i].stage.Observed? then Finish(i, o) else Again(i)
  }

  /** Execute is called only when the provider has no attempt of its own beyond the prepared one. */
  predicate Executes(f: Fact, o: Oracle) {
    f.stage.Prepared? && o.ready && !o.domainAhead && (o.local.LocalAbsent? || o.local.LocalPrepared?)
  }

  function Prepare(h: seq<Fact>, o: Oracle): Turn
    requires Sees(h, o, |h| - 1)
  {
    match o.preparation
    case PrepareUncertain => MarkUnknown(h, o)
    case PrepareFailed => Fail
    case PrepareDone => CommitAgain(h, o, Prepared)
  }

  function Execute(h: seq<Fact>, o: Oracle): Turn
    requires Sees(h, o, |h| - 1)
  {
    if !o.ready then Fail
    else if o.domainAhead then AheadAgain
    else if o.local.LocalUnreachable? then Fail
    else if o.local.LocalOther? then MarkUnknown(h, o)
    else if o.local.LocalObserved? || o.execution.ExecuteObserved?
            || (o.execution.ExecuteFailed? && o.execution.inspectedObserved)
    then RecordObserved(h, o)
    else MarkUnknown(h, o)
  }

  function Iterate(h: seq<Fact>, o: Oracle): Turn
    requires Sees(h, o, |h| - 1)
  {
    match h[o.read].stage
    case Intent => if o.ready then CommitAgain(h, o, Reserved) else Fail
    case Reserved => if o.ready then CommitAgain(h, o, Admitted) else Fail
    case Admitted => if o.ready then CommitAgain(h, o, Issued) else Fail
    case Issued =>
      if !o.ready then Fail
      else if o.dispatch.DispatchUnknown? then
        (match CommitAt(h, o, Unknown) case None => Fail case Some(i) => FinishUnknown(h[i], i, o))
      else if o.dispatch.DispatchBegun? then CommitAgain(h, o, Begun)
      else Fail
    case Begun => if o.ready then CommitAgain(h, o, Declared) else Fail
    case Declared => Prepare(h, o)
    case Prepared => Execute(h, o)
    case Observed => Finish(o.read, o)
    case Unknown => FinishUnknown(h[o.read], o.read, o)
    case Settled => Finish(o.read, o)
  }

  lemma CommitMovesOn(h: seq<Fact>, o: Oracle, stage: Stage)
    requires History(h) && Sees(h, o, |h| - 1)
    ensures CommitAt(h, o, stage).Some? ==>
      o.read < CommitAt(h, o, stage).value < |h| && Successor(h[o.read], h[CommitAt(h, o, stage).value])
  {
    if CommitAt(h, o, stage).Some? {
      var i := CommitAt(h, o, stage).value;
      assert h[i].revision > h[o.read].revision;
      HistoryExtends(h, o.read, i);
    }
  }

  /** An iteration that goes round again without having met a domain owner ahead has seen the attempt climb. */
  lemma AgainClimbs(h: seq<Fact>, o: Oracle)
    requires History(h) && Sees(h, o, |h| - 1)
    ensures Iterate(h, o).Again? ==> o.read < Iterate(h, o).seen < |h| && Rank(h[o.read].stage) <= Rank(Prepared)
    ensures Iterate(h, o).Done? || Iterate(h, o).NilDereference? ==> o.read <= Iterate(h, o).seen < |h|
    ensures Iterate(h, o).AheadAgain? ==> h[o.read].stage.Prepared?
  {
    hide CommitAt, Successor, History;
    forall stage ensures CommitAt(h, o, stage).Some? ==> o.read < CommitAt(h, o, stage).value < |h| {
      CommitMovesOn(h, o, stage);
    }
  }

  lemma {:induction false} ReadsWithin(h: seq<Fact>, env: seq<Oracle>, i: nat)
    requires Environment(h, env) && i < |env|
    ensures Sees(h, env[i], |h| - 1)
    decreases |env| - i
  {
    assert Sees(h, env[i], Later(h, env, i));
    if i + 1 < |env| {
      ReadsWithin(h, env, i + 1);
      assert Sees(h, env[i + 1], |h| - 1);
    }
  }

  lemma PreparedHasRefs(h: seq<Fact>, j: nat)
    requires History(h) && j < |h| && h[j].stage.Prepared?
    ensures PathSlots(Prepared) <= h[j].sidecars.Keys && ExecutionRefs(h[j])
  {
    HistoryOnPath(h, j);
    assert {Admission, BegunAuth, PreparedDelegation, PreparedAttempt, Enforcement} <= PathSlots(Prepared);
  }

  /**
   A stale read at permit_issued finds the outcome unknown; its own swap gets no answer, and what it reads back is
   another coordinator's later fact, with which it goes on as if its own had been stored.
   */
  predicate StaleUnknown(h: seq<Fact>, o: Oracle)
    requires Sees(h, o, |h| - 1)
  {
    && h[o.read].stage.Issued? && o.ready && o.dispatch.DispatchUnknown? && o.reply.RecoverableAt?
    && o.inspected.Some? && o.read < o.inspected.value
  }

  predicate LacksUnknown(f: Fact) { PreparedAttempt in f.sidecars && UnknownAuth !in f.sidecars }

  /**
   The turn finishes with this fact: one below the final stages only after a stale read, and dereferencing its
   missing unknown authorization exactly if that stale read's fact is prepared and has none.
   */
  ghost predicate EndsWith(h: seq<Fact>, o: Oracle, f: Fact, dereferenced: bool) {
    && Sees(h, o, |h| - 1) && f in h
    && (Rank(f.stage) < Rank(Observed) ==> StaleUnknown(h, o))
    && (StaleUnknown(h, o) ==> f == h[o.inspected.value])
    && (dereferenced <==> StaleUnknown(h, o) && LacksUnknown(f))
  }

  /** How a turn can finish, and that every stale read leads there. */
  lemma FinishesAsSaid(h: seq<Fact>, o: Oracle)
    requires History(h) && Sees(h, o, |h| - 1)
    ensures var t := Iterate(h, o);
            t.Done? || t.NilDereference? ==> t.seen < |h| && EndsWith(h, o, h[t.seen], t.NilDereference?)
    ensures StaleUnknown(h, o) ==> Iterate(h, o) == FinishUnknown(h[o.inspected.value], o.inspected.value, o)
  {
    if StaleUnknown(h, o) {
      RecoveryAcceptsProgress(h, o.read, o.inspected.value, Next(h[o.read], Unknown, o));
    } else if h[o.read].stage.Issued? && o.ready && o.dispatch.DispatchUnknown? {
      if CommitAt(h, o, Unknown).Some? {
        OwnUnknown(h, o);
      }
    } else {
      FinishesAtEnd(h, o);
    }
  }

  /** Everywhere else a turn finishes only with an attempt it found, or stored, at its end. */
  lemma FinishesAtEnd(h: seq<Fact>, o: Oracle)
    requires History(h) && Sees(h, o, |h| - 1)
    requires !(h[o.read].stage.Issued? && o.ready && o.dispatch.DispatchUnknown?)
    ensures EndsHigh(h, Iterate(h, o))
  {
    hide CommitAgain, Prepare, Execute, History;
    match h[o.read].stage
    case Intent => CommitAgainEnds(h, o, Reserved);
    case Reserved => CommitAgainEnds(h, o, Admitted);
    case Admitted => CommitAgainEnds(h, o, Issued);
    case Issued => CommitAgainEnds(h, o, Begun);
    case Begun => CommitAgainEnds(h, o, Declared);
    case Declared => PrepareEnds(h, o);
    case Prepared => ExecuteEnds(h, o);
    case Unknown => UnknownIsStored(h, o.read);
    case _ =>
  }

  lemma CommitAgainEnds(h: seq<Fact>, o: Oracle, stage: Stage)
    requires Sees(h, o, |h| - 1)
    ensures EndsHigh(h, CommitAgain(h, o, stage))
  {
  }

  /** The turn goes on, fails, or finishes with an attempt at its end. */
  predicate EndsHigh(h: seq<Fact>, t: Turn) {
    !t.NilDereference? && (t.Done? ==> t.seen < |h| && Rank(h[t.seen].stage) >= Rank(Observed))
  }

  lemma PrepareEnds(h: seq<Fact>, o: Oracle)
    requires History(h) && Sees(h, o, |h| - 1)
    ensures EndsHigh(h, Prepare(h, o))
  {
    MarkUnknownEnds(h, o);
    hide CommitAt, History, MarkUnknown;
  }

  lemma ExecuteEnds(h: seq<Fact>, o: Oracle)
    requires History(h) && Sees(h, o, |h| - 1)
    ensures EndsHigh(h, Execute(h, o))
  {
    MarkUnknownEnds(h, o);
    RecordObservedEnds(h, o);
    hide CommitAt, History, MarkUnknown, RecordObserved;
  }

  lemma UnknownIsStored(h: seq<Fact>, i: nat)
    requires History(h) && i < |h|
    ensures h[i].stage.Unknown? ==> UnknownAuth in h[i].sidecars
  {
    HistoryValid(h, i);
  }

  lemma MarkUnknownEnds(h: seq<Fact>, o: Oracle)
    requires History(h) && Sees(h, o, |h| - 1)
    ensures !MarkUnknown(h, o).NilDereference?
    ensures MarkUnknown(h, o).Done? ==> MarkUnknown(h, o).seen < |h| && h[MarkUnknown(h, o).seen].stage.Unknown?
  {
    CommitMovesOn(h, o, Unknown);
    if CommitAt(h, o, Unknown).Some? {
      UnknownIsStored(h, CommitAt(h, o, Unknown).value);
    }
    hide CommitAt, History;
  }

  lemma RecordObservedEnds(h: seq<Fact>, o: Oracle)
    requires History(h) && Sees(h, o, |h| - 1)
    ensures !RecordObserved(h, o).NilDereference?
    ensures RecordObserved(h, o).Done? ==>
      RecordObserved(h, o).seen < |h| && h[RecordObserved(h, o).seen].stage.Observed?
  {
    CommitMovesOn(h, o, Observed);
    hide CommitAt, History;
  }

  /** An answered swap to dispatch_unknown leads on only with its own authorization stored. */
  lemma OwnUnknown(h: seq<Fact>, o: Oracle)
    requires History(h) && Sees(h, o, |h| - 1) && h[o.read].stage.Issued? && !StaleUnknown(h, o)
    requires o.ready && o.dispatch.DispatchUnknown? && CommitAt(h, o, Unknown).Some?
    ensures var f := h[CommitAt(h, o, Unknown).value]; UnknownAuth in f.sidecars && Rank(f.stage) >= Rank(Observed)
  {
    var f, next := h[o.read], Next(h[o.read], Unknown, o);
    if o.reply.RecoverableAt? {
      RecoveryAcceptsProgress(h, o.read, o.inspected.value, next);
    } else {
      var g := h[o.reply.i];
      assert (UnknownAuth, o.values(UnknownAuth)) in next.sidecars.Items;
      assert g == next || Successor(next, g);
    }
  }

  /** The other coordinator's attempt: prepared, its enforcement recorded at the permit. */
  function PreparedElsewhere(): Fact {
    var declared := FailedEarly(Declared);
    Fact(0, 7, Prepared,
         declared.sidecars[PreparedDelegation := V][PreparedAttempt := V][Enforcement := V.(permit := 3)], 0)
  }

  lemma DeclaredToPrepared()
    ensures Written(FailedEarly(Declared), PreparedElsewhere()) && LacksUnknown(PreparedElsewhere())
  {
    FailedEarlyToDeclared();
    hide Written;
    SlotsWritten(FailedEarly(Declared), PreparedElsewhere(), {PreparedDelegation, PreparedAttempt, Enforcement});
  }

  /**
   It can happen: one coordinator holds the issued attempt, the other has prepared it and marked the outcome unknown
   at the gateway, but has not stored that yet.
   */
  lemma StaleUnknownDereferences() returns (h: seq<Fact>, o: Oracle)
    ensures History(h) && Sees(h, o, |h| - 1) && Iterate(h, o).NilDereference?
    ensures o.values(UnknownAuth) == ReadOff(G.View(G.Run(0, 1, [G.Begin, G.RecordEnforcement, G.MarkUnknown])))
  {
    FailedEarlyToReserved();
    FailedEarlyToAdmitted();
    FailedEarlyToIssued();
    FailedEarlyToBegun();
    FailedEarlyToDeclared();
    DeclaredToPrepared();
    hide Written, Iterate, PreparedElsewhere;
    h := [FailedEarly(Intent), FailedEarly(Reserved), FailedEarly(Admitted), FailedEarly(Issued), FailedEarly(Begun),
          FailedEarly(Declared), PreparedElsewhere()];
    var unknown := ReadOff(G.View(G.Run(0, 1, [G.Begin, G.RecordEnforcement, G.MarkUnknown])));
    o := Oracle(3, true, s => unknown, 0, true, DispatchUnknown, PrepareFailed, false, LocalAbsent, ExecuteOther, false,
                false, RecoverableAt, Some(6));
    FinishesAsSaid(h, o);
  }

  const BOUND: nat := 20

  /** The workflow step as the resume finds it; effect is the attempt it was written ahead for. */
  datatype JournalStep = JournalStep(ready: bool, completed: bool, effect: Option<nat>)

  predicate WrittenAhead(step: JournalStep, f: Fact) {
    !step.ready && step.effect == Some(f.origin) && (step.completed ==> f.stage.Settled?)
  }

  datatype Ending = Failed | Finished(fact: Fact) | Dereferenced(fact: Fact) | Exhausted

  /** Every executed attempt is in the history, prepared, and has all the sidecars of its path. */
  ghost predicate ExecutedOk(h: seq<Fact>, executed: seq<Fact>) {
    forall f :: f in executed ==>
      f in h && f.stage.Prepared? && PathSlots(Prepared) <= f.sidecars.Keys && ExecutionRefs(f)
  }

  /** After i iterations, aheads of them ahead of the domain, the attempt has been seen at position floor. */
  ghost predicate Going(h: seq<Fact>, env: seq<Oracle>, i: nat, floor: nat, aheads: nat, executed: seq<Fact>) {
    && floor < |h| && (i < |env| ==> floor <= env[i].read)
    && aheads <= i <= Rank(h[floor].stage) + aheads && i <= Rank(Observed) + aheads
    && |executed| <= 1 && (executed != [] ==> Rank(h[floor].stage) > Rank(Prepared))
  }

  function Executing(h: seq<Fact>, o: Oracle, executed: seq<Fact>): seq<Fact>
    requires o.read < |h|
  {
    if Executes(h[o.read], o) then executed + [h[o.read]] else executed
  }

  lemma GoingOn(h: seq<Fact>, env: seq<Oracle>, i: nat, floor: nat, aheads: nat, executed: seq<Fact>)
    requires History(h) && Environment(h, env) && i < |env| && Going(h, env, i, floor, aheads, executed)
    ensures Sees(h, env[i], |h| - 1)
    ensures var executed' := Executing(h, env[i], executed);
            match Iterate(h, env[i])
            case Fail => |executed'| <= 1
            case Done(seen) => |executed'| <= 1 && seen < |h|
            case NilDereference(seen) => |executed'| <= 1 && seen < |h|
            case AheadAgain => executed' == executed && Going(h, env, i + 1, env[i].read, aheads + 1, executed)
            case Again(seen) => Going(h, env, i + 1, seen, aheads, executed')
  {
    ReadsWithin(h, env, i);
    HistoryClimbs(h, floor, env[i].read);
    AgainClimbs(h, env[i]);
    assert Sees(h, env[i], Later(h, env, i));
    IterateWithin(h, env[i], Later(h, env, i));
    if Iterate(h, env[i]).Again? {
      HistoryClimbs(h, env[i].read, Iterate(h, env[i]).seen);
    }
  }

  lemma CommitWithin(h: seq<Fact>, o: Oracle, later: int, stage: Stage)
    requires Sees(h, o, later)
    ensures CommitAt(h, o, stage).Some? ==> CommitAt(h, o, stage).value <= later
  {
    hide Accept;
  }

  /** The position an iteration ends at was seen before the next read. */
  lemma IterateWithin(h: seq<Fact>, o: Oracle, later: int)
    requires Sees(h, o, later)
    ensures Iterate(h, o).Again? ==> Iterate(h, o).seen <= later
  {
    hide CommitAt;
    forall stage ensures CommitAt(h, o, stage).Some? ==> CommitAt(h, o, stage).value <= later {
      CommitWithin(h, o, later, stage);
    }
  }

  lemma ExecutingOk(h: seq<Fact>, o: Oracle, executed: seq<Fact>)
    requires History(h) && o.read < |h| && ExecutedOk(h, executed)
    ensures ExecutedOk(h, Executing(h, o, executed))
  {
    if Executes(h[o.read], o) {
      PreparedHasRefs(h, o.read);
    }
  }

  lemma GoingStarts(h: seq<Fact>, env: seq<Oracle>)
    requires History(h) && Environment(h, env) && env != []
    ensures h != [] && ExecutedOk(h, []) && Going(h, env, 0, env[0].read, 0, [])
  {
    ReadsWithin(h, env, 0);
  }

  lemma GoingBounds(h: seq<Fact>, env: seq<Oracle>, i: nat, floor: nat, aheads: nat, executed: seq<Fact>)
    requires Going(h, env, i, floor, aheads, executed)
    ensures i <= Rank(Observed) + aheads && |executed| <= 1
  {
  }

  function EndingOf(h: seq<Fact>, t: Turn): Ending
    requires t.Done? || t.NilDereference? ==> t.seen < |h|
  {
    match t
    case Done(seen) => Finished(h[seen])
    case NilDereference(seen) => Dereferenced(h[seen])
    case _ => Failed
  }

  /** What an ending says about the last turn taken, or about the turns that met a domain owner ahead. */
  ghost predicate EndsAs(h: seq<Fact>, env: seq<Oracle>, end: Ending, turns: nat, aheads: nat) {
    match end
    case Failed => true
    case Finished(f) => 0 < turns <= |env| && EndsWith(h, env[turns - 1], f, false)
    case Dereferenced(f) => 0 < turns <= |env| && EndsWith(h, env[turns - 1], f, true)
    case Exhausted => BOUND - Rank(Observed) <= aheads
  }

  /** All that one turn of the loop does. */
  lemma TurnTaken(h: seq<Fact>, env: seq<Oracle>, i: nat, floor: nat, aheads: nat, executed: seq<Fact>)
    requires History(h) && Environment(h, env) && i < |env| && Going(h, env, i, floor, aheads, executed)
    requires ExecutedOk(h, executed)
    ensures Sees(h, env[i], |h| - 1) && env[i].read < |h|
    ensures |Executing(h, env[i], executed)| <= 1 && ExecutedOk(h, Executing(h, env[i], executed))
    ensures var t, executed' := Iterate(h, env[i]), Executing(h, env[i], executed);
            match t
            case AheadAgain => Going(h, env, i + 1, env[i].read, aheads + 1, executed')
            case Again(seen) => Going(h, env, i + 1, seen, aheads, executed')
            case _ =>
              (t.Done? || t.NilDereference? ==> t.seen < |h|) && EndsAs(h, env, EndingOf(h, t), i + 1, aheads)
  {
    GoingOn(h, env, i, floor, aheads, executed);
    ExecutingOk(h, env[i], executed);
    FinishesAsSaid(h, env[i]);
    hide Iterate, History, ExecutedOk, Environment, EndsWith, Executing;
  }

  /**
   resumeV3.  The bound is never the reason to give up by itself: it can run out only if at least
   thirteen of the twenty iterations met a domain owner that was ahead.  The provider is executed
   at most once per call, behind the journal write-ahead and with every reference present.
   A resume that finishes does so with a stored fact that is observed, unknown or settled, except
   exactly when its last turn went on with a fact read back after a stale read at permit_issued; and
   exactly if that fact is prepared without an unknown authorization, the missing one is dereferenced.
   */
  method Resume(h: seq<Fact>, step: JournalStep, env: seq<Oracle>)
    returns (end: Ending, executed: seq<Fact>, aheads: nat, turns: nat)
    requires History(h) && |env| == BOUND && Environment(h, env)
    ensures |executed| <= 1 && ExecutedOk(h, executed) && (executed != [] ==> WrittenAhead(step, h[0]))
    ensures EndsAs(h, env, end, turns, aheads)
  {
    GoingStarts(h, env);
    hide Iterate, History, ExecutedOk, WrittenAhead, Environment, EndsWith, Going, Executing, Sees;
    executed, aheads, turns := [], 0, 0;
    if !WrittenAhead(step, h[0]) {
      return Failed, executed, aheads, turns;
    }
    ghost var floor: nat := env[0].read;
    while turns < BOUND
      invariant turns <= BOUND && |executed| <= 1
      invariant Going(h, env, turns, floor, aheads, executed) && ExecutedOk(h, executed)
    {
      var o := env[turns];
      TurnTaken(h, env, turns, floor, aheads, executed);
      turns := turns + 1;
      executed := Executing(h, o, executed);
      match Iterate(h, o)
      case AheadAgain =>
        aheads := aheads + 1;
        floor := o.read;
      case Again(seen) =>
        floor := seen;
      case ended => return EndingOf(h, ended), executed, aheads, turns;
    }
    GoingBounds(h, env, BOUND, floor, aheads, executed);
    end := Exhausted;
  }
}
