/**
 The dispatch authorization of one effect (runtime/control/operation_governance_gateway_v3.go,
 runtime/control/execution_delegation_governance_v2.go, runtime/control/operation_observation_gateway_v3.go and
 runtime/control/operation_settlement_gateway_v3.go), and the projection with which the attempt coordinator takes
 it back to what was issued (application/governed_operation_coordinator_v3.go).

 An authorization is read off two facts with revisions of their own, the effect and its permit.  The gateways are
 modelled by the moves that write either; a run is any list of moves.
 */
module DispatchGateway {
  import opened Wrappers

  // ------------------------------------------------------------- the gateways

  datatype EffectState = DispatchIntent | Dispatched | UnknownOutcome | Settled

  /** enforced: the permit carries the provider's enforcement receipt. */
  datatype Gateway = Gateway(payload: nat, effectState: EffectState, effect: nat, begun: bool, enforced: bool,
                             permit: nat)

  datatype Move = Begin | RecordEnforcement | MarkUnknown | Observe | Settle

  /** Issuing moves the accepted effect to dispatch_intent and stores the permit at revision one. */
  function Issue(payload: nat, accepted: nat): Gateway {
    Gateway(payload, DispatchIntent, accepted + 1, false, false, 1)
  }

  /** A move that the gateways refuse changes nothing. */
  function Apply(g: Gateway, m: Move): Gateway {
    match m
    case Begin => if g.effectState.DispatchIntent? && !g.begun then g.(begun := true, permit := g.permit + 1) else g
    case RecordEnforcement => if g.begun && !g.enforced then g.(enforced := true, permit := g.permit + 1) else g
    case MarkUnknown =>
      if g.effectState.DispatchIntent? && g.begun then g.(effectState := UnknownOutcome, effect := g.effect + 1) else g
    case Observe =>
      if g.effectState.DispatchIntent? && g.begun && g.enforced
      then g.(effectState := Dispatched, effect := g.effect + 1) else g
    case Settle =>
      if g.effectState.Dispatched? || g.effectState.UnknownOutcome?
      then g.(effectState := Settled, effect := g.effect + 1) else g
  }

  function Run(payload: nat, accepted: nat, moves: seq<Move>): Gateway {
    if moves == [] then Issue(payload, accepted)
    else Apply(Run(payload, accepted, moves[..|moves| - 1]), moves[|moves| - 1])
  }

  // ------------------------------------------------------------ authorizations

  datatype AuthorizationState = IsIssued | IsBegun | IsUnknown

  datatype Authorization = Authorization(state: AuthorizationState, effect: nat, permit: nat, payload: nat)

  /** operationDispatchAuthorizationV3. */
  function View(g: Gateway): Authorization {
    var state := if g.effectState.UnknownOutcome? then IsUnknown else if g.begun then IsBegun else IsIssued;
    Authorization(state, g.effect, g.permit, g.payload)
  }

  /** issuedAuthorizationProjectionV3: undo what is supposed to have happened since the permit was issued. */
  function IssuedProjection(a: Authorization): Option<Authorization> {
    match a.state
    case IsIssued => Some(a)
    case IsBegun => if a.permit <= 1 then None else Some(a.(state := IsIssued, permit := a.permit - 1))
    case IsUnknown =>
      if a.permit <= 1 || a.effect <= 2 then None
      else Some(a.(state := IsIssued, permit := a.permit - 1, effect := a.effect - 2))
  }

  /** Every revision tells how far the gateways have come. */
  lemma {:induction false} RunRevisions(payload: nat, accepted: nat, moves: seq<Move>)
    ensures var g := Run(payload, accepted, moves);
            && g.payload == payload && (g.enforced ==> g.begun) && (!g.effectState.DispatchIntent? ==> g.begun)
            && (g.effectState.Dispatched? ==> g.enforced)
            && g.permit == 1 + (if g.begun then 1 else 0) + (if g.enforced then 1 else 0)
            && g.effect == accepted + (match g.effectState case DispatchIntent => 1 case Settled => 3 case _ => 2)
  {
    if moves != [] {
      RunRevisions(payload, accepted, moves[..|moves| - 1]);
    }
  }

  /**
   When the projection gives back the authorization that was issued: exactly as long as the effect is still in
   dispatch_intent and no enforcement was recorded.  An unknown authorization is never taken back to it.
   */
  lemma ProjectionIsIssuedIff(payload: nat, accepted: nat, moves: seq<Move>)
    ensures var g := Run(payload, accepted, moves);
            IssuedProjection(View(g)) == Some(View(Issue(payload, accepted)))
            <==> g.effectState.DispatchIntent? && !g.enforced
  {
    RunRevisions(payload, accepted, moves);
  }

  /** The same condition on what the coordinator has in hand: the admission's revision and the authorization. */
  lemma ProjectionIsIssuedOnSight(payload: nat, accepted: nat, moves: seq<Move>)
    ensures var a := View(Run(payload, accepted, moves));
            IssuedProjection(a) == Some(View(Issue(payload, accepted))) <==> a.effect == accepted + 1 && a.permit <= 2
  {
    RunRevisions(payload, accepted, moves);
  }

  /** What goes wrong, move by move: an enforced permit, a lost outcome, and a settled one. */
  lemma ProjectionGoesWrong(payload: nat, accepted: nat)
    requires accepted > 0
    ensures var issued := View(Issue(payload, accepted));
            && IssuedProjection(View(Run(payload, accepted, [Begin, RecordEnforcement])))
               == Some(issued.(permit := issued.permit + 1))
            && IssuedProjection(View(Run(payload, accepted, [Begin, MarkUnknown])))
               == Some(issued.(effect := issued.effect - 1))
            && IssuedProjection(View(Run(payload, accepted, [Begin, MarkUnknown, Settle])))
               == Some(issued.(effect := issued.effect + 2))
  {
    var begun: seq<Move> := [Begin];
    assert begun[..0] == [] && Run(payload, accepted, begun) == Apply(Issue(payload, accepted), Begin);
    assert [Begin, RecordEnforcement][..1] == begun && [Begin, MarkUnknown][..1] == begun;
    assert [Begin, MarkUnknown, Settle][..2] == [Begin, MarkUnknown];
  }

  // ------------------------------------------- what is stored as the issued one

  /** Where a coordinator stands: it read the admitted attempt, projected an authorization, or read one stored. */
  datatype Local = Idle | AtAdmitted | Projected(issued: Authorization) | PastAdmitted

  /** stored is what the attempt carries once it has left effect_admitted. */
  datatype State = State(payload: nat, accepted: nat, gateway: Option<Gateway>, stored: Option<Authorization>,
                         delayed: set<Authorization>, locals: map<nat, Local>)

  /** Drive stands for every later call of a coordinator, or of a settling owner, that moves the gateways. */
  datatype Action =
    | Read(c: nat)
    | Inspect(c: nat)
    | Swap(c: nat)
    | Delay(c: nat)
    | Land(issued: Authorization)
    | Drive(c: nat, m: Move)
    | Crash(c: nat)

  function At(s: State, c: nat): Local { if c in s.locals then s.locals[c] else Idle }

  function Put(s: State, c: nat, l: Local): State { s.(locals := s.locals[c := l]) }

  /** The swap of the admitted attempt's one revision. */
  function Store(s: State, a: Authorization): State { if s.stored.None? then s.(stored := Some(a)) else s }

  function Step(s: State, a: Action): State {
    match a
    case Read(c) => Put(s, c, if s.stored.None? then AtAdmitted else PastAdmitted)
    case Inspect(c) =>
      if !At(s, c).AtAdmitted? then s
      else
        var g := if s.gateway.Some? then s.gateway.value else Issue(s.payload, s.accepted);
        var projected := IssuedProjection(View(g));
        Put(s.(gateway := Some(g)), c, if projected.Some? then Projected(projected.value) else Idle)
    case Swap(c) => if At(s, c).Projected? then Put(Store(s, At(s, c).issued), c, Idle) else s
    case Delay(c) => if At(s, c).Projected? then Put(s.(delayed := s.delayed + {At(s, c).issued}), c, Idle) else s
    case Land(issued) => if issued in s.delayed then Store(s, issued) else s
    case Drive(c, m) =>
      if At(s, c).PastAdmitted? && s.gateway.Some? then s.(gateway := Some(Apply(s.gateway.value, m))) else s
    case Crash(c) => Put(s, c, Idle)
  }

  function Reached(payload: nat, accepted: nat, actions: seq<Action>): State {
    if actions == [] then State(payload, accepted, None, None, {}, map[])
    else Step(Reached(payload, accepted, actions[..|actions| - 1]), actions[|actions| - 1])
  }

  /** Until something is stored nobody moves the gateways on, so every projection made so far is right. */
  ghost predicate Inv(s: State) {
    var issue := Issue(s.payload, s.accepted);
    && (s.stored.Some? ==> s.stored.value == View(issue))
    && (s.stored.None? ==>
          && (s.gateway.Some? ==> s.gateway.value == issue)
          && (forall a :: a in s.delayed ==> a == View(issue))
          && (forall c :: c in s.locals && s.locals[c].Projected? ==> s.locals[c].issued == View(issue))
          && (forall c :: c in s.locals ==> !s.locals[c].PastAdmitted?))
  }

  lemma StepKeepsInv(s: State, a: Action)
    requires Inv(s)
    ensures Inv(Step(s, a)) && Step(s, a).payload == s.payload && Step(s, a).accepted == s.accepted
  {
  }

  lemma {:induction false} ReachedInv(payload: nat, accepted: nat, actions: seq<Action>)
    ensures var s := Reached(payload, accepted, actions);
            Inv(s) && s.payload == payload && s.accepted == accepted
  {
    if actions != [] {
      ReachedInv(payload, accepted, actions[..|actions| - 1]);
      StepKeepsInv(Reached(payload, accepted, actions[..|actions| - 1]), actions[|actions| - 1]);
      hide Inv, Step;
    }
  }

  /**
   The wrong projections never reach the store: over every interleaving of coordinators, with crashes and late
   swaps, what an attempt carries as its issued authorization is the one that was issued.
   */
  lemma StoredIsIssued(payload: nat, accepted: nat, actions: seq<Action>)
    ensures var s := Reached(payload, accepted, actions);
            s.stored.Some? ==> s.stored.value == View(Issue(payload, accepted))
  {
    ReachedInv(payload, accepted, actions);
  }
}
