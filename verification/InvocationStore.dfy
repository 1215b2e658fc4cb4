/**
 The governed model invocation store (model-invoker/governed_model_invocation_repository_v1.go and
 model-invoker/governed_model_invocation_v1.go).

 The store keeps three maps: history by invocation and revision, the current reference of each
 invocation, and the guard that gives each logical provider attempt to one invocation.  The class is
 proved to refine `View`, a map from invocation to its list of facts; what a provider boundary
 crossing may rely on is then proved of every run over views.
 */
module InvocationStore {
  import opened Wrappers

  // ---------------------------------------------------------------- facts

  /** The invocation ID is derived from these coordinates, so they serve as the ID. */
  datatype Id = Id(prepared: nat, request: nat, route: nat, sequence: nat, ordinal: nat)

  /** The logical provider attempt: route and request may not vary under it. */
  datatype AttemptKey = AttemptKey(prepared: nat, sequence: nat, ordinal: nat)

  function KeyOf(id: Id): AttemptKey { AttemptKey(id.prepared, id.sequence, id.ordinal) }

  datatype Outcome = Prepared | BoundaryCrossed | Observed | Unknown | RejectedNoEffect

  /** Acks and receipts are modelled by the coordinates they must repeat. */
  datatype Ack = Ack(prepared: nat, current: nat, expires: int)
  datatype Receipt = Receipt(prepared: nat, current: nat, ack: Ack, sequence: nat, ordinal: nat, route: nat)
  datatype Observation = Observation(invocation: Ref, content: nat, expires: int)

  datatype Fact = Fact(id: Id, current: nat, revision: nat, state: Outcome, ack: Option<Ack>, receipt: Option<Receipt>,
                       observation: Option<Observation>, failure: Option<nat>, created: int, updated: int, expires: int)

  /** A digest covers the whole fact. */
  datatype Ref = Ref(id: Id, revision: nat, digest: Fact)

  function RefOf(f: Fact): Ref { Ref(f.id, f.revision, f) }

  predicate ValidId(id: Id) { id.sequence > 0 && id.ordinal > 0 }

  predicate ValidFact(f: Fact) {
    && ValidId(f.id) && f.revision > 0 && 0 < f.created <= f.updated && f.created < f.expires
    && (match f.state
        case Prepared =>
          f.revision == 1 && f.updated < f.expires && f.ack.None? && f.receipt.None? && f.observation.None?
            && f.failure.None?
        case BoundaryCrossed =>
          f.revision == 2 && f.updated < f.expires && f.ack.Some? && f.receipt.Some? && f.observation.None?
            && f.failure.None?
        case Observed =>
          f.revision == 3 && f.ack.Some? && f.receipt.Some? && f.observation.Some? && f.failure.None?
        case Unknown =>
          f.revision == 3 && f.ack.Some? && f.receipt.Some? && f.observation.None? && f.failure.Some?
        case RejectedNoEffect =>
          f.revision == 3 && f.ack.Some? && f.receipt.Some? && f.observation.None? && f.failure.Some?)
    && (f.ack.Some? ==>
          f.ack.value.prepared == f.id.prepared && f.ack.value.current == f.current && f.expires <= f.ack.value.expires)
    && (f.receipt.Some? ==>
          && f.ack.Some? && f.receipt.value
             == Receipt(f.id.prepared, f.current, f.ack.value, f.id.sequence, f.id.ordinal, f.id.route))
    && (f.observation.Some? ==>
          && f.observation.value.invocation.id == f.id && f.observation.value.invocation.revision == 2
          && f.observation.value.expires <= f.expires)
  }

  predicate Edge(from: Outcome, to: Outcome) {
    match from
    case Prepared => to.BoundaryCrossed?
    case BoundaryCrossed => to.Observed? || to.Unknown? || to.RejectedNoEffect?
    case _ => false
  }

  predicate Transition(a: Fact, b: Fact) {
    && ValidFact(a) && ValidFact(b)
    && a.id == b.id && a.current == b.current && a.created == b.created
    && b.revision == a.revision + 1 && a.updated <= b.updated && b.expires <= a.expires
    && Edge(a.state, b.state)
    && (b.observation.Some? ==> b.observation.value.invocation == RefOf(a))
  }

  // ----------------------------------------------------- the specification

  type View = map<Id, seq<Fact>>

  /** Revisions one to n, prepared first, each a legal transition from the one before. */
  ghost predicate Chronicle(id: Id, h: seq<Fact>) {
    && h != [] && ValidFact(h[0]) && h[0].state.Prepared? && h[0].id == id
    && forall i :: 0 <= i < |h| - 1 ==> Transition(h[i], h[i + 1])
  }

  lemma {:induction false} ChronicleAt(id: Id, h: seq<Fact>, i: nat)
    requires Chronicle(id, h) && i < |h|
    ensures ValidFact(h[i]) && h[i].revision == i + 1 && h[i].id == id && h[i].revision <= 3
  {
    if i > 0 {
      ChronicleAt(id, h, i - 1);
      assert Transition(h[i - 1], h[i]);
    }
  }

  ghost predicate ValidView(v: View) {
    && (forall id :: id in v ==> Chronicle(id, v[id]))
    && (forall a, b :: a in v && b in v && KeyOf(a) == KeyOf(b) ==> a == b)
  }

  datatype StoreError = Invalid | NotFound | Conflict

  datatype Mutation = Mutated(fact: Fact, applied: bool) | Failed(error: StoreError)

  datatype Request = Create(fact: Fact) | Swap(expected: Ref, next: Fact)

  ghost predicate KeyTaken(v: View, id: Id) { exists other :: other in v && other != id && KeyOf(other) == KeyOf(id) }

  /** What an append-only, create-once, one-invocation-per-attempt store answers. */
  ghost function Answer(v: View, r: Request): Mutation {
    match r
    case Create(f) =>
      if !ValidFact(f) || f.revision != 1 || !f.state.Prepared? then Failed(Invalid)
      else if KeyTaken(v, f.id) then Failed(Conflict)
      else if f.id in v && v[f.id] != [] then
        (if v[f.id][0] == f then Mutated(v[f.id][|v[f.id]| - 1], false) else Failed(Conflict))
      else Mutated(f, true)
    case Swap(expected, next) =>
      if !ValidFact(next) || !ValidId(expected.id) || expected.revision == 0 then Failed(Invalid)
      else if expected.id != next.id || next.revision != expected.revision + 1 then Failed(Conflict)
      else if next.id !in v || v[next.id] == [] then Failed(NotFound)
      else
        var last := v[next.id][|v[next.id]| - 1];
        if last == next then Mutated(last, false)
        else if RefOf(last) != expected || !Transition(last, next) then Failed(Conflict)
        else Mutated(next, true)
  }

  ghost function Updated(v: View, r: Request): View {
    var a := Answer(v, r);
    if a.Mutated? && a.applied then
      var f := a.fact;
      v[f.id := (if f.id in v then v[f.id] else []) + [f]]
    else v
  }

  // ------------------------------------------------------------- the store

  datatype Stored = Stored(ref: Ref, wire: Fact)

  /** One invocation's stored revisions and current reference hold exactly its facts. */
  ghost predicate Row(revisions: map<nat, Stored>, current: Ref, h: seq<Fact>) {
    && h != [] && current == RefOf(h[|h| - 1])
    && (forall k: nat :: k in revisions <==> 1 <= k <= |h|)
    && (forall k: nat :: 1 <= k <= |h| ==> revisions[k] == Stored(RefOf(h[k - 1]), h[k - 1]))
  }

  /** The three maps hold exactly the view: rows, current references, and one guard per attempt. */
  ghost predicate Consistent(history: map<Id, map<nat, Stored>>, current: map<Id, Ref>, attempt: map<AttemptKey, Id>,
                             view: View) {
    && ValidView(view) && current.Keys == view.Keys && history.Keys == view.Keys
    && (forall id :: id in view ==> Row(history[id], current[id], view[id]))
    && (forall id :: id in view ==> KeyOf(id) in attempt && attempt[KeyOf(id)] == id)
    && (forall key :: key in attempt ==> attempt[key] in view && KeyOf(attempt[key]) == key)
  }

  lemma RowExtends(revisions: map<nat, Stored>, current: Ref, h: seq<Fact>, next: Fact)
    requires Row(revisions, current, h) && next.revision == |h| + 1
    ensures var extended: map<nat, Stored> := revisions[next.revision := Stored(RefOf(next), next)];
            Row(extended, RefOf(next), h + [next])
  {
  }

  lemma ConsistentView(history: map<Id, map<nat, Stored>>, current: map<Id, Ref>, attempt: map<AttemptKey, Id>,
                       view: View)
    requires Consistent(history, current, attempt, view)
    ensures ValidView(view)
  {
  }

  lemma PutRow(history: map<Id, map<nat, Stored>>, current: map<Id, Ref>, attempt: map<AttemptKey, Id>, view: View,
               id: Id, row: map<nat, Stored>, ref: Ref, h: seq<Fact>)
    requires Consistent(history, current, attempt, view)
    requires ValidView(view[id := h]) && Row(row, ref, h)
    requires KeyOf(id) in attempt ==> attempt[KeyOf(id)] == id
    ensures Consistent(history[id := row], current[id := ref], attempt[KeyOf(id) := id], view[id := h])
  {
    hide ValidView, Row;
  }

  lemma CreateKeeps(history: map<Id, map<nat, Stored>>, current: map<Id, Ref>, attempt: map<AttemptKey, Id>,
                    view: View, f: Fact)
    requires Consistent(history, current, attempt, view) && f.id !in view && Answer(view, Create(f)) == Mutated(f, true)
    ensures var row: map<nat, Stored> := map[1 := Stored(RefOf(f), f)];
            Consistent(history[f.id := row], current[f.id := RefOf(f)], attempt[KeyOf(f.id) := f.id],
                       Updated(view, Create(f)))
  {
    hide ValidFact, Chronicle, Consistent, KeyTaken, ValidView;
    ConsistentView(history, current, attempt, view);
    UpdatedValid(view, Create(f));
    GuardIsKeyTaken(history, current, attempt, view, f.id);
    assert Updated(view, Create(f)) == view[f.id := [f]] by { assert [] + [f] == [f]; }
    hide Updated, Answer;
    PutRow(history, current, attempt, view, f.id, map[1 := Stored(RefOf(f), f)], RefOf(f), [f]);
  }

  lemma SwapKeeps(history: map<Id, map<nat, Stored>>, current: map<Id, Ref>, attempt: map<AttemptKey, Id>, view: View,
                  expected: Ref, next: Fact)
    requires Consistent(history, current, attempt, view)
    requires Answer(view, Swap(expected, next)) == Mutated(next, true) && next.id in view
        && next.revision == |view[next.id]| + 1
    ensures next.id in history
    ensures var row: map<nat, Stored> := history[next.id][next.revision := Stored(RefOf(next), next)];
            Consistent(history[next.id := row], current[next.id := RefOf(next)], attempt,
                       Updated(view, Swap(expected, next)))
  {
    hide ValidFact, Chronicle, Transition;
    ConsistentView(history, current, attempt, view);
    UpdatedValid(view, Swap(expected, next));
    RowExtends(history[next.id], current[next.id], view[next.id], next);
    var row: map<nat, Stored> := history[next.id][next.revision := Stored(RefOf(next), next)];
    assert attempt[KeyOf(next.id) := next.id] == attempt;
    hide Consistent, ValidView, Row;
    PutRow(history, current, attempt, view, next.id, row, RefOf(next), view[next.id] + [next]);
  }

  /** What the indexes of a present invocation lead to. */
  lemma RowOf(history: map<Id, map<nat, Stored>>, current: map<Id, Ref>, attempt: map<AttemptKey, Id>, view: View,
              id: Id)
    requires Consistent(history, current, attempt, view)
    ensures id in current <==> id in view
    ensures id in view ==>
      && id in history && KeyOf(id) in attempt && attempt[KeyOf(id)] == id
      && var h := view[id];
         && h != [] && current[id] == RefOf(h[|h| - 1]) && current[id].revision == |h|
         && 1 in history[id] && history[id][1] == Stored(RefOf(h[0]), h[0])
         && |h| in history[id] && history[id][|h|] == Stored(current[id], h[|h| - 1])
  {
    if id in view {
      ChronicleAt(id, view[id], |view[id]| - 1);
    }
  }

  /** The guard map says exactly whether another invocation holds the logical attempt. */
  lemma GuardIsKeyTaken(history: map<Id, map<nat, Stored>>, current: map<Id, Ref>, attempt: map<AttemptKey, Id>,
                        view: View, id: Id)
    requires Consistent(history, current, attempt, view)
    ensures KeyTaken(view, id) <==> KeyOf(id) in attempt && attempt[KeyOf(id)] != id
  {
    if KeyOf(id) in attempt && attempt[KeyOf(id)] != id {
      assert attempt[KeyOf(id)] in view;
    }
  }

  class Store {
    var history: map<Id, map<nat, Stored>>
    var current: map<Id, Ref>
    var attempt: map<AttemptKey, Id>
    ghost var view: View

    ghost predicate Valid()
      reads this
    {
      Consistent(history, current, attempt, view)
    }

    constructor ()
      ensures Valid() && view == map[]
    {
      history, current, attempt, view := map[], map[], map[], map[];
    }

    method CreateInvocation(fact: Fact) returns (m: Mutation)
      requires Valid()
      modifies this
      ensures Valid()
      ensures m == Answer(old(view), Create(fact)) && view == Updated(old(view), Create(fact))
    {
      hide Consistent, ValidFact, KeyTaken;
      if !ValidFact(fact) || fact.revision != 1 || !fact.state.Prepared? {
        return Failed(Invalid);
      }
      var key := KeyOf(fact.id);
      GuardIsKeyTaken(history, current, attempt, view, fact.id);
      RowOf(history, current, attempt, view, fact.id);
      if key in attempt && attempt[key] != fact.id {
        return Failed(Conflict);
      }
      if fact.id in current {
        var first := history[fact.id][1];
        if first.ref != RefOf(fact) || first.wire != fact {
          return Failed(Conflict);
        }
        return Mutated(history[fact.id][current[fact.id].revision].wire, false);
      }
      CreateKeeps(history, current, attempt, view, fact);
      view := Updated(view, Create(fact));
      history := history[fact.id := map[1 := Stored(RefOf(fact), fact)]];
      current := current[fact.id := RefOf(fact)];
      attempt := attempt[key := fact.id];
      return Mutated(fact, true);
    }

    method CompareAndSwap(expected: Ref, next: Fact) returns (m: Mutation)
      requires Valid()
      modifies this
      ensures Valid()
      ensures m == Answer(old(view), Swap(expected, next)) && view == Updated(old(view), Swap(expected, next))
    {
      hide Consistent, ValidFact, Transition;
      if !ValidFact(next) || !ValidId(expected.id) || expected.revision == 0 {
        return Failed(Invalid);
      }
      if expected.id != next.id || next.revision != expected.revision + 1 {
        return Failed(Conflict);
      }
      RowOf(history, current, attempt, view, next.id);
      if next.id !in current {
        return Failed(NotFound);
      }
      var last := history[next.id][current[next.id].revision].wire;
      if current[next.id] == RefOf(next) {
        return Mutated(last, false);
      }
      if current[next.id] != expected || !Transition(last, next) {
        return Failed(Conflict);
      }
      SwapKeeps(history, current, attempt, view, expected, next);
      view := Updated(view, Swap(expected, next));
      var revisions: map<nat, Stored> := history[next.id];
      revisions := revisions[next.revision := Stored(RefOf(next), next)];
      history := history[next.id := revisions];
      current := current[next.id := RefOf(next)];
      return Mutated(next, true);
    }

    /** An exact read never falls back to another revision. */
    method InspectExact(ref: Ref) returns (r: Result<Fact, StoreError>)
      requires Valid()
      ensures !(ValidId(ref.id) && ref.revision > 0) ==> r == Failure(Invalid)
      ensures ValidId(ref.id) && ref.revision > 0 ==>
        r == (if ref.id !in view || ref.revision > |view[ref.id]| then Failure(NotFound)
              else if RefOf(view[ref.id][ref.revision - 1]) != ref then Failure(Conflict)
              else Success(ref.digest))
    {
      if !ValidId(ref.id) || ref.revision == 0 {
        return Failure(Invalid);
      }
      if ref.id !in history || ref.revision !in history[ref.id] {
        return Failure(NotFound);
      }
      var stored := history[ref.id][ref.revision];
      assert stored.wire == view[ref.id][ref.revision - 1];
      if stored.ref != ref {
        return Failure(Conflict);
      }
      return Success(stored.wire);
    }

    method InspectCurrent(id: Id) returns (r: Result<Fact, StoreError>)
      requires Valid()
      ensures id !in view ==> r == Failure(NotFound)
      ensures id in view ==> view[id] != [] && r == Success(view[id][|view[id]| - 1])
    {
      RowOf(history, current, attempt, view, id);
      if id !in current {
        return Failure(NotFound);
      }
      if KeyOf(id) !in attempt || attempt[KeyOf(id)] != id {
        return Failure(Conflict);
      }
      return Success(history[id][current[id].revision].wire);
    }
  }

  // ------------------------------------------------------------- every run

  lemma UpdatedValid(v: View, r: Request)
    requires ValidView(v)
    ensures ValidView(Updated(v, r))
  {
    var a := Answer(v, r);
    if a.Mutated? && a.applied {
      var f := a.fact;
      var h := if f.id in v then v[f.id] else [];
      if r.Swap? {
        ChronicleAt(f.id, h, |h| - 1);
      }
      assert Chronicle(f.id, h + [f]);
    }
  }

  ghost function Run(requests: seq<Request>): View {
    if requests == [] then map[] else Updated(Run(requests[..|requests| - 1]), requests[|requests| - 1])
  }

  lemma {:induction false} RunValid(requests: seq<Request>)
    ensures ValidView(Run(requests))
  {
    if requests != [] {
      RunValid(requests[..|requests| - 1]);
      UpdatedValid(Run(requests[..|requests| - 1]), requests[|requests| - 1]);
    }
  }

  /** What request n of a run is answered. */
  ghost function AnswerAt(requests: seq<Request>, n: nat): Mutation
    requires n < |requests|
  {
    Answer(Run(requests[..n]), requests[n])
  }

  ghost predicate Applied(requests: seq<Request>, n: nat)
    requires n < |requests|
  {
    AnswerAt(requests, n).Mutated? && AnswerAt(requests, n).applied
  }

  lemma RunStep(requests: seq<Request>, n: nat)
    requires n < |requests|
    ensures Run(requests[..n + 1]) == Updated(Run(requests[..n]), requests[n])
  {
    assert requests[..n + 1][..n] == requests[..n];
  }

  lemma UpdatedGrows(v: View, r: Request, id: Id)
    requires id in v
    ensures id in Updated(v, r) && v[id] <= Updated(v, r)[id]
  {
  }

  /** Facts, once stored, stay where they are. */
  lemma {:induction false} HistoryKept(requests: seq<Request>, m: nat, n: nat, id: Id)
    requires m <= n <= |requests| && id in Run(requests[..m])
    ensures id in Run(requests[..n]) && Run(requests[..m])[id] <= Run(requests[..n])[id]
  {
    hide Updated, Answer, Run;
    if m < n {
      HistoryKept(requests, m, n - 1, id);
      RunStep(requests, n - 1);
      UpdatedGrows(Run(requests[..n - 1]), requests[n - 1], id);
    }
  }

  /** An applied fact was not there before and is the last of its invocation's facts right after. */
  lemma AppliedAppends(requests: seq<Request>, n: nat)
    requires n < |requests| && Applied(requests, n)
    ensures var f := AnswerAt(requests, n).fact;
            && f.id in Run(requests[..n + 1]) && |Run(requests[..n + 1])[f.id]| == f.revision
            && Run(requests[..n + 1])[f.id][f.revision - 1] == f
            && (f.id in Run(requests[..n]) ==> |Run(requests[..n])[f.id]| == f.revision - 1)
  {
    RunValid(requests[..n]);
    RunStep(requests, n);
    var v, f := Run(requests[..n]), AnswerAt(requests, n).fact;
    if f.id in v {
      ChronicleAt(f.id, v[f.id], |v[f.id]| - 1);
    }
  }

  /** Each revision of each invocation is reported applied to one caller only. */
  lemma AppliedOnce(requests: seq<Request>, m: nat, n: nat)
    requires m < n < |requests| && Applied(requests, m) && Applied(requests, n)
    ensures var f, g := AnswerAt(requests, m).fact, AnswerAt(requests, n).fact; f.id == g.id ==> f.revision < g.revision
  {
    var f, g := AnswerAt(requests, m).fact, AnswerAt(requests, n).fact;
    if f.id == g.id {
      AppliedAppends(requests, m);
      AppliedAppends(requests, n);
      HistoryKept(requests, m + 1, n, f.id);
    }
  }

  /**
   The right to call the provider is granted once per prepared invocation, dispatch sequence and
   provider ordinal, whatever route or request the callers come with.
   */
  lemma BoundaryCrossedOnce(requests: seq<Request>, m: nat, n: nat)
    requires m < |requests| && n < |requests| && Applied(requests, m) && Applied(requests, n)
    requires AnswerAt(requests, m).fact.state.BoundaryCrossed? && AnswerAt(requests, n).fact.state.BoundaryCrossed?
    requires KeyOf(AnswerAt(requests, m).fact.id) == KeyOf(AnswerAt(requests, n).fact.id)
    ensures m == n
  {
    hide Run, Answer, Updated, ValidFact, Chronicle;
    var f, g := AnswerAt(requests, m).fact, AnswerAt(requests, n).fact;
    AppliedAppends(requests, m);
    AppliedAppends(requests, n);
    var whole := requests[..|requests|];
    HistoryKept(requests, m + 1, |requests|, f.id);
    HistoryKept(requests, n + 1, |requests|, g.id);
    RunValid(whole);
    assert f.id == g.id;
    BoundaryRevision(requests, m);
    BoundaryRevision(requests, n);
    if m < n {
      AppliedOnce(requests, m, n);
    } else if n < m {
      AppliedOnce(requests, n, m);
    }
  }

  lemma BoundaryRevision(requests: seq<Request>, n: nat)
    requires n < |requests| && Applied(requests, n) && AnswerAt(requests, n).fact.state.BoundaryCrossed?
    ensures AnswerAt(requests, n).fact.revision == 2
  {
    RunValid(requests[..n]);
  }

  /** In every reachable store a history is revisions one to current, legally linked, under one attempt key. */
  lemma ReachableHistories(requests: seq<Request>, id: Id, i: nat)
    requires id in Run(requests) && i < |Run(requests)[id]|
    ensures Chronicle(id, Run(requests)[id]) && Run(requests)[id][i].revision == i + 1 <= 3
    ensures forall other :: other in Run(requests) && KeyOf(other) == KeyOf(id) ==> other == id
  {
    RunValid(requests);
    ChronicleAt(id, Run(requests)[id], i);
  }
}
