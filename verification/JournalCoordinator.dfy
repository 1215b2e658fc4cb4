/**
 The journal coordinator (application/journal_coordinator_v2.go) on a journal store that others write too.

 The store keeps every revision.  Around each call of the coordinator other writers' transitions may be stored:
 before its read, between the read and its swap, and before the read that settles an unanswered swap.  What an
 advance and the readiness scan promise is proved for all of them.
 */
module JournalCoordinator {
  import opened Wrappers
  import opened WorkflowJournal

  // ----------------------------------------------------- the store's history

  function Last(h: seq<Journal>): Journal
    requires h != []
  {
    h[|h| - 1]
  }

  /** Every stored revision is a legal transition of the one before. */
  ghost predicate Chain(plan: Plan, h: seq<Journal>) {
    && h != [] && ValidFor(plan, h[0])
    && forall k :: 0 <= k < |h| - 1 ==> Transition(plan, h[k], h[k + 1])
  }

  /** Other writers' journals, each stored if the store accepts it. */
  function Grown(plan: Plan, h: seq<Journal>, js: seq<Journal>): (g: seq<Journal>)
    requires h != []
    ensures h <= g
  {
    if js == [] then h
    else
      var g := Grown(plan, h, js[..|js| - 1]);
      if Transition(plan, Last(g), js[|js| - 1]) then g + [js[|js| - 1]] else g
  }

  lemma ChainAppends(plan: Plan, h: seq<Journal>, j: Journal)
    requires Chain(plan, h) && Transition(plan, Last(h), j)
    ensures Chain(plan, h + [j])
  {
    hide Transition;
  }

  lemma {:induction false} GrownChain(plan: Plan, h: seq<Journal>, js: seq<Journal>)
    requires Chain(plan, h)
    ensures Chain(plan, Grown(plan, h, js))
    ensures forall k :: |h| <= k < |Grown(plan, h, js)| ==> Grown(plan, h, js)[k] in js
  {
    hide Transition;
    if js != [] {
      var front := js[..|js| - 1];
      GrownChain(plan, h, front);
      var g, j := Grown(plan, h, front), js[|js| - 1];
      if Transition(plan, Last(g), j) {
        ChainAppends(plan, g, j);
      }
    }
  }

  lemma {:induction false} ChainAt(plan: Plan, h: seq<Journal>, k: nat)
    requires Chain(plan, h) && k < |h|
    ensures ValidFor(plan, h[k]) && h[k].revision == h[0].revision + k
  {
    if k > 0 {
      ChainAt(plan, h, k - 1);
      assert Transition(plan, h[k - 1], h[k]);
    }
  }

  // ---------------------------------------------------------------- one advance

  /** What may happen to a swap: an answer, an applied swap without an answer, or a swap that never arrived. */
  datatype Fault = NoFault | AnswerLost | NotReached

  /**
   What surrounds one call: the clock, whether the plan is still current by it, whether the two reads are answered,
   what becomes of the swap, and what other writers store before the read, the swap and the recovery read.
   */
  datatype Around = Around(now: int, current: bool, read: bool, fault: Fault, reread: bool,
                           beforeRead: seq<Journal>, beforeSwap: seq<Journal>, beforeReread: seq<Journal>)

  datatype Swapped = Stored | Moved | Refused

  /** The store's swap: on the current revision only, and only a legal transition of it. */
  function SwapAnswer(plan: Plan, h: seq<Journal>, next: Journal): Swapped
    requires h != []
  {
    if next.revision != Last(h).revision + 1 then Moved
    else if !Transition(plan, Last(h), next) then Refused
    else Stored
  }

  /** After an unanswered or overtaken swap only the very journal meant, read back as the current one, will do. */
  function Recovered(plan: Plan, h: seq<Journal>, next: Journal, a: Around)
    : (seq<Journal>, Result<Journal, JournalError>)
    requires h != []
  {
    var h := Grown(plan, h, a.beforeReread);
    (h, if !a.reread then Failure(Unavailable) else if Last(h) == next then Success(next) else Failure(Conflict))
  }

  function Swap(plan: Plan, h: seq<Journal>, next: Journal, a: Around): (seq<Journal>, Result<Journal, JournalError>)
    requires h != []
  {
    if a.fault.NotReached? then Recovered(plan, h, next, a)
    else
      var answer := SwapAnswer(plan, h, next);
      var after := if answer.Stored? then h + [next] else h;
      if a.fault.AnswerLost? || answer.Moved? then Recovered(plan, after, next, a)
      else if answer.Refused? then (h, Failure(Precondition))
      else (after, Success(next))
  }

  /** The store's history and the answer after one advance. */
  function AdvanceOn(plan: Plan, h: seq<Journal>, r: Request, a: Around): (seq<Journal>, Result<Journal, JournalError>)
    requires h != []
  {
    var seen := Grown(plan, h, a.beforeRead);
    if !a.read then (seen, Failure(Unavailable))
    else match AdvanceNext(plan, Last(seen), r, a.now, a.current)
      case Failure(e) => (seen, Failure(e))
      case Success(None) => (seen, Success(Last(seen)))
      case Success(Some(next)) => Swap(plan, Grown(plan, seen, a.beforeSwap), next, a)
  }

  class Store {
    const plan: Plan
    var history: seq<Journal>

    ghost predicate Valid()
      reads this
    {
      Chain(plan, history)
    }

    constructor (plan: Plan, created: int)
      ensures Valid() && this.plan == plan && history == [Initial(plan, created)]
    {
      this.plan, history := plan, [Initial(plan, created)];
      InitialInv(plan, {}, created);
    }

    /** Other writers get their turn. */
    method Others(js: seq<Journal>)
      requires Valid()
      modifies this
      ensures Valid() && history == Grown(plan, old(history), js)
    {
      GrownChain(plan, history, js);
      ghost var start := history;
      for n := 0 to |js|
        invariant start != [] && history == Grown(plan, start, js[..n])
      {
        assert js[..n + 1][..n] == js[..n];
        if Transition(plan, Last(history), js[n]) {
          history := history + [js[n]];
        }
      }
      assert js[..|js|] == js;
    }

    method CompareAndSwap(next: Journal) returns (answer: Swapped)
      requires Valid()
      modifies this
      ensures Valid() && answer == SwapAnswer(plan, old(history), next)
      ensures history == if answer.Stored? then old(history) + [next] else old(history)
    {
      if next.revision != Last(history).revision + 1 {
        return Moved;
      }
      if !Transition(plan, Last(history), next) {
        return Refused;
      }
      ChainAppends(plan, history, next);
      history := history + [next];
      return Stored;
    }

    method Recover(next: Journal, a: Around) returns (result: Result<Journal, JournalError>)
      requires Valid()
      modifies this
      ensures Valid() && (history, result) == Recovered(plan, old(history), next, a)
    {
      Others(a.beforeReread);
      if !a.reread {
        return Failure(Unavailable);
      }
      if Last(history) != next {
        return Failure(Conflict);
      }
      return Success(Last(history));
    }

    /** AdvanceStepV2: one step transition; an unanswered swap is settled by reading the journal back. */
    method AdvanceStep(r: Request, a: Around) returns (result: Result<Journal, JournalError>)
      requires Valid()
      modifies this
      ensures Valid() && (history, result) == AdvanceOn(plan, old(history), r, a)
    {
      Others(a.beforeRead);
      if !a.read {
        return Failure(Unavailable);
      }
      var read := Last(history);
      var index := IndexOf(read.steps, r.step);
      if index == |read.steps| {
        return Failure(NotFound);
      }
      if r.target.Completed? && IsGoverned(plan, r.step) {
        return Failure(Forbidden);
      }
      if NeedsCurrentPlan(read.steps[index], r.target) && !a.current {
        return Failure(PlanExpired);
      }
      if AlreadyMatches(read.steps[index], r) {
        return Success(read);
      }
      if a.now < read.updated {
        return Failure(ClockRegressed);
      }
      var progress := Advanced(read.steps[index], r, a.now);
      if progress.None? {
        return Failure(UnsupportedTarget);
      }
      var next := WithStep(read, index, progress.value, a.now);
      Others(a.beforeSwap);
      var unanswered := a.fault.NotReached?;
      if !a.fault.NotReached? {
        var answer := CompareAndSwap(next);
        if answer.Refused? && a.fault.NoFault? {
          return Failure(Precondition);
        }
        unanswered := a.fault.AnswerLost? || answer.Moved?;
      }
      if unanswered {
        result := Recover(next, a);
        return;
      }
      return Success(next);
    }

    /**
     RefreshReadyStepsV2.  Each pending step whose dependencies are resolved is made ready, one advance at a time,
     whoever else writes.  A success returns a stored revision, no older than the one current at the start, that
     has no such step left; all that was stored of its own makes one such step ready.  The calls made, at most one
     per step of the plan, say exactly why a failure is one; without faults and other writers there is none, and
     the steps made ready are exactly those that could be.
     */
    method RefreshReady(env: nat -> Around) returns (result: Result<Journal, JournalError>, calls: seq<Call>)
      requires Valid() && DistinctIds(plan)
      modifies this
      ensures Valid() && ScanKeeps(plan, env, old(history), history, result, calls)
    {
      calls := [];
      ghost var start := history;
      ScanStarts(plan, env, start);
      hide Valid, Held, ScanKeeps, Refreshable, AdvanceOn, DistinctIds, PendingCount;
      if !env(0).current {
        return Failure(PlanExpired), calls;
      }
      Others(env(0).beforeRead);
      if !env(0).read {
        return Failure(Unavailable), calls;
      }
      var current := Last(history);
      ghost var m: nat := |history| - 1;
      while true
        invariant Valid() && Held(plan, env, start, history, m, calls)
        invariant m < |history| && history[m] == current && |current.steps| == |plan|
        decreases PendingCount(current.steps)
      {
        var index := 0;
        while index < |plan| && !Refreshable(plan, current, index)
          invariant index <= |plan| && forall i :: 0 <= i < index ==> !Refreshable(plan, current, i)
        {
          index := index + 1;
        }
        if index == |plan| {
          ScanEnds(plan, env, start, history, m, calls);
          return Success(current), calls;
        }
        m := ScanCalls(plan, env, start, history, m, calls, index);
        var before := history;
        result := AdvanceStep(ReadyRequest(plan, index), env(|calls| + 1));
        calls := calls + [Call(before, index)];
        if result.Failure? {
          return;
        }
        current := result.value;
      }
    }
  }

  // -------------------------------------------------- what an advance promises

  predicate FromOthers(a: Around, j: Journal) { j in a.beforeRead || j in a.beforeSwap || j in a.beforeReread }

  /** The journal is stored at this position or later. */
  predicate StoredSince(g: seq<Journal>, from: int, j: Journal) { exists k :: 0 <= k < |g| && from <= k && g[k] == j }

  predicate AtTarget(j: Journal, r: Request) {
    var i := IndexOf(j.steps, r.step);
    i < |j.steps| && j.steps[i].state == r.target
  }

  lemma IndexAfter(steps: seq<Progress>, id: nat, p: Progress)
    requires IndexOf(steps, id) < |steps| && p.id == id
    ensures IndexOf(steps[IndexOf(steps, id) := p], id) == IndexOf(steps, id)
  {
    var i := IndexOf(steps, id);
    var after := steps[i := p];
    assert after[i].id == id;
    assert forall k :: 0 <= k < i ==> after[k].id != id;
  }

  /** An advance that wants to store something leads to its target, one revision on. */
  lemma NextAtTarget(plan: Plan, j: Journal, r: Request, now: int, current: bool)
    requires AdvanceNext(plan, j, r, now, current).Success?
    ensures match AdvanceNext(plan, j, r, now, current).value
            case None => AtTarget(j, r)
            case Some(next) => AtTarget(next, r) && next.revision == j.revision + 1
  {
    var i := IndexOf(j.steps, r.step);
    var p := Advanced(j.steps[i], r, now);
    if AdvanceNext(plan, j, r, now, current).value.Some? {
      IndexAfter(j.steps, r.step, p.value);
    }
  }

  /** Read back, or stored: the recovery ends with a chain that extends the one before. */
  lemma RecoveredChain(plan: Plan, h: seq<Journal>, next: Journal, a: Around)
    requires Chain(plan, h)
    ensures var (g, result) := Recovered(plan, h, next, a);
            && Chain(plan, g) && h <= g && (forall k :: |h| <= k < |g| ==> g[k] in a.beforeReread)
            && (result.Success? ==> result.value == next == Last(g))
  {
    GrownChain(plan, h, a.beforeReread);
  }

  /** The swap stores its own journal at the end of what it finds, or nothing. */
  lemma SwapChain(plan: Plan, h: seq<Journal>, next: Journal, a: Around)
    requires Chain(plan, h)
    ensures var (g, result) := Swap(plan, h, next, a);
            && Chain(plan, g) && h <= g
            && (forall k :: |h| <= k < |g| ==> g[k] in a.beforeReread || (k == |h| && g[k] == next))
            && (result.Success? ==> result.value == next && StoredSince(g, |h| - 1, next))
  {
    if SwapAnswer(plan, h, next).Stored? {
      ChainAppends(plan, h, next);
      RecoveredChain(plan, h + [next], next, a);
      assert (h + [next])[|h|] == next;
    }
    RecoveredChain(plan, h, next, a);
    hide Chain, Transition, Recovered;
    var (g, result) := Swap(plan, h, next, a);
    assert result.Success? ==> g[|g| - 1] == next;
  }

  /**
   Whoever else writes: a successful advance returns a stored revision, no older than the one current before, at
   which the step is at its target; and it stores at most one journal of its own, right after the one it read.
   */
  lemma AdvanceIsStored(plan: Plan, h: seq<Journal>, r: Request, a: Around)
    requires Chain(plan, h)
    ensures var (g, result) := AdvanceOn(plan, h, r, a);
            var seen := Grown(plan, h, a.beforeRead);
            && Chain(plan, g) && h <= g
            && (result.Success? ==> StoredSince(g, |h| - 1, result.value) && AtTarget(result.value, r))
            && (forall k :: |h| <= k < |g| && !FromOthers(a, g[k]) ==>
                  k == |seen| && AdvanceNext(plan, Last(seen), r, a.now, a.current) == Success(Some(g[k])))
  {
    var seen := Grown(plan, h, a.beforeRead);
    GrownChain(plan, h, a.beforeRead);
    var answer := AdvanceNext(plan, Last(seen), r, a.now, a.current);
    if answer.Success? {
      NextAtTarget(plan, Last(seen), r, a.now, a.current);
      if answer.value.Some? {
        GrownChain(plan, seen, a.beforeSwap);
        SwapChain(plan, Grown(plan, seen, a.beforeSwap), answer.value.value, a);
        OwnSwapFirst(plan, seen, answer.value.value, a);
      } else {
        assert seen[|seen| - 1] == Last(seen);
      }
    }
  }

  /** A swap prepared from what was read is stored only if nobody stored anything in between. */
  lemma OwnSwapFirst(plan: Plan, seen: seq<Journal>, next: Journal, a: Around)
    requires Chain(plan, seen) && next.revision == Last(seen).revision + 1
    ensures var found := Grown(plan, seen, a.beforeSwap);
            Chain(plan, found) && (SwapAnswer(plan, found, next).Moved? <==> found != seen)
  {
    var found := Grown(plan, seen, a.beforeSwap);
    GrownChain(plan, seen, a.beforeSwap);
    ChainAt(plan, found, |seen| - 1);
    ChainAt(plan, found, |found| - 1);
    if |found| == |seen| {
      assert found == seen;
    }
  }

  /**
   An applied swap whose answer is lost is a success exactly if nobody else stores anything before the journal is
   read back; otherwise the advance reports a conflict although its step was made.
   */
  lemma LostAnswerSucceedsIff(plan: Plan, h: seq<Journal>, r: Request, a: Around, next: Journal)
    requires Chain(plan, h) && a.read && a.reread && a.fault.AnswerLost?
    requires var seen := Grown(plan, h, a.beforeRead);
             && AdvanceNext(plan, Last(seen), r, a.now, a.current) == Success(Some(next))
             && Transition(plan, Last(seen), next) && Grown(plan, seen, a.beforeSwap) == seen
    ensures var (g, result) := AdvanceOn(plan, h, r, a);
            var stored := Grown(plan, h, a.beforeRead) + [next];
            && stored <= g
            && result == if g == stored then Success(next) else Failure(Conflict)
  {
    var seen := Grown(plan, h, a.beforeRead);
    GrownChain(plan, h, a.beforeRead);
    ChainAppends(plan, seen, next);
    OnlyWhenLast(plan, seen + [next], next, a.beforeReread);
    hide Chain;
  }

  /** A revision is the last one only as long as nothing is stored after it. */
  lemma OnlyWhenLast(plan: Plan, h: seq<Journal>, j: Journal, js: seq<Journal>)
    requires Chain(plan, h) && Last(h) == j
    ensures Last(Grown(plan, h, js)) == j <==> Grown(plan, h, js) == h
  {
    var g := Grown(plan, h, js);
    GrownChain(plan, h, js);
    ChainAt(plan, g, |h| - 1);
    ChainAt(plan, g, |g| - 1);
    if |g| == |h| {
      assert g == h;
    }
  }

  // ------------------------------------------------------- making a step ready

  predicate Refreshable(plan: Plan, j: Journal, i: nat)
    requires i < |plan| && |j.steps| == |plan|
  {
    j.steps[i].state.Pending? && DependenciesSatisfied(j.steps, plan[i])
  }

  function MadeReady(p: Progress, now: int): Progress {
    p.(state := Ready, attempt := 0, effect := None, settlement := None, lastError := "", updated := now)
  }

  function ReadyRequest(plan: Plan, i: nat): Request
    requires i < |plan|
  {
    Request(plan[i].id, Ready, None, None, "")
  }

  function ReadyNext(j: Journal, i: nat, now: int): Journal
    requires i < |j.steps|
  {
    WithStep(j, i, MadeReady(j.steps[i], now), now)
  }

  lemma IndexIs(plan: Plan, j: Journal, i: nat)
    requires ValidFor(plan, j) && DistinctIds(plan) && i < |plan|
    ensures IndexOf(j.steps, plan[i].id) == i
  {
    var k := IndexOf(j.steps, plan[i].id);
    assert j.steps[i].id == plan[i].id;
  }

  lemma ReadyAnswer(plan: Plan, j: Journal, i: nat, now: int, current: bool)
    requires ValidFor(plan, j) && DistinctIds(plan) && i < |plan|
    ensures i < |j.steps|
    ensures AdvanceNext(plan, j, ReadyRequest(plan, i), now, current)
         == if !current then Failure(PlanExpired)
            else if j.steps[i].state.Ready? then Success(None)
            else if now < j.updated then Failure(ClockRegressed)
            else Success(Some(ReadyNext(j, i, now)))
    ensures !j.steps[i].state.Ready? && j.updated <= now ==>
      (Transition(plan, j, ReadyNext(j, i, now)) <==> Refreshable(plan, j, i) && j.steps[i].updated <= now)
  {
    IndexIs(plan, j, i);
    var next := ReadyNext(j, i, now);
    assert next.steps == j.steps[i := next.steps[i]];
  }

  /**
   What it takes to make a step ready: both the plan and the clock current, and either the step ready already, or
   an own swap on an undisturbed store whose answer arrives or whose journal is still the last one read back, or
   another writer's storing of the very same journal.
   */
  predicate ReadySucceeds(plan: Plan, h: seq<Journal>, i: nat, a: Around)
    requires h != []
  {
    var seen := Grown(plan, h, a.beforeRead);
    var found := Grown(plan, seen, a.beforeSwap);
    && a.read && a.current && i < |plan| == |Last(seen).steps|
    && (Last(seen).steps[i].state.Ready? ||
        (Last(seen).updated <= a.now &&
         var next := ReadyNext(Last(seen), i, a.now);
         if a.fault.NotReached? || found != seen
         then a.reread && Last(Grown(plan, found, a.beforeReread)) == next
         else
           && Refreshable(plan, Last(seen), i) && Last(seen).steps[i].updated <= a.now
           && (a.fault.NoFault? || (a.reread && Grown(plan, seen + [next], a.beforeReread) == seen + [next]))))
  }

  lemma ReadySucceedsIff(plan: Plan, h: seq<Journal>, i: nat, a: Around)
    requires Chain(plan, h) && DistinctIds(plan) && i < |plan|
    ensures AdvanceOn(plan, h, ReadyRequest(plan, i), a).1.Success? <==> ReadySucceeds(plan, h, i, a)
  {
    var seen := Grown(plan, h, a.beforeRead);
    GrownChain(plan, h, a.beforeRead);
    ChainAt(plan, seen, |seen| - 1);
    ReadyAnswer(plan, Last(seen), i, a.now, a.current);
    if a.current && !Last(seen).steps[i].state.Ready? && Last(seen).updated <= a.now {
      SwapReadyIff(plan, seen, i, a);
    }
    hide Chain, Transition, AdvanceNext, Swap, ValidFor, DistinctIds;
  }

  lemma SwapReadyIff(plan: Plan, seen: seq<Journal>, i: nat, a: Around)
    requires Chain(plan, seen) && DistinctIds(plan) && i < |plan| == |Last(seen).steps|
    requires !Last(seen).steps[i].state.Ready? && Last(seen).updated <= a.now
    ensures var found, next := Grown(plan, seen, a.beforeSwap), ReadyNext(Last(seen), i, a.now);
            Swap(plan, found, next, a).1.Success? <==>
              if a.fault.NotReached? || found != seen
              then a.reread && Last(Grown(plan, found, a.beforeReread)) == next
              else
                && Refreshable(plan, Last(seen), i) && Last(seen).steps[i].updated <= a.now
                && (a.fault.NoFault? || (a.reread && Grown(plan, seen + [next], a.beforeReread) == seen + [next]))
  {
    var found, next := Grown(plan, seen, a.beforeSwap), ReadyNext(Last(seen), i, a.now);
    OwnSwapFirst(plan, seen, next, a);
    ChainAt(plan, seen, |seen| - 1);
    ReadyAnswer(plan, Last(seen), i, a.now, true);
    if Transition(plan, Last(seen), next) {
      ChainAppends(plan, seen, next);
      OnlyWhenLast(plan, seen + [next], next, a.beforeReread);
    } else {
      NeverRefused(plan, seen, next, a.beforeReread);
    }
    hide Chain, Transition, ValidFor, DistinctIds, Refreshable, WithStep;
  }

  /** A journal the store refuses next is not what is read back next either. */
  lemma NeverRefused(plan: Plan, h: seq<Journal>, next: Journal, js: seq<Journal>)
    requires Chain(plan, h) && next.revision == Last(h).revision + 1 && !Transition(plan, Last(h), next)
    ensures Last(Grown(plan, h, js)) != next
  {
    var g := Grown(plan, h, js);
    GrownChain(plan, h, js);
    ChainAt(plan, g, |h| - 1);
    ChainAt(plan, g, |g| - 1);
    assert |g| > |h| ==> Transition(plan, g[|h| - 1], g[|h|]);
  }

  // ------------------------------------------------------------ the readiness scan

  function PendingCount(steps: seq<Progress>): nat {
    if steps == [] then 0 else PendingCount(steps[..|steps| - 1]) + if steps[|steps| - 1].state.Pending? then 1 else 0
  }

  lemma {:induction false} PendingBound(steps: seq<Progress>)
    ensures PendingCount(steps) <= |steps|
  {
    if steps != [] {
      PendingBound(steps[..|steps| - 1]);
    }
  }

  /** Counting pending steps of two journals of which the later has no new pending ones. */
  lemma {:induction false} PendingCompare(a: seq<Progress>, b: seq<Progress>)
    requires |a| == |b| && forall k :: 0 <= k < |a| && b[k].state.Pending? ==> a[k].state.Pending?
    ensures PendingCount(b) <= PendingCount(a)
    ensures (exists k :: 0 <= k < |a| && a[k].state.Pending? && !b[k].state.Pending?) ==>
        PendingCount(b) < PendingCount(a)
  {
    if a != [] {
      PendingCompare(a[..|a| - 1], b[..|b| - 1]);
      if exists k :: 0 <= k < |a| && a[k].state.Pending? && !b[k].state.Pending? {
        var k :| 0 <= k < |a| && a[k].state.Pending? && !b[k].state.Pending?;
        if k < |a| - 1 {
          assert a[..|a| - 1][k].state.Pending? && !b[..|b| - 1][k].state.Pending?;
        }
      }
    }
  }

  /** Between any two revisions no step becomes pending, and one that stops being pending is one less. */
  lemma {:induction false} ScanProgresses(plan: Plan, h: seq<Journal>, m: nat, n: nat, i: nat)
    requires m <= n < |h| && Chain(plan, h) && i < |plan|
    ensures |h[m].steps| == |h[n].steps| == |plan|
    ensures forall k :: 0 <= k < |plan| && h[n].steps[k].state.Pending? ==> h[m].steps[k].state.Pending?
    ensures h[m].steps[i].state.Pending? && !h[n].steps[i].state.Pending? ==>
      PendingCount(h[n].steps) < PendingCount(h[m].steps)
    decreases n
  {
    ChainAt(plan, h, m);
    if m < n {
      ScanProgresses(plan, h, m, n - 1, i);
      assert Transition(plan, h[n - 1], h[n]);
    }
    PendingCompare(h[m].steps, h[n].steps);
  }

  /** One call of the scan: the store before it, and the step it is to make ready. */
  datatype Call = Call(history: seq<Journal>, step: nat)

  ghost predicate ReadyWrite(plan: Plan, before: Journal, after: Journal) {
    exists i, now :: 0 <= i < |plan| == |before.steps| && Refreshable(plan, before, i)
      && after == ReadyNext(before, i, now)
  }

  ghost predicate ByOthers(env: nat -> Around, turns: nat, j: Journal) {
    exists t: nat :: t <= turns && FromOthers(env(t), j)
  }

  /** Whatever was stored since the scan began is other writers', or makes one refreshable step ready. */
  ghost predicate OnlyReadies(plan: Plan, env: nat -> Around, turns: nat, from: nat, h: seq<Journal>) {
    forall k :: from <= k < |h| && k > 0 ==> ByOthers(env, turns, h[k]) || ReadyWrite(plan, h[k - 1], h[k])
  }

  /** The first n calls were made on the store's history, and had all they need to succeed. */
  ghost predicate Made(plan: Plan, env: nat -> Around, calls: seq<Call>, n: nat, h: seq<Journal>) {
    n <= |calls| && forall t :: 0 <= t < n ==>
      calls[t].history != [] && calls[t].history <= h
        && ReadySucceeds(plan, calls[t].history, calls[t].step, env(t + 1))
  }

  /** The scan holds revision m, after these calls. */
  ghost predicate Scanning(plan: Plan, env: nat -> Around, start: seq<Journal>, h: seq<Journal>, m: nat,
                           calls: seq<Call>) {
    && Chain(plan, h) && start <= h && |start| - 1 <= m < |h|
    && OnlyReadies(plan, env, |calls|, |start|, h) && Made(plan, env, calls, |calls|, h)
    && |calls| + PendingCount(h[m].steps) <= |plan|
  }

  lemma OnlyReadiesOn(plan: Plan, env: nat -> Around, turns: nat, from: nat, h: seq<Journal>, i: nat)
    requires Chain(plan, h) && OnlyReadies(plan, env, turns, from, h) && DistinctIds(plan) && i < |plan|
    ensures OnlyReadies(plan, env, turns + 1, from, AdvanceOn(plan, h, ReadyRequest(plan, i), env(turns + 1)).0)
  {
    var a := env(turns + 1);
    var seen, g := Grown(plan, h, a.beforeRead), AdvanceOn(plan, h, ReadyRequest(plan, i), a).0;
    AdvanceIsStored(plan, h, ReadyRequest(plan, i), a);
    GrownChain(plan, h, a.beforeRead);
    ChainAt(plan, seen, |seen| - 1);
    ReadyAnswer(plan, Last(seen), i, a.now, a.current);
    hide AdvanceOn, AdvanceNext, Refreshable;
    forall k | from <= k < |g| && k > 0 ensures ByOthers(env, turns + 1, g[k]) || ReadyWrite(plan, g[k - 1], g[k]) {
      if k < |h| {
        assert g[k] == h[k] && g[k - 1] == h[k - 1];
      } else if !FromOthers(a, g[k]) {
        SeenBefore(plan, h, i, a, k);
        assert g[k] == ReadyNext(g[k - 1], i, a.now);
      }
    }
  }

  /** The one journal an advance stores of its own follows the one it read. */
  lemma SeenBefore(plan: Plan, h: seq<Journal>, i: nat, a: Around, k: nat)
    requires Chain(plan, h) && DistinctIds(plan) && i < |plan|
    requires var g := AdvanceOn(plan, h, ReadyRequest(plan, i), a).0; |h| <= k < |g| && !FromOthers(a, g[k])
    ensures var g := AdvanceOn(plan, h, ReadyRequest(plan, i), a).0;
            |g[k - 1].steps| == |plan| && Refreshable(plan, g[k - 1], i) && g[k] == ReadyNext(g[k - 1], i, a.now)
  {
    var seen, g := Grown(plan, h, a.beforeRead), AdvanceOn(plan, h, ReadyRequest(plan, i), a).0;
    AdvanceIsStored(plan, h, ReadyRequest(plan, i), a);
    GrownChain(plan, h, a.beforeRead);
    ChainAt(plan, seen, |seen| - 1);
    ReadyAnswer(plan, Last(seen), i, a.now, a.current);
    SeenIsPrefix(plan, h, ReadyRequest(plan, i), a);
    assert Transition(plan, g[k - 1], g[k]);
  }

  lemma SeenIsPrefix(plan: Plan, h: seq<Journal>, r: Request, a: Around)
    requires h != []
    ensures Grown(plan, h, a.beforeRead) <= AdvanceOn(plan, h, r, a).0
  {
  }

  /** A ready-advance that succeeds returns a later revision with fewer pending steps. */
  lemma CallProgresses(plan: Plan, h: seq<Journal>, m: nat, i: nat, a: Around) returns (n: nat)
    requires Chain(plan, h) && m < |h| && DistinctIds(plan) && i < |plan| == |h[m].steps| && Refreshable(plan, h[m], i)
    ensures var (g, result) := AdvanceOn(plan, h, ReadyRequest(plan, i), a);
            result.Success? ==>
              && |h| - 1 <= n < |g| && g[n] == result.value && |g[n].steps| == |plan|
              && PendingCount(g[n].steps) < PendingCount(h[m].steps)
  {
    var (g, result) := AdvanceOn(plan, h, ReadyRequest(plan, i), a);
    AdvanceIsStored(plan, h, ReadyRequest(plan, i), a);
    n := 0;
    hide AdvanceOn, Transition, ValidFor;
    if result.Success? {
      n :| 0 <= n < |g| && |h| - 1 <= n && g[n] == result.value;
      assert g[m] == h[m];
      ScanProgresses(plan, g, m, n, i);
      AtReady(plan, g, n, i);
    }
  }

  lemma MadeOn(plan: Plan, env: nat -> Around, calls: seq<Call>, h: seq<Journal>, g: seq<Journal>, i: nat)
    requires Made(plan, env, calls, |calls|, h) && h != [] && h <= g
    ensures Made(plan, env, calls, |calls|, g)
    ensures ReadySucceeds(plan, h, i, env(|calls| + 1)) ==> Made(plan, env, calls + [Call(h, i)], |calls| + 1, g)
  {
    hide ReadySucceeds;
  }

  /** One call of the scan keeps what it has done, and what it holds if the call succeeds. */
  lemma CallScans(plan: Plan, env: nat -> Around, start: seq<Journal>, h: seq<Journal>, m: nat, calls: seq<Call>,
                  i: nat)
    returns (n: nat)
    requires Scanning(plan, env, start, h, m, calls) && DistinctIds(plan) && i < |plan| == |h[m].steps|
    requires Refreshable(plan, h[m], i)
    ensures var (g, result) := AdvanceOn(plan, h, ReadyRequest(plan, i), env(|calls| + 1));
            && Chain(plan, g) && start <= h <= g && OnlyReadies(plan, env, |calls| + 1, |start|, g)
            && Made(plan, env, calls, |calls|, g)
            && (result.Success? <==> ReadySucceeds(plan, h, i, env(|calls| + 1)))
            && (result.Success? ==>
                  && n < |g| && g[n] == result.value && Scanning(plan, env, start, g, n, calls + [Call(h, i)])
                  && |g[n].steps| == |plan| && PendingCount(g[n].steps) < PendingCount(h[m].steps))
  {
    var a := env(|calls| + 1);
    n := CallProgresses(plan, h, m, i, a);
    OnlyReadiesOn(plan, env, |calls|, |start|, h, i);
    ReadySucceedsIff(plan, h, i, a);
    AdvanceIsStored(plan, h, ReadyRequest(plan, i), a);
    MadeOn(plan, env, calls, h, AdvanceOn(plan, h, ReadyRequest(plan, i), a).0, i);
    hide AdvanceOn, ReadySucceeds, OnlyReadies, Transition, ValidFor, Chain, Made, Refreshable, PendingCount;
    hide DistinctIds;
  }

  lemma AtReady(plan: Plan, g: seq<Journal>, n: nat, i: nat)
    requires Chain(plan, g) && n < |g| && DistinctIds(plan) && i < |plan| && AtTarget(g[n], ReadyRequest(plan, i))
    ensures i < |g[n].steps| && g[n].steps[i].state.Ready?
  {
    ChainAt(plan, g, n);
    IndexIs(plan, g[n], i);
  }

  ghost predicate NoneLeft(plan: Plan, j: Journal) {
    |j.steps| == |plan| && forall i :: 0 <= i < |plan| ==> !Refreshable(plan, j, i)
  }

  /** Success or failure, told from the plan, the first read and the calls made: all but the last succeeded. */
  ghost predicate EndsAsCalled(plan: Plan, env: nat -> Around, calls: seq<Call>, h: seq<Journal>, success: bool) {
    if !env(0).current || !env(0).read then calls == [] && !success
    else if calls == [] then success
    else
      var last := calls[|calls| - 1];
      && Made(plan, env, calls, |calls| - 1, h) && last.history != [] && last.history <= h
      && (success <==> ReadySucceeds(plan, last.history, last.step, env(|calls|)))
  }

  /**
   What the readiness scan promises.  A success returns a stored revision, no older than the one current at the
   start, that has no refreshable step left.  All that was stored of its own makes one refreshable step ready.  The
   calls made, at most one per step of the plan, say exactly why a failure is one; and without faults and other
   writers there is none, and the steps made ready are exactly those that could be.
   */
  ghost predicate ScanKeeps(plan: Plan, env: nat -> Around, start: seq<Journal>, h: seq<Journal>,
                            result: Result<Journal, JournalError>, calls: seq<Call>) {
    && start != [] && start <= h && |calls| <= |plan|
    && OnlyReadies(plan, env, |calls|, |start|, h)
    && EndsAsCalled(plan, env, calls, h, result.Success?)
    && (result.Success? ==> StoredSince(h, |start| - 1, result.value) && NoneLeft(plan, result.value))
    && (Quiet(env, Last(start)) ==> result.Success? && Refreshed(plan, Last(start), result.value))
  }

  /** What the scan holds on to: revision m, which left to itself is the last one, with only readied steps changed. */
  ghost predicate Held(plan: Plan, env: nat -> Around, start: seq<Journal>, h: seq<Journal>, m: nat, calls: seq<Call>) {
    && env(0).current && env(0).read && start != []
    && Scanning(plan, env, start, h, m, calls) && |h[m].steps| == |plan|
    && (Quiet(env, Last(start)) ==> QuietScan(plan, env, Last(start), h, |calls|) && m == |h| - 1)
  }

  lemma ReadsFirst(plan: Plan, env: nat -> Around, start: seq<Journal>)
    requires Chain(plan, start)
    ensures var h := Grown(plan, start, env(0).beforeRead);
            && Chain(plan, h) && |Last(h).steps| == |plan| && PendingCount(Last(h).steps) <= |plan|
            && OnlyReadies(plan, env, 0, |start|, start) && OnlyReadies(plan, env, 0, |start|, h)
  {
    var h := Grown(plan, start, env(0).beforeRead);
    GrownChain(plan, start, env(0).beforeRead);
    ChainAt(plan, h, |h| - 1);
    PendingBound(Last(h).steps);
    hide Chain, Transition;
    forall k | |start| <= k < |h| ensures ByOthers(env, 0, h[k]) {
      assert FromOthers(env(0), h[k]);
    }
  }

  lemma QuietStarts(plan: Plan, env: nat -> Around, start: seq<Journal>)
    requires start != [] && |Last(start).steps| == |plan|
    ensures Quiet(env, Last(start)) ==>
      && env(0).current && env(0).read && QuietScan(plan, env, Last(start), Grown(plan, start, env(0).beforeRead), 0)
  {
    assert Quiet(env, Last(start)) ==> QuietCallAround(env(0)) && Last(start).updated <= env(0).now;
    hide Quiet, Refreshable;
  }

  lemma ScanStarts(plan: Plan, env: nat -> Around, start: seq<Journal>)
    requires Chain(plan, start)
    ensures var h := Grown(plan, start, env(0).beforeRead);
            && |Last(h).steps| == |plan|
            && (!env(0).current ==> ScanKeeps(plan, env, start, start, Failure(PlanExpired), []))
            && (!env(0).read ==> ScanKeeps(plan, env, start, h, Failure(Unavailable), []))
            && (env(0).current && env(0).read ==> Held(plan, env, start, h, |h| - 1, []))
  {
    var h := Grown(plan, start, env(0).beforeRead);
    ReadsFirst(plan, env, start);
    ChainAt(plan, start, |start| - 1);
    QuietStarts(plan, env, start);
    hide Chain, Refreshable, PendingCount, OnlyReadies, Quiet, QuietScan, Refreshed, NoneLeft, Grown;
  }

  lemma {:induction false} PendingSome(steps: seq<Progress>, i: nat)
    requires i < |steps| && steps[i].state.Pending?
    ensures PendingCount(steps) > 0
  {
    if i < |steps| - 1 {
      PendingSome(steps[..|steps| - 1], i);
    }
  }

  lemma CallCounts(plan: Plan, env: nat -> Around, start: seq<Journal>, h: seq<Journal>, m: nat, calls: seq<Call>,
                   i: nat)
    requires Scanning(plan, env, start, h, m, calls) && i < |plan| == |h[m].steps| && Refreshable(plan, h[m], i)
    ensures |calls| < |plan| && h != [] && Made(plan, env, calls, |calls|, h)
  {
    PendingSome(h[m].steps, i);
  }

  lemma ScanEnds(plan: Plan, env: nat -> Around, start: seq<Journal>, h: seq<Journal>, m: nat, calls: seq<Call>)
    requires Held(plan, env, start, h, m, calls) && forall i :: 0 <= i < |plan| ==> !Refreshable(plan, h[m], i)
    ensures ScanKeeps(plan, env, start, h, Success(h[m]), calls)
  {
    if Quiet(env, Last(start)) {
      QuietEnds(plan, Last(start), h[m]);
    }
    hide Refreshable, ReadySucceeds, OnlyReadies, Quiet, Refreshing, Refreshed, Chain;
  }

  /** One call: either the scan goes on with what it got, or it ends with the failure. */
  lemma ScanCalls(plan: Plan, env: nat -> Around, start: seq<Journal>, h: seq<Journal>, m: nat, calls: seq<Call>,
                  i: nat)
    returns (n: nat)
    requires Held(plan, env, start, h, m, calls) && DistinctIds(plan) && i < |plan| && Refreshable(plan, h[m], i)
    ensures var (g, result) := AdvanceOn(plan, h, ReadyRequest(plan, i), env(|calls| + 1));
            var calls' := calls + [Call(h, i)];
            && (result.Failure? ==> ScanKeeps(plan, env, start, g, result, calls'))
            && (result.Success? ==>
                  && n < |g| && g[n] == result.value && |g[n].steps| == |plan|
                  && Held(plan, env, start, g, n, calls') && PendingCount(g[n].steps) < PendingCount(h[m].steps))
  {
    n := CallScans(plan, env, start, h, m, calls, i);
    CallCounts(plan, env, start, h, m, calls, i);
    var (g, result) := AdvanceOn(plan, h, ReadyRequest(plan, i), env(|calls| + 1));
    if Quiet(env, Last(start)) {
      QuietCall(plan, env, Last(start), h, |calls|, i);
      if result.Success? {
        SamePosition(plan, g, n);
        n := |g| - 1;
        hide Chain, Transition, Refreshable, Quiet, QuietScan, AdvanceOn, DistinctIds, ReadySucceeds, OnlyReadies;
      }
    }
    if result.Failure? {
      CallEnds(plan, env, calls + [Call(h, i)], g);
    }
    hide Chain, Transition, Refreshable, Quiet, QuietScan, AdvanceOn, DistinctIds, ReadySucceeds, OnlyReadies;
  }

  /** A revision is stored at one position. */
  lemma SamePosition(plan: Plan, g: seq<Journal>, n: nat)
    requires Chain(plan, g) && n < |g|
    ensures g[n] == Last(g) <==> n == |g| - 1
  {
    ChainAt(plan, g, n);
    ChainAt(plan, g, |g| - 1);
  }

  lemma CallEnds(plan: Plan, env: nat -> Around, calls: seq<Call>, h: seq<Journal>)
    requires env(0).current && env(0).read && calls != [] && Made(plan, env, calls, |calls| - 1, h)
    requires calls[|calls| - 1].history != [] && calls[|calls| - 1].history <= h
    requires !ReadySucceeds(plan, calls[|calls| - 1].history, calls[|calls| - 1].step, env(|calls|))
    ensures EndsAsCalled(plan, env, calls, h, false)
  {
  }

  // ------------------------------------------------- the scan left to itself

  /** Nobody else writes, nothing is lost, and the clock is never behind what is stored. */
  ghost predicate Quiet(env: nat -> Around, from: Journal) {
    && (forall t: nat :: QuietCallAround(env(t)))
    && (forall t: nat, u: nat :: t <= u ==> env(t).now <= env(u).now)
    && from.updated <= env(0).now && forall i :: 0 <= i < |from.steps| ==> from.steps[i].updated <= env(0).now
  }

  predicate QuietCallAround(a: Around) {
    a.current && a.read && a.fault.NoFault? && a.beforeRead == [] && a.beforeSwap == []
  }

  /** Between two journals of one refresh only refreshable steps changed, and only to ready. */
  ghost predicate Refreshing(plan: Plan, start: Journal, j: Journal) {
    && |start.steps| == |j.steps| == |plan|
    && forall i :: 0 <= i < |plan| ==>
         || j.steps[i] == start.steps[i]
         || (Refreshable(plan, start, i) && j.steps[i] == MadeReady(start.steps[i], j.steps[i].updated))
  }

  /** The fixpoint in closed form. */
  ghost predicate Refreshed(plan: Plan, start: Journal, j: Journal) {
    && |start.steps| == |j.steps| == |plan|
    && (forall i :: 0 <= i < |plan| ==> !Refreshable(plan, j, i))
    && forall i :: 0 <= i < |plan| ==>
         j.steps[i] == if Refreshable(plan, start, i) then MadeReady(start.steps[i], j.steps[i].updated)
           else start.steps[i]
  }

  ghost predicate QuietScan(plan: Plan, env: nat -> Around, from: Journal, h: seq<Journal>, turns: nat) {
    h != [] && Refreshing(plan, from, Last(h)) && Last(h).updated <= env(turns).now
  }

  /** Making steps ready resolves nothing: the refresh needs no second round to settle. */
  lemma SameResolution(plan: Plan, a: Journal, b: Journal)
    requires |a.steps| == |b.steps| == |plan|
    requires forall i :: 0 <= i < |plan| ==> a.steps[i].id == b.steps[i].id
    requires forall i :: 0 <= i < |plan| ==>
        DependencySatisfied(a.steps[i].state) == DependencySatisfied(b.steps[i].state)
    ensures forall i :: 0 <= i < |plan| ==>
        DependenciesSatisfied(a.steps, plan[i]) == DependenciesSatisfied(b.steps, plan[i])
  {
    forall d ensures SatisfiedIn(a.steps, d) == SatisfiedIn(b.steps, d) {
      if SatisfiedIn(a.steps, d) {
        var k :| 0 <= k < |a.steps| && a.steps[k].id == d && DependencySatisfied(a.steps[k].state);
        assert b.steps[k].id == d;
      }
      if SatisfiedIn(b.steps, d) {
        var k :| 0 <= k < |b.steps| && b.steps[k].id == d && DependencySatisfied(b.steps[k].state);
        assert a.steps[k].id == d;
      }
    }
  }

  lemma RefreshingResolves(plan: Plan, start: Journal, j: Journal)
    requires Refreshing(plan, start, j)
    ensures forall i :: 0 <= i < |plan| ==>
        DependenciesSatisfied(j.steps, plan[i]) == DependenciesSatisfied(start.steps, plan[i])
    ensures forall i :: 0 <= i < |plan| && j.steps[i].state.Pending? ==> j.steps[i] == start.steps[i]
  {
    SameResolution(plan, j, start);
  }

  lemma QuietEnds(plan: Plan, start: Journal, j: Journal)
    requires Refreshing(plan, start, j)
    ensures (forall i :: 0 <= i < |plan| ==> !Refreshable(plan, j, i)) ==> Refreshed(plan, start, j)
  {
    RefreshingResolves(plan, start, j);
    if forall i :: 0 <= i < |plan| ==> !Refreshable(plan, j, i) {
      forall i | 0 <= i < |plan| && Refreshable(plan, start, i)
        ensures j.steps[i] == MadeReady(start.steps[i], j.steps[i].updated)
      {
        assert !Refreshable(plan, j, i);
      }
    }
  }

  lemma RefreshingOn(plan: Plan, start: Journal, j: Journal, i: nat, now: int)
    requires Refreshing(plan, start, j) && i < |plan| && Refreshable(plan, j, i)
    ensures j.steps[i] == start.steps[i] && Refreshing(plan, start, ReadyNext(j, i, now))
  {
    RefreshingResolves(plan, start, j);
  }

  /** Left to itself, the next call makes its step ready, and nothing else. */
  lemma QuietCall(plan: Plan, env: nat -> Around, from: Journal, h: seq<Journal>, turns: nat, i: nat)
    requires Chain(plan, h) && DistinctIds(plan) && i < |plan| == |Last(h).steps|
    ensures Quiet(env, from) && QuietScan(plan, env, from, h, turns) && Refreshable(plan, Last(h), i) ==>
      var (g, result) := AdvanceOn(plan, h, ReadyRequest(plan, i), env(turns + 1));
      g != [] && result == Success(Last(g)) && QuietScan(plan, env, from, g, turns + 1)
  {
    if Quiet(env, from) && QuietScan(plan, env, from, h, turns) && Refreshable(plan, Last(h), i) {
      var a := env(turns + 1);
      assert QuietCallAround(a) && env(turns).now <= a.now && env(0).now <= a.now;
      RefreshingOn(plan, from, Last(h), i, a.now);
      ChainAt(plan, h, |h| - 1);
      ReadyAnswer(plan, Last(h), i, a.now, true);
      assert Transition(plan, Last(h), ReadyNext(Last(h), i, a.now));
      assert AdvanceOn(plan, h, ReadyRequest(plan, i), a)
          == (h + [ReadyNext(Last(h), i, a.now)], Success(ReadyNext(Last(h), i, a.now))) by {
        hide Transition, Refreshing, ValidFor, DistinctIds;
      }
      hide Transition, AdvanceOn, ValidFor, DistinctIds, Quiet;
    }
  }
}
