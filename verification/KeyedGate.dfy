/**
 The reference-counted keyed gate (application/review_waiting_coordinator_v1.go and
 application/single_call_tool_action_coordinator_v2.go).

 Two levels of locking: the gate's mutex guards the entry map and the counts, each entry's
 mutex is the lock handed to the caller.  Entries appear on first use and are deleted with
 their last reference.  Every read, write, lock and unlock is a step of its own, and a run
 is any schedule of any number of threads.
 */
module KeyedGate {
  import opened Wrappers

  datatype Entry = Entry(refs: nat, owner: Option<nat>)

  /** Where a thread stands in acquire or in the release function it returned. */
  datatype Pc =
    | Idle
    | WantGate(key: nat)
    | Lookup(key: nat)
    | Found(key: nat, e: nat)
    | Counted(key: nat, e: nat)
    | WantEntry(key: nat, e: nat)
    | Holding(key: nat, e: nat)
    | WantGateBack(key: nat, e: nat)
    | Uncounting(key: nat, e: nat)
    | Uncounted(key: nat, e: nat)
    | Leaving(key: nat)
  {
    predicate InGate() { Lookup? || Found? || Counted? || Uncounting? || Uncounted? || Leaving? }

    /** From refs++ to refs--. */
    predicate References(x: nat) {
      (Counted? || WantEntry? || Holding? || WantGateBack? || Uncounting?) && this.e == x
    }

    predicate NamesEntry() {
      Found? || Counted? || WantEntry? || Holding? || WantGateBack? || Uncounting? || Uncounted?
    }
  }

  /** heap keeps every entry ever allocated; entries is the gate's map. */
  datatype State = State(gate: Option<nat>, entries: map<nat, nat>, heap: map<nat, Entry>, threads: map<nat, Pc>)

  function PcOf(s: State, t: nat): Pc { if t in s.threads then s.threads[t] else Idle }

  function Go(s: State, t: nat, pc: Pc): State { s.(threads := s.threads[t := pc]) }

  function SetRefs(s: State, e: nat, refs: nat): State
    requires e in s.heap
  {
    s.(heap := s.heap[e := s.heap[e].(refs := refs)])
  }

  function SetOwner(s: State, e: nat, owner: Option<nat>): State
    requires e in s.heap
  {
    s.(heap := s.heap[e := s.heap[e].(owner := owner)])
  }

  /** Thread t takes its next step; a step on a taken mutex waits.  key and spare feed acquire and allocation. */
  function Step(s: State, t: nat, key: nat, spare: nat): State {
    match PcOf(s, t)
    case Idle => Go(s, t, WantGate(key))
    case WantGate(k) => if s.gate.None? then Go(s.(gate := Some(t)), t, Lookup(k)) else s
    case Lookup(k) =>
      if k in s.entries then Go(s, t, Found(k, s.entries[k]))
      else if spare in s.heap then s
      else Go(s.(heap := s.heap[spare := Entry(0, None)], entries := s.entries[k := spare]), t, Found(k, spare))
    case Found(k, e) => if e in s.heap then Go(SetRefs(s, e, s.heap[e].refs + 1), t, Counted(k, e)) else s
    case Counted(k, e) => Go(s.(gate := None), t, WantEntry(k, e))
    case WantEntry(k, e) =>
      if e in s.heap && s.heap[e].owner.None? then Go(SetOwner(s, e, Some(t)), t, Holding(k, e)) else s
    case Holding(k, e) => if e in s.heap then Go(SetOwner(s, e, None), t, WantGateBack(k, e)) else s
    case WantGateBack(k, e) => if s.gate.None? then Go(s.(gate := Some(t)), t, Uncounting(k, e)) else s
    case Uncounting(k, e) =>
      if e in s.heap && s.heap[e].refs > 0 then Go(SetRefs(s, e, s.heap[e].refs - 1), t, Uncounted(k, e)) else s
    case Uncounted(k, e) =>
      if e in s.heap && s.heap[e].refs == 0 then Go(s.(entries := s.entries - {k}), t, Leaving(k))
      else Go(s, t, Leaving(k))
    case Leaving(k) => Go(s.(gate := None), t, Idle)
  }

  datatype Turn = Turn(thread: nat, key: nat, spare: nat)

  function Run(schedule: seq<Turn>): State {
    if schedule == [] then State(None, map[], map[], map[])
    else
      var last := schedule[|schedule| - 1];
      Step(Run(schedule[..|schedule| - 1]), last.thread, last.key, last.spare)
  }

  // ---------------------------------------------------------- the invariant

  ghost function Referrers(s: State, e: nat): set<nat> { set t | t in s.threads && s.threads[t].References(e) }

  /** refs is exactly the number of threads between their refs++ and their refs--. */
  ghost predicate RefsCount(s: State) {
    forall e :: e in s.heap ==> s.heap[e].refs == |Referrers(s, e)|
  }

  ghost predicate GateHeld(s: State) {
    && (forall t :: t in s.threads && s.threads[t].InGate() ==> s.gate == Some(t))
    && (s.gate.Some? ==> s.gate.value in s.threads && s.threads[s.gate.value].InGate())
  }

  /** Whoever names an entry names the one in the map; a thread that dropped its count may see it deleted. */
  ghost predicate EntryMapped(s: State) {
    forall t :: t in s.threads && s.threads[t].NamesEntry() ==>
      var k, e := s.threads[t].key, s.threads[t].e;
      e in s.heap && k in s.entries && s.entries[k] == e
  }

  ghost predicate MapInjective(s: State) {
    && (forall k :: k in s.entries ==> s.entries[k] in s.heap)
    && (forall k, l :: k in s.entries && l in s.entries && s.entries[k] == s.entries[l] ==> k == l)
  }

  ghost predicate OwnersHold(s: State) {
    && (forall t :: t in s.threads && s.threads[t].Holding? ==>
          s.threads[t].e in s.heap && s.heap[s.threads[t].e].owner == Some(t))
    && (forall e :: e in s.heap && s.heap[e].owner.Some? ==>
          var t := s.heap[e].owner.value;
          t in s.threads && s.threads[t].Holding? && s.threads[t].e == e)
  }

  /** Outside the two places that hold the gate to fix it, a mapped entry is referenced. */
  ghost predicate NoDeadEntries(s: State) {
    forall k :: k in s.entries && s.entries[k] in s.heap && s.heap[s.entries[k]].refs == 0 ==>
      exists t :: Excuses(s, t, k)
  }

  ghost predicate Inv(s: State) {
    RefsCount(s) && GateHeld(s) && EntryMapped(s) && MapInjective(s) && OwnersHold(s) && NoDeadEntries(s)
  }

  lemma ReferrersAfter(s: State, s': State, t: nat, x: nat)
    requires s'.threads == s.threads[t := PcOf(s', t)]
    ensures Referrers(s', x)
         == (if PcOf(s', t).References(x) then Referrers(s, x) + {t} else Referrers(s, x) - {t})
  {
  }

  lemma RefsKept(s: State, s': State, t: nat)
    requires RefsCount(s) && s'.threads == s.threads[t := PcOf(s', t)]
    requires forall x :: PcOf(s, t).References(x) <==> PcOf(s', t).References(x)
    requires forall x :: x in s'.heap ==>
      if x in s.heap then s'.heap[x].refs == s.heap[x].refs else s'.heap[x].refs == 0
    requires forall u, x :: u in s.threads && s.threads[u].References(x) ==> x in s.heap
    ensures RefsCount(s')
  {
    forall x | x in s'.heap ensures s'.heap[x].refs == |Referrers(s', x)| {
      ReferrersAfter(s, s', t, x);
      assert t in Referrers(s, x) <==> PcOf(s, t).References(x);
      if x in s.heap {
        assert Referrers(s', x) == Referrers(s, x);
      } else {
        assert Referrers(s', x) == {};
      }
    }
  }

  lemma RefsChanged(s: State, s': State, t: nat, e: nat)
    requires RefsCount(s) && s'.threads == s.threads[t := PcOf(s', t)] && e in s.heap
    requires forall x :: x != e ==> !PcOf(s, t).References(x) && !PcOf(s', t).References(x)
    requires PcOf(s, t).References(e) != PcOf(s', t).References(e)
    requires PcOf(s, t).References(e) ==> s.heap[e].refs > 0
    requires s'.heap == s.heap[e := s.heap[e].(refs :=
      if PcOf(s', t).References(e) then s.heap[e].refs + 1 else s.heap[e].refs - 1)]
    ensures RefsCount(s')
  {
    forall x | x in s'.heap ensures s'.heap[x].refs == |Referrers(s', x)| {
      ReferrersAfter(s, s', t, x);
      assert t in Referrers(s, x) <==> PcOf(s, t).References(x);
      if x != e {
        assert Referrers(s', x) == Referrers(s, x);
      }
    }
  }

  lemma RefsPositive(s: State, t: nat, e: nat)
    requires RefsCount(s) && t in s.threads && s.threads[t].References(e) && e in s.heap
    ensures s.heap[e].refs > 0
  {
    assert t in Referrers(s, e);
  }

  lemma StepKeepsRefs(s: State, t: nat, key: nat, spare: nat)
    requires RefsCount(s) && EntryMapped(s)
    ensures RefsCount(Step(s, t, key, spare))
  {
    hide RefsCount;
    var s' := Step(s, t, key, spare);
    var pc := PcOf(s, t);
    if s' != s {
      assert s'.threads == s.threads[t := PcOf(s', t)];
      if pc.Found? || pc.Uncounting? {
        RefsChanged(s, s', t, pc.e);
      } else {
        RefsKept(s, s', t);
      }
    }
  }

  lemma StepKeepsGate(s: State, t: nat, key: nat, spare: nat)
    requires GateHeld(s)
    ensures GateHeld(Step(s, t, key, spare))
  {
  }

  lemma OwnersKept(s: State, s': State, t: nat)
    requires OwnersHold(s) && s'.threads == s.threads[t := PcOf(s', t)]
    requires !PcOf(s, t).Holding? && !PcOf(s', t).Holding?
    requires s.heap.Keys <= s'.heap.Keys
    requires forall x :: x in s'.heap ==> s'.heap[x].owner == if x in s.heap then s.heap[x].owner else None
    ensures OwnersHold(s')
  {
  }

  lemma StepKeepsOwners(s: State, t: nat, key: nat, spare: nat)
    requires OwnersHold(s)
    ensures OwnersHold(Step(s, t, key, spare))
  {
    var s' := Step(s, t, key, spare);
    if s' != s {
      match PcOf(s, t)
      case WantEntry(k, e) =>
      case Holding(k, e) =>
      case _ =>
        hide OwnersHold;
        OwnersKept(s, s', t);
    }
  }

  lemma StepKeepsMap(s: State, t: nat, key: nat, spare: nat)
    requires RefsCount(s) && GateHeld(s) && EntryMapped(s) && MapInjective(s)
    ensures EntryMapped(Step(s, t, key, spare)) && MapInjective(Step(s, t, key, spare))
  {
    var pc := PcOf(s, t);
    hide RefsCount;
    if pc.Uncounted? && s.heap[pc.e].refs == 0 {
      // Nobody else names the entry being deleted: it has no referrer, and the gate is ours.
      forall u | u in s.threads && u != t && s.threads[u].NamesEntry() ensures s.threads[u].key != pc.key {
        if s.threads[u].key == pc.key && s.threads[u].References(pc.e) {
          RefsPositive(s, u, pc.e);
        }
      }
    }
  }

  /** Thread t stands where an unreferenced entry of key k may still be mapped. */
  ghost predicate Excuses(s: State, t: nat, k: nat) {
    t in s.threads && (s.threads[t].Found? || s.threads[t].Uncounted?) && s.threads[t].key == k
  }

  lemma LiveKept(s: State, s': State, t: nat)
    requires NoDeadEntries(s) && s'.threads == s.threads[t := PcOf(s', t)]
    requires forall k :: k in s'.entries && s'.entries[k] in s'.heap && s'.heap[s'.entries[k]].refs == 0 ==>
      || Excuses(s', t, k)
      || (!Excuses(s, t, k) && k in s.entries && s.entries[k] in s.heap && s.heap[s.entries[k]].refs == 0)
    ensures NoDeadEntries(s')
  {
    forall k | k in s'.entries && s'.entries[k] in s'.heap && s'.heap[s'.entries[k]].refs == 0
      ensures exists u :: Excuses(s', u, k)
    {
      if !Excuses(s', t, k) {
        var u :| Excuses(s, u, k);
        assert Excuses(s', u, k);
      }
    }
  }

  lemma StepKeepsLive(s: State, t: nat, key: nat, spare: nat)
    requires NoDeadEntries(s) && EntryMapped(s) && MapInjective(s)
    ensures NoDeadEntries(Step(s, t, key, spare))
  {
    hide NoDeadEntries;
    var s' := Step(s, t, key, spare);
    if s' != s {
      match PcOf(s, t)
      case Lookup(k) => LiveKept(s, s', t);
      case Found(k, e) => LiveKept(s, s', t);
      case Uncounting(k, e) => LiveKept(s, s', t);
      case Uncounted(k, e) => LiveKept(s, s', t);
      case _ =>
        hide EntryMapped, MapInjective;
        LiveKept(s, s', t);
    }
  }

  lemma StepKeepsInv(s: State, t: nat, key: nat, spare: nat)
    requires Inv(s)
    ensures Inv(Step(s, t, key, spare))
  {
    StepKeepsRefs(s, t, key, spare);
    StepKeepsGate(s, t, key, spare);
    StepKeepsOwners(s, t, key, spare);
    StepKeepsMap(s, t, key, spare);
    StepKeepsLive(s, t, key, spare);
  }

  lemma {:induction false} RunKeepsInv(schedule: seq<Turn>)
    ensures Inv(Run(schedule))
  {
    if schedule != [] {
      var last := schedule[|schedule| - 1];
      RunKeepsInv(schedule[..|schedule| - 1]);
      StepKeepsInv(Run(schedule[..|schedule| - 1]), last.thread, last.key, last.spare);
    }
  }

  // ------------------------------------------------------------- theorems

  /** Under every schedule no two threads hold the same key. */
  lemma MutualExclusion(schedule: seq<Turn>, t: nat, u: nat)
    requires PcOf(Run(schedule), t).Holding? && PcOf(Run(schedule), u).Holding?
    requires PcOf(Run(schedule), t).key == PcOf(Run(schedule), u).key
    ensures t == u
  {
    RunKeepsInv(schedule);
    hide Run, Step;
  }

  /** A referenced entry is the mapped one, and its count is exactly the number of threads referring to it. */
  lemma CountsAreExact(schedule: seq<Turn>, k: nat)
    requires k in Run(schedule).entries
    ensures var s := Run(schedule);
            s.entries[k] in s.heap && s.heap[s.entries[k]].refs == |Referrers(s, s.entries[k])|
    ensures var s := Run(schedule);
            forall t :: t in s.threads && s.threads[t].NamesEntry() && s.threads[t].key == k ==>
              s.threads[t].e == s.entries[k]
  {
    RunKeepsInv(schedule);
    hide Run, Step;
  }

  /**
   When the gate's own mutex is free, a key is in the map exactly when some thread holds or waits for it: nothing
   leaks.
   */
  lemma MappedIffInUse(schedule: seq<Turn>, k: nat)
    requires Run(schedule).gate.None?
    ensures var s := Run(schedule);
            k in s.entries <==> exists t :: t in s.threads && s.threads[t].NamesEntry() && s.threads[t].key == k
  {
    RunKeepsInv(schedule);
    hide Run, Step;
    var s := Run(schedule);
    if k in s.entries {
      var e := s.entries[k];
      assert s.heap[e].refs != 0;
      assert Referrers(s, e) != {};
      var t :| t in Referrers(s, e);
      assert s.entries[s.threads[t].key] == s.entries[k];
    }
  }

  predicate Blocked(s: State, t: nat) {
    var pc := PcOf(s, t);
    || ((pc.WantGate? || pc.WantGateBack?) && s.gate.Some?)
    || (pc.WantEntry? && pc.e in s.heap && s.heap[pc.e].owner.Some?)
  }

  lemma StepMoves(s: State, t: nat, key: nat, spare: nat)
    requires Inv(s) && spare !in s.heap
    ensures PcOf(Step(s, t, key, spare), t) == PcOf(s, t) <==> Blocked(s, t)
  {
    var pc := PcOf(s, t);
    if pc.Uncounting? {
      RefsPositive(s, t, pc.e);
    }
  }

  /** A thread only ever waits for a mutex, and whoever has that mutex is not waiting: no deadlock. */
  lemma NoDeadlock(schedule: seq<Turn>, t: nat, spare: nat) returns (u: nat)
    requires spare !in Run(schedule).heap
    ensures var s := Run(schedule);
            && !Blocked(s, u)
            && (forall key :: PcOf(Step(s, u, key, spare), u) != PcOf(s, u))
            && (if Blocked(s, t) then PcOf(s, u).InGate() || PcOf(s, u).Holding? else u == t)
  {
    RunKeepsInv(schedule);
    var s := Run(schedule);
    u := if !Blocked(s, t) then t else if PcOf(s, t).WantEntry? then s.heap[PcOf(s, t).e].owner.value else s.gate.value;
    assert !Blocked(s, u);
    forall key ensures PcOf(Step(s, u, key, spare), u) != PcOf(s, u) {
      StepMoves(s, u, key, spare);
    }
  }
}
