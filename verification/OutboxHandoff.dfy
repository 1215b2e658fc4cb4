/**
 Submission and outbox dispatch (application/facade_v2.go and application/outbox_dispatcher_v2.go).

 A workflow crosses five stores in order: its bundle, its command with the command's outbox record, its
 journal, and last the outbox mark.  Each call can lose its answer or never arrive, and any actor can
 stop after any call.  What a mark means is proved over every interleaving.
 */
module OutboxHandoff {
  import opened Wrappers
  import W = WorkflowJournal

  datatype Key = Key(scope: nat, command: nat)

  datatype Envelope = Envelope(key: Key, content: nat, payload: nat)

  datatype Bundle = Bundle(command: Envelope, payload: nat, plan: W.Plan, planCommand: nat)

  /** Bundle.Validate ties the payload and the plan to the command. */
  predicate ValidBundle(b: Bundle) { b.payload == b.command.payload && b.planCommand == b.command.key.command }

  datatype Outbox = Outbox(payload: nat, recordedAt: int, revision: nat, dispatched: bool)

  datatype JournalRecord = JournalRecord(command: nat, plan: W.Plan, journal: W.Journal)

  /** The journal ID the dispatcher derives from the digest of the scope and the command. */
  function DerivedId(scopeDigest: string, command: string): string { "workflow-journal:" + scopeDigest + ":" + command }

  /** Digests have one length, so the ID is injective in both, and a key can serve as the ID of its journal. */
  lemma DerivedIdInjective(scopeDigest: string, command: string, otherDigest: string, otherCommand: string)
    requires |scopeDigest| == |otherDigest|
    ensures DerivedId(scopeDigest, command) == DerivedId(otherDigest, otherCommand)
       <==> scopeDigest == otherDigest && command == otherCommand
  {
    var id, other := DerivedId(scopeDigest, command), DerivedId(otherDigest, otherCommand);
    var n := |"workflow-journal:"|;
    assert id[n..][..|scopeDigest|] == scopeDigest && id[n + |scopeDigest| + 1..] == command;
    assert other[n..][..|scopeDigest|] == otherDigest && other[n + |scopeDigest| + 1..] == otherCommand;
  }

  datatype Stores = Stores(submissions: map<Key, Bundle>, commands: map<Key, Envelope>, outboxes: map<Key, Outbox>,
                           journals: map<Key, JournalRecord>)

  datatype Local =
    | Out
    | Submitting(bundle: Bundle)
    | SubmitUnsure(bundle: Bundle)
    | Accepting(bundle: Bundle)
    | AcceptUnsure(bundle: Bundle)
    | Creating(key: Key, bundle: Bundle, outbox: Outbox, unknown: seq<nat>)
    | CreateUnsure(key: Key, bundle: Bundle, outbox: Outbox, unknown: seq<nat>)
    | Skipping(key: Key, bundle: Bundle, outbox: Outbox, unknown: seq<nat>, done: nat, journal: W.Journal)
    | SkipUnsure(key: Key, bundle: Bundle, outbox: Outbox, unknown: seq<nat>, done: nat, journal: W.Journal)
    | Marking(key: Key, bundle: Bundle, outbox: Outbox, unknown: seq<nat>)
    | MarkUnsure(key: Key, bundle: Bundle, outbox: Outbox, unknown: seq<nat>)

  /** A handoff, with the optional steps whose kind the catalog did not know when it was made. */
  datatype Handoff = Handoff(key: Key, unknown: seq<nat>)

  /**
   submitted and dispatched record the successes reported over the whole run, marks the handoffs whose mark was
   stored, reported or not.
   */
  datatype State = State(stores: Stores, locals: map<nat, Local>, submitted: set<Bundle>, dispatched: set<Handoff>,
                         marks: set<Handoff>)

  datatype Fault = NoFault | AnswerLost | NotReached

  datatype Action =
    | Submit(c: nat, bundle: Bundle)
    | Dispatch(c: nat, key: Key, catalog: Option<seq<nat>>)
    | Call(c: nat, now: int, fault: Fault)
    | Reread(c: nat, reached: bool)
    | Progress(key: Key, next: W.Journal)
    | Crash(c: nat)

  function At(s: State, c: nat): Local { if c in s.locals then s.locals[c] else Out }

  function Put(s: State, c: nat, l: Local): State { s.(locals := s.locals[c := l]) }

  // ------------------------------------------------------- the four writes

  /** Create-once by command key; the answer is the stored bundle, or a conflict. */
  function CreateSubmission(t: Stores, b: Bundle): (Stores, bool) {
    if b.command.key in t.submissions then (t, t.submissions[b.command.key] == b)
    else (t.(submissions := t.submissions[b.command.key := b]), true)
  }

  /** The command and its outbox record are accepted together. */
  function AcceptCommand(t: Stores, e: Envelope, now: int): (Stores, bool) {
    if e.key in t.commands then (t, t.commands[e.key] == e)
    else
      var record := Outbox(e.payload, now, 1, false);
      (t.(commands := t.commands[e.key := e], outboxes := t.outboxes[e.key := record]), true)
  }

  /** The journal's revision one is determined by the plan and the record's time, so repeats are equal. */
  function CreateJournal(t: Stores, key: Key, b: Bundle, o: Outbox): (Stores, bool) {
    var requested := JournalRecord(b.planCommand, b.plan, W.Initial(b.plan, o.recordedAt));
    if key in t.journals then (t, t.journals[key] == requested)
    else (t.(journals := t.journals[key := requested]), true)
  }

  function MarkDispatched(t: Stores, key: Key, revision: nat): (Stores, bool) {
    if key !in t.outboxes || t.outboxes[key].revision != revision then (t, false)
    else (t.(outboxes := t.outboxes[key := t.outboxes[key].(dispatched := true, revision := revision + 1)]), true)
  }

  // ------------------------------------------------------------- the actors

  /** The journal swap of a skip, on the revision the dispatcher holds. */
  function SwapJournal(t: Stores, key: Key, next: W.Journal): (Stores, bool) {
    if key !in t.journals || !W.Transition(t.journals[key].plan, t.journals[key].journal, next) then (t, false)
    else (Progressed(t, key, next), true)
  }

  function SkippedTo(l: Local, journal: W.Journal): Local
    requires l.Skipping?
  {
    Skipping(l.key, l.bundle, l.outbox, l.unknown, l.done + 1, journal)
  }

  /** One optional step of unknown kind is skipped, unless it is already. */
  ghost function SkipStep(s: State, c: nat, l: Local, now: int, fault: Fault): State
    requires l.Skipping?
  {
    if l.done >= |l.unknown| then Put(s, c, Marking(l.key, l.bundle, l.outbox, l.unknown))
    else if l.unknown[l.done] >= |l.journal.steps| then Put(s, c, Out)
    else match W.SkipNext(l.journal, l.unknown[l.done], now)
      case Failure(_) => Put(s, c, Out)
      case Success(None) => Put(s, c, SkippedTo(l, l.journal))
      case Success(Some(next)) =>
        var (t', ok) := SwapJournal(s.stores, l.key, next);
        var unsure := SkipUnsure(l.key, l.bundle, l.outbox, l.unknown, l.done, next);
        if fault.NotReached? then Put(s, c, unsure)
        else if fault.NoFault? && ok then Put(s.(stores := t'), c, SkippedTo(l, next))
        else Put(s.(stores := t'), c, unsure)
  }

  /** The store call an actor is about to make, and where it stands once told that it succeeded or left unsure. */
  ghost function CallStep(s: State, c: nat, now: int, fault: Fault): State {
    var l := At(s, c);
    var t := s.stores;
    match l
    case Submitting(b) =>
      var (t', ok) := CreateSubmission(t, b);
      if fault.NotReached? then Put(s, c, SubmitUnsure(b))
      else Put(s.(stores := t'), c, if fault.NoFault? && ok then Accepting(b) else SubmitUnsure(b))
    case Accepting(b) =>
      var (t', ok) := AcceptCommand(t, b.command, now);
      if fault.NotReached? then Put(s, c, AcceptUnsure(b))
      else if fault.NoFault? && ok then Put(s.(stores := t', submitted := s.submitted + {b}), c, Out)
      else Put(s.(stores := t'), c, AcceptUnsure(b))
    case Creating(key, b, o, unknown) =>
      var (t', ok) := CreateJournal(t, key, b, o);
      if fault.NotReached? then Put(s, c, Unsure(l))
      else
        var created := Skipping(key, b, o, unknown, 0, W.Initial(b.plan, o.recordedAt));
        Put(s.(stores := t'), c, if fault.NoFault? && ok then created else Unsure(l))
    case Skipping(key, b, o, unknown, done, journal) => SkipStep(s, c, l, now, fault)
    case Marking(key, b, o, unknown) =>
      var h := Handoff(key, unknown);
      if o.dispatched then Put(s.(dispatched := s.dispatched + {h}), c, Out)
      else
        var (t', ok) := MarkDispatched(t, key, o.revision);
        if fault.NotReached? then Put(s, c, Unsure(l))
        else
          var s' := s.(stores := t', marks := if ok then s.marks + {h} else s.marks);
          if fault.NoFault? && ok then Put(s'.(dispatched := s.dispatched + {h}), c, Out) else Put(s', c, Unsure(l))
    case _ => s
  }

  /** The recovery read after an unanswered or conflicting call: go on only with exactly what was meant. */
  ghost function RereadStep(s: State, c: nat, reached: bool): State {
    var t := s.stores;
    match At(s, c)
    case SubmitUnsure(b) =>
      var k := b.command.key;
      Put(s, c, if reached && k in t.submissions && t.submissions[k] == b then Accepting(b) else Out)
    case AcceptUnsure(b) =>
      var k := b.command.key;
      if reached && k in t.commands && t.commands[k] == b.command && k in t.outboxes
        && t.outboxes[k].payload == b.command.payload
      then Put(s.(submitted := s.submitted + {b}), c, Out) else Put(s, c, Out)
    case CreateUnsure(key, b, o, unknown) =>
      var requested := JournalRecord(b.planCommand, b.plan, W.Initial(b.plan, o.recordedAt));
      if reached && key in t.journals && t.journals[key].plan == b.plan && W.ValidFor(b.plan, t.journals[key].journal)
         && (t.journals[key].journal.revision == 1 ==> t.journals[key] == requested)
      then Put(s, c, Skipping(key, b, o, unknown, 0, t.journals[key].journal)) else Put(s, c, Out)
    case SkipUnsure(key, b, o, unknown, done, next) =>
      if reached && key in t.journals && t.journals[key].journal == next
      then Put(s, c, Skipping(key, b, o, unknown, done + 1, next)) else Put(s, c, Out)
    case MarkUnsure(key, b, o, unknown) =>
      if reached && key in t.outboxes && t.outboxes[key].dispatched && t.outboxes[key].payload == o.payload
         && t.outboxes[key].recordedAt == o.recordedAt
      then Put(s.(dispatched := s.dispatched + {Handoff(key, unknown)}), c, Out) else Put(s, c, Out)
    case _ => s
  }

  /** Only optional steps may be of unknown kind; the catalog refuses the plan otherwise. */
  predicate Accepts(plan: W.Plan, catalog: Option<seq<nat>>) {
    catalog.Some? && forall i :: i in catalog.value ==> i < |plan| && !plan[i].required
  }

  /** The dispatcher's reads and comparisons before its first write. */
  function Prepared(t: Stores, key: Key, catalog: Option<seq<nat>>): Local {
    if key !in t.submissions || !ValidBundle(t.submissions[key]) || key !in t.commands || key !in t.outboxes then Out
    else
      var b, o := t.submissions[key], t.outboxes[key];
      if t.commands[key] != b.command || o.payload != b.payload || !Accepts(b.plan, catalog) then Out
      else Creating(key, b, o, catalog.value)
  }

  /** A step of the journal, written to the store. */
  function Progressed(t: Stores, key: Key, next: W.Journal): Stores
    requires key in t.journals
  {
    t.(journals := t.journals[key := t.journals[key].(journal := next)])
  }

  ghost function Step(s: State, a: Action): State {
    match a
    case Submit(c, b) => if At(s, c).Out? && ValidBundle(b) then Put(s, c, Submitting(b)) else s
    case Dispatch(c, key, catalog) => if At(s, c).Out? then Put(s, c, Prepared(s.stores, key, catalog)) else s
    case Call(c, now, fault) => CallStep(s, c, now, fault)
    case Reread(c, reached) => RereadStep(s, c, reached)
    case Progress(key, next) =>
      if key in s.stores.journals && W.Transition(s.stores.journals[key].plan, s.stores.journals[key].journal, next)
      then s.(stores := Progressed(s.stores, key, next)) else s
    case Crash(c) => Put(s, c, Out)
  }

  ghost function Run(actions: seq<Action>): State {
    if actions == [] then State(Stores(map[], map[], map[], map[]), map[], {}, {}, {})
    else Step(Run(actions[..|actions| - 1]), actions[|actions| - 1])
  }

  // ---------------------------------------------------------- the invariant

  /** The command is accepted with its stored bundle's envelope, and has an outbox record of its payload. */
  ghost predicate AcceptedOk(t: Stores, key: Key) {
    && key in t.submissions && ValidBundle(t.submissions[key]) && t.submissions[key].command.key == key
    && key in t.commands && t.commands[key] == t.submissions[key].command
    && key in t.outboxes && t.outboxes[key].payload == t.submissions[key].payload
  }

  /** The one journal of the command is stored under its derived ID and valid for the bundle's plan. */
  ghost predicate JournaledOk(t: Stores, key: Key) {
    && key in t.submissions && key in t.journals
    && t.journals[key].plan == t.submissions[key].plan && t.journals[key].command == key.command
    && W.ValidFor(t.submissions[key].plan, t.journals[key].journal)
  }

  /** These steps of the command's journal are skipped. */
  ghost predicate AllSkipped(t: Stores, key: Key, unknown: seq<nat>) {
    key in t.journals && forall i :: i in unknown ==> StepSkipped(t.journals[key].journal, i)
  }

  predicate StepSkipped(j: W.Journal, i: nat) { i < |j.steps| && j.steps[i].state.Skipped? }

  /** What was skipped in one journal is skipped in the other. */
  ghost predicate SkipsKept(before: W.Journal, after: W.Journal) {
    forall i: nat :: StepSkipped(before, i) ==> StepSkipped(after, i)
  }

  ghost predicate StoresOk(t: Stores) {
    && (forall k :: k in t.submissions ==> ValidBundle(t.submissions[k]) && t.submissions[k].command.key == k)
    && (forall k :: k in t.commands || k in t.outboxes ==> AcceptedOk(t, k))
    && (forall k :: k in t.journals ==> AcceptedOk(t, k) && JournaledOk(t, k))
    && (forall k :: k in t.outboxes && t.outboxes[k].dispatched ==> JournaledOk(t, k))
  }

  ghost predicate LocalOk(t: Stores, l: Local) {
    match l
    case Out => true
    case Submitting(b) => ValidBundle(b)
    case SubmitUnsure(b) => ValidBundle(b)
    case Accepting(b) => ValidBundle(b) && b.command.key in t.submissions && t.submissions[b.command.key] == b
    case AcceptUnsure(b) => ValidBundle(b) && b.command.key in t.submissions && t.submissions[b.command.key] == b
    case Creating(key, b, o, _) => Handing(t, key, b, o)
    case CreateUnsure(key, b, o, _) => Handing(t, key, b, o)
    case Skipping(key, b, o, unknown, done, journal) =>
      && Handing(t, key, b, o) && JournaledOk(t, key) && done <= |unknown| && AllSkipped(t, key, unknown[..done])
      && SkipsKept(journal, t.journals[key].journal)
    case SkipUnsure(key, b, o, unknown, done, next) =>
      && Handing(t, key, b, o) && JournaledOk(t, key) && done < |unknown| && AllSkipped(t, key, unknown[..done])
      && StepSkipped(next, unknown[done])
    case Marking(key, b, o, unknown) => Handing(t, key, b, o) && JournaledOk(t, key) && AllSkipped(t, key, unknown)
    case MarkUnsure(key, b, o, unknown) => AcceptedOk(t, key) && JournaledOk(t, key) && AllSkipped(t, key, unknown)
  }

  ghost predicate Handing(t: Stores, key: Key, b: Bundle, o: Outbox) {
    AcceptedOk(t, key) && t.submissions[key] == b && (o.dispatched ==> t.outboxes[key].dispatched)
  }

  ghost predicate SubmittedHolds(t: Stores, b: Bundle) {
    b.command.key in t.submissions && t.submissions[b.command.key] == b && AcceptedOk(t, b.command.key)
  }

  /** Handed off, and every optional step that was of unknown kind is skipped. */
  ghost predicate DispatchedHolds(t: Stores, h: Handoff) {
    && h.key in t.outboxes && t.outboxes[h.key].dispatched && AcceptedOk(t, h.key) && JournaledOk(t, h.key)
    && AllSkipped(t, h.key, h.unknown)
  }

  ghost predicate Inv(s: State) {
    && StoresOk(s.stores)
    && (forall c :: c in s.locals ==> LocalOk(s.stores, s.locals[c]))
    && (forall b :: b in s.submitted ==> SubmittedHolds(s.stores, b))
    && (forall h :: h in s.dispatched + s.marks ==> DispatchedHolds(s.stores, h))
    && (forall k :: k in s.stores.outboxes && s.stores.outboxes[k].dispatched ==>
         exists h :: h in s.marks && h.key == k)
  }

  /** What later writes never undo. */
  ghost predicate Extends(t: Stores, u: Stores) {
    && (forall k :: k in t.submissions ==> k in u.submissions && u.submissions[k] == t.submissions[k])
    && (forall k :: k in t.commands ==> k in u.commands && u.commands[k] == t.commands[k])
    && (forall k :: k in t.outboxes ==> k in u.outboxes && u.outboxes[k].payload == t.outboxes[k].payload
                                        && (t.outboxes[k].dispatched ==> u.outboxes[k].dispatched))
    && (forall k :: k in t.journals ==> k in u.journals && JournalExtends(t.journals[k], u.journals[k]))
  }

  ghost predicate JournalExtends(a: JournalRecord, b: JournalRecord) {
    && b.plan == a.plan && b.command == a.command && SkipsKept(a.journal, b.journal)
    && (W.ValidFor(a.plan, a.journal) ==> W.ValidFor(a.plan, b.journal))
  }

  lemma JournalReflexive(a: JournalRecord)
    ensures JournalExtends(a, a)
  {
  }

  /** No outbox record is marked that was not marked before. */
  ghost predicate NoNewMark(t: Stores, u: Stores) {
    forall k :: k in u.outboxes && u.outboxes[k].dispatched ==> k in t.outboxes && t.outboxes[k].dispatched
  }

  lemma StillOk(t: Stores, u: Stores, l: Local)
    requires Extends(t, u) && StoresOk(u) && LocalOk(t, l)
    ensures LocalOk(u, l)
  {
    forall k | AcceptedOk(t, k) ensures AcceptedOk(u, k) { }
    forall k | JournaledOk(t, k) ensures JournaledOk(u, k) { }
    forall k, unknown | AllSkipped(t, k, unknown) ensures AllSkipped(u, k, unknown) { }
    hide AllSkipped, W.ValidFor;
  }

  lemma StillHandedOff(t: Stores, u: Stores, h: Handoff)
    requires Extends(t, u) && DispatchedHolds(t, h)
    ensures DispatchedHolds(u, h)
  {
  }

  lemma ExtendsKeeps(s: State, u: Stores)
    requires Inv(s) && Extends(s.stores, u) && StoresOk(u) && NoNewMark(s.stores, u)
    ensures Inv(s.(stores := u))
  {
    var t := s.stores;
    forall k | AcceptedOk(t, k) ensures AcceptedOk(u, k) { }
    forall c | c in s.locals ensures LocalOk(u, s.locals[c]) {
      StillOk(t, u, s.locals[c]);
    }
    forall h | h in s.dispatched + s.marks ensures DispatchedHolds(u, h) {
      StillHandedOff(t, u, h);
    }
    hide LocalOk, DispatchedHolds, StoresOk;
  }

  lemma PutKeeps(s: State, c: nat, l: Local)
    requires Inv(s) && LocalOk(s.stores, l)
    ensures Inv(Put(s, c, l))
  {
    hide LocalOk, DispatchedHolds, StoresOk, SubmittedHolds;
  }

  lemma SubmissionOk(t: Stores, b: Bundle)
    requires StoresOk(t) && ValidBundle(b)
    ensures var (u, ok) := CreateSubmission(t, b);
            Extends(t, u) && StoresOk(u) && NoNewMark(t, u) && (ok ==> LocalOk(u, Accepting(b)))
  {
    var (u, ok) := CreateSubmission(t, b);
    forall k | k in t.journals ensures JournalExtends(t.journals[k], u.journals[k]) { JournalReflexive(t.journals[k]); }
    hide JournalExtends, W.ValidFor, SkipsKept;
    forall k | AcceptedOk(t, k) ensures AcceptedOk(u, k) { }
    forall k | JournaledOk(t, k) ensures JournaledOk(u, k) { }
  }

  lemma AcceptOk(t: Stores, b: Bundle, now: int)
    requires StoresOk(t) && LocalOk(t, Accepting(b))
    ensures var (u, ok) := AcceptCommand(t, b.command, now);
            Extends(t, u) && StoresOk(u) && NoNewMark(t, u) && (ok ==> AcceptedOk(u, b.command.key))
  {
    var (u, ok) := AcceptCommand(t, b.command, now);
    var key := b.command.key;
    if key in t.outboxes {
      assert AcceptedOk(t, key);
    }
    forall k | k in t.journals ensures JournalExtends(t.journals[k], u.journals[k]) { JournalReflexive(t.journals[k]); }
    hide JournalExtends, W.ValidFor, SkipsKept;
    forall k | AcceptedOk(t, k) ensures AcceptedOk(u, k) { }
    forall k | JournaledOk(t, k) ensures JournaledOk(u, k) { }
  }

  lemma JournalOk(t: Stores, key: Key, b: Bundle, o: Outbox)
    requires StoresOk(t) && Handing(t, key, b, o)
    ensures var (u, ok) := CreateJournal(t, key, b, o);
            && Extends(t, u) && StoresOk(u) && NoNewMark(t, u)
            && (ok ==> JournaledOk(u, key) && u.journals[key].journal == W.Initial(b.plan, o.recordedAt))
  {
    var (u, ok) := CreateJournal(t, key, b, o);
    W.InitialInv(b.plan, {}, o.recordedAt);
    forall k | k in t.journals ensures JournalExtends(t.journals[k], u.journals[k]) { JournalReflexive(t.journals[k]); }
    hide JournalExtends, W.ValidFor, SkipsKept, W.Initial;
    forall k | AcceptedOk(t, k) ensures AcceptedOk(u, k) { }
    forall k | JournaledOk(t, k) ensures JournaledOk(u, k) { }
  }

  lemma MarkOk(t: Stores, key: Key, b: Bundle, o: Outbox)
    requires StoresOk(t) && Handing(t, key, b, o) && JournaledOk(t, key)
    ensures var (u, ok) := MarkDispatched(t, key, o.revision);
            && Extends(t, u) && StoresOk(u) && (!ok ==> u == t)
            && (ok ==> key in u.outboxes && u.outboxes[key].dispatched)
            && (forall k :: k != key && k in u.outboxes && u.outboxes[k].dispatched ==>
                 k in t.outboxes && t.outboxes[k].dispatched)
  {
    var (u, ok) := MarkDispatched(t, key, o.revision);
    forall k | k in t.journals ensures JournalExtends(t.journals[k], u.journals[k]) { JournalReflexive(t.journals[k]); }
    hide JournalExtends, W.ValidFor, SkipsKept;
    forall k | AcceptedOk(t, k) ensures AcceptedOk(u, k) { }
    forall k | JournaledOk(t, k) ensures JournaledOk(u, k) { }
  }

  function Unsure(l: Local): Local {
    match l
    case Submitting(b) => SubmitUnsure(b)
    case Accepting(b) => AcceptUnsure(b)
    case Creating(key, b, o, unknown) => CreateUnsure(key, b, o, unknown)
    case Marking(key, b, o, unknown) => MarkUnsure(key, b, o, unknown)
    case _ => l
  }

  lemma SubmitKeeps(s: State, c: nat, b: Bundle, now: int, fault: Fault)
    requires Inv(s) && At(s, c) == Submitting(b) && ValidBundle(b)
    ensures Inv(CallStep(s, c, now, fault))
  {
    hide Inv, StoresOk, Extends, AcceptedOk, JournaledOk, NoNewMark;
    InvParts(s);
    PutKeeps(s, c, SubmitUnsure(b));
    var (u, ok) := CreateSubmission(s.stores, b);
    SubmissionOk(s.stores, b);
    AfterCall(s, c, Submitting(b), u);
    if ok { PutKeeps(s.(stores := u), c, Accepting(b)); }
  }

  lemma AcceptKeeps(s: State, c: nat, b: Bundle, now: int, fault: Fault)
    requires Inv(s) && At(s, c) == Accepting(b) && LocalOk(s.stores, Accepting(b))
    ensures Inv(CallStep(s, c, now, fault))
  {
    hide Inv, StoresOk, Extends, AcceptedOk, JournaledOk, NoNewMark;
    InvParts(s);
    PutKeeps(s, c, AcceptUnsure(b));
    var (u, ok) := AcceptCommand(s.stores, b.command, now);
    AcceptOk(s.stores, b, now);
    AfterCall(s, c, Accepting(b), u);
    if ok { ReportSubmitted(s.(stores := u), c, b); }
  }

  lemma CreateKeeps(s: State, c: nat, key: Key, b: Bundle, o: Outbox, unknown: seq<nat>, now: int, fault: Fault)
    requires Inv(s) && At(s, c) == Creating(key, b, o, unknown) && Handing(s.stores, key, b, o)
    ensures Inv(CallStep(s, c, now, fault))
  {
    hide Inv, StoresOk, Extends, AcceptedOk, JournaledOk, NoNewMark, W.Initial;
    InvParts(s);
    PutKeeps(s, c, CreateUnsure(key, b, o, unknown));
    var (u, ok) := CreateJournal(s.stores, key, b, o);
    JournalOk(s.stores, key, b, o);
    AfterCall(s, c, Creating(key, b, o, unknown), u);
    if ok {
      SkippingStarts(u, key, b, o, unknown);
      PutKeeps(s.(stores := u), c, Skipping(key, b, o, unknown, 0, W.Initial(b.plan, o.recordedAt)));
    }
  }

  /** Nothing is skipped yet. */
  lemma SkippingStarts(t: Stores, key: Key, b: Bundle, o: Outbox, unknown: seq<nat>)
    requires Handing(t, key, b, o) && JournaledOk(t, key)
    ensures LocalOk(t, Skipping(key, b, o, unknown, 0, t.journals[key].journal))
  {
    assert unknown[..0] == [];
  }

  lemma TransitionKeepsSkips(plan: W.Plan, a: W.Journal, b: W.Journal)
    requires W.Transition(plan, a, b)
    ensures W.ValidFor(plan, b) && SkipsKept(a, b)
  {
  }

  /** One more step is skipped in what the store holds. */
  lemma OneMoreSkipped(t: Stores, key: Key, unknown: seq<nat>, done: nat)
    requires done < |unknown| && AllSkipped(t, key, unknown[..done])
        && StepSkipped(t.journals[key].journal, unknown[done])
    ensures AllSkipped(t, key, unknown[..done + 1])
  {
    assert unknown[..done + 1] == unknown[..done] + [unknown[done]];
  }

  lemma SkipWrites(j: W.Journal, i: nat, now: int)
    requires i < |j.steps| && W.SkipNext(j, i, now).Success?
    ensures match W.SkipNext(j, i, now).value case None => StepSkipped(j, i) case Some(next) => StepSkipped(next, i)
  {
  }

  lemma SwapOk(t: Stores, key: Key, next: W.Journal)
    requires StoresOk(t)
    ensures var (u, ok) := SwapJournal(t, key, next);
            && Extends(t, u) && StoresOk(u) && NoNewMark(t, u) && (!ok ==> u == t)
            && (ok ==> key in u.journals && u.journals[key].journal == next)
  {
    hide W.Transition;
    var (u, ok) := SwapJournal(t, key, next);
    if ok {
      TransitionKeepsSkips(t.journals[key].plan, t.journals[key].journal, next);
      ProgressStores(t, key, next);
    }
  }

  lemma SkipKeeps(s: State, c: nat, l: Local, now: int, fault: Fault)
    requires Inv(s) && l.Skipping? && LocalOk(s.stores, l)
    ensures Inv(SkipStep(s, c, l, now, fault))
  {
    InvParts(s);
    var t, i := s.stores, l.done;
    PutKeeps(s, c, Out);
    if i >= |l.unknown| {
      assert l.unknown[..i] == l.unknown;
      PutKeeps(s, c, Marking(l.key, l.bundle, l.outbox, l.unknown));
    } else if l.unknown[i] < |l.journal.steps| && W.SkipNext(l.journal, l.unknown[i], now).Success? {
      SkipWrites(l.journal, l.unknown[i], now);
      hide Inv, StoresOk, Extends, NoNewMark, AcceptedOk, JournaledOk, W.SkipNext;
      match W.SkipNext(l.journal, l.unknown[i], now).value
      case None =>
        OneMoreSkipped(t, l.key, l.unknown, i);
        PutKeeps(s, c, SkippedTo(l, l.journal));
      case Some(next) => SkipSwaps(s, c, l, next);
    }
  }

  lemma SkipSwaps(s: State, c: nat, l: Local, next: W.Journal)
    requires Inv(s) && l.Skipping? && LocalOk(s.stores, l) && l.done < |l.unknown|
        && StepSkipped(next, l.unknown[l.done])
    ensures var (u, ok) := SwapJournal(s.stores, l.key, next);
            var unsure := SkipUnsure(l.key, l.bundle, l.outbox, l.unknown, l.done, next);
            && Inv(Put(s, c, unsure)) && Inv(Put(s.(stores := u), c, unsure))
            && (ok ==> Inv(Put(s.(stores := u), c, SkippedTo(l, next))))
  {
    InvParts(s);
    var (u, ok) := SwapJournal(s.stores, l.key, next);
    var unsure := SkipUnsure(l.key, l.bundle, l.outbox, l.unknown, l.done, next);
    SwapOk(s.stores, l.key, next);
    ExtendsKeeps(s, u);
    StillOk(s.stores, u, l);
    StillOk(s.stores, u, unsure);
    PutKeeps(s, c, unsure);
    PutKeeps(s.(stores := u), c, unsure);
    hide Inv, StoresOk, Extends, NoNewMark, AcceptedOk, JournaledOk, SwapJournal;
    if ok {
      OneMoreSkipped(u, l.key, l.unknown, l.done);
      PutKeeps(s.(stores := u), c, SkippedTo(l, next));
    }
  }

  lemma CallKeeps(s: State, c: nat, now: int, fault: Fault)
    requires Inv(s)
    ensures Inv(CallStep(s, c, now, fault))
  {
    var l, t := At(s, c), s.stores;
    assert LocalOk(t, l);
    hide Inv, StoresOk, Extends, AcceptedOk, JournaledOk, CreateSubmission, AcceptCommand, CreateJournal, SkipStep;
    match l
    case Submitting(b) => SubmitKeeps(s, c, b, now, fault);
    case Accepting(b) => AcceptKeeps(s, c, b, now, fault);
    case Creating(key, b, o, unknown) => CreateKeeps(s, c, key, b, o, unknown, now, fault);
    case Skipping(_, _, _, _, _, _) => SkipKeeps(s, c, l, now, fault);
    case Marking(key, b, o, unknown) => MarkKeeps(s, c, key, b, o, unknown);
    case _ =>
  }

  lemma MarkKeeps(s: State, c: nat, key: Key, b: Bundle, o: Outbox, unknown: seq<nat>)
    requires Inv(s) && LocalOk(s.stores, Marking(key, b, o, unknown))
    ensures var h := Handoff(key, unknown);
            var (u, ok) := MarkDispatched(s.stores, key, o.revision);
            var s' := s.(stores := u, marks := if ok then s.marks + {h} else s.marks);
            && Inv(Put(s, c, MarkUnsure(key, b, o, unknown))) && Inv(Put(s', c, MarkUnsure(key, b, o, unknown)))
            && (o.dispatched ==> Inv(Put(s.(dispatched := s.dispatched + {h}), c, Out)))
            && (ok ==> Inv(Put(s'.(dispatched := s.dispatched + {h}), c, Out)))
  {
    var h := Handoff(key, unknown);
    var (u, ok) := MarkDispatched(s.stores, key, o.revision);
    var s' := s.(stores := u, marks := if ok then s.marks + {h} else s.marks);
    InvParts(s);
    MarkOk(s.stores, key, b, o);
    StillOk(s.stores, u, Marking(key, b, o, unknown));
    MarkStored(s, h, u, ok);
    PutKeeps(s, c, MarkUnsure(key, b, o, unknown));
    PutKeeps(s', c, MarkUnsure(key, b, o, unknown));
    hide Inv, StoresOk, Extends, AcceptedOk, JournaledOk, AllSkipped, MarkDispatched;
    if ok { ReportDispatched(s', c, h); }
    if o.dispatched { ReportDispatched(s, c, h); }
  }

  lemma MarkStored(s: State, h: Handoff, u: Stores, ok: bool)
    requires Inv(s) && Extends(s.stores, u) && StoresOk(u) && (!ok ==> u == s.stores) && (ok ==> DispatchedHolds(u, h))
    requires forall k :: k != h.key && k in u.outboxes && u.outboxes[k].dispatched ==>
               k in s.stores.outboxes && s.stores.outboxes[k].dispatched
    ensures Inv(s.(stores := u, marks := if ok then s.marks + {h} else s.marks))
  {
    var t := s.stores;
    if ok {
      forall k | AcceptedOk(t, k) ensures AcceptedOk(u, k) { }
      forall c | c in s.locals ensures LocalOk(u, s.locals[c]) {
        StillOk(t, u, s.locals[c]);
      }
      forall other | other in s.dispatched + s.marks ensures DispatchedHolds(u, other) {
        StillHandedOff(t, u, other);
      }
      var marks := s.marks + {h};
      forall k | k in u.outboxes && u.outboxes[k].dispatched ensures exists m :: m in marks && m.key == k {
        if k == h.key {
          assert h in marks;
        } else {
          var m :| m in s.marks && m.key == k;
          assert m in marks;
        }
      }
      hide LocalOk, DispatchedHolds, StoresOk;
    }
  }

  lemma InvParts(s: State)
    requires Inv(s)
    ensures StoresOk(s.stores)
    ensures forall c :: LocalOk(s.stores, At(s, c))
    ensures forall k :: AcceptedOk(s.stores, k) ==> k in s.stores.outboxes && k in s.stores.submissions
    ensures forall k :: JournaledOk(s.stores, k) ==> k in s.stores.submissions && k in s.stores.journals
  {
    hide StoresOk, DispatchedHolds, SubmittedHolds;
  }

  lemma AfterCall(s: State, c: nat, l: Local, u: Stores)
    requires Inv(s) && Extends(s.stores, u) && StoresOk(u) && NoNewMark(s.stores, u) && LocalOk(s.stores, l)
    requires l.Submitting? || l.Accepting? || l.Creating?
    ensures Inv(s.(stores := u)) && LocalOk(u, l) && LocalOk(u, Unsure(l)) && Inv(Put(s.(stores := u), c, Unsure(l)))
  {
    ExtendsKeeps(s, u);
    StillOk(s.stores, u, l);
    PutKeeps(s.(stores := u), c, Unsure(l));
  }

  lemma ReportSubmitted(s: State, c: nat, b: Bundle)
    requires Inv(s) && LocalOk(s.stores, Accepting(b)) && AcceptedOk(s.stores, b.command.key)
    ensures Inv(Put(s.(submitted := s.submitted + {b}), c, Out))
  {
    hide StoresOk, DispatchedHolds;
  }

  lemma ReportDispatched(s: State, c: nat, h: Handoff)
    requires Inv(s) && DispatchedHolds(s.stores, h)
    ensures Inv(Put(s.(dispatched := s.dispatched + {h}), c, Out))
  {
    hide StoresOk, DispatchedHolds, SubmittedHolds;
  }

  lemma AcceptedIsOk(t: Stores, key: Key)
    requires StoresOk(t) && (key in t.commands || key in t.outboxes)
    ensures AcceptedOk(t, key)
  {
  }

  lemma DispatchKeeps(s: State, c: nat, key: Key, catalog: Option<seq<nat>>)
    requires Inv(s)
    ensures Inv(Step(s, Dispatch(c, key, catalog)))
  {
    InvParts(s);
    if key in s.stores.outboxes {
      AcceptedIsOk(s.stores, key);
    }
    hide Inv, StoresOk;
    PutKeeps(s, c, Prepared(s.stores, key, catalog));
  }

  lemma FoundKeeps(s: State, c: nat, key: Key, b: Bundle, o: Outbox, unknown: seq<nat>)
    requires Inv(s) && Handing(s.stores, key, b, o) && key in s.stores.journals
    ensures Inv(Put(s, c, Skipping(key, b, o, unknown, 0, s.stores.journals[key].journal)))
  {
    assert JournaledOk(s.stores, key);
    SkippingStarts(s.stores, key, b, o, unknown);
    hide Inv;
    PutKeeps(s, c, Skipping(key, b, o, unknown, 0, s.stores.journals[key].journal));
  }

  lemma RereadJournal(s: State, c: nat, reached: bool)
    requires Inv(s) && (At(s, c).CreateUnsure? || At(s, c).SkipUnsure?)
    ensures Inv(RereadStep(s, c, reached))
  {
    var l, t := At(s, c), s.stores;
    InvParts(s);
    PutKeeps(s, c, Out);
    hide Inv, W.ValidFor, W.Initial, AllSkipped, StoresOk, Handing, JournaledOk;
    if l.key in t.journals {
      if l.CreateUnsure? {
        FoundKeeps(s, c, l.key, l.bundle, l.outbox, l.unknown);
      } else if t.journals[l.key].journal == l.journal {
        OneMoreSkipped(t, l.key, l.unknown, l.done);
        SkippedInStore(t, l);
        PutKeeps(s, c, Skipping(l.key, l.bundle, l.outbox, l.unknown, l.done + 1, l.journal));
      }
    }
  }

  lemma SkippedInStore(t: Stores, l: Local)
    requires l.SkipUnsure? && LocalOk(t, l) && t.journals[l.key].journal == l.journal
    requires AllSkipped(t, l.key, l.unknown[..l.done + 1])
    ensures LocalOk(t, Skipping(l.key, l.bundle, l.outbox, l.unknown, l.done + 1, l.journal))
  {
  }

  lemma RereadMark(s: State, c: nat, reached: bool)
    requires Inv(s) && At(s, c).MarkUnsure?
    ensures Inv(RereadStep(s, c, reached))
  {
    var l, t := At(s, c), s.stores;
    InvParts(s);
    PutKeeps(s, c, Out);
    hide Inv, AllSkipped, StoresOk, AcceptedOk, JournaledOk;
    if l.key in t.outboxes && t.outboxes[l.key].dispatched {
      ReportDispatched(s, c, Handoff(l.key, l.unknown));
    }
  }

  lemma RereadKeeps(s: State, c: nat, reached: bool)
    requires Inv(s)
    ensures Inv(RereadStep(s, c, reached))
  {
    var l, t := At(s, c), s.stores;
    if l.CreateUnsure? || l.SkipUnsure? {
      RereadJournal(s, c, reached);
    } else if l.MarkUnsure? {
      RereadMark(s, c, reached);
    } else {
      InvParts(s);
      PutKeeps(s, c, Out);
      hide Inv, StoresOk;
      if l.SubmitUnsure? {
        var k := l.bundle.command.key;
        if k in t.submissions && t.submissions[k] == l.bundle { PutKeeps(s, c, Accepting(l.bundle)); }
      } else if l.AcceptUnsure? && l.bundle.command.key in t.commands {
        AcceptedIsOk(t, l.bundle.command.key);
        ReportSubmitted(s, c, l.bundle);
      }
    }
  }

  lemma ProgressStores(t: Stores, key: Key, next: W.Journal)
    requires StoresOk(t) && key in t.journals && W.ValidFor(t.journals[key].plan, next)
    requires SkipsKept(t.journals[key].journal, next)
    ensures Extends(t, Progressed(t, key, next)) && StoresOk(Progressed(t, key, next))
    ensures NoNewMark(t, Progressed(t, key, next))
  {
    var u := Progressed(t, key, next);
    hide W.ValidFor;
    forall k | AcceptedOk(t, k) ensures AcceptedOk(u, k) { }
    forall k | JournaledOk(t, k) ensures JournaledOk(u, k) { }
  }

  lemma ProgressKeeps(s: State, key: Key, next: W.Journal)
    requires Inv(s) && key in s.stores.journals
    requires W.Transition(s.stores.journals[key].plan, s.stores.journals[key].journal, next)
    ensures Inv(Step(s, Progress(key, next)))
  {
    InvParts(s);
    TransitionKeepsSkips(s.stores.journals[key].plan, s.stores.journals[key].journal, next);
    ProgressStores(s.stores, key, next);
    ExtendsKeeps(s, Progressed(s.stores, key, next));
    hide W.Transition, W.ValidFor, Inv, StoresOk, Extends, NoNewMark;
  }

  lemma StepKeeps(s: State, a: Action)
    requires Inv(s)
    ensures Inv(Step(s, a))
  {
    hide Inv, CallStep, RereadStep, W.Transition;
    match a
    case Submit(c, b) => if ValidBundle(b) { PutKeeps(s, c, Submitting(b)); }
    case Dispatch(c, key, catalog) => DispatchKeeps(s, c, key, catalog);
    case Call(c, now, fault) => CallKeeps(s, c, now, fault);
    case Reread(c, reached) => RereadKeeps(s, c, reached);
    case Progress(key, next) =>
      if key in s.stores.journals && W.Transition(s.stores.journals[key].plan, s.stores.journals[key].journal, next) {
        ProgressKeeps(s, key, next);
      }
    case Crash(c) => PutKeeps(s, c, Out);
  }

  lemma {:induction false} RunKeeps(actions: seq<Action>)
    ensures Inv(Run(actions))
  {
    if actions != [] {
      RunKeeps(actions[..|actions| - 1]);
      StepKeeps(Run(actions[..|actions| - 1]), actions[|actions| - 1]);
    }
  }

  // ------------------------------------------------------------- theorems

  /**
   Whatever stopped or was lost on the way: an outbox record marked dispatched has its immutable bundle
   stored, its command accepted with the bundle's envelope and payload, and its journal under the derived
   ID, valid for the bundle's plan; and a dispatcher marked it that had skipped every optional step whose
   kind it found unknown.
   */
  lemma DispatchedMeansHandedOff(actions: seq<Action>, key: Key)
    requires key in Run(actions).stores.outboxes && Run(actions).stores.outboxes[key].dispatched
    ensures AcceptedOk(Run(actions).stores, key) && JournaledOk(Run(actions).stores, key)
    ensures exists h :: h in Run(actions).marks && h.key == key && AllSkipped(Run(actions).stores, key, h.unknown)
  {
    RunKeeps(actions);
    hide Run, Step;
    var s := Run(actions);
    var h :| h in s.marks && h.key == key;
    assert DispatchedHolds(s.stores, h);
  }

  /** A command has at most one journal, and never one under another command's ID. */
  lemma OneJournalPerCommand(actions: seq<Action>, key: Key)
    requires key in Run(actions).stores.journals
    ensures Run(actions).stores.journals[key].command == key.command && AcceptedOk(Run(actions).stores, key)
    ensures forall other :: other in Run(actions).stores.journals && other.scope == key.scope ==>
      (Run(actions).stores.journals[other].command == key.command ==> other == key)
  {
    RunKeeps(actions);
    hide Run, Step;
  }

  /** Every success a facade or a dispatcher reports is backed by the stores, then and for ever. */
  lemma ReportedSuccessesHold(actions: seq<Action>)
    ensures var s := Run(actions);
            && (forall b :: b in s.submitted ==> SubmittedHolds(s.stores, b))
            && (forall h :: h in s.dispatched ==> DispatchedHolds(s.stores, h))
  {
    RunKeeps(actions);
    hide Run, Step;
  }
}
