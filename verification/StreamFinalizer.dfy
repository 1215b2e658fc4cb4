/**
 Tool call observations (model-invoker/tool_call_observation.go): the synchronous finalizer and the
 stream finalizer, an event machine that must end in the same observation.

 Argument canonicalization is a parameter here; CanonicalArguments says what it does.
 */
module StreamFinalizer {
  import C = CanonicalArguments
  import opened Wrappers

  type Canon = string -> Option<string>

  datatype Call = Call(id: string, name: string, arguments: string)

  datatype Output = CallOutput(call: Option<Call>) | OtherOutput

  datatype Response = Response(id: string, completed: bool, toolCall: bool, outputs: seq<Output>)

  datatype Entry = Entry(ordinal: nat, id: string, name: string, arguments: string)

  datatype Observation = Observation(invocation: nat, calls: seq<Entry>)

  /** The codes of the source's errors; the last two map-order dependent ones are one here. */
  datatype Error =
    | TerminalMismatch | CallMissing | IdentityInvalid | DuplicateCall | ArgumentsInvalid | TerminalEmpty | NotCanonical
    | AfterTerminal | SequenceInvalid | ResponseConflict | ResponseMissing | StartInvalid | CorrelationUnsupported
    | DeltaStateInvalid | NameConflict | DeltaConflict | CompleteInvalid | CompleteStateInvalid | CompleteConflict
    | TerminalMissing | TerminalConflict | StreamedCallUnmatched | StreamFailed

  predicate IsSpace(c: char) {
    var u := c as int;
    0x09 <= u <= 0x0d || u in {0x20, 0x85, 0xa0, 0x1680, 0x2028, 0x2029, 0x202f, 0x205f, 0x3000}
      || 0x2000 <= u <= 0x200a
  }

  /** strings.TrimSpace leaves nothing. */
  predicate Blank(s: string) { forall i :: 0 <= i < |s| ==> IsSpace(s[i]) }

  // ------------------------------------------------ the synchronous finalizer

  predicate HasId(calls: seq<Entry>, id: string) { exists i :: 0 <= i < |calls| && calls[i].id == id }

  /** The entries of the first n outputs. */
  function Collect(canon: Canon, outputs: seq<Output>, n: nat): Result<seq<Entry>, Error>
    requires n <= |outputs|
  {
    if n == 0 then Success([])
    else match Collect(canon, outputs, n - 1)
      case Failure(e) => Failure(e)
      case Success(calls) =>
        match outputs[n - 1]
        case OtherOutput => Success(calls)
        case CallOutput(None) => Failure(CallMissing)
        case CallOutput(Some(call)) =>
          if Blank(call.id) || Blank(call.name) then Failure(IdentityInvalid)
          else if HasId(calls, call.id) then Failure(DuplicateCall)
          else match canon(call.arguments)
            case None => Failure(ArgumentsInvalid)
            case Some(arguments) => Success(calls + [Entry(|calls|, call.id, call.name, arguments)])
  }

  function Finalized(canon: Canon, invocation: nat, response: Response): Result<Observation, Error> {
    if !response.completed || !response.toolCall then Failure(TerminalMismatch)
    else match Collect(canon, response.outputs, |response.outputs|)
      case Failure(e) => Failure(e)
      case Success(calls) =>
        if calls == [] then Failure(TerminalEmpty)
        else match Closing(canon, calls)
          case Some(e) => Failure(e)
          case None => Success(Observation(invocation, calls))
  }

  /**
   The closing digest and Validate: every argument is canonicalized again, which must succeed and, as the digest
   covers the result, change nothing.
   */
  function Closing(canon: Canon, calls: seq<Entry>): Option<Error> {
    if exists i :: 0 <= i < |calls| && canon(calls[i].arguments).None? then Some(ArgumentsInvalid)
    else if exists i :: 0 <= i < |calls| && canon(calls[i].arguments) != Some(calls[i].arguments)
      then Some(NotCanonical)
    else None
  }

  /** A canonical form is its own canonical form. */
  ghost predicate Idempotent(canon: Canon) { forall s: string :: canon(s).Some? ==> canon(canon(s).value) == canon(s) }

  /** With such a canonicalizer the closing step never fails, so it adds no error of its own. */
  lemma ClosingPasses(canon: Canon, invocation: nat, response: Response)
    requires Idempotent(canon) && response.completed && response.toolCall
    ensures var collected := Collect(canon, response.outputs, |response.outputs|);
            Finalized(canon, invocation, response)
            == (match collected
                case Failure(e) => Failure(e)
                case Success(calls) =>
                  if calls == [] then Failure(TerminalEmpty) else Success(Observation(invocation, calls)))
  {
    if Collect(canon, response.outputs, |response.outputs|).Success? {
      CollectCanonical(canon, response.outputs, |response.outputs|);
    }
  }

  lemma {:induction false} CollectCanonical(canon: Canon, outputs: seq<Output>, n: nat)
    requires Idempotent(canon) && n <= |outputs| && Collect(canon, outputs, n).Success?
    ensures forall e :: e in Collect(canon, outputs, n).value ==> canon(e.arguments) == Some(e.arguments)
  {
    if n > 0 {
      CollectCanonical(canon, outputs, n - 1);
    }
  }

  /** Reading a text as tokens, and spelling a document as a text. */
  datatype Codec = Codec(read: string -> C.Raw, spell: C.Doc -> string, size: C.Doc -> nat)

  /** What is spelled is read back as that document. */
  ghost predicate Faithful(codec: Codec) {
    forall s: string :: C.Canonicalize(codec.read(s), codec.size).Success? ==>
      var d := C.Canonicalize(codec.read(s), codec.size).value; C.Spelled(codec.size, d, codec.read(codec.spell(d)))
  }

  ghost function CanonOf(codec: Codec): Canon {
    s => match C.Canonicalize(codec.read(s), codec.size) case Failure(_) => None case Success(d) => Some(codec.spell(d))
  }

  /** The source's canonicalizer is one: nothing is asked of the texts but that they can be read back. */
  lemma CanonicalizerIsIdempotent(codec: Codec)
    requires Faithful(codec)
    ensures Idempotent(CanonOf(codec))
  {
    forall s: string | CanonOf(codec)(s).Some? ensures CanonOf(codec)(CanonOf(codec)(s).value) == CanonOf(codec)(s) {
      var d := C.Canonicalize(codec.read(s), codec.size).value;
      C.CanonicalIdempotent(codec.read(s), codec.read(codec.spell(d)), codec.size);
    }
  }

  lemma {:induction false} CollectFails(canon: Canon, outputs: seq<Output>, n: nat, m: nat)
    requires n <= m <= |outputs|
    ensures Collect(canon, outputs, n).Failure? ==> Collect(canon, outputs, m) == Collect(canon, outputs, n)
    decreases m
  {
    if n < m {
      CollectFails(canon, outputs, n, m - 1);
    }
  }

  method Finalize(canon: Canon, invocation: nat, response: Response) returns (r: Result<Observation, Error>)
    ensures r == Finalized(canon, invocation, response)
  {
    if !response.completed || !response.toolCall {
      return Failure(TerminalMismatch);
    }
    var calls: seq<Entry>, seen: set<string> := [], {};
    var outputs := response.outputs;
    for n := 0 to |outputs|
      invariant Collect(canon, outputs, n) == Success(calls)
      invariant forall id :: id in seen <==> HasId(calls, id)
    {
      CollectFails(canon, outputs, n + 1, |outputs|);
      match outputs[n]
      case OtherOutput =>
      case CallOutput(None) => return Failure(CallMissing);
      case CallOutput(Some(call)) =>
        if Blank(call.id) || Blank(call.name) {
          return Failure(IdentityInvalid);
        }
        if call.id in seen {
          return Failure(DuplicateCall);
        }
        match canon(call.arguments) {
          case None => return Failure(ArgumentsInvalid);
          case Some(arguments) =>
            ghost var before := calls;
            calls := calls + [Entry(|calls|, call.id, call.name, arguments)];
            seen := seen + {call.id};
            HasIdAppend(before, calls[|before|]);
        }
    }
    if calls == [] {
      return Failure(TerminalEmpty);
    }
    var closing := Close(canon, calls);
    if closing.Some? {
      return Failure(closing.value);
    }
    return Success(Observation(invocation, calls));
  }

  method Close(canon: Canon, calls: seq<Entry>) returns (e: Option<Error>)
    ensures e == Closing(canon, calls)
  {
    var normalized: seq<string> := [];
    for i := 0 to |calls|
      invariant |normalized| == i && forall j :: 0 <= j < i ==> canon(calls[j].arguments) == Some(normalized[j])
    {
      match canon(calls[i].arguments)
      case None => return Some(ArgumentsInvalid);
      case Some(arguments) => normalized := normalized + [arguments];
    }
    for i := 0 to |calls|
      invariant forall j :: 0 <= j < i ==> normalized[j] == calls[j].arguments
    {
      if normalized[i] != calls[i].arguments {
        return Some(NotCanonical);
      }
    }
    return None;
  }

  lemma HasIdAppend(calls: seq<Entry>, e: Entry)
    ensures forall id :: HasId(calls + [e], id) <==> HasId(calls, id) || id == e.id
  {
    var all := calls + [e];
    forall id | HasId(calls, id) || id == e.id ensures HasId(all, id) {
      if HasId(calls, id) {
        var i :| 0 <= i < |calls| && calls[i].id == id;
        assert all[i].id == id;
      } else {
        assert all[|calls|].id == id;
      }
    }
  }

  /** Entries are numbered from zero, have non-blank names and IDs, and no ID twice. */
  predicate WellFormed(o: Observation) {
    && o.calls != []
    && (forall i :: 0 <= i < |o.calls| ==> o.calls[i].ordinal == i && !Blank(o.calls[i].id) && !Blank(o.calls[i].name))
    && (forall i, j :: 0 <= i < j < |o.calls| ==> o.calls[i].id != o.calls[j].id)
  }

  lemma {:induction false} CollectWellFormed(canon: Canon, outputs: seq<Output>, n: nat)
    requires n <= |outputs| && Collect(canon, outputs, n).Success?
    ensures var calls := Collect(canon, outputs, n).value; calls == [] || WellFormed(Observation(0, calls))
  {
    if n > 0 {
      CollectWellFormed(canon, outputs, n - 1);
      var before, calls := Collect(canon, outputs, n - 1).value, Collect(canon, outputs, n).value;
      forall i, j | 0 <= i < j < |calls| ensures calls[i].id != calls[j].id {
        if j == |before| {
          assert calls[i] == before[i];
        } else {
          assert calls[i] == before[i] && calls[j] == before[j];
        }
      }
    }
  }

  // --------------------------------------------------------- the event machine

  datatype Kind =
    | ResponseStarted
    | CallStarted(call: Option<Call>)
    | ArgumentsDelta(call: Option<Call>, text: string)
    | CallCompleted(call: Option<Call>)
    | ResponseCompleted(response: Option<Response>)
    | StreamError
    | OtherEvent

  datatype Event = Event(sequence: int, responseId: string, kind: Kind)

  datatype CallState = CallState(name: string, arguments: string, canonical: Option<string>)
  {
    predicate Completed() { canonical.Some? }
  }

  datatype State = State(last: int, responseId: string, calls: map<string, CallState>, terminal: bool,
                         observation: Option<Observation>, error: Option<Error>)

  datatype Stepped = Stepped(state: State, reply: Result<Option<Observation>, Error>)

  const INITIAL := State(0, "", map[], false, None, None)

  function Fail(s: State, e: Error): Stepped { Stepped(s.(terminal := true, error := Some(e)), Failure(e)) }

  function Keep(s: State): Stepped { Stepped(s, Success(None)) }

  predicate EntryMatches(calls: map<string, CallState>, e: Entry) {
    e.id in calls ==> calls[e.id].name == e.name && calls[e.id].canonical == Some(e.arguments)
  }

  predicate StreamedAppear(calls: map<string, CallState>, o: Observation) {
    forall id :: id in calls ==> calls[id].Completed() && HasId(o.calls, id)
  }

  function CompleteResponse(canon: Canon, invocation: nat, s: State, response: Response): Stepped {
    if response.id == "" && s.responseId == "" then Fail(s, ResponseMissing)
    else if response.id != "" && s.responseId != "" && response.id != s.responseId then Fail(s, ResponseConflict)
    else
      var s := s.(responseId := if response.id != "" then response.id else s.responseId);
      match Finalized(canon, invocation, response)
      case Failure(e) => Fail(s, e)
      case Success(o) =>
        if exists i :: 0 <= i < |o.calls| && !EntryMatches(s.calls, o.calls[i]) then Fail(s, TerminalConflict)
        else if !StreamedAppear(s.calls, o) then Fail(s, StreamedCallUnmatched)
        else Stepped(s.(terminal := true, observation := Some(o)), Success(Some(o)))
  }

  function Accepted(canon: Canon, invocation: nat, s: State, kind: Kind): Stepped {
    match kind
    case ResponseStarted => Keep(s)
    case CallStarted(call) =>
      if call.None? || Blank(call.value.id) || Blank(call.value.name) then Fail(s, StartInvalid)
      else if call.value.id in s.calls then Fail(s, DuplicateCall)
      else Keep(s.(calls := s.calls[call.value.id := CallState(call.value.name, "", None)]))
    case ArgumentsDelta(call, text) =>
      if call.None? || Blank(call.value.id) then Fail(s, CorrelationUnsupported)
      else if call.value.id !in s.calls || s.calls[call.value.id].Completed() then Fail(s, DeltaStateInvalid)
      else
        var c := s.calls[call.value.id];
        if call.value.name != "" && call.value.name != c.name then Fail(s, NameConflict)
        else
          var s := s.(calls := s.calls[call.value.id := c.(arguments := c.arguments + text)]);
          if call.value.arguments != "" && call.value.arguments != c.arguments + text then Fail(s, DeltaConflict)
          else Keep(s)
    case CallCompleted(call) =>
      if call.None? || Blank(call.value.id) || Blank(call.value.name) then Fail(s, CompleteInvalid)
      else if call.value.id !in s.calls || s.calls[call.value.id].Completed()
        || s.calls[call.value.id].name != call.value.name
      then Fail(s, CompleteStateInvalid)
      else
        var c := s.calls[call.value.id];
        var canonical := canon(call.value.arguments);
        if canonical.None? then Fail(s, ArgumentsInvalid)
        else if c.arguments != "" && canon(c.arguments) != canonical then Fail(s, CompleteConflict)
        else Keep(s.(calls := s.calls[call.value.id := c.(canonical := canonical)]))
    case ResponseCompleted(response) =>
      if response.None? then Fail(s, TerminalMissing) else CompleteResponse(canon, invocation, s, response.value)
    case StreamError => Fail(s, StreamFailed)
    case OtherEvent => Keep(s)
  }

  function Step(canon: Canon, invocation: nat, s: State, e: Event): Stepped {
    if s.error.Some? then Stepped(s, Failure(s.error.value))
    else if s.terminal then Stepped(s, Failure(AfterTerminal))
    else if e.sequence <= 0 || e.sequence <= s.last then Fail(s, SequenceInvalid)
    else if e.responseId != "" && s.responseId != "" && s.responseId != e.responseId
    then Fail(s.(last := e.sequence), ResponseConflict)
    else
      Accepted(canon, invocation,
               s.(last := e.sequence, responseId := if e.responseId != "" then e.responseId else s.responseId), e.kind)
  }

  class Finalizer {
    const canon: Canon
    const invocation: nat
    var last: int
    var responseId: string
    var calls: map<string, CallState>
    var terminal: bool
    var observation: Option<Observation>
    var error: Option<Error>

    function Abstract(): State
      reads this
    {
      State(last, responseId, calls, terminal, observation, error)
    }

    constructor (canon: Canon, invocation: nat)
      ensures Abstract() == INITIAL && this.canon == canon && this.invocation == invocation
    {
      this.canon, this.invocation := canon, invocation;
      last, responseId, calls, terminal, observation, error := 0, "", map[], false, None, None;
    }

    method FailWith(e: Error) returns (r: Result<Option<Observation>, Error>)
      modifies this
      ensures Abstract() == Fail(old(Abstract()), e).state && r == Failure(e)
    {
      terminal, error := true, Some(e);
      return Failure(e);
    }

    /** The two passes that compare the terminal response with what was streamed. */
    method MatchTerminal(o: Observation) returns (e: Option<Error>)
      ensures e == if exists i :: 0 <= i < |o.calls| && !EntryMatches(calls, o.calls[i]) then Some(TerminalConflict)
                   else if !StreamedAppear(calls, o) then Some(StreamedCallUnmatched) else None
    {
      var listed: set<string> := {};
      for i := 0 to |o.calls|
        invariant forall j :: 0 <= j < i ==> EntryMatches(calls, o.calls[j])
        invariant forall id :: id in listed <==> exists j :: 0 <= j < i && o.calls[j].id == id
      {
        listed := listed + {o.calls[i].id};
        if !EntryMatches(calls, o.calls[i]) {
          return Some(TerminalConflict);
        }
      }
      var remaining := calls.Keys;
      while remaining != {}
        invariant remaining <= calls.Keys
        invariant forall id :: id in calls && id !in remaining ==> calls[id].Completed() && HasId(o.calls, id)
        decreases |remaining|
      {
        var id :| id in remaining;
        if !calls[id].Completed() || id !in listed {
          return Some(StreamedCallUnmatched);
        }
        remaining := remaining - {id};
      }
      return None;
    }

    method Observe(e: Event) returns (r: Result<Option<Observation>, Error>)
      modifies this
      ensures Abstract() == Step(canon, invocation, old(Abstract()), e).state
      ensures r == Step(canon, invocation, old(Abstract()), e).reply
    {
      if error.Some? {
        return Failure(error.value);
      }
      if terminal {
        return Failure(AfterTerminal);
      }
      if e.sequence <= 0 || e.sequence <= last {
        r := FailWith(SequenceInvalid);
        return;
      }
      last := e.sequence;
      if e.responseId != "" {
        if responseId != "" && responseId != e.responseId {
          r := FailWith(ResponseConflict);
          return;
        }
        responseId := e.responseId;
      }
      if e.kind.ResponseCompleted? {
        r := ObserveTerminal(e.kind.response);
      } else {
        r := ObserveCall(e.kind);
      }
    }

    method ObserveCall(kind: Kind) returns (r: Result<Option<Observation>, Error>)
      requires !kind.ResponseCompleted?
      modifies this
      ensures Abstract() == Accepted(canon, invocation, old(Abstract()), kind).state
      ensures r == Accepted(canon, invocation, old(Abstract()), kind).reply
    {
      match kind
      case ResponseStarted => return Success(None);
      case OtherEvent => return Success(None);
      case StreamError => r := FailWith(StreamFailed);
      case CallStarted(call) =>
        if call.None? || Blank(call.value.id) || Blank(call.value.name) {
          r := FailWith(StartInvalid);
          return;
        }
        if call.value.id in calls {
          r := FailWith(DuplicateCall);
          return;
        }
        calls := calls[call.value.id := CallState(call.value.name, "", None)];
        return Success(None);
      case ArgumentsDelta(call, text) =>
        if call.None? || Blank(call.value.id) {
          r := FailWith(CorrelationUnsupported);
          return;
        }
        if call.value.id !in calls || calls[call.value.id].Completed() {
          r := FailWith(DeltaStateInvalid);
          return;
        }
        var c := calls[call.value.id];
        if call.value.name != "" && call.value.name != c.name {
          r := FailWith(NameConflict);
          return;
        }
        calls := calls[call.value.id := c.(arguments := c.arguments + text)];
        if call.value.arguments != "" && call.value.arguments != calls[call.value.id].arguments {
          r := FailWith(DeltaConflict);
          return;
        }
        return Success(None);
      case CallCompleted(call) =>
        if call.None? || Blank(call.value.id) || Blank(call.value.name) {
          r := FailWith(CompleteInvalid);
          return;
        }
        if call.value.id !in calls || calls[call.value.id].Completed() || calls[call.value.id].name != call.value.name {
          r := FailWith(CompleteStateInvalid);
          return;
        }
        var c := calls[call.value.id];
        var canonical := canon(call.value.arguments);
        if canonical.None? {
          r := FailWith(ArgumentsInvalid);
          return;
        }
        if c.arguments != "" {
          var assembled := canon(c.arguments);
          if assembled.None? || assembled != canonical {
            r := FailWith(CompleteConflict);
            return;
          }
        }
        calls := calls[call.value.id := c.(canonical := canonical)];
        return Success(None);
    }

    method ObserveTerminal(response: Option<Response>) returns (r: Result<Option<Observation>, Error>)
      modifies this
      ensures Abstract() == Accepted(canon, invocation, old(Abstract()), ResponseCompleted(response)).state
      ensures r == Accepted(canon, invocation, old(Abstract()), ResponseCompleted(response)).reply
    {
      if response.None? {
        r := FailWith(TerminalMissing);
        return;
      }
      var id := response.value.id;
      if id != "" {
        if responseId != "" && responseId != id {
          r := FailWith(ResponseConflict);
          return;
        }
        responseId := id;
      } else if responseId == "" {
        r := FailWith(ResponseMissing);
        return;
      }
      var o := Finalize(canon, invocation, response.value);
      if o.Failure? {
        r := FailWith(o.error);
        return;
      }
      var mismatch := MatchTerminal(o.value);
      if mismatch.Some? {
        r := FailWith(mismatch.value);
        return;
      }
      terminal, observation := true, Some(o.value);
      return Success(Some(o.value));
    }

    /** Result reads the outcome at any time. */
    method Result() returns (r: Result<Option<Observation>, Error>)
      ensures r == if error.Some? then Failure(error.value) else Success(observation)
    {
      if error.Some? {
        return Failure(error.value);
      }
      return Success(observation);
    }
  }

  // ------------------------------------------------------------- every run

  /** The state after the first n events. */
  function Run(canon: Canon, invocation: nat, events: seq<Event>, n: nat): State
    requires n <= |events|
  {
    if n == 0 then INITIAL else Step(canon, invocation, Run(canon, invocation, events, n - 1), events[n - 1]).state
  }

  function Reply(canon: Canon, invocation: nat, events: seq<Event>, n: nat): Result<Option<Observation>, Error>
    requires n < |events|
  {
    Step(canon, invocation, Run(canon, invocation, events, n), events[n]).reply
  }

  /** The argument text an event carries for one call. */
  function OwnText(e: Event, id: string): string {
    match e.kind
    case ArgumentsDelta(Some(call), text) => if call.id == id then text else ""
    case _ => ""
  }

  /** What the stream sent as argument text of one call, in order, other calls' text left out. */
  function Deltas(events: seq<Event>, n: nat, id: string): string
    requires n <= |events|
  {
    if n == 0 then "" else Deltas(events, n - 1, id) + OwnText(events[n - 1], id)
  }

  /** A streamed call holds the given text, and once completed the canonical form of it. */
  predicate Assembled(canon: Canon, calls: map<string, CallState>, id: string, text: string) {
    if id in calls
    then calls[id].arguments == text && (calls[id].Completed() && text != "" ==> canon(text) == calls[id].canonical)
    else text == ""
  }

  /** A step that does not end the stream started from a running one, and added only its own text. */
  lemma StepAssembles(canon: Canon, invocation: nat, s: State, e: Event, id: string, text: string)
    requires s.terminal || s.error.None?
    requires !Step(canon, invocation, s, e).state.terminal
    ensures !s.terminal && Step(canon, invocation, s, e).state.error.None?
    ensures Assembled(canon, s.calls, id, text) ==>
      Assembled(canon, Step(canon, invocation, s, e).state.calls, id, text + OwnText(e, id))
  {
    hide CompleteResponse, Blank;
    Append(text);
    if e.kind.ResponseCompleted? {
      CompletedEnds(canon, invocation, s, e);
    }
    assert !e.kind.ArgumentsDelta? ==> OwnText(e, id) == "";
  }

  lemma Append(text: string)
    ensures text + "" == text
  {
  }

  lemma CompletedEnds(canon: Canon, invocation: nat, s: State, e: Event)
    requires e.kind.ResponseCompleted?
    ensures Step(canon, invocation, s, e).state.terminal || s.error.Some?
  {
  }

  /** Under any interleaving each call's buffer is the concatenation of its own deltas. */
  lemma {:induction false} BuffersAreOwnDeltas(canon: Canon, invocation: nat, events: seq<Event>, n: nat, id: string)
    requires n <= |events| && !Run(canon, invocation, events, n).terminal
    ensures Run(canon, invocation, events, n).error.None?
    ensures Assembled(canon, Run(canon, invocation, events, n).calls, id, Deltas(events, n, id))
  {
    if n > 0 {
      hide Step, Assembled, OwnText;
      var before := Run(canon, invocation, events, n - 1);
      RunErrorIsTerminal(canon, invocation, events, n - 1);
      StepAssembles(canon, invocation, before, events[n - 1], id, Deltas(events, n - 1, id));
      BuffersAreOwnDeltas(canon, invocation, events, n - 1, id);
    }
  }

  lemma {:induction false} RunErrorIsTerminal(canon: Canon, invocation: nat, events: seq<Event>, n: nat)
    requires n <= |events|
    ensures Run(canon, invocation, events, n).error.Some? ==> Run(canon, invocation, events, n).terminal
  {
    if n > 0 {
      RunErrorIsTerminal(canon, invocation, events, n - 1);
      StepErrorIsTerminal(canon, invocation, Run(canon, invocation, events, n - 1), events[n - 1]);
      hide Step;
    }
  }

  lemma StepErrorIsTerminal(canon: Canon, invocation: nat, s: State, e: Event)
    requires s.error.Some? ==> s.terminal
    ensures Step(canon, invocation, s, e).state.error.Some? ==> Step(canon, invocation, s, e).state.terminal
  {
  }

  /** Once an error, always that error, whatever follows. */
  lemma {:induction false} FailureIsPermanent(canon: Canon, invocation: nat, events: seq<Event>, m: nat, n: nat)
    requires m <= n <= |events| && Run(canon, invocation, events, m).error.Some?
    ensures Run(canon, invocation, events, n) == Run(canon, invocation, events, m)
    ensures n < |events| ==>
        Reply(canon, invocation, events, n) == Failure(Run(canon, invocation, events, m).error.value)
  {
    if m < n {
      FailureIsPermanent(canon, invocation, events, m, n - 1);
    }
  }

  /** Once finalized, the observation stays, and every further event is refused. */
  lemma {:induction false} FinalizationIsPermanent(canon: Canon, invocation: nat, events: seq<Event>, m: nat, n: nat)
    requires m < n <= |events| && Reply(canon, invocation, events, m).Success?
        && Reply(canon, invocation, events, m).value.Some?
    ensures Run(canon, invocation, events, n) == Run(canon, invocation, events, m + 1)
    ensures Run(canon, invocation, events, n).observation == Reply(canon, invocation, events, m).value
    ensures n < |events| ==> Reply(canon, invocation, events, n) == Failure(AfterTerminal)
  {
    if m + 1 < n {
      FinalizationIsPermanent(canon, invocation, events, m, n - 1);
    } else {
      EmittedIsSynchronous(canon, invocation, events, m);
    }
  }

  /** At most one event of a stream is answered with an observation. */
  lemma AtMostOneObservation(canon: Canon, invocation: nat, events: seq<Event>, m: nat, n: nat)
    requires m < |events| && n < |events|
    requires Reply(canon, invocation, events, m).Success? && Reply(canon, invocation, events, m).value.Some?
    requires Reply(canon, invocation, events, n).Success? && Reply(canon, invocation, events, n).value.Some?
    ensures m == n
  {
    if m < n {
      FinalizationIsPermanent(canon, invocation, events, m, n);
    } else if n < m {
      FinalizationIsPermanent(canon, invocation, events, n, m);
    }
  }

  /**
   The observation emitted is the synchronous finalizer's on the terminal response; every streamed call was
   completed and appears in it under its name, with its canonical arguments.
   */
  lemma EmittedIsSynchronous(canon: Canon, invocation: nat, events: seq<Event>, n: nat)
    requires n < |events| && Reply(canon, invocation, events, n).Success?
        && Reply(canon, invocation, events, n).value.Some?
    ensures events[n].kind.ResponseCompleted? && events[n].kind.response.Some?
    ensures var o, s := Reply(canon, invocation, events, n).value.value, Run(canon, invocation, events, n);
            && Finalized(canon, invocation, events[n].kind.response.value) == Success(o)
            && Run(canon, invocation, events, n + 1).observation == Some(o)
            && Run(canon, invocation, events, n + 1).terminal
            && forall id :: id in s.calls ==>
                 s.calls[id].Completed() && HasId(o.calls, id)
                 && forall i :: 0 <= i < |o.calls| && o.calls[i].id == id ==>
                      o.calls[i].name == s.calls[id].name && Some(o.calls[i].arguments) == s.calls[id].canonical
  {
    var o, s := Reply(canon, invocation, events, n).value.value, Run(canon, invocation, events, n);
    forall id, i | id in s.calls && 0 <= i < |o.calls| && o.calls[i].id == id
      ensures o.calls[i].name == s.calls[id].name && Some(o.calls[i].arguments) == s.calls[id].canonical
    {
      assert EntryMatches(s.calls, o.calls[i]);
    }
  }

  /**
   Streamed text and terminal arguments agree: each non-empty buffer canonicalizes to what the observation carries.
   */
  lemma StreamedTextIsObserved(canon: Canon, invocation: nat, events: seq<Event>, n: nat, i: nat)
    requires n < |events| && Reply(canon, invocation, events, n).Success?
        && Reply(canon, invocation, events, n).value.Some?
    requires i < |Reply(canon, invocation, events, n).value.value.calls|
    ensures var e := Reply(canon, invocation, events, n).value.value.calls[i];
            Deltas(events, n, e.id) != "" ==> canon(Deltas(events, n, e.id)) == Some(e.arguments)
  {
    var o, s := Reply(canon, invocation, events, n).value.value, Run(canon, invocation, events, n);
    EmittedIsSynchronous(canon, invocation, events, n);
    BuffersAreOwnDeltas(canon, invocation, events, n, o.calls[i].id);
    if o.calls[i].id in s.calls {
      assert s.calls[o.calls[i].id].canonical == Some(o.calls[i].arguments);
    }
  }

  lemma ObservationWellFormed(canon: Canon, invocation: nat, response: Response)
    requires Finalized(canon, invocation, response).Success?
    ensures WellFormed(Finalized(canon, invocation, response).value)
  {
    CollectWellFormed(canon, response.outputs, |response.outputs|);
  }
}
