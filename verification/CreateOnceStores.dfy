/**
 The prepared-invocation store (model-invoker/prepared_model_invocation_repository_v1.go) and the
 tool-call projection store (model-invoker/tool_call_observation_repository.go).

 All three indexes of the two stores have one design: records by ID, and the ID by a second
 coordinate.  `Twin` says the two maps are inverse to each other and hold one set of records;
 the classes are proved to refine a create-once set of records.
 */
module CreateOnceStores {
  import opened Wrappers

  /** A sealed record: its ID, its other coordinate, and everything else.  An exact reference covers all three. */
  datatype Item<K> = Item(id: nat, key: K, content: nat)

  datatype StoreError = Conflict | AuthoritativeAbsent | Indeterminate

  // ----------------------------------------------------- the specification

  ghost predicate Clashes<K(!new)>(created: set<Item<K>>, x: Item<K>) {
    exists y :: y in created && (y.id == x.id || y.key == x.key)
  }

  /** No two records share an ID or a coordinate. */
  ghost predicate OneToOne<K(!new)>(created: set<Item<K>>) {
    forall x, y :: x in created && y in created && (x.id == y.id || x.key == y.key) ==> x == y
  }

  ghost function EnsureAnswer<K(!new)>(created: set<Item<K>>, x: Item<K>): Result<Item<K>, StoreError> {
    if x in created || !Clashes(created, x) then Success(x) else Failure(Conflict)
  }

  ghost function Ensured<K(!new)>(created: set<Item<K>>, x: Item<K>): set<Item<K>> {
    if EnsureAnswer(created, x).Success? then created + {x} else created
  }

  ghost function InspectAnswer<K(!new)>(created: set<Item<K>>, ref: Item<K>): Result<Item<K>, StoreError> {
    if ref in created then Success(ref)
    else if Clashes(created, ref) then Failure(Conflict)
    else Failure(AuthoritativeAbsent)
  }

  /** The two maps are inverse to each other and hold exactly the created records. */
  ghost predicate Twin<K(!new)>(byId: map<nat, Item<K>>, byKey: map<K, nat>, created: set<Item<K>>) {
    && (forall i :: i in byId ==>
         byId[i].id == i && byId[i] in created && byId[i].key in byKey && byKey[byId[i].key] == i)
    && (forall k :: k in byKey ==> byKey[k] in byId && byId[byKey[k]].key == k)
    && (forall x :: x in created ==> x.id in byId && byId[x.id] == x)
  }

  /** What may happen to one call: an answer, an applied call without an answer, or neither. */
  datatype Fault = NoFault | AnswerLost | NotReached

  // ------------------------------------------------- the prepared store

  /** A fact's coordinate is its invocation; a current projection's is the exact fact it projects. */
  type Historical = Item<nat>
  type Current = Item<Historical>

  /** What a current projection must repeat of its parent is modelled by its content being derived from it. */
  predicate MatchesParent(c: Current) { c.content == c.key.content }

  class PreparedStore {
    var historicalById: map<nat, Historical>
    var historicalByInvocation: map<nat, nat>
    var currentById: map<nat, Current>
    var currentByPrepared: map<Historical, nat>
    ghost var facts: set<Historical>
    ghost var projections: set<Current>

    /** Every current projection has its exact historical parent, and no parent has two. */
    ghost predicate Valid()
      reads this
    {
      && Twin(historicalById, historicalByInvocation, facts)
      && Twin(currentById, currentByPrepared, projections)
      && (forall c :: c in projections ==> c.key in facts && MatchesParent(c))
    }

    constructor ()
      ensures Valid() && facts == {} && projections == {}
    {
      historicalById, historicalByInvocation, currentById, currentByPrepared := map[], map[], map[], map[];
      facts, projections := {}, {};
    }

    method EnsureFact(f: Historical) returns (r: Result<Historical, StoreError>)
      requires Valid()
      modifies this
      ensures Valid() && projections == old(projections)
      ensures r == EnsureAnswer(old(facts), f) && facts == Ensured(old(facts), f)
    {
      if f.id in historicalById {
        var existing := historicalById[f.id];
        if f.key in historicalByInvocation && historicalByInvocation[f.key] == f.id && existing == f {
          assert facts + {f} == facts;
          return Success(existing);
        }
        return Failure(Conflict);
      }
      if f.key in historicalByInvocation {
        if historicalById[historicalByInvocation[f.key]] == f {
          return Success(f);
        }
        return Failure(Conflict);
      }
      historicalById := historicalById[f.id := f];
      historicalByInvocation := historicalByInvocation[f.key := f.id];
      facts := facts + {f};
      return Success(f);
    }

    method InspectFact(ref: Historical) returns (r: Result<Historical, StoreError>)
      requires Valid()
      ensures r == InspectAnswer(facts, ref)
    {
      if ref.id !in historicalById && ref.key !in historicalByInvocation {
        return Failure(AuthoritativeAbsent);
      }
      if ref.id !in historicalById || ref.key !in historicalByInvocation
         || historicalByInvocation[ref.key] != ref.id || historicalById[ref.id] != ref {
        return Failure(Conflict);
      }
      return Success(historicalById[ref.id]);
    }

    /** One call as its caller sees it across a faulty boundary. */
    method CallFact(f: Historical, fault: Fault) returns (r: Result<Historical, StoreError>)
      requires Valid()
      modifies this
      ensures Valid() && projections == old(projections)
      ensures facts == if fault.NotReached? then old(facts) else Ensured(old(facts), f)
      ensures r == if fault.NoFault? then EnsureAnswer(old(facts), f) else Failure(Indeterminate)
    {
      if fault.NotReached? {
        return Failure(Indeterminate);
      }
      r := EnsureFact(f);
      if fault.AnswerLost? {
        r := Failure(Indeterminate);
      }
    }

    /** The historical barrier: it repeats the call once after an indeterminate answer, and reports the repetition. */
    method EnsureFactThroughFaults(f: Historical, first: Fault, second: Fault)
        returns (r: Result<Historical, StoreError>)
      requires Valid()
      modifies this
      ensures Valid() && projections == old(projections) && old(facts) <= facts <= old(facts) + {f}
      ensures r == if first.NoFault? || second.NoFault? then EnsureAnswer(old(facts), f) else Failure(Indeterminate)
      ensures r.Success? ==> r.value == f && f in facts
    {
      r := CallFact(f, first);
      if r == Failure(Indeterminate) {
        r := CallFact(f, second);
      }
    }

    method EnsureCurrent(c: Current) returns (r: Result<Current, StoreError>)
      requires Valid()
      modifies this
      ensures Valid() && facts == old(facts)
      ensures c.key in facts && MatchesParent(c) ==>
        r == EnsureAnswer(old(projections), c) && projections == Ensured(old(projections), c)
      ensures !(c.key in facts && MatchesParent(c)) ==> r == Failure(Conflict) && projections == old(projections)
    {
      if c.key.id !in historicalById || historicalById[c.key.id] != c.key || !MatchesParent(c) {
        return Failure(Conflict);
      }
      if c.id in currentById {
        var existing := currentById[c.id];
        if c.key in currentByPrepared && currentByPrepared[c.key] == c.id && existing == c {
          assert projections + {c} == projections;
          return Success(existing);
        }
        return Failure(Conflict);
      }
      if c.key in currentByPrepared {
        if currentById[currentByPrepared[c.key]] == c {
          return Success(c);
        }
        return Failure(Conflict);
      }
      currentById := currentById[c.id := c];
      currentByPrepared := currentByPrepared[c.key := c.id];
      projections := projections + {c};
      return Success(c);
    }

    method InspectCurrent(ref: Current) returns (r: Result<Current, StoreError>)
      requires Valid()
      ensures r == InspectAnswer(projections, ref)
      ensures r.Success? ==> ref.key in facts && forall c :: c in projections && c.key == ref.key ==> c == ref
    {
      if ref.id !in currentById && ref.key !in currentByPrepared {
        return Failure(AuthoritativeAbsent);
      }
      if ref.id !in currentById || ref.key !in currentByPrepared
         || currentByPrepared[ref.key] != ref.id || currentById[ref.id] != ref {
        return Failure(Conflict);
      }
      return Success(currentById[ref.id]);
    }
  }

  // ---------------------------------------------- the projection store

  /** A projection's second coordinate is its source: invocation, response and sequence. */
  datatype Source = Source(invocation: nat, response: nat, sequence: nat)
  type Projection = Item<Source>

  class ProjectionStore {
    var byId: map<nat, Projection>
    var bySource: map<Source, nat>
    ghost var created: set<Projection>

    ghost predicate Valid()
      reads this
    {
      Twin(byId, bySource, created)
    }

    constructor ()
      ensures Valid() && created == {}
    {
      byId, bySource, created := map[], map[], {};
    }

    method Ensure(p: Projection) returns (r: Result<Projection, StoreError>)
      requires Valid()
      modifies this
      ensures Valid() && r == EnsureAnswer(old(created), p) && created == Ensured(old(created), p)
    {
      if p.id in byId {
        if p.key in bySource && bySource[p.key] == p.id && byId[p.id] == p {
          assert created + {p} == created;
          return Success(byId[p.id]);
        }
        return Failure(Conflict);
      }
      if p.key in bySource {
        if byId[bySource[p.key]] == p {
          return Success(p);
        }
        return Failure(Conflict);
      }
      byId := byId[p.id := p];
      bySource := bySource[p.key := p.id];
      created := created + {p};
      return Success(p);
    }

    method InspectExact(ref: Projection) returns (r: Result<Projection, StoreError>)
      requires Valid()
      ensures r == InspectAnswer(created, ref)
    {
      if ref.id !in byId && ref.key !in bySource {
        return Failure(AuthoritativeAbsent);
      }
      if ref.id !in byId || ref.key !in bySource || bySource[ref.key] != ref.id || byId[ref.id] != ref {
        return Failure(Conflict);
      }
      return Success(byId[ref.id]);
    }

    /** One call as its caller sees it across a faulty boundary. */
    method Call(p: Projection, fault: Fault) returns (r: Result<Projection, StoreError>)
      requires Valid()
      modifies this
      ensures Valid()
      ensures created == if fault.NotReached? then old(created) else Ensured(old(created), p)
      ensures r == if fault.NoFault? then EnsureAnswer(old(created), p) else Failure(Indeterminate)
    {
      if fault.NotReached? {
        return Failure(Indeterminate);
      }
      r := Ensure(p);
      if fault.AnswerLost? {
        r := Failure(Indeterminate);
      }
    }

    /**
     The ensure barrier: one repetition of the same call, and only after an indeterminate answer.  Its error
     joins both calls' errors and so is classified by the first: a conflict found by the repetition is
     reported as indeterminate.
     */
    method EnsureThroughFaults(p: Projection, first: Fault, second: Fault) returns (r: Result<Projection, StoreError>)
      requires Valid()
      modifies this
      ensures Valid() && old(created) <= created <= old(created) + {p}
      ensures r.Success? <==> (first.NoFault? || second.NoFault?) && EnsureAnswer(old(created), p).Success?
      ensures r.Success? ==> r.value == p && p in created
      ensures r == Failure(Conflict) <==> first.NoFault? && EnsureAnswer(old(created), p).Failure?
      ensures r.Failure? && r.error != Conflict ==> r.error == Indeterminate
    {
      r := Call(p, first);
      if r != Failure(Indeterminate) {
        return;
      }
      r := Call(p, second);
      if r.Failure? {
        r := Failure(Indeterminate);
      }
    }
  }

  // ------------------------------------------------------------- every run

  /** The records after a run of ensure calls. */
  ghost function Run<K(!new)>(calls: seq<Item<K>>): set<Item<K>> {
    if calls == [] then {} else Ensured(Run(calls[..|calls| - 1]), calls[|calls| - 1])
  }

  ghost predicate Succeeded<K(!new)>(calls: seq<Item<K>>, n: nat)
    requires n < |calls|
  {
    EnsureAnswer(Run(calls[..n]), calls[n]).Success?
  }

  lemma {:induction false} RunOneToOne<K(!new)>(calls: seq<Item<K>>)
    ensures OneToOne(Run(calls))
  {
    if calls != [] {
      RunOneToOne(calls[..|calls| - 1]);
    }
  }

  lemma EarlierCall<K(!new)>(calls: seq<Item<K>>, n: nat)
    requires n < |calls| - 1
    ensures Succeeded(calls[..|calls| - 1], n) <==> Succeeded(calls, n)
  {
    assert calls[..|calls| - 1][..n] == calls[..n];
  }

  /** A record is stored exactly if an ensure of it succeeded: nothing else is, and nothing is forgotten. */
  lemma {:induction false} StoredIffEnsured<K(!new)>(calls: seq<Item<K>>, x: Item<K>)
    ensures x in Run(calls) <==> exists n :: 0 <= n < |calls| && calls[n] == x && Succeeded(calls, n)
  {
    if calls != [] {
      var front := calls[..|calls| - 1];
      StoredIffEnsured(front, x);
      hide Run, Succeeded;
      forall n | 0 <= n < |front| ensures front[n] == calls[n] && Succeeded(front, n) == Succeeded(calls, n) {
        EarlierCall(calls, n);
      }
    }
  }

  /** Absence is reported as authoritative exactly if neither the ID nor the coordinate was ever created. */
  lemma AbsentIffNeverCreated<K(!new)>(calls: seq<Item<K>>, ref: Item<K>)
    ensures InspectAnswer(Run(calls), ref) == Failure(AuthoritativeAbsent)
       <==> forall n :: 0 <= n < |calls| && Succeeded(calls, n) ==> calls[n].id != ref.id && calls[n].key != ref.key
  {
    forall x: Item<K>
      ensures x in Run(calls) <==> exists n :: 0 <= n < |calls| && calls[n] == x && Succeeded(calls, n)
    {
      StoredIffEnsured(calls, x);
    }
    if ref in Run(calls) {
      assert Clashes(Run(calls), ref);
    }
    if Clashes(Run(calls), ref) {
      var y :| y in Run(calls) && (y.id == ref.id || y.key == ref.key);
      var n :| 0 <= n < |calls| && calls[n] == y && Succeeded(calls, n);
      assert calls[n].id == ref.id || calls[n].key == ref.key;
    }
  }

  /** An exact read returns what was first ensured under its ID and under its coordinate. */
  lemma InspectReturnsFirst<K(!new)>(calls: seq<Item<K>>, n: nat, ref: Item<K>)
    requires n < |calls| && Succeeded(calls, n) && (calls[n].id == ref.id || calls[n].key == ref.key)
    requires InspectAnswer(Run(calls), ref).Success?
    ensures InspectAnswer(Run(calls), ref).value == calls[n]
  {
    StoredIffEnsured(calls, calls[n]);
    RunOneToOne(calls);
  }
}
