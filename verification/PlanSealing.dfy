/**
 Plan sealing (agent-assembler/contract/canonical.go) and reference merging (agent-assembler/mapper/mapper.go).

 A plan is sealed by sorting its parts, taking a digest that leaves the plan's own digest and self-reference
 blank, and writing that digest into both.  The library sort is not stable, so it is modelled by what it
 promises: some ordering by key of the same parts.  The seal is proved not to depend on the order of the
 parts, or on the sort, exactly when equal keys mean equal parts.
 */
module PlanSealing {
  import opened Strings
  import opened Wrappers

  /** A component release or an object reference: the key it is sorted by, and everything else. */
  datatype Part = Part(key: string, content: nat)

  // -------------------------------------------------------------- sorting

  predicate Ordered(s: seq<Part>) { forall i, j :: 0 <= i < j < |s| ==> Le(s[i].key, s[j].key) }

  predicate SortOf(s: seq<Part>, t: seq<Part>) { multiset(s) == multiset(t) && Ordered(t) }

  predicate KeysDetermine(s: seq<Part>) { forall a, b :: a in s && b in s && a.key == b.key ==> a == b }

  lemma SameMembers(s: seq<Part>, t: seq<Part>)
    requires multiset(s) == multiset(t)
    ensures |s| == |t| && forall a :: a in s <==> a in t
  {
    assert |multiset(s)| == |s| && |multiset(t)| == |t|;
    forall a ensures a in s <==> a in t {
      assert a in s <==> a in multiset(s);
      assert a in t <==> a in multiset(t);
    }
  }

  lemma DropLast(s: seq<Part>)
    requires s != []
    ensures multiset(s[..|s| - 1]) == multiset(s) - multiset{s[|s| - 1]}
  {
    assert s == s[..|s| - 1] + [s[|s| - 1]];
  }

  lemma SameLast(t: seq<Part>, u: seq<Part>)
    requires multiset(t) == multiset(u) && Ordered(t) && Ordered(u) && KeysDetermine(t) && t != []
    ensures |t| == |u| && t[|t| - 1] == u[|u| - 1]
  {
    SameMembers(t, u);
    var x, y := t[|t| - 1], u[|u| - 1];
    assert x in u && y in t;
    LastIsGreatest(t, y);
    LastIsGreatest(u, x);
    LeTotal(x.key, y.key);
  }

  lemma LastIsGreatest(s: seq<Part>, a: Part)
    requires Ordered(s) && a in s
    ensures Le(a.key, s[|s| - 1].key)
  {
    LeTotal(a.key, a.key);
  }

  /** What is left of two orderings of the same parts without their last parts is again two such orderings. */
  lemma Fronts(t: seq<Part>, u: seq<Part>)
    requires multiset(t) == multiset(u) && Ordered(t) && Ordered(u) && KeysDetermine(t) && t != []
    ensures |t| == |u| && t[|t| - 1] == u[|u| - 1]
    ensures multiset(t[..|t| - 1]) == multiset(u[..|u| - 1])
    ensures Ordered(t[..|t| - 1]) && Ordered(u[..|u| - 1]) && KeysDetermine(t[..|t| - 1])
  {
    SameLast(t, u);
    KeysOfPermutation(t, u);
    hide Ordered, KeysDetermine;
    DropLast(t);
    DropLast(u);
  }

  /** If keys determine parts, a multiset of parts has one ordering. */
  lemma {:induction false} OneOrdering(t: seq<Part>, u: seq<Part>)
    requires multiset(t) == multiset(u) && Ordered(t) && Ordered(u) && KeysDetermine(t)
    ensures t == u
    decreases |t|
  {
    hide Ordered, KeysDetermine;
    if t == [] {
      assert |multiset(u)| == 0;
    } else {
      Fronts(t, u);
      OneOrdering(t[..|t| - 1], u[..|u| - 1]);
    }
  }

  lemma KeysOfPermutation(s: seq<Part>, t: seq<Part>)
    requires multiset(s) == multiset(t)
    ensures KeysDetermine(s) <==> KeysDetermine(t)
  {
    SameMembers(s, t);
  }

  lemma SwapKeeps(t: seq<Part>, i: nat, j: nat)
    requires i < |t| && j < |t| && i != j
    ensures multiset(t[i := t[j]][j := t[i]]) == multiset(t)
  {
    var a, b := t[i], t[j];
    assert multiset(t[i := b]) == multiset(t) - multiset{a} + multiset{b};
    assert multiset(t[i := b][j := a]) == multiset(t[i := b]) - multiset{b} + multiset{a};
  }

  /** If two different parts share a key, an ordering has another one beside it. */
  lemma TwoOrderings(t: seq<Part>) returns (u: seq<Part>)
    requires Ordered(t) && !KeysDetermine(t)
    ensures SortOf(t, u) && u != t
  {
    var a, b :| a in t && b in t && a.key == b.key && a != b;
    var i :| 0 <= i < |t| && t[i] == a;
    var j :| 0 <= j < |t| && t[j] == b;
    u := t[i := b][j := a];
    SwapKeeps(t, i, j);
    assert u[i] == b != t[i];
  }

  function Position(s: seq<Part>, key: string, n: nat): (k: nat)
    requires n <= |s|
    ensures k <= n && (k > 0 ==> Le(s[k - 1].key, key)) && (forall i :: k <= i < n ==> !Le(s[i].key, key))
  {
    if n == 0 || Le(s[n - 1].key, key) then n else Position(s, key, n - 1)
  }

  function Insert(s: seq<Part>, p: Part): seq<Part> {
    var k := Position(s, p.key, |s|);
    s[..k] + [p] + s[k..]
  }

  lemma InsertOrdered(s: seq<Part>, p: Part)
    requires Ordered(s)
    ensures Ordered(Insert(s, p))
  {
    var k, t := Position(s, p.key, |s|), Insert(s, p);
    forall i, j | 0 <= i < j < |t| ensures Le(t[i].key, t[j].key) {
      if i < k {
        LeTotal(s[i].key, s[k - 1].key);
        LeTransitive(s[i].key, s[k - 1].key, p.key);
      }
      if j > k {
        LeTotal(s[j - 1].key, p.key);
      }
      if i < k < j {
        LeTransitive(s[i].key, p.key, s[j - 1].key);
      }
    }
  }

  lemma InsertMultiset(s: seq<Part>, p: Part)
    ensures multiset(Insert(s, p)) == multiset(s) + multiset{p}
  {
    var k := Position(s, p.key, |s|);
    assert s == s[..k] + s[k..];
  }

  /** One sort there is. */
  function InsertionSort(s: seq<Part>): (t: seq<Part>)
    ensures SortOf(s, t)
  {
    if s == [] then [] else
    var n := |s| - 1;
    assert s == s[..n] + [s[n]];
    var front := InsertionSort(s[..n]);
    InsertOrdered(front, s[n]);
    InsertMultiset(front, s[n]);
    Insert(front, s[n])
  }

  type Sorter = seq<Part> -> seq<Part>

  /** What sort.Slice promises, and no more. */
  ghost predicate Sorts(sort: Sorter) { forall s :: SortOf(s, sort(s)) }

  lemma SortsAgree(s: seq<Part>, t: seq<Part>, f: Sorter, g: Sorter)
    requires Sorts(f) && Sorts(g) && multiset(s) == multiset(t) && KeysDetermine(s)
    ensures f(s) == g(t)
  {
    assert SortOf(s, f(s)) && SortOf(t, g(t));
    KeysOfPermutation(s, f(s));
    OneOrdering(f(s), g(t));
  }

  // -------------------------------------------------------------- sealing

  /** A digest covers the content it was taken of. */
  datatype Digest = Blank | Genesis | Of(content: Plan)

  datatype SelfRef = SelfRef(id: nat, revision: nat, digest: Digest)

  datatype Plan = Plan(id: nat, revision: nat, releases: seq<Part>, policies: seq<Part>, evidence: seq<Part>, rest: nat,
                       self: SelfRef, digest: Digest)

  datatype PlanError = SelfMismatch | DuplicateComponent | DigestDrift

  function Normalized(p: Plan, sort: Sorter): Plan {
    p.(releases := sort(p.releases), policies := sort(p.policies), evidence := sort(p.evidence))
  }

  function DigestOf(p: Plan, sort: Sorter): Digest {
    Of(Normalized(p, sort).(digest := Blank, self := p.self.(digest := Blank)))
  }

  predicate DistinctKeys(s: seq<Part>) { forall i, j :: 0 <= i < j < |s| ==> s[i].key != s[j].key }

  /** ResolvedAgentPlanV1.Validate, as far as it depends on the parts and the digest. */
  function Validate(p: Plan, sort: Sorter): Option<PlanError> {
    if p.self != SelfRef(p.id, p.revision, p.digest) then Some(SelfMismatch)
    else if !DistinctKeys(p.releases) then Some(DuplicateComponent)
    else if DigestOf(p, sort) != p.digest then Some(DigestDrift)
    else None
  }

  function Stamped(p: Plan, sort: Sorter): Plan {
    var v := Normalized(p, sort).(digest := Genesis, self := SelfRef(p.id, p.revision, Genesis));
    var d := DigestOf(v, sort);
    v.(digest := d, self := v.self.(digest := d))
  }

  function Seal(p: Plan, sort: Sorter): Result<Plan, PlanError> {
    var v := Stamped(p, sort);
    match Validate(v, sort)
    case None => Success(v)
    case Some(error) => Failure(error)
  }

  /** The same plan up to the order of its parts and whatever it was sealed with before. */
  predicate SamePlan(p: Plan, q: Plan) {
    && p.id == q.id && p.revision == q.revision && p.rest == q.rest
    && multiset(p.releases) == multiset(q.releases) && multiset(p.policies) == multiset(q.policies)
    && multiset(p.evidence) == multiset(q.evidence)
  }

  predicate Determined(p: Plan) { KeysDetermine(p.releases) && KeysDetermine(p.policies) && KeysDetermine(p.evidence) }

  predicate RefsDetermined(p: Plan) { KeysDetermine(p.policies) && KeysDetermine(p.evidence) }

  lemma DistinctKeysOfPermutation(s: seq<Part>, t: seq<Part>)
    requires multiset(s) == multiset(t) && DistinctKeys(s)
    ensures DistinctKeys(t)
  {
    SameMembers(s, t);
    forall i, j | 0 <= i < j < |t| ensures t[i].key != t[j].key {
      CountOne(s, t[i]);
      if t[i] == t[j] {
        CountTwo(t, i, j);
      }
      assert t[i] in s && t[j] in s;
      var a :| 0 <= a < |s| && s[a] == t[i];
      var b :| 0 <= b < |s| && s[b] == t[j];
    }
  }

  lemma NormalizedAgree(p: Plan, q: Plan, f: Sorter, g: Sorter)
    requires Sorts(f) && Sorts(g) && SamePlan(p, q) && Determined(p)
    ensures Normalized(p, f).releases == Normalized(q, g).releases
    ensures Normalized(p, f).policies == Normalized(q, g).policies
    ensures Normalized(p, f).evidence == Normalized(q, g).evidence
  {
    SortsAgree(p.releases, q.releases, f, g);
    SortsAgree(p.policies, q.policies, f, g);
    SortsAgree(p.evidence, q.evidence, f, g);
  }

  lemma NormalizedSame(p: Plan, f: Sorter)
    requires Sorts(f)
    ensures SamePlan(p, Normalized(p, f)) && (Determined(p) <==> Determined(Normalized(p, f)))
    ensures DistinctKeys(p.releases) <==> DistinctKeys(Normalized(p, f).releases)
  {
    assert SortOf(p.releases, f(p.releases)) && SortOf(p.policies, f(p.policies)) && SortOf(p.evidence, f(p.evidence));
    KeysOfPermutation(p.releases, f(p.releases));
    KeysOfPermutation(p.policies, f(p.policies));
    KeysOfPermutation(p.evidence, f(p.evidence));
    if DistinctKeys(p.releases) {
      DistinctKeysOfPermutation(p.releases, f(p.releases));
    }
    if DistinctKeys(f(p.releases)) {
      DistinctKeysOfPermutation(f(p.releases), p.releases);
    }
  }

  lemma StampedIgnoresOrder(p: Plan, q: Plan, f: Sorter, g: Sorter)
    requires Sorts(f) && Sorts(g) && SamePlan(p, q) && Determined(p)
    ensures Stamped(p, f) == Stamped(q, g)
  {
    NormalizedAgree(p, q, f, g);
    NormalizedSame(p, f);
    NormalizedSame(q, g);
    NormalizedAgree(Normalized(p, f), Normalized(q, g), f, g);
  }

  /** The digest in a stamped plan is the digest of that plan, although the plan contains it twice. */
  lemma StampedIsStable(p: Plan, f: Sorter, g: Sorter)
    requires Sorts(f) && Sorts(g) && Determined(p)
    ensures var v := Stamped(p, f);
            SamePlan(p, v) && v.self == SelfRef(v.id, v.revision, v.digest) && v.digest == DigestOf(v, g)
  {
    NormalizedSame(p, f);
    var v := Normalized(p, f);
    NormalizedAgree(v, v, f, g);
  }

  lemma StampedSame(p: Plan, f: Sorter)
    requires Sorts(f)
    ensures SamePlan(p, Stamped(p, f)) && (DistinctKeys(p.releases) <==> DistinctKeys(Stamped(p, f).releases))
    ensures Stamped(p, f).self == SelfRef(p.id, p.revision, Stamped(p, f).digest)
  {
    NormalizedSame(p, f);
  }

  /**
   If equal keys mean equal parts, sealing fails exactly on a repeated component, and sealing again changes nothing.
   */
  lemma SealIsStable(p: Plan, f: Sorter, g: Sorter)
    requires Sorts(f) && Sorts(g) && Determined(p)
    ensures Seal(p, f).Success? <==> DistinctKeys(p.releases)
    ensures Seal(p, f).Success? ==> var sealed := Seal(p, f).value;
              SamePlan(p, sealed) && Validate(sealed, g) == None && Seal(sealed, g) == Success(sealed)
  {
    StampedSame(p, f);
    StampedIsStable(p, f, f);
    StampedIsStable(p, f, g);
    StampedIgnoresOrder(p, Stamped(p, f), f, g);
    hide Stamped, DigestOf, SamePlan, Determined, DistinctKeys, Sorts;
  }

  /** However the parts are ordered and whichever sort is used, the result of sealing is one. */
  lemma SealIgnoresOrder(p: Plan, q: Plan, f: Sorter, g: Sorter)
    requires Sorts(f) && Sorts(g) && SamePlan(p, q) && Determined(p)
    ensures Seal(p, f) == Seal(q, g)
  {
    StampedIgnoresOrder(p, q, f, g);
    StampedIsStable(p, f, f);
    StampedIsStable(p, f, g);
  }

  /** A stored plan stays valid when its parts are reordered. */
  lemma ReorderingStaysValid(p: Plan, q: Plan, f: Sorter, g: Sorter)
    requires Sorts(f) && Sorts(g) && Determined(p) && Validate(p, f) == None
    requires SamePlan(p, q) && q.self == p.self && q.digest == p.digest
    ensures Validate(q, g) == None
  {
    NormalizedAgree(p, q, f, g);
    DistinctKeysOfPermutation(p.releases, q.releases);
  }

  /** Two valid plans with one digest are the same plan: nothing but the order can be changed under a digest. */
  lemma DigestDeterminesPlan(p: Plan, q: Plan, f: Sorter, g: Sorter)
    requires Sorts(f) && Sorts(g) && Validate(p, f) == None && Validate(q, g) == None
    ensures p.digest == q.digest ==> SamePlan(p, q)
  {
    NormalizedSame(p, f);
    NormalizedSame(q, g);
  }

  /** A sort that orders one collection of parts in a given way. */
  function Biased(s: seq<Part>, t: seq<Part>): Sorter {
    x => if multiset(x) == multiset(s) then t else InsertionSort(x)
  }

  lemma BiasedSorts(s: seq<Part>, t: seq<Part>)
    requires SortOf(s, t)
    ensures Sorts(Biased(s, t)) && Biased(s, t)(s) == t
  {
    forall x ensures SortOf(x, Biased(s, t)(x)) {
      assert SortOf(x, InsertionSort(x));
    }
  }

  lemma InsertLast(s: seq<Part>)
    requires Ordered(s) && s != []
    ensures Insert(s[..|s| - 1], s[|s| - 1]) == s && Ordered(s[..|s| - 1])
  {
    var n := |s| - 1;
    var front := s[..n];
    assert n > 0 ==> Le(front[n - 1].key, s[n].key);
    assert Position(front, s[n].key, n) == n;
    hide Ordered, Le, Position;
    assert front[..n] == front && front[n..] == [];
    assert s == front + [s[n]];
  }

  lemma {:induction false} SortedIsFixed(s: seq<Part>)
    requires Ordered(s)
    ensures InsertionSort(s) == s
  {
    hide Ordered, Insert;
    if s != [] {
      InsertLast(s);
      SortedIsFixed(s[..|s| - 1]);
    }
  }

  lemma BiasedIsFixed(s: seq<Part>, t: seq<Part>, x: seq<Part>)
    requires SortOf(s, t)
    ensures Biased(s, t)(Biased(s, t)(x)) == Biased(s, t)(x)
  {
    if multiset(x) != multiset(s) {
      assert SortOf(x, InsertionSort(x));
      SortedIsFixed(InsertionSort(x));
    }
  }

  lemma BiasedSeals(p: Plan, s: seq<Part>, t: seq<Part>)
    requires SortOf(s, t) && DistinctKeys(p.releases)
    ensures var f := Biased(s, t);
            && Seal(p, f).Success? && Seal(p, f).value.policies == f(p.policies)
            && Seal(p, f).value.evidence == f(p.evidence)
  {
    var f := Biased(s, t);
    BiasedSorts(s, t);
    StampedSame(p, f);
    BiasedIsFixed(s, t, p.releases);
    BiasedIsFixed(s, t, p.policies);
    BiasedIsFixed(s, t, p.evidence);
    hide Biased, Sorts, DistinctKeys, SamePlan;
  }

  lemma SealDependsOnSort(p: Plan, s: seq<Part>)
    requires DistinctKeys(p.releases) && (s == p.policies || s == p.evidence) && !KeysDetermine(s)
    ensures exists f, g :: Sorts(f) && Sorts(g) && Seal(p, f) != Seal(p, g)
  {
    var t := InsertionSort(s);
    KeysOfPermutation(s, t);
    var u := TwoOrderings(t);
    BiasedSorts(s, t);
    BiasedSorts(s, u);
    BiasedSeals(p, s, t);
    BiasedSeals(p, s, u);
    hide Sorts, Seal, Biased, SortOf;
    assert Seal(p, Biased(s, t)) != Seal(p, Biased(s, u));
  }

  lemma DuplicateFails(p: Plan, f: Sorter)
    requires Sorts(f) && !DistinctKeys(p.releases)
    ensures Seal(p, f) == Failure(DuplicateComponent)
  {
    StampedSame(p, f);
    hide Stamped, Sorts, DistinctKeys, SamePlan;
  }

  /**
   The exact condition.  The result of sealing is independent of the sort if and only if a component is
   repeated, so that sealing fails, or no two different policy or evidence references share an ID.
   */
  lemma SealIndependentIff(p: Plan)
    ensures (forall f, g :: Sorts(f) && Sorts(g) ==> Seal(p, f) == Seal(p, g))
            <==> (DistinctKeys(p.releases) ==> RefsDetermined(p))
  {
    if !DistinctKeys(p.releases) {
      forall f, g | Sorts(f) && Sorts(g) ensures Seal(p, f) == Seal(p, g) {
        DuplicateFails(p, f);
        DuplicateFails(p, g);
      }
    } else if RefsDetermined(p) {
      forall f, g | Sorts(f) && Sorts(g) ensures Seal(p, f) == Seal(p, g) {
        SealIgnoresOrder(p, p, f, g);
      }
    } else if !KeysDetermine(p.policies) {
      SealDependsOnSort(p, p.policies);
    } else {
      SealDependsOnSort(p, p.evidence);
    }
  }

  // ----------------------------------------------------- merging references

  datatype MergeError = BindingDrift

  ghost predicate StrictlyOrdered(s: seq<Part>) {
    forall i, j :: 0 <= i < j < |s| ==> s[i].key != s[j].key && Le(s[i].key, s[j].key)
  }

  /** A strictly ordered sequence is determined by its members. */
  lemma MembersDetermine(s: seq<Part>, t: seq<Part>)
    requires StrictlyOrdered(s) && StrictlyOrdered(t) && forall a :: a in s <==> a in t
    ensures s == t
  {
    forall a ensures multiset(s)[a] == multiset(t)[a] {
      CountOne(s, a);
      CountOne(t, a);
      assert a in s <==> a in multiset(s);
      assert a in t <==> a in multiset(t);
    }
    assert multiset(s) == multiset(t);
    OneOrdering(s, t);
  }

  /**
   uniqueRefs: a conflict if and only if one ID has two contents; otherwise each reference once, by ID.
   The result is therefore a function of the set of references, not of their order or repetitions.
   */
  method UniqueRefs(values: seq<Part>) returns (r: Result<seq<Part>, MergeError>)
    ensures r.Failure? <==> !KeysDetermine(values)
    ensures r.Success? ==> StrictlyOrdered(r.value) && forall a :: a in r.value <==> a in values
  {
    var byId: map<string, Part> := map[];
    for n := 0 to |values|
      invariant forall k :: k in byId ==> byId[k].key == k && byId[k] in values[..n]
      invariant forall i :: 0 <= i < n ==> values[i].key in byId && byId[values[i].key] == values[i]
    {
      var ref := values[n];
      if ref.key in byId && byId[ref.key] != ref {
        assert byId[ref.key] in values && ref in values;
        return Failure(BindingDrift);
      }
      byId := byId[ref.key := ref];
      assert values[..n + 1] == values[..n] + [ref];
    }
    assert values[..|values|] == values;
    forall a ensures a in byId.Values <==> a in values {
      if a in byId.Values {
        var k :| k in byId && byId[k] == a;
      }
      if a in values {
        var i :| 0 <= i < |values| && values[i] == a;
        assert byId[values[i].key] == a;
      }
    }
    var collected: seq<Part>, remaining := [], byId.Values;
    while remaining != {}
      invariant remaining <= byId.Values
      invariant forall a :: a in collected <==> a in byId.Values && a !in remaining
      invariant DistinctKeys(collected)
      decreases |remaining|
    {
      var ref :| ref in remaining;
      forall i | 0 <= i < |collected| ensures collected[i].key != ref.key {
        assert collected[i] in collected;
      }
      collected := collected + [ref];
      remaining := remaining - {ref};
    }
    var sorted := InsertionSort(collected);
    SameMembers(collected, sorted);
    DistinctStrict(collected, sorted);
    return Success(sorted);
  }

  lemma {:induction false} CountOne(s: seq<Part>, a: Part)
    requires DistinctKeys(s)
    ensures multiset(s)[a] <= 1
  {
    if s != [] {
      var n := |s| - 1;
      CountOne(s[..n], a);
      assert s == s[..n] + [s[n]];
      if a == s[n] {
        assert a !in s[..n];
      }
    }
  }

  lemma CountTwo(s: seq<Part>, i: nat, j: nat)
    requires i < j < |s| && s[i] == s[j]
    ensures multiset(s)[s[i]] >= 2
  {
    assert s == s[..j] + [s[j]] + s[j + 1..];
    assert s[i] in s[..j];
  }

  lemma DistinctStrict(s: seq<Part>, t: seq<Part>)
    requires SortOf(s, t) && DistinctKeys(s)
    ensures StrictlyOrdered(t)
  {
    DistinctKeysOfPermutation(s, t);
  }
}
