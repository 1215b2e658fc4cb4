/**
 Tool call argument canonicalization (model-invoker/tool_call_observation.go).

 The source reads tokens from a JSON decoder, builds a tree with objects as maps, and marshals the
 tree.  Here a text is its token sequence.  `Doc` is what a token sequence spells, members in order
 and numbers as written; `Value` is the tree the source builds; `Denote` is the tree a reader of
 RFC 8259 sections 4 and 6 would say it means.  The decoder is proved to accept exactly the spellings
 with unique keys within the depth bound, and the canonical form to decide sameness of meaning.
 */
module CanonicalArguments {
  import opened Wrappers
  import D = DecimalNumber
  import opened Strings

  const MAX_DEPTH: nat := 128

  type Number = n: D.Number | n.Valid() witness D.Number(false, "0", "", None)

  datatype Token =
    | OpenObject | CloseObject | OpenArray | CloseArray
    | Text(s: string) | Numeral(n: Number) | Boolean(b: bool) | Null
    | Malformed

  // ----------------------------------------------------------- documents

  datatype Doc =
    | Object(members: Members)
    | Array(items: Items)
    | Leaf(token: Token)

  datatype Members = NoMembers | Member(key: string, doc: Doc, rest: Members)
  datatype Items = NoItems | Item(doc: Doc, rest: Items)

  predicate IsLeaf(t: Token) { t.Text? || t.Numeral? || t.Boolean? || t.Null? }

  function Width(d: Doc): nat {
    match d
    case Object(ms) => MembersWidth(ms) + 2
    case Array(xs) => ItemsWidth(xs) + 2
    case Leaf(_) => 1
  }

  function MembersWidth(ms: Members): nat {
    match ms case NoMembers => 0 case Member(_, d, rest) => 1 + Width(d) + MembersWidth(rest)
  }

  function ItemsWidth(xs: Items): nat { match xs case NoItems => 0 case Item(d, rest) => Width(d) + ItemsWidth(rest) }

  /** The document stands in the tokens from position i. */
  predicate Spells(ts: seq<Token>, i: nat, d: Doc)
    decreases d
  {
    && i + Width(d) <= |ts|
    && match d
       case Object(ms) => ts[i] == OpenObject && MembersSpell(ts, i + 1, ms) && ts[i + Width(d) - 1] == CloseObject
       case Array(xs) => ts[i] == OpenArray && ItemsSpell(ts, i + 1, xs) && ts[i + Width(d) - 1] == CloseArray
       case Leaf(t) => IsLeaf(t) && ts[i] == t
  }

  predicate MembersSpell(ts: seq<Token>, i: nat, ms: Members)
    decreases ms
  {
    match ms
    case NoMembers => i <= |ts|
    case Member(k, d, rest) =>
      i < |ts| && ts[i] == Text(k) && Spells(ts, i + 1, d) && MembersSpell(ts, i + 1 + Width(d), rest)
  }

  predicate ItemsSpell(ts: seq<Token>, i: nat, xs: Items)
    decreases xs
  {
    match xs
    case NoItems => i <= |ts|
    case Item(d, rest) => Spells(ts, i, d) && ItemsSpell(ts, i + Width(d), rest)
  }

  function Keys(ms: Members): set<string> { match ms case NoMembers => {} case Member(k, _, rest) => {k} + Keys(rest) }

  predicate Unique(d: Doc) {
    match d case Object(ms) => UniqueMembers(ms) case Array(xs) => UniqueItems(xs) case Leaf(_) => true
  }

  predicate UniqueMembers(ms: Members) {
    match ms case NoMembers => true case Member(k, d, rest) => k !in Keys(rest) && Unique(d) && UniqueMembers(rest)
  }

  predicate UniqueItems(xs: Items) {
    match xs case NoItems => true case Item(d, rest) => Unique(d) && UniqueItems(rest)
  }

  /** No value is nested more than n levels below the top. */
  predicate Within(d: Doc, n: int)
    decreases d
  {
    n >= 0 &&
    match d case Object(ms) => MembersWithin(ms, n - 1) case Array(xs) => ItemsWithin(xs, n - 1) case Leaf(_) => true
  }

  predicate MembersWithin(ms: Members, n: int)
    decreases ms
  {
    match ms case NoMembers => true case Member(_, d, rest) => Within(d, n) && MembersWithin(rest, n)
  }

  predicate ItemsWithin(xs: Items, n: int)
    decreases xs
  {
    match xs case NoItems => true case Item(d, rest) => Within(d, n) && ItemsWithin(rest, n)
  }

  // ------------------------------------------------- the source's tree

  /** Numbers are kept in normal form; their text is what the source stores. */
  datatype Value =
    | Map(entries: map<string, Value>)
    | List(elements: seq<Value>)
    | Scalar(token: Token)

  function LeafValue(t: Token): Token {
    if t.Numeral? then D.CanonicalPreservesValue(t.n); Numeral(D.Canonical(t.n)) else t
  }

  function ValueOf(d: Doc): Value {
    match d
    case Object(ms) => Map(MembersValue(ms))
    case Array(xs) => List(ItemsValue(xs))
    case Leaf(t) => Scalar(LeafValue(t))
  }

  function MembersValue(ms: Members): map<string, Value> {
    match ms case NoMembers => map[] case Member(k, d, rest) => MembersValue(rest)[k := ValueOf(d)]
  }

  function ItemsValue(xs: Items): seq<Value> {
    match xs case NoItems => [] case Item(d, rest) => [ValueOf(d)] + ItemsValue(rest)
  }

  // ------------------------------------------------------- the decoder

  datatype DecodeError =
    | DepthExceeded | Invalid | KeyInvalid | DuplicateKey | Unclosed | DelimiterInvalid | NotObject | Trailing

  datatype Decoded<T> = Decoded(value: T, next: nat)

  /** decoder.More: something follows that does not close the enclosing value. */
  predicate More(ts: seq<Token>, i: nat) { i < |ts| && ts[i] != CloseObject && ts[i] != CloseArray }

  function Decode(ts: seq<Token>, i: nat, depth: nat): (r: Result<Decoded<Value>, DecodeError>)
    ensures r.Success? ==> i < r.value.next <= |ts|
    decreases |ts| - i, 0
  {
    if depth > MAX_DEPTH then Failure(DepthExceeded)
    else if i >= |ts| then Failure(Invalid)
    else match ts[i]
      case Malformed => Failure(Invalid)
      case OpenObject =>
        (match DecodeMembers(ts, i + 1, depth, map[])
         case Failure(e) => Failure(e)
         case Success(Decoded(entries, j)) =>
           if j < |ts| && ts[j] == CloseObject then Success(Decoded(Map(entries), j + 1)) else Failure(Unclosed))
      case OpenArray =>
        (match DecodeItems(ts, i + 1, depth, [])
         case Failure(e) => Failure(e)
         case Success(Decoded(elements, j)) =>
           if j < |ts| && ts[j] == CloseArray then Success(Decoded(List(elements), j + 1)) else Failure(Unclosed))
      case CloseObject => Failure(DelimiterInvalid)
      case CloseArray => Failure(DelimiterInvalid)
      case _ => Success(Decoded(Scalar(LeafValue(ts[i])), i + 1))
  }

  function DecodeMembers(ts: seq<Token>, i: nat, depth: nat, entries: map<string, Value>)
    : (r: Result<Decoded<map<string, Value>>, DecodeError>)
    ensures r.Success? && i <= |ts| ==> i <= r.value.next <= |ts|
    decreases |ts| - i, 1
  {
    if !More(ts, i) then Success(Decoded(entries, i))
    else if !ts[i].Text? then Failure(KeyInvalid)
    else if ts[i].s in entries then Failure(DuplicateKey)
    else match Decode(ts, i + 1, depth + 1)
      case Failure(e) => Failure(e)
      case Success(Decoded(child, j)) => DecodeMembers(ts, j, depth, entries[ts[i].s := child])
  }

  function DecodeItems(ts: seq<Token>, i: nat, depth: nat, elements: seq<Value>)
    : (r: Result<Decoded<seq<Value>>, DecodeError>)
    ensures r.Success? && i <= |ts| ==> i <= r.value.next <= |ts|
    decreases |ts| - i, 1
  {
    if !More(ts, i) then Success(Decoded(elements, i))
    else match Decode(ts, i, depth + 1)
      case Failure(e) => Failure(e)
      case Success(Decoded(child, j)) => DecodeItems(ts, j, depth, elements + [child])
  }

  /** The source's recursion with its two loops computes the same. */
  method DecodeLoop(ts: seq<Token>, i: nat, depth: nat) returns (r: Result<Decoded<Value>, DecodeError>)
    ensures r == Decode(ts, i, depth)
    decreases |ts| - i
  {
    if depth > MAX_DEPTH {
      return Failure(DepthExceeded);
    }
    if i >= |ts| {
      return Failure(Invalid);
    }
    match ts[i] {
      case Malformed => return Failure(Invalid);
      case OpenObject =>
        var entries: map<string, Value>, j: nat := map[], i + 1;
        while More(ts, j)
          invariant i < j && DecodeMembers(ts, i + 1, depth, map[]) == DecodeMembers(ts, j, depth, entries)
          decreases |ts| - j
        {
          if !ts[j].Text? {
            return Failure(KeyInvalid);
          }
          if ts[j].s in entries {
            return Failure(DuplicateKey);
          }
          var child := DecodeLoop(ts, j + 1, depth + 1);
          if child.Failure? {
            return Failure(child.error);
          }
          entries := entries[ts[j].s := child.value.value];
          j := child.value.next;
        }
        if j < |ts| && ts[j] == CloseObject {
          return Success(Decoded(Map(entries), j + 1));
        }
        return Failure(Unclosed);
      case OpenArray =>
        var elements: seq<Value>, j: nat := [], i + 1;
        while More(ts, j)
          invariant i < j && DecodeItems(ts, i + 1, depth, []) == DecodeItems(ts, j, depth, elements)
          decreases |ts| - j
        {
          var child := DecodeLoop(ts, j, depth + 1);
          if child.Failure? {
            return Failure(child.error);
          }
          elements := elements + [child.value.value];
          j := child.value.next;
        }
        if j < |ts| && ts[j] == CloseArray {
          return Success(Decoded(List(elements), j + 1));
        }
        return Failure(Unclosed);
      case CloseObject => return Failure(DelimiterInvalid);
      case CloseArray => return Failure(DelimiterInvalid);
      case _ => return Success(Decoded(Scalar(LeafValue(ts[i])), i + 1));
    }
  }

  /** One object and nothing after it. */
  function Accept(ts: seq<Token>): Result<Value, DecodeError> {
    match Decode(ts, 0, 0)
    case Failure(e) => Failure(e)
    case Success(Decoded(v, j)) =>
      if !v.Map? then Failure(NotObject) else if j != |ts| then Failure(Trailing) else Success(v)
  }

  // -------------------------------------------- what is accepted is spelled

  lemma {:induction false} DecodeSpells(ts: seq<Token>, i: nat, depth: nat) returns (d: Doc)
    requires Decode(ts, i, depth).Success?
    ensures Spells(ts, i, d) && Unique(d) && Within(d, MAX_DEPTH - depth)
    ensures Decode(ts, i, depth).value == Decoded(ValueOf(d), i + Width(d))
    decreases |ts| - i, 0
  {
    hide DecodeMembers, DecodeItems, MembersSpell, ItemsSpell, UniqueMembers, UniqueItems;
    hide MembersWithin, ItemsWithin, MembersValue, ItemsValue, LeafValue, MembersWidth, ItemsWidth;
    var token := ts[i];
    if token.OpenObject? {
      var ms := DecodeMembersSpell(ts, i + 1, depth, map[]);
      assert map[] + MembersValue(ms) == MembersValue(ms);
      d := Object(ms);
    } else if token.OpenArray? {
      var xs := DecodeItemsSpell(ts, i + 1, depth, []);
      assert [] + ItemsValue(xs) == ItemsValue(xs);
      d := Array(xs);
    } else {
      d := Leaf(token);
    }
  }

  lemma Grow(entries: map<string, Value>, k: string, v: Value, more: map<string, Value>)
    requires k !in more
    ensures entries[k := v] + more == entries + more[k := v]
  {
  }

  lemma {:induction false} DecodeMembersSpell(ts: seq<Token>, i: nat, depth: nat, entries: map<string, Value>)
    returns (ms: Members)
    requires i <= |ts| && depth <= MAX_DEPTH && DecodeMembers(ts, i, depth, entries).Success?
    ensures MembersSpell(ts, i, ms) && UniqueMembers(ms) && Keys(ms) !! entries.Keys
    ensures MembersWithin(ms, MAX_DEPTH - depth - 1)
    ensures DecodeMembers(ts, i, depth, entries).value == Decoded(entries + MembersValue(ms), i + MembersWidth(ms))
    ensures MembersValue(ms).Keys == Keys(ms)
    decreases |ts| - i, 1
  {
    hide Spells, Within, Unique, ValueOf, Decode, Width;
    if !More(ts, i) {
      ms := NoMembers;
      assert entries + map[] == entries;
    } else {
      var k := ts[i].s;
      var d := DecodeSpells(ts, i + 1, depth + 1);
      var grown := entries[k := ValueOf(d)];
      var rest := DecodeMembersSpell(ts, i + 1 + Width(d), depth, grown);
      ms := Member(k, d, rest);
      assert k in grown.Keys;
      Grow(entries, k, ValueOf(d), MembersValue(rest));
    }
  }

  lemma {:induction false} DecodeItemsSpell(ts: seq<Token>, i: nat, depth: nat, elements: seq<Value>)
      returns (xs: Items)
    requires i <= |ts| && depth <= MAX_DEPTH && DecodeItems(ts, i, depth, elements).Success?
    ensures ItemsSpell(ts, i, xs) && UniqueItems(xs) && ItemsWithin(xs, MAX_DEPTH - depth - 1)
    ensures DecodeItems(ts, i, depth, elements).value == Decoded(elements + ItemsValue(xs), i + ItemsWidth(xs))
    decreases |ts| - i, 1
  {
    hide Spells, Within, Unique, ValueOf, Decode, Width;
    if !More(ts, i) {
      xs := NoItems;
      assert elements + [] == elements;
    } else {
      var d := DecodeSpells(ts, i, depth + 1);
      var rest := DecodeItemsSpell(ts, i + Width(d), depth, elements + [ValueOf(d)]);
      xs := Item(d, rest);
      assert elements + [ValueOf(d)] + ItemsValue(rest) == elements + ([ValueOf(d)] + ItemsValue(rest));
    }
  }

  // -------------------------------------------- what is spelled is accepted

  lemma {:induction false} SpelledDecodes(ts: seq<Token>, i: nat, d: Doc, depth: nat)
    requires Spells(ts, i, d) && Unique(d) && Within(d, MAX_DEPTH - depth)
    ensures Decode(ts, i, depth) == Success(Decoded(ValueOf(d), i + Width(d)))
    ensures i < |ts| && ts[i] != CloseObject && ts[i] != CloseArray
    decreases d
  {
    hide DecodeMembers, DecodeItems, MembersSpell, ItemsSpell, UniqueMembers, UniqueItems;
    hide MembersWithin, ItemsWithin, MembersValue, ItemsValue, LeafValue, MembersWidth, ItemsWidth;
    match d
    case Object(ms) =>
      assert map[] + MembersValue(ms) == MembersValue(ms);
      MembersDecode(ts, i + 1, ms, depth, map[]);
    case Array(xs) =>
      assert [] + ItemsValue(xs) == ItemsValue(xs);
      ItemsDecode(ts, i + 1, xs, depth, []);
    case Leaf(t) =>
  }

  lemma {:induction false} MembersDecode(ts: seq<Token>, i: nat, ms: Members, depth: nat, entries: map<string, Value>)
    requires MembersSpell(ts, i, ms) && UniqueMembers(ms) && Keys(ms) !! entries.Keys
    requires MembersWithin(ms, MAX_DEPTH - depth - 1) && !More(ts, i + MembersWidth(ms))
    ensures DecodeMembers(ts, i, depth, entries) == Success(Decoded(entries + MembersValue(ms), i + MembersWidth(ms)))
    ensures MembersValue(ms).Keys == Keys(ms)
    decreases ms
  {
    hide Spells, Within, Unique, ValueOf, Decode, Width;
    match ms
    case NoMembers => assert entries + map[] == entries;
    case Member(k, d, rest) =>
      assert k in Keys(ms);
      SpelledDecodes(ts, i + 1, d, depth + 1);
      var grown := entries[k := ValueOf(d)];
      MembersDecode(ts, i + 1 + Width(d), rest, depth, grown);
      Grow(entries, k, ValueOf(d), MembersValue(rest));
  }

  lemma {:induction false} ItemsDecode(ts: seq<Token>, i: nat, xs: Items, depth: nat, elements: seq<Value>)
    requires ItemsSpell(ts, i, xs) && UniqueItems(xs)
    requires ItemsWithin(xs, MAX_DEPTH - depth - 1) && !More(ts, i + ItemsWidth(xs))
    ensures DecodeItems(ts, i, depth, elements) == Success(Decoded(elements + ItemsValue(xs), i + ItemsWidth(xs)))
    decreases xs
  {
    hide Spells, Within, Unique, ValueOf, Decode, Width;
    match xs
    case NoItems => assert elements + [] == elements;
    case Item(d, rest) =>
      SpelledDecodes(ts, i, d, depth + 1);
      ItemsDecode(ts, i + Width(d), rest, depth, elements + [ValueOf(d)]);
      assert elements + [ValueOf(d)] + ItemsValue(rest) == elements + ([ValueOf(d)] + ItemsValue(rest));
  }

  /** The whole text is one object with unique keys everywhere, nested no deeper than the bound. */
  ghost predicate Wellformed(ts: seq<Token>, d: Doc) {
    d.Object? && Spells(ts, 0, d) && Width(d) == |ts| && Unique(d) && Within(d, MAX_DEPTH)
  }

  /** The decoder accepts exactly these texts, and yields the tree of what they spell. */
  lemma AcceptsExactly(ts: seq<Token>, v: Value)
    ensures Accept(ts) == Success(v) <==> exists d :: Wellformed(ts, d) && ValueOf(d) == v
  {
    if Accept(ts) == Success(v) {
      var d := DecodeSpells(ts, 0, 0);
      assert match d
             case Object(_) => true
             case Array(xs) => ValueOf(d) == List(ItemsValue(xs))
             case Leaf(t) => ValueOf(d) == Scalar(LeafValue(t));
      assert Wellformed(ts, d);
    }
    if exists d :: Wellformed(ts, d) && ValueOf(d) == v {
      var d :| Wellformed(ts, d) && ValueOf(d) == v;
      SpelledDecodes(ts, 0, d, 0);
    }
  }

  // --------------------------------------------------------- what it means

  /** Objects are finite maps, numbers are rationals. */
  datatype Meaning =
    | MapMeaning(entries: map<string, Meaning>)
    | ListMeaning(elements: seq<Meaning>)
    | NumberMeaning(value: real)
    | OtherMeaning(token: Token)

  function Denote(d: Doc): Meaning {
    match d
    case Object(ms) => MapMeaning(MembersDenote(ms))
    case Array(xs) => ListMeaning(ItemsDenote(xs))
    case Leaf(t) => if t.Numeral? then NumberMeaning(t.n.Value()) else OtherMeaning(t)
  }

  function MembersDenote(ms: Members): map<string, Meaning> {
    match ms case NoMembers => map[] case Member(k, d, rest) => MembersDenote(rest)[k := Denote(d)]
  }

  function ItemsDenote(xs: Items): seq<Meaning> {
    match xs case NoItems => [] case Item(d, rest) => [Denote(d)] + ItemsDenote(rest)
  }

  lemma LeafSame(t: Token, u: Token)
    requires IsLeaf(t) && IsLeaf(u)
    ensures LeafValue(t) == LeafValue(u) <==> Denote(Leaf(t)) == Denote(Leaf(u))
  {
    hide D.Canonical, D.Number.Value;
    if t.Numeral? && u.Numeral? {
      D.CanonicalDecidesValue(t.n, u.n);
    }
  }

  function Find(ms: Members, k: string): (d: Doc)
    requires k in Keys(ms)
    ensures Width(d) < MembersWidth(ms)
  {
    if ms.key == k then ms.doc else Find(ms.rest, k)
  }

  predicate Leaves(d: Doc) {
    match d case Object(ms) => MembersLeaves(ms) case Array(xs) => ItemsLeaves(xs) case Leaf(t) => IsLeaf(t)
  }

  predicate MembersLeaves(ms: Members) {
    match ms case NoMembers => true case Member(_, d, rest) => Leaves(d) && MembersLeaves(rest)
  }

  predicate ItemsLeaves(xs: Items) {
    match xs case NoItems => true case Item(d, rest) => Leaves(d) && ItemsLeaves(rest)
  }

  lemma {:induction false} FindIsEntry(ms: Members, k: string)
    requires k in Keys(ms) && MembersLeaves(ms)
    ensures MembersValue(ms).Keys == Keys(ms) == MembersDenote(ms).Keys
    ensures MembersValue(ms)[k] == ValueOf(Find(ms, k)) && MembersDenote(ms)[k] == Denote(Find(ms, k))
        && Leaves(Find(ms, k))
  {
    MembersKeys(ms);
    if ms.key != k {
      FindIsEntry(ms.rest, k);
    }
  }

  lemma {:induction false} MembersKeys(ms: Members)
    ensures MembersValue(ms).Keys == Keys(ms) == MembersDenote(ms).Keys
  {
    if ms.Member? {
      MembersKeys(ms.rest);
    }
  }

  /** Two documents get the same tree exactly if they mean the same: maps by key, numbers by value. */
  lemma {:induction false} SameTreeIffSameMeaning(a: Doc, b: Doc)
    requires Leaves(a) && Leaves(b)
    ensures ValueOf(a) == ValueOf(b) <==> Denote(a) == Denote(b)
    decreases Width(a), 0
  {
    match (a, b)
    case (Object(ms), Object(ns)) =>
      MembersKeys(ms);
      MembersKeys(ns);
      forall k | k in Keys(ms) && k in Keys(ns)
        ensures MembersValue(ms)[k] == MembersValue(ns)[k] <==> MembersDenote(ms)[k] == MembersDenote(ns)[k]
      {
        FindIsEntry(ms, k);
        FindIsEntry(ns, k);
        SameTreeIffSameMeaning(Find(ms, k), Find(ns, k));
      }
    case (Array(xs), Array(ys)) => SameItems(xs, ys);
    case (Leaf(t), Leaf(u)) => LeafSame(t, u);
    case _ =>
  }

  lemma {:induction false} SameItems(xs: Items, ys: Items)
    requires ItemsLeaves(xs) && ItemsLeaves(ys)
    ensures ItemsValue(xs) == ItemsValue(ys) <==> ItemsDenote(xs) == ItemsDenote(ys)
    decreases ItemsWidth(xs), 1
  {
    if xs.Item? && ys.Item? {
      SameTreeIffSameMeaning(xs.doc, ys.doc);
      SameItems(xs.rest, ys.rest);
      HeadsAndTails(ValueOf(xs.doc), ItemsValue(xs.rest), ValueOf(ys.doc), ItemsValue(ys.rest));
      HeadsAndTails(Denote(xs.doc), ItemsDenote(xs.rest), Denote(ys.doc), ItemsDenote(ys.rest));
    }
  }

  lemma HeadsAndTails<T>(x: T, s: seq<T>, y: T, t: seq<T>)
    ensures [x] + s == [y] + t <==> x == y && s == t
  {
    if [x] + s == [y] + t {
      assert ([x] + s)[0] == x && ([y] + t)[0] == y && ([x] + s)[1..] == s && ([y] + t)[1..] == t;
    }
  }

  // ---------------------------------------------------- the canonical form

  /** json.Marshal: members in the order of their keys, numbers as they are stored. */
  ghost function Write(v: Value): Doc
    decreases v, 1, 0
  {
    match v
    case Map(entries) => Object(WriteMembers(v, entries.Keys))
    case List(_) => Array(WriteItems(v, 0))
    case Scalar(t) => Leaf(t)
  }

  ghost function WriteMembers(v: Value, keys: set<string>): Members
    requires v.Map? && keys <= v.entries.Keys
    decreases v, 0, |keys|
  {
    if keys == {} then NoMembers
    else
      var k := Least(keys);
      Member(k, Write(v.entries[k]), WriteMembers(v, keys - {k}))
  }

  ghost function WriteItems(v: Value, i: nat): Items
    requires v.List? && i <= |v.elements|
    decreases v, 0, |v.elements| - i
  {
    if i == |v.elements| then NoItems else Item(Write(v.elements[i]), WriteItems(v, i + 1))
  }

  /** A tree as the decoder builds it: every number in normal form. */
  predicate Normal(v: Value) {
    match v
    case Map(entries) => forall k :: k in entries ==> Normal(entries[k])
    case List(elements) => forall i :: 0 <= i < |elements| ==> Normal(elements[i])
    case Scalar(t) => IsLeaf(t) && LeafValue(t) == t
  }

  /** Members stand in the order of their keys, all the way down. */
  predicate Sorted(d: Doc) {
    match d case Object(ms) => SortedMembers(ms) case Array(xs) => SortedItems(xs) case Leaf(_) => true
  }

  predicate SortedMembers(ms: Members) {
    match ms
    case NoMembers => true
    case Member(k, d, rest) => Sorted(d) && SortedMembers(rest) && (rest.Member? ==> k != rest.key && Le(k, rest.key))
  }

  predicate SortedItems(xs: Items) {
    match xs case NoItems => true case Item(d, rest) => Sorted(d) && SortedItems(rest)
  }

  /** A document that names each key once, has its members sorted, and stands for this tree. */
  ghost predicate Renders(d: Doc, v: Value) { ValueOf(d) == v && Unique(d) && Leaves(d) && Sorted(d) }

  lemma {:induction false} WriteRenders(v: Value)
    requires Normal(v)
    ensures Renders(Write(v), v)
    decreases v, 1, 0
  {
    match v
    case Map(entries) =>
      WriteMembersRender(v, entries.Keys);
      assert (map k | k in entries.Keys :: entries[k]) == entries;
    case List(elements) =>
      WriteItemsRender(v, 0);
    case Scalar(_) =>
  }

  lemma {:induction false} WriteMembersRender(v: Value, keys: set<string>)
    requires v.Map? && Normal(v) && keys <= v.entries.Keys
    ensures var ms := WriteMembers(v, keys);
            && MembersValue(ms) == (map k | k in keys :: v.entries[k]) && Keys(ms) == keys
            && UniqueMembers(ms) && MembersLeaves(ms) && SortedMembers(ms)
    decreases v, 0, |keys|
  {
    if keys != {} {
      var k := Least(keys);
      WriteRenders(v.entries[k]);
      WriteMembersRender(v, keys - {k});
      hide Le, Normal, Least, Write;
    }
  }

  lemma {:induction false} WriteItemsRender(v: Value, i: nat)
    requires v.List? && Normal(v) && i <= |v.elements|
    ensures var xs := WriteItems(v, i);
            ItemsValue(xs) == v.elements[i..] && UniqueItems(xs) && ItemsLeaves(xs) && SortedItems(xs)
    decreases v, 0, |v.elements| - i
  {
    if i < |v.elements| {
      WriteRenders(v.elements[i]);
      WriteItemsRender(v, i + 1);
      hide Normal, Write;
    }
  }

  lemma LeafIsNormal(t: Token)
    requires IsLeaf(t)
    ensures Normal(Scalar(LeafValue(t)))
  {
    if t.Numeral? {
      D.CanonicalPreservesValue(t.n);
      D.CanonicalIsCanonical(t.n);
      D.CanonicalFixed(D.Canonical(t.n));
    }
  }

  /** Whatever document it was decoded from, the tree is normal: normalizing its numbers again changes nothing. */
  lemma {:induction false} TreeIsNormal(d: Doc)
    requires Leaves(d)
    ensures Normal(ValueOf(d))
    decreases Width(d), 0
  {
    match d
    case Object(ms) =>
      MembersKeys(ms);
      forall k | k in MembersValue(ms) ensures Normal(MembersValue(ms)[k]) {
        FindIsEntry(ms, k);
        TreeIsNormal(Find(ms, k));
      }
    case Array(xs) => ItemsAreNormal(xs);
    case Leaf(t) => LeafIsNormal(t);
  }

  lemma {:induction false} ItemsAreNormal(xs: Items)
    requires ItemsLeaves(xs)
    ensures forall i :: 0 <= i < |ItemsValue(xs)| ==> Normal(ItemsValue(xs)[i])
    decreases ItemsWidth(xs), 1
  {
    if xs.Item? {
      TreeIsNormal(xs.doc);
      ItemsAreNormal(xs.rest);
    }
  }

  /** The writer loses nothing: what it writes for a decoded tree stands for that tree again. */
  lemma WriterRoundTrip(d: Doc)
    requires Canonicalizable(d)
    ensures Renders(Write(ValueOf(d)), ValueOf(d)) && Canonicalizable(Write(ValueOf(d)))
  {
    TreeIsNormal(d);
    WriteRenders(ValueOf(d));
  }

  ghost predicate Canonicalizable(d: Doc) { d.Object? && Leaves(d) && Unique(d) }

  /** The depth bound is a property of the tree, so every document of it keeps within the same bound. */
  lemma {:induction false} SameDepth(a: Doc, b: Doc, n: int)
    requires ValueOf(a) == ValueOf(b) && Within(a, n) && Unique(b)
    ensures Within(b, n)
    decreases Width(a), 0
  {
    match b
    case Object(ns) =>
      forall k | k in Keys(ns) ensures k in Keys(a.members) && k in MembersValue(ns) && k in MembersValue(a.members) {
        MembersKeys(ns);
        MembersKeys(a.members);
      }
      InsideDepth(a.members, ns, n - 1);
    case Array(ys) => ItemsDepth(a.items, ys, n - 1);
    case Leaf(_) =>
  }

  lemma {:induction false} FindWithin(ms: Members, k: string, n: int)
    requires k in Keys(ms) && MembersWithin(ms, n)
    ensures Within(Find(ms, k), n) && k in MembersValue(ms) && MembersValue(ms)[k] == ValueOf(Find(ms, k))
  {
    MembersKeys(ms);
    if ms.key != k {
      FindWithin(ms.rest, k, n);
    }
  }

  /** Every entry of b's map is an entry of a's, whatever else a has. */
  ghost predicate Inside(b: Members, a: Members) {
    forall k :: k in Keys(b) ==>
      k in Keys(a) && k in MembersValue(b) && k in MembersValue(a) && MembersValue(b)[k] == MembersValue(a)[k]
  }

  lemma {:induction false} InsideDepth(a: Members, b: Members, n: int)
    requires Inside(b, a) && UniqueMembers(b) && MembersWithin(a, n)
    ensures MembersWithin(b, n)
    decreases MembersWidth(a), 1, b
  {
    if b.Member? {
      assert b.key in Keys(b);
      FindWithin(a, b.key, n);
      SameDepth(Find(a, b.key), b.doc, n);
      MembersKeys(b.rest);
      forall k | k in Keys(b.rest)
        ensures k in Keys(a) && k in MembersValue(a) && MembersValue(b.rest)[k] == MembersValue(a)[k]
      {
        assert k in Keys(b) && k != b.key;
      }
      InsideDepth(a, b.rest, n);
    }
  }

  lemma {:induction false} ItemsDepth(a: Items, b: Items, n: int)
    requires ItemsValue(a) == ItemsValue(b) && ItemsWithin(a, n) && UniqueItems(b)
    ensures ItemsWithin(b, n)
    decreases ItemsWidth(a), 1
  {
    if b.Item? {
      HeadsAndTails(ValueOf(a.doc), ItemsValue(a.rest), ValueOf(b.doc), ItemsValue(b.rest));
      SameDepth(a.doc, b.doc, n);
      ItemsDepth(a.rest, b.rest, n);
    }
  }

  lemma {:induction false} SpelledLeaves(ts: seq<Token>, i: nat, d: Doc)
    requires Spells(ts, i, d)
    ensures Leaves(d)
    decreases d
  {
    match d
    case Object(ms) => MembersSpelledLeaves(ts, i + 1, ms);
    case Array(xs) => ItemsSpelledLeaves(ts, i + 1, xs);
    case Leaf(_) =>
  }

  lemma {:induction false} MembersSpelledLeaves(ts: seq<Token>, i: nat, ms: Members)
    requires MembersSpell(ts, i, ms)
    ensures MembersLeaves(ms)
    decreases ms
  {
    if ms.Member? {
      SpelledLeaves(ts, i + 1, ms.doc);
      MembersSpelledLeaves(ts, i + 1 + Width(ms.doc), ms.rest);
    }
  }

  lemma {:induction false} ItemsSpelledLeaves(ts: seq<Token>, i: nat, xs: Items)
    requires ItemsSpell(ts, i, xs)
    ensures ItemsLeaves(xs)
    decreases xs
  {
    if xs.Item? {
      SpelledLeaves(ts, i, xs.doc);
      ItemsSpelledLeaves(ts, i + Width(xs.doc), xs.rest);
    }
  }

  // --------------------------------------------------- canonicalization

  const LIMIT: nat := 1048576

  /** The argument bytes: their number, whether they are UTF-8, and the tokens a decoder finds in them. */
  datatype Raw = Raw(size: nat, utf8: bool, tokens: seq<Token>)

  datatype CanonicalError = SizeInvalid | Utf8Invalid | Rejected(reason: DecodeError) | CanonicalInvalid

  /** size says how many bytes a document takes as json.Marshal spells it. */
  ghost function Canonicalize(raw: Raw, size: Doc -> nat): Result<Doc, CanonicalError> {
    if raw.size == 0 || raw.size > LIMIT then Failure(SizeInvalid)
    else if !raw.utf8 then Failure(Utf8Invalid)
    else match Accept(raw.tokens)
      case Failure(e) => Failure(Rejected(e))
      case Success(v) => if size(Write(v)) > LIMIT then Failure(CanonicalInvalid) else Success(Write(v))
  }

  /** The bytes of a canonical form, read back. */
  ghost predicate Spelled(size: Doc -> nat, d: Doc, raw: Raw) {
    raw.size == size(d) > 0 && raw.utf8 && Width(d) == |raw.tokens| && Spells(raw.tokens, 0, d)
  }

  /** The canonical form of an accepted text has sorted keys and stands for the text's tree. */
  lemma CanonicalForm(raw: Raw, size: Doc -> nat, d: Doc)
    requires Canonicalize(raw, size).Success? && Wellformed(raw.tokens, d)
    ensures Renders(Canonicalize(raw, size).value, ValueOf(d))
  {
    AcceptsExactly(raw.tokens, ValueOf(d));
    SpelledLeaves(raw.tokens, 0, d);
    WriterRoundTrip(d);
  }

  /** Canonicalizing a canonical form returns it. */
  lemma CanonicalIdempotent(raw: Raw, again: Raw, size: Doc -> nat)
    requires Canonicalize(raw, size).Success? && Spelled(size, Canonicalize(raw, size).value, again)
    ensures Canonicalize(again, size) == Canonicalize(raw, size)
  {
    var v := Accept(raw.tokens).value;
    AcceptsExactly(raw.tokens, v);
    var d :| Wellformed(raw.tokens, d) && ValueOf(d) == v;
    SpelledLeaves(raw.tokens, 0, d);
    WriterRoundTrip(d);
    var c := Write(v);
    SameDepth(d, c, MAX_DEPTH);
    assert Wellformed(again.tokens, c);
    AcceptsExactly(again.tokens, v);
  }

  /** Two accepted texts have one canonical form exactly if they mean the same. */
  lemma CanonicalDecidesMeaning(a: Raw, b: Raw, size: Doc -> nat, d: Doc, e: Doc)
    requires Canonicalize(a, size).Success? && Canonicalize(b, size).Success?
    requires Wellformed(a.tokens, d) && Wellformed(b.tokens, e)
    ensures Canonicalize(a, size) == Canonicalize(b, size) <==> Denote(d) == Denote(e)
  {
    AcceptsExactly(a.tokens, ValueOf(d));
    AcceptsExactly(b.tokens, ValueOf(e));
    SpelledLeaves(a.tokens, 0, d);
    SpelledLeaves(b.tokens, 0, e);
    WriterRoundTrip(d);
    WriterRoundTrip(e);
    SameTreeIffSameMeaning(d, e);
  }
}
