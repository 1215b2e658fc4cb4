/** The order of Go strings, byte by byte, which sorts keys and identifiers. */
module Strings {

  predicate Le(a: string, b: string) {
    a == [] || (b != [] && (a[0] < b[0] || (a[0] == b[0] && Le(a[1..], b[1..]))))
  }

  lemma LeTotal(a: string, b: string)
    ensures Le(a, b) || Le(b, a)
    ensures Le(a, b) && Le(b, a) ==> a == b
  {
    if a != [] && b != [] && a[0] == b[0] {
      LeTotal(a[1..], b[1..]);
      assert a == [a[0]] + a[1..] && b == [b[0]] + b[1..];
    }
  }

  lemma LeTransitive(a: string, b: string, c: string)
    requires Le(a, b) && Le(b, c)
    ensures Le(a, c)
  {
    if a != [] && b != [] && c != [] && a[0] == b[0] == c[0] {
      LeTransitive(a[1..], b[1..], c[1..]);
    }
  }

  /** Every non-empty set of strings has a least one. */
  lemma {:induction false} LeastExists(keys: set<string>)
    requires keys != {}
    ensures exists k :: k in keys && forall other :: other in keys ==> Le(k, other)
    decreases |keys|
  {
    hide Le;
    var some :| some in keys;
    var rest := keys - {some};
    LeTotal(some, some);
    var k := some;
    if rest != {} {
      LeastExists(rest);
      var least :| least in rest && forall other :: other in rest ==> Le(least, other);
      LeTotal(some, least);
      k := if Le(some, least) then some else least;
      forall other | other in rest && Le(some, least) ensures Le(some, other) {
        LeTransitive(some, least, other);
      }
    }
    forall other | other in keys ensures Le(k, other) {
      assert other == some || other in rest;
    }
  }

  ghost function Least(keys: set<string>): (least: string)
    requires keys != {}
    ensures least in keys && forall other :: other in keys ==> Le(least, other)
  {
    LeastExists(keys);
    var k :| k in keys && forall other :: other in keys ==> Le(k, other);
    k
  }
}
