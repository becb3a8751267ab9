/**
 * Document identifiers and the order in which the document store returns the
 * documents of a query: ascending by document id. "The first document of a
 * query" is therefore the least matching id; ids are compared character by
 * character.
 */
module DocIds {

  type Id = string

  /** Lexicographic order on ids. */
  predicate Le(a: Id, b: Id)
    decreases |a|
  {
    |a| == 0 || (|b| > 0 && (a[0] < b[0] || (a[0] == b[0] && Le(a[1..], b[1..]))))
  }

  lemma {:induction false} LeReflexive(a: Id)
    ensures Le(a, a)
    decreases |a|
  {
    if |a| > 0 {
      LeReflexive(a[1..]);
    }
  }

  lemma {:induction false} LeTotal(a: Id, b: Id)
    ensures Le(a, b) || Le(b, a)
    decreases |a|
  {
    if |a| > 0 && |b| > 0 && a[0] == b[0] {
      LeTotal(a[1..], b[1..]);
    }
  }

  lemma {:induction false} LeTransitive(a: Id, b: Id, c: Id)
    requires Le(a, b) && Le(b, c)
    ensures Le(a, c)
    decreases |a|
  {
    if |a| > 0 && a[0] == b[0] && b[0] == c[0] {
      LeTransitive(a[1..], b[1..], c[1..]);
    }
  }

  lemma {:induction false} LeAntisymmetric(a: Id, b: Id)
    requires Le(a, b) && Le(b, a)
    ensures a == b
    decreases |a|
  {
    if |a| > 0 {
      LeAntisymmetric(a[1..], b[1..]);
      assert a == [a[0]] + a[1..] && b == [b[0]] + b[1..];
    }
  }

  /** `r` is the first of `ids` in query order. */
  ghost predicate IsLeast(r: Id, ids: set<Id>)
  {
    r in ids && forall x :: x in ids ==> Le(r, x)
  }

  /** A set has at most one least element. */
  lemma LeastUnique(r: Id, q: Id, ids: set<Id>)
    requires IsLeast(r, ids) && IsLeast(q, ids)
    ensures r == q
  {
    LeAntisymmetric(r, q);
  }

  lemma LeastOfInsert(x: Id, m: Id, rest: set<Id>)
    requires IsLeast(m, rest)
    ensures IsLeast(if Le(x, m) then x else m, rest + {x})
  {
    LeReflexive(x);
    if Le(x, m) {
      forall y | y in rest ensures Le(x, y) {
        LeTransitive(x, m, y);
      }
    } else {
      LeTotal(x, m);
    }
  }

  /** The first of a non-empty set of ids in query order. */
  ghost function Least(ids: set<Id>): (r: Id)
    requires ids != {}
    ensures IsLeast(r, ids)
    decreases |ids|
  {
    var x :| x in ids;
    if ids == {x} then
      LeReflexive(x);
      x
    else
      var m := Least(ids - {x});
      LeastOfInsert(x, m, ids - {x});
      assert ids - {x} + {x} == ids;
      if Le(x, m) then x else m
  }

  lemma LeastSingleton(x: Id)
    ensures Least({x}) == x
  {
  }

  /**
   * `query.docs[0]`: the first document id of a non-empty query result,
   * found by one pass over the result.
   */
  method First(ids: set<Id>) returns (r: Id)
    requires ids != {}
    ensures r in ids && forall x :: x in ids ==> Le(r, x)
    ensures r == Least(ids)
  {
    r :| r in ids;
    LeReflexive(r);
    var rest := ids - {r};
    while rest != {}
      invariant rest <= ids && r in ids
      invariant forall x :: x in ids - rest ==> Le(r, x)
      decreases rest
    {
      var x :| x in rest;
      if !Le(r, x) {
        LeTotal(r, x);
        LeReflexive(x);
        forall y | y in ids - rest ensures Le(x, y) {
          LeTransitive(x, r, y);
        }
        r := x;
      }
      rest := rest - {x};
    }
    LeastUnique(r, Least(ids), ids);
  }
}
