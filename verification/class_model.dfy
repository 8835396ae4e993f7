/**
 The read-only class model both metric calculators consume: classes with their
 field types, methods, the access level of each method, the classes a method's
 invocations and field accesses refer to, and an optional superclass name.
 A scope is the set of classes one metric is computed over; it is a sequence
 here, and well-formed scopes have pairwise distinct class names, so that
 comparing names stands in for comparing class identities.
 */
module ClassModel {

  datatype Option<T> = None | Some(value: T)

  /** The four access levels of a method; `Package` is the level with no
      modifier (MHF.java calls it NONE). The enumeration is closed. */
  datatype Access = Public | Protected | Package | Private

  /** A method: its access level, the declaring class of every method it
      invokes, and the owning class of every field it reads or writes. */
  datatype Method = Method(access: Access, invocationOrigins: seq<string>, fieldOwners: seq<string>)

  /** A class: fully qualified name, optional superclass name (which may name
      a class outside the scope), the declared type name of each field, and
      its methods. */
  datatype Class = Class(name: string, superName: Option<string>, fields: seq<string>, methods: seq<Method>)

  /** Class names are unique within a scope. */
  predicate DistinctNames(scope: seq<Class>) {
    forall i, j :: 0 <= i < j < |scope| ==> scope[i].name != scope[j].name
  }

  /** The first class of the scope carrying `name`, if any: the search the
      hierarchy walk performs to continue from a supertype name. */
  function Lookup(scope: seq<Class>, name: string): (r: Option<Class>)
    ensures r.Some? ==> r.value in scope && r.value.name == name
    ensures r.None? <==> forall c :: c in scope ==> c.name != name
  {
    if |scope| == 0 then None
    else if scope[0].name == name then Some(scope[0])
    else Lookup(scope[1..], name)
  }

  /** With distinct names, the class Lookup finds is the only one so named. */
  lemma {:induction false} LookupUnique(scope: seq<Class>, c: Class)
    requires DistinctNames(scope)
    requires c in scope
    ensures Lookup(scope, c.name) == Some(c)
  {
    if scope[0] != c {
      var j :| 0 <= j < |scope| && scope[j] == c;
      assert scope[0].name != c.name;
      assert c == scope[1..][j - 1];
      assert DistinctNames(scope[1..]) by {
        forall i, j | 0 <= i < j < |scope[1..]|
          ensures scope[1..][i].name != scope[1..][j].name
        {
          assert scope[1..][i] == scope[i + 1] && scope[1..][j] == scope[j + 1];
        }
      }
      LookupUnique(scope[1..], c);
    }
  }

  /** The set of elements of `xs` satisfying `p`, gathered one element at a
      time in sequence order (the Java loops that add matching classes to
      a hash set). */
  function Select<T(!new)>(xs: seq<T>, p: T -> bool): (r: set<T>)
    ensures forall x :: x in r <==> x in xs && p(x)
    ensures |r| <= |xs|
  {
    if |xs| == 0 then {}
    else
      var rest := Select(xs[1..], p);
      if p(xs[0]) then {xs[0]} + rest else rest
  }

  /** The set of classes of a scope. */
  function Elements(scope: seq<Class>): (r: set<Class>)
    ensures forall c :: c in r <==> c in scope
    ensures |r| <= |scope|
  {
    Select(scope, (c: Class) => true)
  }

  /** A sequence with distinct names has as many distinct elements as
      positions, so a scope's length is the number of its classes. */
  lemma {:induction false} ElementsOfDistinct(scope: seq<Class>)
    requires DistinctNames(scope)
    ensures |Elements(scope)| == |scope|
  {
    if |scope| > 0 {
      var rest := scope[1..];
      assert DistinctNames(rest) by {
        forall i, j | 0 <= i < j < |rest|
          ensures rest[i].name != rest[j].name
        {
          assert rest[i] == scope[i + 1] && rest[j] == scope[j + 1];
        }
      }
      ElementsOfDistinct(rest);
      assert scope[0] !in rest by {
        forall j | 0 <= j < |rest|
          ensures rest[j].name != scope[0].name
        {
          assert rest[j] == scope[j + 1];
        }
      }
      var whole, tail := Elements(scope), Elements(rest);
      assert whole == {scope[0]} + tail by {
        forall c ensures c in whole <==> c in {scope[0]} + tail {
          assert c in scope <==> c == scope[0] || c in rest;
        }
      }
    }
  }

  /** A subset of a finite set is no larger than the set. */
  lemma SubsetCard<T>(a: set<T>, b: set<T>)
    requires a <= b
    ensures |a| <= |b|
  {
    assert b == a + (b - a);
  }
}
