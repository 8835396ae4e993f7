/**
 Small concrete scopes that pin the calculators' behaviour down on the cases
 worth pinning down: a class counted once although it is both a package-mate
 and a subclass, transitive subclassing, one-directional coupling, and a
 scope of a single class.
 */
module Scenarios {
  import opened ClassModel
  import opened Hierarchy
  import opened MHF
  import opened CF

  const pub := Method(Public, [], [])
  const priv := Method(Private, [], [])
  const prot := Method(Protected, [], [])

  // Scope {p.A, p.B, p.C}: A has a public and a private method, B has a
  // field of type A, C is unrelated.
  const A := Class("p.A", None, [], [pub, priv])
  const B := Class("p.B", None, ["p.A"], [])
  const C := Class("p.C", None, [], [])

  /** B refers to A, so B is a client of A; A refers to nobody. CF counts the
      classes a class is a client of, so B scores 1/6 and A scores 0; A's
      methods are half visible. */
  lemma ThreeClassScope()
    ensures Coupled(B, A) && !Coupled(A, B)
    ensures ClassCF([A, B, C], B) == 1.0 / 6.0
    ensures ClassCF([A, B, C], A) == 0.0
    ensures ClassMHF([A, B, C], A) == 0.5
  {
    var scope := [A, B, C];
    assert CoupledCount(scope[2..], B) == 0;
    assert CoupledCount(scope[1..], B) == 0;
    assert CoupledCount(scope, B) == 1;
    assert CoupledCount(scope[2..], A) == 0;
    assert CoupledCount(scope[1..], A) == 0;
    assert CoupledCount(scope, A) == 0;
    assert SumV(scope, A, [priv]) == 0.0;
    assert SumV(scope, A, A.methods) == 1.0;
  }

  // Scope {q.P, q.Q}: Q extends P in the same package, and P has a
  // protected method.
  const P := Class("q.P", None, [], [prot])
  const Q := Class("q.Q", Some("q.P"), [], [])

  /** Both names lie in package "q": the prefix before the last dot. */
  lemma PackageQ()
    ensures PackageName(P.name) == "q" && PackageName(Q.name) == "q"
  {
    var pkg := PackageName(P.name);
    assert P.name[|pkg|] == '.';
    var pkg' := PackageName(Q.name);
    assert Q.name[|pkg'|] == '.';
  }

  /** Q extends P; P, having no superclass, is not its own subclass. */
  lemma HierarchyPQ()
    ensures IsSubclass([P, Q], Q, P) && !IsSubclass([P, Q], P, P)
  {
  }

  /** P and Q are package-mates, P itself included. */
  lemma PackageOfP()
    ensures PackageClasses([P, Q], P) == {P, Q}
  {
    PackageQ();
    hide PackageName;
    assert SamePackage(P, P) && SamePackage(Q, P);
    var pc := PackageClasses([P, Q], P);
    forall x ensures x in pc <==> x in {P, Q} {
      assert x in [P, Q] <==> x == P || x == Q;
    }
  }

  /** Q is the only subclass of P. */
  lemma SubclassesOfP()
    ensures Subclasses([P, Q], P) == {Q}
  {
    HierarchyPQ();
    var sc := Subclasses([P, Q], P);
    forall x ensures x in sc <==> x in {Q} {
      assert x in [P, Q] <==> x == P || x == Q;
    }
  }

  /** Q is both a package-mate and a subclass of P; it is counted once, so
      the protected method is seen by one class, not two. */
  lemma UnionCountsOnce()
    ensures PackageClasses([P, Q], P) == {P, Q}
    ensures Subclasses([P, Q], P) == {Q}
    ensures VisibleCount([P, Q], Protected, P) == 1
    ensures V([P, Q], prot, P) == 1.0
  {
    PackageOfP();
    SubclassesOfP();
    assert {P, Q} + {Q} == {P, Q};
    assert |{P, Q}| == 2;
    assert VisibleCount([P, Q], Protected, P) == 1;
    Ratios.Quotient(1.0, 1.0);
  }

  // Scope {r.X, r.Y, r.Z}: Z extends Y, which extends X.
  const X := Class("r.X", None, [], [])
  const Y := Class("r.Y", Some("r.X"), [], [])
  const Z := Class("r.Z", Some("r.Y"), [], [])

  /** The walk is transitive: Z is a subclass of X through Y. */
  lemma IndirectSubclass()
    ensures IsSubclass([X, Y, Z], Z, X)
    ensures !IsSubclass([X, Y, Z], X, Z)
  {
    var scope := [X, Y, Z];
    assert Lookup(scope, "r.Y") == Some(Y);
  }

  /** Without Y in the scope the walk stops at the name "r.Y": Z is no longer
      a subclass of X. */
  lemma WalkStopsOutsideScope()
    ensures SuperChain([X, Z], Z.superName, 2) == ["r.Y"]
    ensures !IsSubclass([X, Z], Z, X)
  {
    assert Lookup([X, Z], "r.Y") == None;
  }

  /** In a scope of one class every visibility, and so every MHF value, is 0. */
  lemma SingleClassScope(K: Class)
    ensures ClassMHF([K], K) == 0.0
    ensures SystemMHF([K]) == 0.0
  {
    assert MethodCount([K]) == |K.methods|;
    if |K.methods| > 0 {
      ClassMHFBetween([K], K, 0.0, 0.0);
      assert SumAllV([K], [K]) == SumV([K], K, K.methods);
      SumVBetween([K], K, K.methods, 0.0, 0.0);
    }
  }

  // Scope {s.A, s.B, s.S}: A extends B, B extends A, S extends A.
  const CA := Class("s.A", Some("s.B"), [], [])
  const CB := Class("s.B", Some("s.A"), [], [])
  const CS := Class("s.S", Some("s.A"), [], [])

  /** On a superclass cycle the walk still finds a target on the cycle (the
      Java loop returns true there too); for a target off the cycle the Java
      loop never ends, and the bounded walk answers false. */
  lemma CyclicScope()
    ensures IsSubclass([CA, CB, CS], CA, CA)
    ensures IsSubclass([CA, CB, CS], CS, CB)
    ensures !IsSubclass([CA, CB, CS], CA, CS)
  {
    var scope := [CA, CB, CS];
    assert Lookup(scope, "s.B") == Some(CB);
    assert Lookup(scope, "s.A") == Some(CA);
    assert SuperChain(scope, Some("s.A"), 0) == ["s.A"];
    assert SuperChain(scope, Some("s.B"), 1) == ["s.B", "s.A"];
    assert SuperChain(scope, Some("s.A"), 2) == ["s.A", "s.B", "s.A"];
    assert SuperChain(scope, Some("s.B"), 3) == ["s.B", "s.A", "s.B", "s.A"];
  }
}
