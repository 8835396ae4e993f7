/**
 Method Hiding Factor calculator. Every method gets a visibility in [0, 1]:
 the number of other classes of the scope that can see it, divided by TC - 1
 (TC the number of classes in the scope). The per-class value is the mean
 visibility of the class's methods and the system value is the mean over every
 method of the scope. Visibility of a protected method counts the union of the
 class's package-mates and its (transitive, in-scope) subclasses.
 */
module MHF {
  import opened ClassModel
  import opened Hierarchy
  import Ratios

  // ---------------------------------------------------------------------------
  // Packages

  /** Index of the last occurrence of `ch` in `s`, or -1 when there is none. */
  function LastIndexOf(s: string, ch: char): (i: int)
    ensures -1 <= i < |s|
    ensures i == -1 <==> ch !in s
    ensures 0 <= i ==> s[i] == ch && ch !in s[i + 1..]
  {
    if |s| == 0 then -1
    else if s[|s| - 1] == ch then |s| - 1
    else LastIndexOf(s[..|s| - 1], ch)
  }

  /** The package of a fully qualified class name: everything before its
      last dot, or the empty string when the name has no dot. */
  function PackageName(className: string): (pkg: string)
    ensures pkg <= className
    ensures '.' !in className ==> pkg == ""
    ensures '.' in className ==>
      |pkg| < |className| && className[|pkg|] == '.' && '.' !in className[|pkg| + 1..]
  {
    var i := LastIndexOf(className, '.');
    if i != -1 then className[..i] else ""
  }

  predicate SamePackage(a: Class, b: Class) {
    PackageName(a.name) == PackageName(b.name)
  }

  /** The classes of the scope in the package of `c`, `c` itself included. */
  function PackageClasses(scope: seq<Class>, c: Class): (r: set<Class>)
    ensures forall x :: x in r <==> x in scope && SamePackage(x, c)
    ensures c in scope ==> c in r
    ensures |r| <= |scope|
  {
    Select(scope, (x: Class) => SamePackage(x, c))
  }

  // ---------------------------------------------------------------------------
  // Subclasses

  /** The classes of the scope that are subclasses of `c`. */
  function Subclasses(scope: seq<Class>, c: Class): (r: set<Class>)
    ensures forall x :: x in r <==> x in scope && IsSubclass(scope, x, c)
    ensures |r| <= |scope|
  {
    Select(scope, (x: Class) => IsSubclass(scope, x, c))
  }

  // ---------------------------------------------------------------------------
  // Visibility

  /** Number of classes other than `c` that can see a method of `c` with
      access level `a`. */
  function VisibleCount(scope: seq<Class>, a: Access, c: Class): (n: int)
    ensures -1 <= n
    ensures 0 < |scope| ==> n <= |scope| - 1
    ensures c in scope ==> 0 <= n
    ensures a == Private ==> n == 0
  {
    match a
    case Public => |scope| - 1
    case Protected =>
      var visible := PackageClasses(scope, c) + Subclasses(scope, c);
      SubsetCard(visible, Elements(scope));
      assert c in scope ==> c in visible;
      |visible| - 1
    case Package =>
      assert c in scope ==> c in PackageClasses(scope, c);
      |PackageClasses(scope, c)| - 1
    case Private => 0
  }

  /** Visibility of method `m` of class `c`: its visible-class count divided
      by TC - 1, and 0 when the scope has at most one class. */
  function V(scope: seq<Class>, m: Method, c: Class): (r: real)
    ensures |scope| <= 1 ==> r == 0.0
    ensures |scope| > 1 && m.access == Public ==> r == 1.0
    ensures m.access == Private ==> r == 0.0
    ensures c in scope ==> 0.0 <= r <= 1.0
  {
    if |scope| > 1 then
      var n, d := VisibleCount(scope, m.access, c) as real, (|scope| - 1) as real;
      Ratios.Quotient(n, d);
      n / d
    else 0.0
  }

  /** A protected method is seen by every class that sees a package-private
      one, and a class that is both a package-mate and a subclass counts once. */
  lemma ProtectedCountsUnion(scope: seq<Class>, c: Class)
    ensures VisibleCount(scope, Package, c) <= VisibleCount(scope, Protected, c)
    ensures VisibleCount(scope, Protected, c) ==
      |PackageClasses(scope, c)| + |Subclasses(scope, c)| - |PackageClasses(scope, c) * Subclasses(scope, c)| - 1
  {
    SubsetCard(PackageClasses(scope, c), PackageClasses(scope, c) + Subclasses(scope, c));
  }

  /** The visibility ordering of the access levels. */
  lemma VisibilityOrder(scope: seq<Class>, c: Class, mPriv: Method, mPack: Method, mProt: Method, mPub: Method)
    requires c in scope
    requires mPriv.access == Private && mPack.access == Package
    requires mProt.access == Protected && mPub.access == Public
    ensures V(scope, mPriv, c) <= V(scope, mPack, c) <= V(scope, mProt, c) <= V(scope, mPub, c)
  {
    ProtectedCountsUnion(scope, c);
    if |scope| > 1 {
      var d := (|scope| - 1) as real;
      Ratios.DivMono(VisibleCount(scope, Private, c) as real, VisibleCount(scope, Package, c) as real, d);
      Ratios.DivMono(VisibleCount(scope, Package, c) as real, VisibleCount(scope, Protected, c) as real, d);
      Ratios.DivMono(VisibleCount(scope, Protected, c) as real, VisibleCount(scope, Public, c) as real, d);
    }
  }

  /** With distinct names, a public method is seen by exactly the other
      classes of the scope. */
  lemma PublicSeenByEveryOtherClass(scope: seq<Class>, c: Class)
    requires DistinctNames(scope)
    requires c in scope
    ensures VisibleCount(scope, Public, c) == |Elements(scope) - {c}|
  {
    ElementsOfDistinct(scope);
  }

  // ---------------------------------------------------------------------------
  // Class and system values

  /** Total visibility of the methods `ms` of class `c`. */
  function SumV(scope: seq<Class>, c: Class, ms: seq<Method>): (r: real)
    ensures c in scope ==> 0.0 <= r <= |ms| as real
  {
    if |ms| == 0 then 0.0
    else V(scope, ms[0], c) + SumV(scope, c, ms[1..])
  }

  /** If every method's visibility lies in [lo, hi], so does their total
      divided by their number. */
  lemma {:induction false} SumVBetween(scope: seq<Class>, c: Class, ms: seq<Method>, lo: real, hi: real)
    requires forall i :: 0 <= i < |ms| ==> lo <= V(scope, ms[i], c) <= hi
    ensures lo * |ms| as real <= SumV(scope, c, ms) <= hi * |ms| as real
  {
    hide V;
    if |ms| > 0 {
      assert forall i :: 0 <= i < |ms[1..]| ==> ms[1..][i] == ms[i + 1];
      SumVBetween(scope, c, ms[1..], lo, hi);
      var k := |ms[1..]| as real;
      assert |ms| as real == k + 1.0;
      Ratios.MulSucc(lo, k);
      Ratios.MulSucc(hi, k);
    }
  }

  /** MHF of one class: the mean visibility of its methods, 0 without methods. */
  function ClassMHF(scope: seq<Class>, c: Class): (r: real)
    ensures |c.methods| == 0 ==> r == 0.0
    ensures c in scope ==> 0.0 <= r <= 1.0
  {
    var n := |c.methods|;
    if n > 0 then
      var s := SumV(scope, c, c.methods);
      Ratios.Quotient(s, n as real);
      s / n as real
    else 0.0
  }

  /** The class value lies between the least and the greatest visibility of
      the class's methods, as a mean does. */
  lemma ClassMHFBetween(scope: seq<Class>, c: Class, lo: real, hi: real)
    requires |c.methods| > 0
    requires forall i :: 0 <= i < |c.methods| ==> lo <= V(scope, c.methods[i], c) <= hi
    ensures lo <= ClassMHF(scope, c) <= hi
  {
    hide V;
    SumVBetween(scope, c, c.methods, lo, hi);
    Ratios.DivBetween(SumV(scope, c, c.methods), |c.methods| as real, lo, hi);
  }

  /** A class whose methods are all private hides them all: its value is 0. */
  lemma ClassMHFAllPrivate(scope: seq<Class>, c: Class)
    requires forall i :: 0 <= i < |c.methods| ==> c.methods[i].access == Private
    ensures ClassMHF(scope, c) == 0.0
  {
    hide V;
    if |c.methods| > 0 {
      ClassMHFBetween(scope, c, 0.0, 0.0);
    }
  }

  /** In a scope of two or more classes, a class with methods that are all
      public scores 1. */
  lemma ClassMHFAllPublic(scope: seq<Class>, c: Class)
    requires |scope| > 1 && |c.methods| > 0
    requires forall i :: 0 <= i < |c.methods| ==> c.methods[i].access == Public
    ensures ClassMHF(scope, c) == 1.0
  {
    hide V;
    ClassMHFBetween(scope, c, 1.0, 1.0);
  }

  /** Number of methods of the classes `cs`. */
  function MethodCount(cs: seq<Class>): (n: nat)
    ensures n == 0 <==> forall c :: c in cs ==> |c.methods| == 0
  {
    if |cs| == 0 then 0 else |cs[0].methods| + MethodCount(cs[1..])
  }

  /** Total visibility of every method of the classes `cs`, each measured
      against its own class within `scope`. */
  function SumAllV(scope: seq<Class>, cs: seq<Class>): (r: real)
    ensures (forall c :: c in cs ==> c in scope) ==> 0.0 <= r <= MethodCount(cs) as real
  {
    if |cs| == 0 then 0.0
    else SumV(scope, cs[0], cs[0].methods) + SumAllV(scope, cs[1..])
  }

  /** MHF of the system: the mean visibility over all methods of all classes
      of the scope, 0 when the scope has no method. */
  function SystemMHF(scope: seq<Class>): (r: real)
    ensures MethodCount(scope) == 0 ==> r == 0.0
    ensures 0.0 <= r <= 1.0
  {
    var n := MethodCount(scope);
    if n > 0 then
      var s := SumAllV(scope, scope);
      Ratios.Quotient(s, n as real);
      s / n as real
    else 0.0
  }

  /** Sum over `cs` of each class's MHF weighted by its number of methods. */
  function WeightedClassMHF(scope: seq<Class>, cs: seq<Class>): real {
    if |cs| == 0 then 0.0
    else |cs[0].methods| as real * ClassMHF(scope, cs[0]) + WeightedClassMHF(scope, cs[1..])
  }

  /** A class's MHF times its number of methods is its total visibility. */
  lemma ClassMHFScaled(scope: seq<Class>, c: Class)
    ensures |c.methods| as real * ClassMHF(scope, c) == SumV(scope, c, c.methods)
  {
    hide V;
    if |c.methods| > 0 {
      Ratios.MulDiv(SumV(scope, c, c.methods), |c.methods| as real);
    }
  }

  lemma {:induction false} SumAllVIsWeighted(scope: seq<Class>, cs: seq<Class>)
    ensures SumAllV(scope, cs) == WeightedClassMHF(scope, cs)
  {
    hide V, ClassMHF, SumV;
    if |cs| > 0 {
      SumAllVIsWeighted(scope, cs[1..]);
      ClassMHFScaled(scope, cs[0]);
    }
  }

  /** The system value is the method-count-weighted average of the class
      values. */
  lemma SystemMHFIsWeightedAverage(scope: seq<Class>)
    requires MethodCount(scope) > 0
    ensures SystemMHF(scope) == WeightedClassMHF(scope, scope) / MethodCount(scope) as real
  {
    hide V;
    SumAllVIsWeighted(scope, scope);
  }

  /** The value is the mean visibility, not its complement: a scope of two or
      more classes whose methods are all public scores 1. */
  lemma {:induction false} AllPublicScoresOne(scope: seq<Class>, cs: seq<Class>)
    requires |scope| > 1
    requires forall i, j :: 0 <= i < |cs| && 0 <= j < |cs[i].methods| ==> cs[i].methods[j].access == Public
    ensures SumAllV(scope, cs) == MethodCount(cs) as real
  {
    hide V;
    if |cs| > 0 {
      SumVBetween(scope, cs[0], cs[0].methods, 1.0, 1.0);
      assert forall i :: 0 <= i < |cs[1..]| ==> cs[1..][i] == cs[i + 1];
      AllPublicScoresOne(scope, cs[1..]);
    }
  }

  lemma AllPublicSystemMHF(scope: seq<Class>)
    requires |scope| > 1 && MethodCount(scope) > 0
    requires forall i, j :: 0 <= i < |scope| && 0 <= j < |scope[i].methods| ==> scope[i].methods[j].access == Public
    ensures SystemMHF(scope) == 1.0
  {
    hide V, SumV;
    AllPublicScoresOne(scope, scope);
    Ratios.Quotient(SumAllV(scope, scope), MethodCount(scope) as real);
  }
}
