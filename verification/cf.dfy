/**
 Coupling Factor calculator. A class c1 is a client of another class c2 of the
 scope when a field of c1 has type c2, or a method of c1 invokes a method
 declared in c2 or accesses a field owned by c2. The class value is the number
 of classes c1 is a client of divided by TC * TC - TC, the number of ordered
 pairs of distinct classes; the system value is the sum of the class values.
 */
module CF {
  import opened ClassModel
  import Ratios

  // ---------------------------------------------------------------------------
  // The client relation

  /** Method `m` refers to the class named `name`: one of its invocations
      targets a method declared there, or one of its field accesses a field
      owned there. */
  predicate MethodCoupled(m: Method, name: string) {
    name in m.invocationOrigins || name in m.fieldOwners
  }

  /** `c1` is a client of `c2`: they are different classes, and a field of
      `c1` has type `c2` or a method of `c1` refers to `c2`. */
  predicate Coupled(c1: Class, c2: Class) {
    && c1.name != c2.name
    && (|| c2.name in c1.fields
        || exists k :: 0 <= k < |c1.methods| && MethodCoupled(c1.methods[k], c2.name))
  }

  /** The scan of one method: invocations first, then field accesses, each
      loop stopping at its first reference to `c`. */
  method IsMethodCoupled(m: Method, c: Class) returns (coupled: bool)
    ensures coupled <==> MethodCoupled(m, c.name)
  {
    coupled := false;
    var i := 0;
    while i < |m.invocationOrigins|
      invariant 0 <= i <= |m.invocationOrigins|
      invariant c.name !in m.invocationOrigins[..i]
    {
      if m.invocationOrigins[i] == c.name {
        coupled := true;
        break;
      }
      i := i + 1;
    }
    if !coupled {
      assert m.invocationOrigins[..i] == m.invocationOrigins;
      var j := 0;
      while j < |m.fieldOwners|
        invariant 0 <= j <= |m.fieldOwners|
        invariant c.name !in m.fieldOwners[..j]
      {
        if m.fieldOwners[j] == c.name {
          coupled := true;
          break;
        }
        j := j + 1;
      }
      if !coupled {
        assert m.fieldOwners[..j] == m.fieldOwners;
      }
    }
  }

  /** The client test: 0 for the class itself; otherwise every field type is
      compared, and if none matches the methods are scanned until one refers
      to `c2`. Returns 1 when `c1` is a client of `c2`, else 0. */
  method Client(c1: Class, c2: Class) returns (r: int)
    ensures r == 0 || r == 1
    ensures c1.name == c2.name ==> r == 0
    ensures r == 1 <==> Coupled(c1, c2)
  {
    r := 0;
    var coupled := false;
    if c1.name != c2.name {
      var i := 0;
      while i < |c1.fields|
        invariant 0 <= i <= |c1.fields|
        invariant coupled <==> c2.name in c1.fields[..i]
      {
        if c1.fields[i] == c2.name {
          coupled := true;
        }
        i := i + 1;
      }
      assert c1.fields[..i] == c1.fields;
      if !coupled {
        var k := 0;
        while k < |c1.methods|
          invariant 0 <= k <= |c1.methods|
          invariant forall j :: 0 <= j < k ==> !MethodCoupled(c1.methods[j], c2.name)
        {
          var mc := IsMethodCoupled(c1.methods[k], c2);
          if mc {
            coupled := true;
            break;
          }
          k := k + 1;
        }
      }
      if coupled {
        r := 1;
      }
    }
  }

  /** No class is a client of itself. */
  lemma NoSelfCoupling(c: Class)
    ensures !Coupled(c, c)
  {
  }

  /** Whether `c1` is a client of `c2` depends on `c2` only through its name:
      nothing in its fields, methods or superclass is consulted. */
  lemma CouplingSeesOnlyTheName(c1: Class, c2: Class, c2': Class)
    requires c2.name == c2'.name
    ensures Coupled(c1, c2) <==> Coupled(c1, c2')
  {
  }

  // ---------------------------------------------------------------------------
  // Class and system values

  /** Number of classes of `scope` that `c1` is a client of (the sum of the
      client test over the scope). */
  function CoupledCount(scope: seq<Class>, c1: Class): (n: nat)
    ensures n <= |scope|
    ensures c1 in scope ==> n < |scope|
  {
    if |scope| == 0 then 0
    else (if Coupled(c1, scope[0]) then 1 else 0) + CoupledCount(scope[1..], c1)
  }

  /** With distinct names the sum of the client test over the scope is the
      number of distinct classes `c1` is a client of. */
  lemma {:induction false} CoupledCountIsSetSize(scope: seq<Class>, c1: Class)
    requires DistinctNames(scope)
    ensures CoupledCount(scope, c1) == |Select(scope, (c2: Class) => Coupled(c1, c2))|
  {
    if |scope| > 0 {
      var rest := scope[1..];
      assert DistinctNames(rest) by {
        forall i, j | 0 <= i < j < |rest|
          ensures rest[i].name != rest[j].name
        {
          assert rest[i] == scope[i + 1] && rest[j] == scope[j + 1];
        }
      }
      CoupledCountIsSetSize(rest, c1);
      assert scope[0] !in rest by {
        forall j | 0 <= j < |rest|
          ensures rest[j].name != scope[0].name
        {
          assert rest[j] == scope[j + 1];
        }
      }
    }
  }

  /** Number of ordered pairs of distinct classes among `tc` classes. */
  function Pairs(tc: nat): (p: nat)
    ensures p == 0 <==> tc <= 1
  {
    tc * tc - tc
  }

  /** CF of one class: the classes it is a client of, over the ordered pairs
      of distinct classes. Undefined (CF.java divides by 0) unless the
      scope has two or more classes. */
  function ClassCF(scope: seq<Class>, c1: Class): (r: real)
    requires |scope| >= 2
    ensures 0.0 <= r
    ensures c1 in scope ==> r <= 1.0 / |scope| as real
  {
    var n := CoupledCount(scope, c1);
    Ratios.PairShare(n, |scope|);
    n as real / Pairs(|scope|) as real
  }

  /** Sum of the class values of the classes `cs`. */
  function SumClassCF(scope: seq<Class>, cs: seq<Class>): (r: real)
    requires |scope| >= 2 || |cs| == 0
    ensures 0.0 <= r
    ensures |cs| > 0 && (forall i :: 0 <= i < |cs| ==> cs[i] in scope) ==> r <= |cs| as real / |scope| as real
  {
    if |cs| == 0 then 0.0
    else
      var head, rest := ClassCF(scope, cs[0]), SumClassCF(scope, cs[1..]);
      assert forall i :: 0 <= i < |cs[1..]| ==> cs[1..][i] == cs[i + 1];
      Ratios.DivAdd(1.0, |cs[1..]| as real, |scope| as real);
      head + rest
  }

  /** CF of the system: the sum of the class values over the scope. It is 0
      for an empty scope and undefined for a single class. */
  function SystemCF(scope: seq<Class>): (r: real)
    requires |scope| != 1
    ensures |scope| == 0 ==> r == 0.0
    ensures 0.0 <= r <= 1.0
  {
    assert forall i :: 0 <= i < |scope| ==> scope[i] in scope;
    var s := SumClassCF(scope, scope);
    if |scope| >= 2 then Ratios.Quotient(|scope| as real, |scope| as real); s else s
  }

  /** Number of client pairs (c1, c2) with c1 among `cs` and c2 in the scope. */
  function TotalCoupled(scope: seq<Class>, cs: seq<Class>): nat {
    if |cs| == 0 then 0 else CoupledCount(scope, cs[0]) + TotalCoupled(scope, cs[1..])
  }

  lemma {:induction false} SumClassCFIsTotal(scope: seq<Class>, cs: seq<Class>)
    requires |scope| >= 2
    ensures SumClassCF(scope, cs) == TotalCoupled(scope, cs) as real / Pairs(|scope|) as real
  {
    if |cs| > 0 {
      SumClassCFIsTotal(scope, cs[1..]);
      Ratios.DivAdd(CoupledCount(scope, cs[0]) as real, TotalCoupled(scope, cs[1..]) as real, Pairs(|scope|) as real);
    }
  }

  /** The system value is the density of the client relation: client pairs
      over all ordered pairs of distinct classes. */
  lemma SystemCFIsCouplingDensity(scope: seq<Class>)
    requires |scope| >= 2
    ensures SystemCF(scope) == TotalCoupled(scope, scope) as real / Pairs(|scope|) as real
  {
    SumClassCFIsTotal(scope, scope);
  }

  // ---------------------------------------------------------------------------
  // The denominator as CF.java computes it

  /** Java `int` arithmetic: the value congruent to `x` modulo 2^32 in
      [-2^31, 2^31). */
  function Int32(x: int): (r: int)
    ensures -0x8000_0000 <= r < 0x8000_0000
    ensures (x - r) % 0x1_0000_0000 == 0
    ensures -0x8000_0000 <= x < 0x8000_0000 ==> r == x
    ensures 0x8000_0000 <= x < 0x1_8000_0000 ==> r == x - 0x1_0000_0000
    ensures -0x1_8000_0000 <= x < -0x8000_0000 ==> r == x + 0x1_0000_0000
  {
    (x + 0x8000_0000) % 0x1_0000_0000 - 0x8000_0000
  }

  /** `(tc*tc) - tc` evaluated in 32-bit `int`, as CF.java writes it,
      before the conversion to `double`. */
  function PairsAsWritten(tc: nat): (r: int)
    requires tc < 0x8000_0000
    ensures -0x8000_0000 <= r < 0x8000_0000
    ensures (Pairs(tc) - r) % 0x1_0000_0000 == 0
  {
    var sq := Int32(tc * tc);
    var d := Int32(sq - tc);
    assert Pairs(tc) - d == (tc * tc - sq) + (sq - tc - d);
    d
  }

  /** Up to 46341 classes the 32-bit denominator comes out right: the product
      may wrap, but the difference wraps back into range. */
  lemma PairsAsWrittenExactUpTo46341(tc: nat)
    requires tc <= 46341
    ensures PairsAsWritten(tc) == Pairs(tc)
  {
    Ratios.MulMono(tc, 46341, tc);
    Ratios.MulMono(tc, 46341, 46341);
    assert tc * tc <= 46341 * 46341 == 2147488281;
  }

  /** With 46342 classes the pair count exceeds 2^31 - 1: the first count for
      which the denominator is wrong (it comes out negative). */
  lemma PairsAsWrittenWrongAt46342()
    ensures Pairs(46342) == 2147534622
    ensures PairsAsWritten(46342) == -2147432674
  {
    assert 46342 * 46342 == 2147580964;
  }

  /** CF of one class with the denominator evaluated as CF.java writes it;
      None where that denominator is 0 and the Java quotient is not a
      number (an infinity or NaN). */
  function ClassCFAsWritten(scope: seq<Class>, c1: Class): (r: Option<real>)
    requires |scope| < 0x8000_0000
    ensures r.None? <==> PairsAsWritten(|scope|) == 0
    ensures r.Some? && PairsAsWritten(|scope|) < 0 ==> r.value <= 0.0
  {
    var d := PairsAsWritten(|scope|);
    if d == 0 then None else Some(CoupledCount(scope, c1) as real / d as real)
  }

  /** With 65536 classes the 32-bit denominator is -65536, so any class that
      is a client of another class gets a negative CF. */
  lemma ClassCFAsWrittenNegativeAt65536(scope: seq<Class>, c1: Class)
    requires |scope| == 65536
    requires CoupledCount(scope, c1) > 0
    ensures PairsAsWritten(|scope|) == -65536
    ensures ClassCFAsWritten(scope, c1).Some? && ClassCFAsWritten(scope, c1).value < 0.0
  {
    assert 65536 * 65536 == 0x1_0000_0000;
    assert Int32(0x1_0000_0000) == 0;
  }

  /** With 65537 classes the 32-bit denominator wraps to a small positive
      number, 65536, so a class that is a client of every other class gets
      CF 1 instead of at most 1/65537. */
  lemma PairsAsWrittenWrapsAt65537(scope: seq<Class>, c1: Class)
    requires |scope| == 65537
    requires CoupledCount(scope, c1) == 65536
    ensures Pairs(|scope|) == 4295032832
    ensures PairsAsWritten(|scope|) == 65536
    ensures ClassCFAsWritten(scope, c1) == Some(1.0)
  {
    assert 65537 * 65537 == 4295098369;
    assert Int32(4295098369) == 131073;
  }
}
