/**
 The superclass walk of the Method Hiding Factor calculator. Starting from a
 class's superclass name, the walk compares each name with the target class's
 name and, on a mismatch, continues from the superclass of the scope class
 carrying that name; it gives up as soon as a name belongs to no class of the
 scope. The walk is transitive: it reaches indirect superclasses. It keeps no
 record of the classes it visited, so it is bounded here by |scope| lookups.
 The bound never cuts it short: past |scope| lookups the walk only goes round
 a cycle of names it has already compared.
 */
module Hierarchy {
  import opened ClassModel

  /** The supertype names the hierarchy walk compares against its target, in
      order, when the target never matches: the first is `superType`; each
      next one is the superclass name of the scope class carrying the previous
      name; the walk ends at a missing superclass, at a name no class of the
      scope carries, or once `fuel` lookups in the scope are spent. */
  function SuperChain(scope: seq<Class>, superType: Option<string>, fuel: nat): (chain: seq<string>)
    ensures superType.None? <==> |chain| == 0
    ensures |chain| > 0 ==> chain[0] == superType.value
    ensures |chain| <= fuel + 1
    ensures 0 < |chain| <= fuel ==>
      Lookup(scope, chain[|chain| - 1]).None? || Lookup(scope, chain[|chain| - 1]).value.superName.None?
    decreases fuel
  {
    match superType
    case None => []
    case Some(t) =>
      match Lookup(scope, t)
      case None => [t]
      case Some(c) => if fuel == 0 then [t] else [t] + SuperChain(scope, c.superName, fuel - 1)
  }

  /** The hierarchy walk: compare the current supertype name with `target`;
      on a mismatch continue from the superclass of the scope class carrying
      that name, and stop with false when no scope class carries it. Each
      continuation costs one unit of fuel. It answers true exactly when the
      target name is among the supertype names reached, so stopping at the
      first match does not change the result. */
  function Walk(scope: seq<Class>, superType: Option<string>, target: string, fuel: nat): (r: bool)
    ensures r <==> target in SuperChain(scope, superType, fuel)
    decreases fuel
  {
    match superType
    case None => false
    case Some(t) =>
      if t == target then true
      else
        match Lookup(scope, t)
        case None => false
        case Some(c) =>
          assert fuel > 0 ==> SuperChain(scope, superType, fuel) == [t] + SuperChain(scope, c.superName, fuel - 1);
          fuel > 0 && Walk(scope, c.superName, target, fuel - 1)
  }

  /** `sub` is a (direct or indirect) subclass of `sup`, following the
      superclass chain through the scope for at most |scope| lookups: a
      direct subclass always is one, and otherwise `sup`'s name must be
      among the supertype names the walk reaches. */
  function IsSubclass(scope: seq<Class>, sub: Class, sup: Class): (r: bool)
    ensures sub.superName == Some(sup.name) ==> r
    ensures r <==> sup.name in SuperChain(scope, sub.superName, |scope|)
  {
    Walk(scope, sub.superName, sup.name, |scope|)
  }

  /** The names of the classes of a scope. */
  function Names(scope: seq<Class>): (r: set<string>)
    ensures forall n :: n in r <==> Lookup(scope, n).Some?
    ensures |r| <= |scope|
  {
    if |scope| == 0 then {} else {scope[0].name} + Names(scope[1..])
  }

  /** No class of the scope is its own subclass: the superclass links never
      lead back to where they started. */
  predicate Acyclic(scope: seq<Class>) {
    forall c :: c in scope ==> !IsSubclass(scope, c, c)
  }

  /** A smaller budget yields a prefix of the chain a larger budget yields. */
  lemma {:induction false} ChainPrefix(scope: seq<Class>, superType: Option<string>, f1: nat, f2: nat)
    requires f1 <= f2
    ensures var short, long := SuperChain(scope, superType, f1), SuperChain(scope, superType, f2);
      |short| <= |long| && short == long[..|short|]
    decreases f1
  {
    match superType
    case None =>
    case Some(t) =>
      match Lookup(scope, t)
      case None =>
      case Some(c) =>
        var long := SuperChain(scope, superType, f2);
        if f1 > 0 {
          var a, b := SuperChain(scope, c.superName, f1 - 1), SuperChain(scope, c.superName, f2 - 1);
          ChainPrefix(scope, c.superName, f1 - 1, f2 - 1);
          assert SuperChain(scope, superType, f1) == [t] + a;
          assert long == [t] + b;
          assert ([t] + b)[..|[t] + a|] == [t] + b[..|a|];
        } else {
          assert SuperChain(scope, superType, f1) == [t];
          assert long[..1] == [long[0]];
        }
  }

  /** Every suffix of a chain is the chain of its own first name, with the
      budget that is left at that point. */
  lemma {:induction false} ChainSuffix(scope: seq<Class>, superType: Option<string>, fuel: nat, i: nat)
    requires i < |SuperChain(scope, superType, fuel)|
    ensures i <= fuel
    ensures var chain := SuperChain(scope, superType, fuel);
      chain[i..] == SuperChain(scope, Some(chain[i]), fuel - i)
    decreases i
  {
    if i > 0 {
      var t := superType.value;
      var c := Lookup(scope, t).value;
      var rest := SuperChain(scope, c.superName, fuel - 1);
      assert SuperChain(scope, superType, fuel) == [t] + rest;
      ChainSuffix(scope, c.superName, fuel - 1, i - 1);
      assert ([t] + rest)[i..] == rest[i - 1..];
    }
  }

  /** Consecutive names of a chain are linked through the scope: the class
      carrying a name exists and its superclass is the next name. */
  lemma ChainLinks(scope: seq<Class>, superType: Option<string>, fuel: nat, i: nat)
    requires i + 1 < |SuperChain(scope, superType, fuel)|
    ensures var chain := SuperChain(scope, superType, fuel);
      Lookup(scope, chain[i]).Some? && Lookup(scope, chain[i]).value.superName == Some(chain[i + 1])
  {
    var chain := SuperChain(scope, superType, fuel);
    ChainSuffix(scope, superType, fuel, i);
    var tail := SuperChain(scope, Some(chain[i]), fuel - i);
    assert tail[1] == chain[i + 1];
  }

  /** A sequence longer than the set its elements come from repeats one. */
  lemma {:induction false} Pigeonhole(s: seq<string>, names: set<string>)
    requires forall i :: 0 <= i < |s| ==> s[i] in names
    requires |names| < |s|
    ensures exists i, j :: 0 <= i < j < |s| && s[i] == s[j]
  {
    var rest := s[1..];
    if s[0] in rest {
      var k :| 0 <= k < |rest| && rest[k] == s[0];
      assert s[0] == s[k + 1];
    } else {
      var smaller := names - {s[0]};
      forall i | 0 <= i < |rest|
        ensures rest[i] in smaller
      {
        assert rest[i] == s[i + 1];
      }
      Pigeonhole(rest, smaller);
      var i, j :| 0 <= i < j < |rest| && rest[i] == rest[j];
      assert s[i + 1] == s[j + 1];
    }
  }

  /** An element of a suffix of `s` that is a prefix of `long` is in `long`. */
  lemma InPrefixedSuffix(s: seq<string>, long: seq<string>, k: nat, j: nat)
    requires k <= j < |s|
    requires |s[k..]| <= |long| && s[k..] == long[..|s[k..]|]
    ensures s[j] in long
  {
    assert s[j] == s[k..][j - k] == long[j - k];
  }

  /** In an acyclic scope the walk from any superclass name ends on its own
      within |scope| lookups: either the chain is shorter than the budget
      allows, or its last name belongs to no class of the scope. */
  lemma ChainEndsInAcyclicScope(scope: seq<Class>, superType: Option<string>)
    requires Acyclic(scope)
    ensures var chain := SuperChain(scope, superType, |scope|);
      |chain| <= |scope| || Lookup(scope, chain[|chain| - 1]).None?
  {
    hide SuperChain, Walk, Lookup, Names;
    var chain := SuperChain(scope, superType, |scope|);
    if |chain| > |scope| && Lookup(scope, chain[|chain| - 1]).Some? {
      var i, j := FullChainRepeats(scope, superType);
      ChainLinks(scope, superType, |scope|, i);
      var c := Lookup(scope, chain[i]).value;
      ChainSuffix(scope, superType, |scope|, i + 1);
      ChainPrefix(scope, Some(chain[i + 1]), |scope| - (i + 1), |scope|);
      var long := SuperChain(scope, Some(chain[i + 1]), |scope|);
      InPrefixedSuffix(chain, long, i + 1, j);
      assert false;
    }
  }

  /** A chain that ended on its own does not grow with a larger budget. */
  lemma {:induction false} ChainStable(scope: seq<Class>, superType: Option<string>, f: nat, f': nat)
    requires f <= f'
    requires var chain := SuperChain(scope, superType, f);
      |chain| <= f || Lookup(scope, chain[|chain| - 1]).None?
    ensures SuperChain(scope, superType, f') == SuperChain(scope, superType, f)
    decreases f
  {
    match superType
    case None =>
    case Some(t) =>
      match Lookup(scope, t)
      case None =>
      case Some(c) =>
        if f > 0 {
          var rest := SuperChain(scope, c.superName, f - 1);
          assert SuperChain(scope, superType, f) == [t] + rest;
          if |rest| > 0 {
            ChainStable(scope, c.superName, f - 1, f' - 1);
          }
        }
  }

  /** Every element of `long` already occurs before position `j` when the
      part from `j` on repeats the part from `i` on. */
  lemma {:induction false} RepeatCovers(long: seq<string>, i: nat, j: nat, k: nat)
    requires i < j <= |long|
    requires long[j..] == long[i..][..|long| - j]
    requires k < |long|
    ensures long[k] in long[..j]
    decreases k
  {
    if k >= j {
      var m := k - j;
      assert long[k] == long[j..][m] == long[i..][..|long| - j][m] == long[i + m];
      RepeatCovers(long, i, j, i + m);
    } else {
      assert long[k] == long[..j][k];
    }
  }

  /** A chain that spends its whole budget of |scope| lookups without ending
      at a name outside the scope repeats a name. */
  lemma FullChainRepeats(scope: seq<Class>, superType: Option<string>) returns (i: nat, j: nat)
    requires var chain := SuperChain(scope, superType, |scope|);
      |chain| > |scope| && Lookup(scope, chain[|chain| - 1]).Some?
    ensures var chain := SuperChain(scope, superType, |scope|);
      i < j < |chain| && chain[i] == chain[j]
  {
    hide SuperChain, Walk, Lookup, Names;
    var chain := SuperChain(scope, superType, |scope|);
    var names := Names(scope);
    forall k | 0 <= k < |chain|
      ensures chain[k] in names
    {
      if k < |chain| - 1 {
        ChainLinks(scope, superType, |scope|, k);
      }
    }
    Pigeonhole(chain, names);
    i, j :| 0 <= i < j < |chain| && chain[i] == chain[j];
  }

  /** On every scope, cyclic or not, a budget of |scope| lookups reaches
      every supertype name any larger budget reaches: once the chain is that
      long it has repeated a name, and from then on it only cycles. */
  lemma WalkBudgetSuffices(scope: seq<Class>, superType: Option<string>, target: string, fuel: nat)
    requires fuel >= |scope|
    ensures Walk(scope, superType, target, fuel) == Walk(scope, superType, target, |scope|)
  {
    hide SuperChain, Walk, Lookup, Names;
    var short, long := SuperChain(scope, superType, |scope|), SuperChain(scope, superType, fuel);
    ChainPrefix(scope, superType, |scope|, fuel);
    if |short| <= |scope| || Lookup(scope, short[|short| - 1]).None? {
      ChainStable(scope, superType, |scope|, fuel);
    } else {
      var i, j := FullChainRepeats(scope, superType);
      assert long[i] == short[i] && long[j] == short[j];
      ChainSuffix(scope, superType, fuel, i);
      ChainSuffix(scope, superType, fuel, j);
      ChainPrefix(scope, Some(long[i]), fuel - j, fuel - i);
      assert long[j..] == long[i..][..|long| - j];
      forall k | 0 <= k < |long|
        ensures long[k] in short
      {
        RepeatCovers(long, i, j, k);
        assert long[..j] == short[..j];
      }
    }
  }

  /** The bound of |scope| lookups never cuts the walk short: any larger
      budget gives the same answer. So the model agrees with the unbounded
      Java loop wherever that loop ends, and answers false where it loops
      forever (a superclass cycle not containing the target). */
  lemma IsSubclassBoundSuffices(scope: seq<Class>, sub: Class, sup: Class, fuel: nat)
    requires fuel >= |scope|
    ensures Walk(scope, sub.superName, sup.name, fuel) == IsSubclass(scope, sub, sup)
  {
    WalkBudgetSuffices(scope, sub.superName, sup.name, fuel);
  }
}
