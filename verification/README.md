# MOOD metrics engine: Method Hiding Factor and Coupling Factor

A Dafny model of the two metric calculators in `src/metrics`. Both work over a read-only class model.

**Method Hiding Factor (MHF).** Every method gets a visibility from its access level, normalised by TC − 1, where TC is the number of classes in the scope:
- public: TC − 1;
- protected: the union of package-mates and subclasses, minus the class itself;
- package (no modifier): the package-mates, minus the class itself;
- private: 0.

The class value is the mean visibility of its methods. The system value is the mean over every method in the scope.

**Coupling Factor (CF).** `client(c1, c2)` is 1 when c1 refers to another class c2 in one of these ways:
- a field of c1 has type c2;
- a method of c1 invokes a method declared in c2;
- a method of c1 accesses a field owned by c2.

The class value is the number of classes c1 is a client of, divided by TC² − TC. The system value is the sum of the class values.

Modules:
- `ClassModel`: the class model. A class has a qualified name, an optional superclass name, field type names and methods. A method has an access level, the declaring class of each invocation and the owning class of each field access. A scope is a sequence of classes with distinct names. Comparing names stands in for the object identity the Java code uses.
- `Hierarchy`: the superclass walk. It has fuel of |scope| lookups, and it is proved that on every scope a larger budget never changes the answer.
- `MHF`, `CF`: the two calculators and their properties.
- `Ratios`: small facts about quotients of reals.
- `Scenarios`: concrete scopes.

Java `double` is modelled as exact `real`. Every ratio here is a quotient of integers, so exact reals lose nothing but IEEE rounding.

Behaviour of the code worth noting:
- **Subclasses are transitive.** The walk follows superclass names through the scope, so indirect subclasses count too (`Scenarios.IndirectSubclass`).
- **Direction of CF.** `classCF(c1)` counts the classes that c1 is a client of, not the classes that use c1. In the scope {A, B, C} where B has a field of type A, B scores 1/6 and A scores 0 (`Scenarios.ThreeClassScope`).
- **The system CF is bounded for moderate scopes.** For 2 ≤ TC ≤ 46341 it lies in [0, 1], because it is the density of the client relation over ordered pairs of distinct classes (`CF.SystemCFIsCouplingDensity`, `CF.PairsAsWrittenExactUpTo46341`); above that the 32-bit denominator breaks the bound (see Findings).
- **Value returned by MHF.** It is the mean visibility itself, not 1 minus it (`MHF.AllPublicSystemMHF`).

## Model

| member | source | states |
|---|---|---|
| ClassModel.Lookup | src/metrics/MHF.java:163-171 | the class found for a supertype name carries that name and is in the scope; none is found exactly when no class of the scope carries it |
| ClassModel.LookupUnique | src/metrics/MHF.java:163-171 | with distinct names, the class the search finds is the scope's only class with that name |
| ClassModel.Select | src/metrics/MHF.java:121-126 | the set a filtering loop builds holds exactly the scope elements that pass the test, and is no larger than the scope |
| ClassModel.ElementsOfDistinct | src/metrics/MHF.java:21-24 | with distinct names, a scope of n entries holds n distinct classes, so TC is the class count |
| Hierarchy.SuperChain | src/metrics/MHF.java:146-180 | the supertype names the walk compares, in order: empty when the class has no superclass, starting with its superclass name, and, when it ends before the budget, ending at a name outside the scope or at a class with no superclass |
| Hierarchy.Walk | src/metrics/MHF.java:154-178 | the loop of the subclass test answers true exactly when the target name is among the supertype names reached, so stopping at the first match does not change the result |
| Hierarchy.IsSubclass | src/metrics/MHF.java:146-180 | the subclass test, with a budget of TC lookups: a direct subclass always passes, and in general it passes exactly when the target's name is among the supertype names reached |
| Hierarchy.ChainLinks | src/metrics/MHF.java:163-168 | each next supertype name is the superclass of the scope class carrying the previous name |
| Hierarchy.ChainPrefix | src/metrics/MHF.java:154-178 | the walk with a smaller budget visits a prefix of the names the walk with a larger budget visits |
| Hierarchy.ChainSuffix | src/metrics/MHF.java:154-178 | resuming the walk from any visited name, with the remaining budget, visits exactly the rest of the names |
| Hierarchy.Pigeonhole | src/metrics/MHF.java:154-178 | a sequence longer than the set its names come from repeats a name; used by FullChainRepeats to find a repeated name on a walk |
| Hierarchy.InPrefixedSuffix | src/metrics/MHF.java:154-178 | an element of a suffix of a sequence that is a prefix of a longer sequence lies in the longer one; used to place a repeated name on a longer walk in ChainEndsInAcyclicScope |
| Hierarchy.ChainEndsInAcyclicScope | src/metrics/MHF.java:154-178 | when no class is its own subclass, the walk stops by itself within TC lookups: at a name outside the scope or before the budget runs out |
| Hierarchy.ChainStable | src/metrics/MHF.java:154-178 | once the walk has stopped by itself, a larger budget visits the same names |
| Hierarchy.FullChainRepeats | src/metrics/MHF.java:154-178 | a walk that spends all TC lookups without reaching a name outside the scope has visited some name twice |
| Hierarchy.RepeatCovers | src/metrics/MHF.java:154-178 | a sequence whose tail from position j repeats its tail from an earlier position i has every element among its first j; used to show a walk past a repeated name visits nothing new |
| Hierarchy.WalkBudgetSuffices | src/metrics/MHF.java:154-178 | on every scope, cyclic or not, the walk with budget TC gives the same answer as with any larger budget |
| Hierarchy.IsSubclassBoundSuffices | src/metrics/MHF.java:146-180 | the subclass test with budget TC agrees with the walk under any larger budget, so it agrees with the unbounded loop wherever that loop ends |
| MHF.LastIndexOf | src/metrics/MHF.java:185 | returns -1 exactly when the character does not occur; otherwise the character is at that index and does not occur after it |
| MHF.PackageName | src/metrics/MHF.java:183-190 | the package name is a prefix of the class name: empty when the name has no dot, otherwise everything before the last dot |
| MHF.PackageClasses | src/metrics/MHF.java:116-129 | exactly the scope classes whose package name equals the class's; the class itself is among them when it is in the scope |
| MHF.Subclasses | src/metrics/MHF.java:132-143 | exactly the scope classes the subclass test accepts; no more of them than the scope has classes |
| MHF.VisibleCount | src/metrics/MHF.java:78-105 | for a non-empty scope the raw count is at most TC − 1; it is non-negative for a class in the scope; it is 0 for a private method |
| MHF.ProtectedCountsUnion | src/metrics/MHF.java:84-96 | the protected count is at least the package count, and it is the package-mates plus the subclasses minus those that are both, minus one |
| MHF.PublicSeenByEveryOtherClass | src/metrics/MHF.java:80-82 | with distinct names, a public method is seen by exactly the other classes of the scope |
| MHF.V | src/metrics/MHF.java:69-113 | the visibility is 0 when TC ≤ 1; for TC > 1 it is 1 for public and 0 for private methods; it lies in [0, 1] for a class in the scope |
| MHF.VisibilityOrder | src/metrics/MHF.java:78-110 | private ≤ package ≤ protected ≤ public visibility, for a class in the scope |
| MHF.SumV | src/metrics/MHF.java:55-58 | for a class in the scope, the total visibility of its methods lies between 0 and the number of methods |
| MHF.SumVBetween | src/metrics/MHF.java:55-58 | if every method's visibility lies in [lo, hi], the total lies between lo and hi times the method count |
| MHF.ClassMHF | src/metrics/MHF.java:49-66 | the class value is 0 for a class without methods, and lies in [0, 1] for a class in the scope |
| MHF.ClassMHFBetween | src/metrics/MHF.java:49-66 | the class value is a mean: it lies within any bounds that hold for every one of the class's methods |
| MHF.ClassMHFAllPrivate | src/metrics/MHF.java:49-66 | a class whose methods are all private has value 0 |
| MHF.ClassMHFAllPublic | src/metrics/MHF.java:49-66 | with TC > 1, a class with methods that are all public has value 1 |
| MHF.ClassMHFScaled | src/metrics/MHF.java:49-66 | the class value times its method count is its total visibility |
| MHF.MethodCount | src/metrics/MHF.java:33-37 | the method count is 0 exactly when no class of the scope has a method |
| MHF.SumAllV | src/metrics/MHF.java:33-38 | the total visibility over the scope lies between 0 and the method count |
| MHF.SumAllVIsWeighted | src/metrics/MHF.java:33-38 | the total visibility over the scope equals the sum of the class values, each weighted by its method count |
| MHF.SystemMHF | src/metrics/MHF.java:27-46 | the system value is 0 when the scope has no method, and always lies in [0, 1] |
| MHF.SystemMHFIsWeightedAverage | src/metrics/MHF.java:27-46 | with at least one method, the system value is the method-count-weighted average of the class values |
| MHF.AllPublicScoresOne | src/metrics/MHF.java:33-38 | with TC > 1, when every method is public the total visibility equals the method count |
| MHF.AllPublicSystemMHF | src/metrics/MHF.java:27-46 | with TC > 1 and at least one method, all of them public, the system value is 1 |
| CF.IsMethodCoupled | src/metrics/CF.java:99-125 | true exactly when an invocation's origin class or a field access's owner class has the given class's name; the early exits do not change the answer |
| CF.Client | src/metrics/CF.java:61-96 | returns only 0 or 1; 0 for a class and itself; 1 exactly when the classes differ and a field type of c1 is c2, or a method of c1 refers to c2 |
| CF.NoSelfCoupling | src/metrics/CF.java:67 | no class is a client of itself |
| CF.CouplingSeesOnlyTheName | src/metrics/CF.java:67-88 | whether c1 is a client of c2 depends on c2 only through its name |
| CF.CoupledCount | src/metrics/CF.java:48-50 | the numerator is at most TC, and below TC for a class in the scope |
| CF.CoupledCountIsSetSize | src/metrics/CF.java:48-50 | with distinct names, the numerator is the number of distinct classes c1 is a client of |
| CF.Pairs | src/metrics/CF.java:53 | the exact TC² − TC, which is 0 exactly when there is at most one class |
| CF.ClassCF | src/metrics/CF.java:42-58 | for TC ≥ 2 the class value is non-negative, and at most 1/TC for a class in the scope |
| CF.SumClassCF | src/metrics/CF.java:34-36 | the sum of the class values over k classes of the scope lies between 0 and k/TC |
| CF.SystemCF | src/metrics/CF.java:30-39 | the system value is 0 for an empty scope, and lies in [0, 1] |
| CF.SumClassCFIsTotal | src/metrics/CF.java:30-39 | the sum of the class values is the number of client pairs over TC² − TC |
| CF.SystemCFIsCouplingDensity | src/metrics/CF.java:30-39 | for TC ≥ 2 the system value is the density of the client relation over ordered pairs of distinct classes |
| CF.Int32 | src/metrics/CF.java:53 | 32-bit two's-complement wrap: the result is in [-2^31, 2^31), is congruent to its input modulo 2^32, and equals the input when the input is in range |
| CF.PairsAsWritten | src/metrics/CF.java:53 | `(tc*tc) - tc` in 32-bit `int`: the result is in [-2^31, 2^31) and congruent to the exact TC² − TC modulo 2^32 |
| CF.PairsAsWrittenExactUpTo46341 | src/metrics/CF.java:53 | up to 46341 classes the 32-bit denominator equals the exact TC² − TC |
| CF.PairsAsWrittenWrongAt46342 | src/metrics/CF.java:53 | with 46342 classes the exact denominator is 2147534622 but the 32-bit one is -2147432674 |
| CF.ClassCFAsWritten | src/metrics/CF.java:42-58 | the class value with the 32-bit denominator: undefined exactly when that denominator is 0, and never positive when it is negative |
| CF.PairsAsWrittenWrapsAt65537 | src/metrics/CF.java:53-55 | with 65537 classes the exact denominator is 4295032832 but the 32-bit one wraps to 65536, so a class that is a client of every other class gets CF 1 |
| CF.ClassCFAsWrittenNegativeAt65536 | src/metrics/CF.java:53-55 | with 65536 classes the 32-bit denominator is -65536, so any class with a client pair gets a negative value |
| Scenarios.ThreeClassScope | src/metrics/CF.java:42-96 | in {A, B, C} where B has a field of type A, B is a client of A and not the reverse; CF(B) = 1/6 and CF(A) = 0; A, with one public and one private method, has MHF 0.5 |
| Scenarios.PackageQ | src/metrics/MHF.java:183-190 | "q.P" and "q.Q" lie in package "q" |
| Scenarios.HierarchyPQ | src/metrics/MHF.java:146-180 | Q, which extends P, is a subclass of P; P is not its own subclass |
| Scenarios.PackageOfP | src/metrics/MHF.java:116-129 | P's package-mates are P and Q |
| Scenarios.SubclassesOfP | src/metrics/MHF.java:132-143 | Q is P's only subclass |
| Scenarios.UnionCountsOnce | src/metrics/MHF.java:84-90 | Q is both a package-mate and a subclass of P but is counted once: P's protected method is seen by one class and has visibility 1 |
| Scenarios.IndirectSubclass | src/metrics/MHF.java:154-178 | Z, which extends Y, which extends X, is a subclass of X; X is not a subclass of Z |
| Scenarios.WalkStopsOutsideScope | src/metrics/MHF.java:173-176 | when Y is missing from the scope, the walk from Z stops at "r.Y" and Z is not a subclass of X |
| Scenarios.CyclicScope | src/metrics/MHF.java:154-178 | in {A extends B, B extends A, S extends A}: A is its own subclass and S is a subclass of B, as the Java loop also answers; A is not a subclass of S, where the Java loop never ends |
| Scenarios.SingleClassScope | src/metrics/MHF.java:107-110 | in a scope of one class, with or without methods, the class and system MHF values are 0 |

## Left out

- The Eclipse UI action that builds the scope, reports progress and prints results. The LCOM metric it references is not part of this model.
- The `ast.*` classes are not part of this model. They are reduced to the accessors the metrics call: name, superclass name, field type names, methods, access level, invocation origin classes and field-access owner classes.
- IEEE-754 doubles. Rounding, summation order over a hash set, and NaN from 0/0 are not modelled: all values are exact reals.
- The `default` branch of the access switch, which sets visibility to -1. `Access` is a closed four-constructor type, so that branch cannot occur.
- Non-termination of the subclass test. When the walk enters a superclass cycle that does not contain the target name, the Java loop never ends; `Hierarchy.IsSubclass` returns false there (`Scenarios.CyclicScope`). Everywhere else the model gives the Java answer, because a budget of |scope| lookups is as good as any larger one (`Hierarchy.IsSubclassBoundSuffices`).
- Object identity. The Java code compares classes with `equals` and collects them in hash sets. The model compares names, which is faithful when names within a scope are distinct; the lemmas that need this require `DistinctNames`.
- CF.ClassCF: requires at least two classes, because CF.java divides by 0 when TC ≤ 1, which gives NaN or Infinity (`CF.ClassCFAsWritten` returns None there).
- CF.SystemCF: requires TC ≠ 1. An empty scope gives 0, as in CF.java; a single class would add a NaN.
- CF.ClassCF: uses the exact TC² − TC rather than the 32-bit product (see Findings).

## Findings

| source | as written | input that shows it | evidently intended | confidence | as-written member | corrected member |
|---|---|---|---|---|---|---|
| src/metrics/CF.java:53 | `denominator = (tc*tc) - tc` is evaluated in 32-bit `int` before it becomes a `double` | a scope of 46342 classes: the denominator is -2147432674 instead of 2147534622; with 65536 classes it is -65536, so every class that is a client of some class gets a negative CF; with 65537 classes it wraps to 65536, so a class that is a client of every other class gets CF 1 instead of at most 1/65537 | the exact TC² − TC, e.g. computed in `long` or `double` | high for the arithmetic; not executed | CF.PairsAsWrittenWrongAt46342 | CF.ClassCF |
