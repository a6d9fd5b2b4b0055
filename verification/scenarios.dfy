/**
 * The behaviour the test suite (fileformats/core/tests/test_qualifiers.py)
 * expects of the qualifier engine, replayed on a small catalogue shaped after
 * its fixtures: `F` takes any qualifiers, `H` only `A`, `B` or `C`, `K` keeps
 * them in order, `M` takes a single one, `G` and `J` extend `F` and `H`, and
 * `Directory` is the generically qualified directory of the `generic`
 * namespace. The fixture module itself is not part of this model, so the
 * attributes below are the ones the tests rely on.
 */
module Scenarios {
  import opened Wrappers
  import opened FormatTypes
  import opened Subtyping
  import opened Qualification
  import opened Namespaces
  import opened Converters
  import opened Collections
  import TemplateRegistry
  import GenericRegistry

  /** The fixture classes. */
  const ClassDataType: BaseId := 0
  const ClassFileSet: BaseId := 1
  const ClassA: BaseId := 2
  const ClassB: BaseId := 3
  const ClassC: BaseId := 4
  const ClassD: BaseId := 5
  const ClassF: BaseId := 6
  const ClassG: BaseId := 7
  const ClassH: BaseId := 8
  const ClassJ: BaseId := 9
  const ClassK: BaseId := 10
  const ClassM: BaseId := 11
  const ClassN: BaseId := 12
  const ClassP: BaseId := 13
  const ClassDirectory: BaseId := 14

  const OnlyABC: QualConfig := QualConfig(true, [Base(ClassA), Base(ClassB), Base(ClassC)], false, false)

  /** The direct superclasses of each fixture class. */
  function ParentsOf(b: BaseId): set<BaseId> {
    if b == ClassDataType then {}
    else if b == ClassFileSet then {ClassDataType}
    else if b == ClassG then {ClassF}
    else if b == ClassJ then {ClassH}
    else {ClassFileSet}
  }

  /** The depth of each fixture class below `DataType`. */
  function RankOf(b: BaseId): nat {
    if b == ClassDataType then 0
    else if b == ClassFileSet then 1
    else if b == ClassG || b == ClassJ then 3
    else 2
  }

  /** The namespace and qualifier attributes of each fixture format. */
  function InfoOf(b: BaseId): BaseInfo {
    if b == ClassH || b == ClassJ then BaseInfo("testing", OnlyABC)
    else if b == ClassK then BaseInfo("testing", QualConfig(true, [], true, false))
    else if b == ClassM then BaseInfo("testing", QualConfig(false, [], false, false))
    else if b == ClassDirectory then BaseInfo("generic", QualConfig(true, [], false, true))
    else BaseInfo("testing", DefaultConfig)
  }

  const Fixtures: Hierarchy := Catalogue(
    map b | ClassDataType <= b <= ClassDirectory :: ParentsOf(b),
    map b | ClassDataType <= b <= ClassDirectory :: RankOf(b),
    map b | ClassA <= b <= ClassDirectory :: InfoOf(b)
  )

  const A: Qualifier := Concrete(Base(ClassA))
  const B: Qualifier := Concrete(Base(ClassB))
  const C: Qualifier := Concrete(Base(ClassC))
  const D: Qualifier := Concrete(Base(ClassD))
  const SpecificDataType: Qualifier := Wildcard("SpecificDataType", ClassDataType)
  const SpecificFileSet: Qualifier := Wildcard("SpecificFileSet", ClassFileSet)

  /** The class `b[qs]` denotes once it has been synthesised. */
  function Sub(b: BaseId, qs: seq<Qualifier>): FType {
    Qualified(b, Normalise(Config(Fixtures, b), qs))
  }

  const NoCache: Cache := map[]

  /** The fixture bases' attributes. */
  lemma FixtureConfigs()
    ensures Config(Fixtures, ClassF) == DefaultConfig && Config(Fixtures, ClassN) == DefaultConfig
    ensures Config(Fixtures, ClassH) == OnlyABC && Config(Fixtures, ClassJ) == OnlyABC
    ensures Config(Fixtures, ClassK).ordered && Config(Fixtures, ClassK).multiple && Config(Fixtures, ClassK).allowed == []
    ensures !Config(Fixtures, ClassM).multiple && Config(Fixtures, ClassM).allowed == []
    ensures Config(Fixtures, ClassDirectory).generic
  {
  }

  /** `test_subtype_testing`, unqualified classes: nominal ancestry. */
  lemma NominalSubtypes()
    ensures IsSubtypeOf(Fixtures, Base(ClassG), Base(ClassF))
    ensures !IsSubtypeOf(Fixtures, Base(ClassF), Base(ClassG))
    ensures IsSubtypeOf(Fixtures, Base(ClassJ), Base(ClassJ))
    ensures IsSubtypeOf(Fixtures, Base(ClassJ), Base(ClassH))
  {
    assert Descends(Fixtures, ClassG, ClassF) by {
      assert ClassF in Fixtures.parents[ClassG] && Descends(Fixtures, ClassF, ClassF);
    }
    assert Descends(Fixtures, ClassJ, ClassH) by {
      assert ClassH in Fixtures.parents[ClassJ] && Descends(Fixtures, ClassH, ClassH);
    }
    NotDescends(Fixtures, ClassF, ClassG);
  }

  /** `test_subtype_testing`, the catalogue's root and placeholders bounded by it. */
  lemma RootSubtypes()
    ensures IsSubtypeOf(Fixtures, Base(ClassFileSet), Base(ClassDataType))
    ensures QualSubtype(Fixtures, SpecificFileSet, SpecificDataType)
  {
    assert Descends(Fixtures, ClassFileSet, ClassDataType) by {
      assert ClassDataType in Fixtures.parents[ClassFileSet] && Descends(Fixtures, ClassDataType, ClassDataType);
    }
  }

  /** `test_subtype_testing`, qualified classes against bases and against each other. */
  lemma QualifiedSubtypes()
    ensures IsSubtypeOf(Fixtures, Qualified(ClassJ, QSet({A})), Base(ClassJ))
    ensures !IsSubtypeOf(Fixtures, Qualified(ClassH, QSet({A})), Base(ClassF))
    ensures !IsSubtypeOf(Fixtures, Qualified(ClassH, QSet({A})), Qualified(ClassF, QSet({A})))
    ensures IsSubtypeOf(Fixtures, Qualified(ClassJ, QSet({A, B})), Qualified(ClassJ, QSet({A})))
    ensures !IsSubtypeOf(Fixtures, Qualified(ClassJ, QSet({B})), Qualified(ClassJ, QSet({A})))
    ensures !IsSubtypeOf(Fixtures, Qualified(ClassJ, QSet({A})), Qualified(ClassJ, QSet({A, B})))
    ensures IsSubtypeOf(Fixtures, Qualified(ClassJ, QSet({A})), Qualified(ClassH, QSet({A})))
    ensures IsSubtypeOf(Fixtures, Qualified(ClassJ, QSet({A, B, C})), Qualified(ClassH, QSet({A, B})))
    ensures !IsSubtypeOf(Fixtures, Qualified(ClassJ, QSet({A})), Qualified(ClassH, QSet({B})))
  {
    FixtureConfigs();
    assert Descends(Fixtures, ClassJ, ClassH) by {
      assert ClassH in Fixtures.parents[ClassJ];
    }
    NotDescends(Fixtures, ClassH, ClassF);
    NotDescends(Fixtures, ClassH, ClassJ);
  }

  /**
   * The test suite also expects `F[SpecificFileSet]` to be a subtype of
   * `F[SpecificDataType]`; the qualifier comparison is by membership, so it
   * is not.
   */
  lemma PlaceholderQualifiersNotCovariant()
    ensures !IsSubtypeOf(Fixtures, Qualified(ClassF, QSet({SpecificFileSet})), Qualified(ClassF, QSet({SpecificDataType})))
  {
    FixtureConfigs();
    PlaceholdersNotCovariant(Fixtures, ClassF, SpecificFileSet, SpecificDataType);
  }

  /** Two different qualifiers occur once each. */
  lemma TwoDistinct(x: Qualifier, y: Qualifier)
    requires x != y
    ensures Repeated([x, y]) == {}
    ensures (set z | z in [x, y]) == {x, y}
  {
    assert multiset([x, y])[x] == 1 && multiset([x, y])[y] == 1;
  }

  /**
   * `test_qualified_equivalence`: an unordered base forgets the order of its
   * qualifiers, and a second subscript returns the class the first one
   * synthesised.
   */
  lemma UnorderedEquivalence()
    ensures Qualify(Fixtures, NoCache, ClassF, [A, B]).Success?
    ensures Qualify(Fixtures, NoCache, ClassF, [A, B]).value.0 == Qualified(ClassF, QSet({A, B}))
    ensures Qualify(Fixtures, NoCache, ClassF, [B, A]) == Qualify(Fixtures, NoCache, ClassF, [A, B])
    ensures var (t, cache) := Qualify(Fixtures, NoCache, ClassF, [A, B]).value;
            Qualify(Fixtures, cache, ClassF, [B, A]) == Success((t, cache))
  {
    FixtureConfigs();
    TwoDistinct(A, B);
    TwoDistinct(B, A);
    UnorderedIgnoresOrder(Fixtures, NoCache, ClassF, [A, B], [B, A]);
  }

  /** `test_qualified_equivalence`: an ordered base keeps the order of its qualifiers. */
  lemma OrderedDistinction()
    ensures Qualify(Fixtures, NoCache, ClassK, [A, B]).Success? && Qualify(Fixtures, NoCache, ClassK, [B, A]).Success?
    ensures Qualify(Fixtures, NoCache, ClassK, [A, B]).value.0 == Qualified(ClassK, QSeq([A, B]))
    ensures Qualify(Fixtures, NoCache, ClassK, [B, A]).value.0 == Qualified(ClassK, QSeq([B, A]))
  {
    FixtureConfigs();
  }

  /** `F[x]` is the class qualified by the singleton `{x}`. */
  lemma SingleQualifier(x: Qualifier)
    ensures Qualify(Fixtures, NoCache, ClassF, [x]).Success?
    ensures Qualify(Fixtures, NoCache, ClassF, [x]).value.0 == Qualified(ClassF, QSet({x}))
  {
    FixtureConfigs();
    assert (set z | z in [x]) == {x};
    assert multiset([x])[x] == 1;
  }

  /** `test_qualified_equivalence`: different qualifiers make different classes. */
  lemma QualifiersDistinguish()
    ensures Qualify(Fixtures, NoCache, ClassF, [A]).value != Qualify(Fixtures, NoCache, ClassF, [B]).value
    ensures Qualify(Fixtures, NoCache, ClassF, [SpecificDataType]).value != Qualify(Fixtures, NoCache, ClassF, [A]).value
    ensures Qualify(Fixtures, NoCache, ClassF, [SpecificDataType]).value != Qualify(Fixtures, NoCache, ClassF, [SpecificFileSet]).value
  {
    SingleQualifier(A);
    SingleQualifier(B);
    SingleQualifier(SpecificDataType);
    SingleQualifier(SpecificFileSet);
  }

  /** `test_qualifier_fails`: `H` takes `A`, `B` and `C`. */
  lemma AllowedQualifiers()
    ensures Qualify(Fixtures, NoCache, ClassH, [A, B, C]).Success?
  {
    FixtureConfigs();
    SubtypeReflexive(Fixtures, Base(ClassA), A);
    SubtypeReflexive(Fixtures, Base(ClassB), B);
    SubtypeReflexive(Fixtures, Base(ClassC), C);
    assert Permitted(Fixtures, OnlyABC.allowed, A) && Permitted(Fixtures, OnlyABC.allowed, B);
    assert Permitted(Fixtures, OnlyABC.allowed, C);
    assert Repeated([A, B, C]) == {} by {
      assert multiset([A, B, C])[A] == 1 && multiset([A, B, C])[B] == 1 && multiset([A, B, C])[C] == 1;
    }
  }

  /** `D` derives from none of the classes `H` allows. */
  lemma OutsideAllowed()
    ensures !Permitted(Fixtures, OnlyABC.allowed, D)
  {
    NotDescends(Fixtures, ClassD, ClassA);
    NotDescends(Fixtures, ClassD, ClassB);
    NotDescends(Fixtures, ClassD, ClassC);
    assert !IsSubtypeOf(Fixtures, Base(ClassD), Base(ClassA));
    assert !IsSubtypeOf(Fixtures, Base(ClassD), Base(ClassB));
    assert !IsSubtypeOf(Fixtures, Base(ClassD), Base(ClassC));
    assert OnlyABC.allowed == [Base(ClassA), Base(ClassB), Base(ClassC)];
  }

  /** `test_qualifier_fails`: `H` refuses `D`, which `F` takes. */
  lemma DisallowedQualifier()
    ensures Qualify(Fixtures, NoCache, ClassF, [D]).Success?
    ensures Qualify(Fixtures, NoCache, ClassH, [D]) == Failure(InvalidQualifiers([D]))
  {
    SingleQualifier(D);
    OutsideAllowed();
    assert Config(Fixtures, ClassH) == OnlyABC;
    assert Disallowed(Fixtures, OnlyABC.allowed, [D]) == [D];
  }

  /**
   * `test_qualifier_fails`: a repeat is an error on the unordered `H` and
   * allowed on the ordered `K`.
   */
  lemma RepeatedQualifierExamples()
    ensures Qualify(Fixtures, NoCache, ClassH, [A, B, A]) == Failure(RepeatedQualifiers({A}))
    ensures Qualify(Fixtures, NoCache, ClassK, [A, B, A]).Success?
  {
    FixtureConfigs();
    SubtypeReflexive(Fixtures, Base(ClassA), A);
    SubtypeReflexive(Fixtures, Base(ClassB), B);
    assert Permitted(Fixtures, OnlyABC.allowed, A) && Permitted(Fixtures, OnlyABC.allowed, B);
    assert Repeated([A, B, A]) == {A} by {
      assert multiset([A, B, A])[A] == 2 && multiset([A, B, A])[B] == 1;
    }
  }

  /**
   * The test suite expects `M[A, B]` to be refused because `M` takes a single
   * qualifier; no such check exists, and the subscript succeeds.
   */
  lemma SingleQualifierBaseAcceptsTwo()
    ensures Qualify(Fixtures, NoCache, ClassM, [A, B]).Success?
  {
    FixtureConfigs();
    SingleQualifierNotEnforced(Fixtures, NoCache, ClassM, [A, B]);
  }

  /**
   * `test_mime_rountrips`: the generically qualified `Directory` takes the
   * namespace of its qualifiers, so `Directory[F]` and `Directory[F, H]` live
   * in `testing`, the namespace their MIME-like names start with.
   */
  lemma NamespaceExamples()
    ensures TypeNamespace(Fixtures, Qualified(ClassDirectory, QSet({Concrete(Base(ClassF))}))) == Success("testing")
    ensures TypeNamespace(Fixtures, Qualified(ClassDirectory, QSet({Concrete(Base(ClassF)), Concrete(Base(ClassH))}))) == Success("testing")
  {
    assert Config(Fixtures, ClassDirectory).generic;
    assert BaseNamespace(Fixtures, ClassF) == "testing" && BaseNamespace(Fixtures, ClassH) == "testing";
    QualifiedNamespace(Fixtures, ClassDirectory, QSet({Concrete(Base(ClassF))}));
    assert CommonNamespace(Fixtures, ClassDirectory, QSet({Concrete(Base(ClassF))}), "testing");
    QualifiedNamespace(Fixtures, ClassDirectory, QSet({Concrete(Base(ClassF)), Concrete(Base(ClassH))}));
    assert CommonNamespace(Fixtures, ClassDirectory, QSet({Concrete(Base(ClassF)), Concrete(Base(ClassH))}), "testing");
  }

  /**
   * A base that is not generically qualified keeps its own namespace, so
   * `F[Directory]` mixes `testing` with `generic` and has no namespace.
   */
  lemma MixedNamespaces()
    ensures TypeNamespace(Fixtures, Qualified(ClassF, QSet({Concrete(Base(ClassDirectory))}))) == Failure(NoCommonNamespace)
  {
    assert !Config(Fixtures, ClassF).generic;
    assert BaseNamespace(Fixtures, ClassF) == "testing";
    assert BaseNamespace(Fixtures, ClassDirectory) == "generic";
    var dirOnly := QSet({Concrete(Base(ClassDirectory))});
    QualsNamespacesMeaning(Fixtures, dirOnly);
    assert QualifierNamespace(Fixtures, Concrete(Base(ClassDirectory))) == Success("generic");
    assert Members(dirOnly) == {Concrete(Base(ClassDirectory))};
    var inner := QualsNamespaces(Fixtures, dirOnly).value;
    assert "generic" in inner;
    assert forall n | n in inner :: n == "generic";
    assert inner == {"generic"};
    var found := {"generic"} + {"testing"};
    assert found == {"generic", "testing"} && |found| == 2;
  }

  // ---------------------------------------------------------------------------
  // Template converters (`f2n_template`, `generic2f`, `generic2n`)

  /** Tasks are the same exactly when they are equal. */
  const SameTask: (Task, Task) -> bool := (t1: Task, t2: Task) => t1 == t2

  const F2N: ConvTuple := ConvTuple(Task("f2n_template"), map[])
  const Generic2F: ConvTuple := ConvTuple(Task("generic2f"), map[])
  const Generic2N: ConvTuple := ConvTuple(Task("generic2n"), map[])

  /** `F[SpecificDataType]`, the source of `f2n_template`. */
  const FOfAny: FType := Qualified(ClassF, QSet({SpecificDataType}))

  /** The registry once `f2n_template` (`F[T]` to `N[T]`) is registered. */
  const WithF2N: TemplateRegistry.Templates :=
    map[ClassN := [(Concrete(FOfAny), TemplateRegistry.Template(F2N, QSet({SpecificDataType})))]]

  lemma OneWildcard()
    ensures Wildcards(QSet({SpecificDataType})) == {SpecificDataType}
    ensures NonWildcards(QSet({SpecificDataType})) == {}
  {
  }

  /**
   * Registering `f2n_template` stores the template under `N`, and
   * registering it a second time finds its slot taken; as written the
   * registration raises before anything is stored.
   */
  lemma RegisterF2N()
    ensures TemplateRegistry.Register(map[], Qualified(ClassN, QSet({SpecificDataType})), Concrete(FOfAny), F2N)
            == Success(TemplateRegistry.Stored(WithF2N))
    ensures TemplateRegistry.Register(WithF2N, Qualified(ClassN, QSet({SpecificDataType})), Concrete(FOfAny), F2N)
            == Failure(ConverterConflict)
    ensures TemplateRegistry.RegisterAsWritten(map[], Qualified(ClassN, QSet({SpecificDataType})), Concrete(FOfAny), F2N)
            == Failure(BadOperand)
  {
    OneWildcard();
    var e := (Concrete(FOfAny), TemplateRegistry.Template(F2N, QSet({SpecificDataType})));
    assert e in TemplateRegistry.TemplatesAt(WithF2N, ClassN);
    assert TemplateRegistry.Occupies(e.0, FOfAny);
  }

  /**
   * With `f2n_template` registered, the repaired lookup finds `N[x]` from
   * `s[y]` exactly when `s` extends `F` and `x` is `y`.
   */
  lemma TemplateFromTemplate(s: BaseId, x: Qualifier, y: Qualifier, iter: set<Qualifier> -> seq<Qualifier>)
    requires x.Concrete? && y.Concrete?
    ensures var r := TemplateRegistry.GetConverterTuples(Fixtures, WithF2N, Qualified(ClassN, QSet({x})), Qualified(s, QSet({y})), [], iter);
            && r.Success?
            && (F2N in r.value <==> Descends(Fixtures, s, ClassF) && x == y)
            && (forall c | c in r.value :: c == F2N)
  {
    OneWildcard();
    assert Config(Fixtures, ClassN) == DefaultConfig;
    var entries := TemplateRegistry.TemplatesAt(WithF2N, ClassN);
    assert entries == [(Concrete(FOfAny), TemplateRegistry.Template(F2N, QSet({SpecificDataType})))];
    var target := Qualified(ClassN, QSet({x}));
    var source := Qualified(s, QSet({y}));
    assert {x} - {} <= {y} - {} <==> x == y by {
      assert {x} - {} == {x} && {y} - {} == {y};
      assert x in {x};
    }
    assert TemplateRegistry.UnorderedMatch(target, source, FOfAny, entries[0].1) <==> x == y;
    assert TemplateRegistry.EntryOutcome(Fixtures, target, source, iter, entries[0].0, entries[0].1)
           == Success(Descends(Fixtures, s, ClassF) && x == y);
  }

  /** `F[A]` and `G[A]` give `N[A]`; `F[A]` does not give `N[B]`. */
  lemma TemplateFromTemplateExamples(iter: set<Qualifier> -> seq<Qualifier>)
    ensures F2N in TemplateRegistry.GetConverterTuples(Fixtures, WithF2N, Qualified(ClassN, QSet({A})), Qualified(ClassF, QSet({A})), [], iter).value
    ensures F2N in TemplateRegistry.GetConverterTuples(Fixtures, WithF2N, Qualified(ClassN, QSet({A})), Qualified(ClassG, QSet({A})), [], iter).value
    ensures TemplateRegistry.GetConverterTuples(Fixtures, WithF2N, Qualified(ClassN, QSet({B})), Qualified(ClassF, QSet({A})), [], iter) == Success([])
  {
    TemplateFromTemplate(ClassF, A, A, iter);
    TemplateFromTemplate(ClassG, A, A, iter);
    TemplateFromTemplate(ClassF, B, A, iter);
    assert Descends(Fixtures, ClassF, ClassF);
    assert Descends(Fixtures, ClassG, ClassF) by {
      assert ClassF in Fixtures.parents[ClassG] && Descends(Fixtures, ClassF, ClassF);
    }
    var r := TemplateRegistry.GetConverterTuples(Fixtures, WithF2N, Qualified(ClassN, QSet({B})), Qualified(ClassF, QSet({A})), [], iter).value;
    HeadIsMember(r);
  }

  /**
   * As written, `N[A]` is found from `H[A]` through `f2n_template`, though `H`
   * does not extend `F`: neither branch of the entry's test runs and the
   * converter is kept. The repaired lookup finds nothing.
   */
  lemma UnrelatedSourceFoundAsWritten(iter: set<Qualifier> -> seq<Qualifier>)
    ensures TemplateRegistry.GetConverterTuplesAsWritten(Fixtures, WithF2N, Qualified(ClassN, QSet({A})), Qualified(ClassH, QSet({A})), [], iter)
            == Success([F2N])
    ensures TemplateRegistry.GetConverterTuples(Fixtures, WithF2N, Qualified(ClassN, QSet({A})), Qualified(ClassH, QSet({A})), [], iter)
            == Success([])
  {
    NotDescends(Fixtures, ClassH, ClassF);
    var entries := TemplateRegistry.TemplatesAt(WithF2N, ClassN);
    assert entries == [(Concrete(FOfAny), TemplateRegistry.Template(F2N, QSet({SpecificDataType})))];
    assert entries[1..] == [];
    var target := Qualified(ClassN, QSet({A}));
    var source := Qualified(ClassH, QSet({A}));
    assert TemplateRegistry.EntryOutcomeAsWritten(Fixtures, target, source, iter, entries[0].0, entries[0].1) == Success(true);
    assert TemplateRegistry.EntryOutcome(Fixtures, target, source, iter, entries[0].0, entries[0].1) == Success(false);
    var r := TemplateRegistry.GetConverterTuplesAsWritten(Fixtures, WithF2N, target, source, [], iter);
    assert r.Success? && F2N in r.value && |r.value| <= 1;
    assert r.value == [F2N];
    var r' := TemplateRegistry.GetConverterTuples(Fixtures, WithF2N, target, source, [], iter);
    assert r'.Success? && F2N !in r'.value && |r'.value| <= 1;
  }

  const F2P: ConvTuple := ConvTuple(Task("f2p_template"), map[])
  const P2N: ConvTuple := ConvTuple(Task("p2n_template"), map[])

  /** `P[SpecificDataType]`, the source of `p2n_template`. */
  const POfAny: FType := Qualified(ClassP, QSet({SpecificDataType}))

  /** The registry once `f2n_template`, `f2p_template` and `p2n_template` are registered, in that order. */
  const WithTemplates: TemplateRegistry.Templates :=
    map[
      ClassN := [(Concrete(FOfAny), TemplateRegistry.Template(F2N, QSet({SpecificDataType}))),
                 (Concrete(POfAny), TemplateRegistry.Template(P2N, QSet({SpecificDataType})))],
      ClassP := [(Concrete(FOfAny), TemplateRegistry.Template(F2P, QSet({SpecificDataType})))]
    ]

  /** Registering the three template-to-template converters fills two slots of `N` and one of `P`. */
  lemma RegisterTemplateConverters()
    ensures var second := TemplateRegistry.Register(WithF2N, Qualified(ClassP, QSet({SpecificDataType})), Concrete(FOfAny), F2P);
            && second.Success? && second.value.Stored?
            && TemplateRegistry.Register(second.value.templates, Qualified(ClassN, QSet({SpecificDataType})), Concrete(POfAny), P2N)
               == Success(TemplateRegistry.Stored(WithTemplates))
  {
    OneWildcard();
    var tmpl := TemplateRegistry.Template(F2P, QSet({SpecificDataType}));
    var withF2P := WithF2N[ClassP := [(Concrete(FOfAny), tmpl)]];
    assert TemplateRegistry.TemplatesAt(WithF2N, ClassP) == [];
    assert TemplateRegistry.Register(WithF2N, Qualified(ClassP, QSet({SpecificDataType})), Concrete(FOfAny), F2P)
           == Success(TemplateRegistry.Stored(withF2P));
    var entriesN := TemplateRegistry.TemplatesAt(withF2P, ClassN);
    assert entriesN == [(Concrete(FOfAny), TemplateRegistry.Template(F2N, QSet({SpecificDataType})))];
    assert ClassKey(FOfAny) != ClassKey(POfAny);
    assert !exists e | e in entriesN :: TemplateRegistry.Occupies(e.0, POfAny);
    assert Get(entriesN, Concrete(POfAny)).None?;
    var p2n := (Concrete(POfAny), TemplateRegistry.Template(P2N, QSet({SpecificDataType})));
    assert Put(entriesN, Concrete(POfAny), p2n.1) == entriesN + [p2n];
    assert entriesN + [p2n] == WithTemplates[ClassN];
    assert withF2P[ClassN := entriesN + [p2n]] == WithTemplates;
  }

  /**
   * `test_wildcard_template_from_template_conversion`: no template targets
   * `H`, so `H[A]` from `F[A]` is answered by the plain registry alone (its
   * answer, the `f2h` converter, enters as `plain`), and `H[B]` from `F[A]`,
   * which the plain registry does not answer, finds nothing and the
   * conversion is refused.
   */
  lemma WildcardTemplateFromTemplate(plain: seq<ConvTuple>, iter: set<Qualifier> -> seq<Qualifier>)
    requires |plain| > 0
    ensures TemplateRegistry.TemplatesAt(WithTemplates, ClassH) == []
    ensures TemplateRegistry.GetConverterTuples(Fixtures, WithTemplates, Qualified(ClassH, QSet({A})), Qualified(ClassF, QSet({A})), plain, iter)
            == Success(plain)
    ensures TemplateRegistry.GetConverterTuples(Fixtures, WithTemplates, Qualified(ClassH, QSet({B})), Qualified(ClassF, QSet({A})), [], iter)
            == Success([])
    ensures TemplateRegistry.GetConverterTuplesAsWritten(Fixtures, WithTemplates, Qualified(ClassH, QSet({B})), Qualified(ClassF, QSet({A})), [], iter)
            == Success([])
  {
    assert ClassH !in WithTemplates;
  }

  const J: Qualifier := Concrete(Base(ClassJ))
  const H: Qualifier := Concrete(Base(ClassH))
  const K: Qualifier := Concrete(Base(ClassK))

  /** The registry once `generic2f` (`T` to `F[T]`) and `generic2n` (`T` to `N[T, H]`) are registered. */
  const WithGeneric: TemplateRegistry.Templates :=
    map[
      ClassF := [(SpecificDataType, TemplateRegistry.Template(Generic2F, QSet({SpecificDataType})))],
      ClassN := [(SpecificDataType, TemplateRegistry.Template(Generic2N, QSet({SpecificDataType, H})))]
    ]

  /** Registering `generic2f` and then `generic2n` builds that registry. */
  lemma RegisterGenericSources()
    ensures var first := TemplateRegistry.Register(map[], Qualified(ClassF, QSet({SpecificDataType})), SpecificDataType, Generic2F);
            && first.Success? && first.value.Stored?
            && TemplateRegistry.Register(first.value.templates, Qualified(ClassN, QSet({SpecificDataType, H})), SpecificDataType, Generic2N)
               == Success(TemplateRegistry.Stored(WithGeneric))
  {
    OneWildcard();
    assert Wildcards(QSet({SpecificDataType, H})) == {SpecificDataType};
    var first := map[ClassF := [(SpecificDataType, TemplateRegistry.Template(Generic2F, QSet({SpecificDataType})))]];
    assert TemplateRegistry.TemplatesAt(first, ClassN) == [];
    assert first[ClassN := [(SpecificDataType, TemplateRegistry.Template(Generic2N, QSet({SpecificDataType, H})))]] == WithGeneric;
  }

  /**
   * With `generic2f` registered, `F[qs]` is found from a qualified source
   * exactly when `qs` is a single class the source is a subtype of; a target
   * without qualifiers makes the lookup raise.
   */
  lemma GenericToF(qs: set<Qualifier>, source: FType, iter: set<Qualifier> -> seq<Qualifier>)
    requires source.Qualified? && forall x | x in qs :: x.Concrete?
    ensures var r := TemplateRegistry.GetConverterTuples(Fixtures, WithGeneric, Qualified(ClassF, QSet(qs)), source, [], iter);
            && (r.Success? <==> qs != {})
            && (r.Success? ==> (Generic2F in r.value <==> exists q :: qs == {q} && QualSubtype(Fixtures, Concrete(source), q)))
            && (r.Success? ==> forall c | c in r.value :: c == Generic2F)
  {
    OneWildcard();
    var entries := TemplateRegistry.TemplatesAt(WithGeneric, ClassF);
    assert entries == [(SpecificDataType, TemplateRegistry.Template(Generic2F, QSet({SpecificDataType})))];
    assert qs - {} == qs;
  }

  /**
   * With `generic2n` registered, `N[qs]` is found from a qualified source
   * exactly when `qs` holds one class besides `H` and the source is a subtype
   * of it.
   */
  lemma GenericToN(qs: set<Qualifier>, source: FType, iter: set<Qualifier> -> seq<Qualifier>)
    requires source.Qualified? && forall x | x in qs :: x.Concrete?
    ensures var r := TemplateRegistry.GetConverterTuples(Fixtures, WithGeneric, Qualified(ClassN, QSet(qs)), source, [], iter);
            && (r.Success? <==> !(qs <= {H}))
            && (r.Success? ==> (Generic2N in r.value <==> exists q :: qs - {H} == {q} && QualSubtype(Fixtures, Concrete(source), q)))
            && (r.Success? ==> forall c | c in r.value :: c == Generic2N)
  {
    assert Wildcards(QSet({SpecificDataType, H})) == {SpecificDataType};
    assert NonWildcards(QSet({SpecificDataType, H})) == {H};
    var entries := TemplateRegistry.TemplatesAt(WithGeneric, ClassN);
    assert entries == [(SpecificDataType, TemplateRegistry.Template(Generic2N, QSet({SpecificDataType, H})))];
  }

  /** `J[A]` is a subtype of `J` and not of `K`. */
  lemma SourceJA()
    ensures QualSubtype(Fixtures, Concrete(Qualified(ClassJ, QSet({A}))), J)
    ensures !QualSubtype(Fixtures, Concrete(Qualified(ClassJ, QSet({A}))), K)
  {
    assert Descends(Fixtures, ClassJ, ClassJ);
    NotDescends(Fixtures, ClassH, ClassK);
    assert Fixtures.parents[ClassJ] == {ClassH};
  }

  /**
   * `test_wildcard_template_from_generic_conversion`, from the qualified
   * source `J[A]`: `F[J]` is found.
   */
  lemma TemplateFromGenericFound(iter: set<Qualifier> -> seq<Qualifier>)
    ensures Generic2F in TemplateRegistry.GetConverterTuples(Fixtures, WithGeneric, Qualified(ClassF, QSet({J})), Qualified(ClassJ, QSet({A})), [], iter).value
  {
    SourceJA();
    GenericToF({J}, Qualified(ClassJ, QSet({A})), iter);
  }

  /**
   * `test_wildcard_template_from_generic_conversion`, from the qualified
   * source `J[A]`: `N[J]` and `N[J, H]` are found.
   */
  lemma TemplateFromGenericFoundWithH(qs: set<Qualifier>, iter: set<Qualifier> -> seq<Qualifier>)
    requires qs == {J} || qs == {J, H}
    ensures Generic2N in TemplateRegistry.GetConverterTuples(Fixtures, WithGeneric, Qualified(ClassN, QSet(qs)), Qualified(ClassJ, QSet({A})), [], iter).value
  {
    SourceJA();
    GenericToN(qs, Qualified(ClassJ, QSet({A})), iter);
    assert qs - {H} == {J};
  }

  /**
   * `test_wildcard_template_from_generic_conversion`, from the qualified
   * source `J[A]`: `F[K]`, `F[K, H]` and `F[J, K]` are not found.
   */
  lemma TemplateFromGenericRefused(qs: set<Qualifier>, iter: set<Qualifier> -> seq<Qualifier>)
    requires qs == {K} || qs == {K, H} || qs == {J, K}
    ensures TemplateRegistry.GetConverterTuples(Fixtures, WithGeneric, Qualified(ClassF, QSet(qs)), Qualified(ClassJ, QSet({A})), [], iter)
            == Success([])
  {
    var source := Qualified(ClassJ, QSet({A}));
    SourceJA();
    GenericToF(qs, source, iter);
    assert forall q | qs == {q} :: q == K by {
      forall q | qs == {q} ensures q == K {
        assert K in qs && J in qs - {K} + {J} && H in qs - {K} + {H};
      }
    }
    var r := TemplateRegistry.GetConverterTuples(Fixtures, WithGeneric, Qualified(ClassF, QSet(qs)), source, [], iter);
    HeadIsMember(r.value);
  }

  /**
   * The test suite asks the same of the unqualified source `J`; the template
   * lookup is skipped for an unqualified source, so whatever the plain
   * registry answers is the answer.
   */
  lemma UnqualifiedSourceSkipsTemplates(plain: seq<ConvTuple>, iter: set<Qualifier> -> seq<Qualifier>)
    ensures TemplateRegistry.GetConverterTuples(Fixtures, WithGeneric, Qualified(ClassF, QSet({J})), Base(ClassJ), plain, iter) == Success(plain)
  {
  }

  // ---------------------------------------------------------------------------
  // Conversions to a generic type (`f2generic`, `n2generic`)

  const F2Generic: ConvTuple := ConvTuple(Task("f2generic"), map[])
  const N2Generic: ConvTuple := ConvTuple(Task("n2generic"), map[])

  /** `N[SpecificDataType, H]`, the source of `n2generic`. */
  const NOfAnyAndH: FType := Qualified(ClassN, QSet({SpecificDataType, H}))

  const ToGeneric: GenericRegistry.Registry := [(FOfAny, F2Generic), (NOfAnyAndH, N2Generic)]

  /**
   * Registering `f2generic` and then `n2generic` fills two slots; registering
   * `f2generic` again changes nothing, and another converter for its slot is
   * refused (as written, the refusal itself raises AttributeError).
   */
  lemma RegisterToGeneric()
    ensures GenericRegistry.Register([], FOfAny, F2Generic, SameTask) == Success([(FOfAny, F2Generic)])
    ensures GenericRegistry.Register([(FOfAny, F2Generic)], NOfAnyAndH, N2Generic, SameTask) == Success(ToGeneric)
    ensures GenericRegistry.Register(ToGeneric, FOfAny, F2Generic, SameTask) == Success(ToGeneric)
    ensures GenericRegistry.Register(ToGeneric, FOfAny, F2N, SameTask) == Failure(ConverterConflict)
    ensures GenericRegistry.RegisterAsWritten(ToGeneric, FOfAny, F2N, SameTask) == Failure(MissingAttribute)
  {
    OneWildcard();
    assert Wildcards(QSet({SpecificDataType, H})) == {SpecificDataType};
    assert NonWildcards(QSet({SpecificDataType, H})) == {H};
    assert ClassKey(FOfAny) == (ClassF, {}) && ClassKey(NOfAnyAndH) == (ClassN, {H});
    assert forall e | e in [(FOfAny, F2Generic)] :: ClassKey(e.0) != ClassKey(NOfAnyAndH);
    assert [(FOfAny, F2Generic)] + [(NOfAnyAndH, N2Generic)] == ToGeneric;
    GenericRegistry.PriorAtMostOne(ToGeneric, FOfAny);
  }

  /** How the `F` and `N` keys treat a source `F[qs]`. */
  lemma KeysForF(qs: set<Qualifier>, target: Qualifier)
    ensures var source := Qualified(ClassF, QSet(qs));
            && !GenericRegistry.Faulty(Fixtures, FOfAny, source)
            && (GenericRegistry.Applies(Fixtures, FOfAny, source, target)
                <==> exists q | q in qs :: GenericRegistry.Converts(Fixtures, q, target))
            && !GenericRegistry.Faulty(Fixtures, NOfAnyAndH, source)
            && !GenericRegistry.Applies(Fixtures, NOfAnyAndH, source, target)
  {
    OneWildcard();
    assert Wildcards(QSet({SpecificDataType, H})) == {SpecificDataType};
    assert Descends(Fixtures, ClassF, ClassF);
    NotDescends(Fixtures, ClassN, ClassF);
    assert qs - {} == qs;
  }

  /** With `f2generic` and `n2generic` registered, a generic target is found from `F[qs]` when some member of `qs` derives from it. */
  lemma ToGenericFromF(qs: set<Qualifier>, target: Qualifier)
    ensures var r := GenericRegistry.Lookup(Fixtures, ToGeneric, Qualified(ClassF, QSet(qs)), target);
            && r.Success?
            && (F2Generic in r.value <==> exists q | q in qs :: GenericRegistry.Converts(Fixtures, q, target))
            && (forall c | c in r.value :: c == F2Generic)
  {
    KeysForF(qs, target);
    assert |ToGeneric| == 2 && ToGeneric[0] == (FOfAny, F2Generic) && ToGeneric[1] == (NOfAnyAndH, N2Generic);
    assert F2Generic != N2Generic;
  }

  /** How the `F` and `N` keys treat a source `N[qs]`. */
  lemma KeysForN(qs: set<Qualifier>, target: Qualifier)
    ensures var source := Qualified(ClassN, QSet(qs));
            && !GenericRegistry.Faulty(Fixtures, FOfAny, source)
            && !GenericRegistry.Applies(Fixtures, FOfAny, source, target)
            && !GenericRegistry.Faulty(Fixtures, NOfAnyAndH, source)
            && (GenericRegistry.Applies(Fixtures, NOfAnyAndH, source, target)
                <==> H in qs && exists q | q in qs - {H} :: GenericRegistry.Converts(Fixtures, q, target))
  {
    OneWildcard();
    assert Wildcards(QSet({SpecificDataType, H})) == {SpecificDataType};
    assert NonWildcards(QSet({SpecificDataType, H})) == {H};
    assert Descends(Fixtures, ClassN, ClassN);
    NotDescends(Fixtures, ClassF, ClassN);
  }

  /** With `f2generic` and `n2generic` registered, a generic target is found from `N[qs]` when `qs` holds `H` and another member that derives from it. */
  lemma ToGenericFromN(qs: set<Qualifier>, target: Qualifier)
    ensures var r := GenericRegistry.Lookup(Fixtures, ToGeneric, Qualified(ClassN, QSet(qs)), target);
            && r.Success?
            && (N2Generic in r.value <==> H in qs && exists q | q in qs - {H} :: GenericRegistry.Converts(Fixtures, q, target))
            && (forall c | c in r.value :: c == N2Generic)
  {
    KeysForN(qs, target);
    assert |ToGeneric| == 2 && ToGeneric[0] == (FOfAny, F2Generic) && ToGeneric[1] == (NOfAnyAndH, N2Generic);
    assert F2Generic != N2Generic;
  }

  /**
   * `test_wildcard_generic_from_template_conversion` and its multi-qualifier
   * variant: `J` is found from `F[J]` and from `N[J, H]`. As written, the
   * lookup fails its assertion.
   */
  lemma GenericFromTemplateFound()
    ensures GenericRegistry.Lookup(Fixtures, ToGeneric, Qualified(ClassF, QSet({J})), J).Success?
    ensures F2Generic in GenericRegistry.Lookup(Fixtures, ToGeneric, Qualified(ClassF, QSet({J})), J).value
    ensures GenericRegistry.Lookup(Fixtures, ToGeneric, Qualified(ClassN, QSet({J, H})), J).Success?
    ensures N2Generic in GenericRegistry.Lookup(Fixtures, ToGeneric, Qualified(ClassN, QSet({J, H})), J).value
    ensures GenericRegistry.LookupAsWritten(Fixtures, ToGeneric, Qualified(ClassF, QSet({J})), J) == Failure(AssertionFailed)
  {
    assert GenericRegistry.Converts(Fixtures, J, J) by {
      assert Descends(Fixtures, ClassJ, ClassJ);
    }
    ToGenericFromF({J}, J);
    ToGenericFromN({J, H}, J);
    assert J in {J, H} - {H};
  }

  /** The same tests: `J` is not found from `F[K]`. */
  lemma GenericFromTemplateRefused()
    ensures GenericRegistry.Lookup(Fixtures, ToGeneric, Qualified(ClassF, QSet({K})), J) == Success([])
  {
    assert !exists q | q in {K} :: GenericRegistry.Converts(Fixtures, q, J) by {
      NotDescends(Fixtures, ClassK, ClassJ);
      assert !GenericRegistry.Converts(Fixtures, K, J);
    }
    ToGenericFromF({K}, J);
    var r := GenericRegistry.Lookup(Fixtures, ToGeneric, Qualified(ClassF, QSet({K})), J).value;
    HeadIsMember(r);
  }

  /** The same tests: `J` is not found from `N[J, K]`, which lacks `H`. */
  lemma GenericFromMultiTemplateRefused()
    ensures GenericRegistry.Lookup(Fixtures, ToGeneric, Qualified(ClassN, QSet({J, K})), J) == Success([])
  {
    ToGenericFromN({J, K}, J);
    var r := GenericRegistry.Lookup(Fixtures, ToGeneric, Qualified(ClassN, QSet({J, K})), J).value;
    HeadIsMember(r);
  }
}
