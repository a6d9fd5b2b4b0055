# fileformats qualifier engine in Dafny

This project models the core of `fileformats`, a library that treats file formats as a class hierarchy. A format class can be *qualified* with other classes: `DirectoryOf[Png]` is a directory of PNG files. It can also be qualified with type-variable placeholders. `F[T] -> N[T]` then describes a whole family of converters.

The model covers:

- **Qualification.** `__class_getitem__` validates a qualifier collection and normalises it to a frozenset or a tuple. A per-base cache of synthesised classes makes `F[A] is F[A]` hold. This is `Qualification`.
- **Wildcard partition and instantiation.** The partition of qualifiers into placeholders and concrete classes, and the refusal to instantiate a class that carries placeholders. This is `FormatTypes`.
- **Subtyping.** The `is_subtype_of` relation between qualified classes. Unqualified classes use nominal ancestry over a catalogue of bases, and placeholders compare by their bounds. This is `Subtyping`.
- **Template converters.** Converters registered to a qualified target with placeholders, plus the lookup that instantiates them. There are two kinds: generic-to-template (`T -> F[T]`) and template-to-template (`F[T] -> N[T]`), each ordered or unordered. This is `TemplateRegistry`.
- **Generic-target converters.** Converters whose target is a placeholder (`SubtypeVar`, e.g. `Zip[T] -> T`). This covers duplicate and conflict detection and the lookup. This is `GenericRegistry`.
- **Namespaces.** The single namespace of a qualified class. This is `Namespaces`.
- **MIME names.** The codec between class names and MIME-like names (`MimeNames`), and the extension package a missing dependency lives in (`RequiredIn`).
- **Content checks.** The content checks of `TypedSet` and `Directory`: coverage validation, `contents`, `fspath` and `unconstrained`. This is `Contents`.

The source names the mixin `WithQualifiers` in `mixin.py` and `WithClassifiers` elsewhere, with `*_classifiers` methods. The model treats them as one concept.

Python exceptions become `Failure`/`Fail` values of the `Error` datatype, so every error path the model keeps is a result, not a precondition. Where the model uses a repaired relation in place of a call that can raise (see "## Left out"), that call's error is not represented.

The qualifier collection is a tuple or a frozenset. Synthesised classes are interned, so structural equality of `FType` values stands in for `is`.

Behaviour the model cannot see is passed in as function parameters:

- the task-origin comparison `matching_source`;
- the iteration order of a frozenset;
- `content_type.matches`;
- constructing a format from a path;
- `is_file`;
- directory listings.

`Scenarios` replays the expectations of `fileformats/core/tests/test_qualifiers.py` on a catalogue shaped like the test fixtures. The fixture module is not part of this model.

## Model

| member | source | states |
|---|---|---|
| FormatTypes.CheckInstantiable | fileformats/core/mixin.py:225-230 | instantiation is refused with `WildcardInstance` exactly when the class has a placeholder among its qualifiers |
| FormatTypes.WildcardPartition | fileformats/core/mixin.py:236-246 | the wildcard and non-wildcard parts are disjoint and together make up the qualifiers; one holds only placeholders, the other only concrete classes |
| FormatTypes.UnqualifiedHasNoQualifiers | fileformats/core/mixin.py:232-246 | both parts are empty for an unqualified class |
| Qualification.Qualify | fileformats/core/mixin.py:248-309 | the error cases, in both directions: some non-placeholder is not a subtype of any allowed class (reported exactly), or a repeat occurs on an unordered multi-qualifier base (repeats reported exactly). On success the class is cached under the normalised key, other bases' caches are untouched, a cache hit changes nothing, and a coherent cache stays coherent and yields `Qualified(b, key)` |
| Qualification.QualifyIdempotent | fileformats/core/mixin.py:279-309 | subscripting again with the same arguments returns the same class and leaves the cache as it was |
| Qualification.UnorderedIgnoresOrder | fileformats/core/mixin.py:270-277 | on an unordered multi-qualifier base, arguments that are permutations of each other give the same outcome and class (`F[A, B] is F[B, A]`) |
| Qualification.OrderedKeepsOrder | fileformats/core/mixin.py:270-309 | on an ordered base, different argument tuples give different classes (`K[A, B] is not K[B, A]`) |
| Qualification.RepeatedIsDuplicated | fileformats/core/mixin.py:271 | `Counter` counts a qualifier more than once exactly when it occurs at two positions |
| Qualification.SingleQualifierNotEnforced | fileformats/core/mixin.py:248-309 | a single-qualifier base with no allowed list accepts any argument tuple, since no count check exists |
| Subtyping.SubtypeReflexive | fileformats/core/mixin.py:399-414 | every class and every qualifier is a subtype of itself |
| Subtyping.DescendsTransitive | fileformats/core/mixin.py:401 | nominal ancestry is transitive |
| Subtyping.QualifiedAgainstBase | fileformats/core/mixin.py:399-409 | a qualified class is a subtype of a base exactly when its own base descends from it (`J[A]` is a subtype of `J`); a base is never a subtype of a qualified class |
| Subtyping.UnorderedSubtype | fileformats/core/mixin.py:399-414 | for an unordered candidate: a subtype exactly when the classes are equal, or the base descends and the target's qualifiers are among the candidate's |
| Subtyping.OrderedSubtype | fileformats/core/mixin.py:399-414 | for an ordered candidate: a subtype exactly when the base descends and the qualifier tuples are equal |
| Subtyping.PlaceholderSubtype | fileformats/core/converter.py:93-97 | one placeholder is a subtype of another exactly when its bound descends from the other's bound |
| Subtyping.PlaceholdersNotCovariant | fileformats/core/mixin.py:410-413 | qualifying one unordered base with two different placeholders gives unrelated classes, whatever their bounds |
| Subtyping.SubtypeAsWrittenAgrees | fileformats/core/mixin.py:399-414 | the relation as written agrees with `IsSubtypeOf` wherever it returns. It raises exactly for an unordered candidate compared with a related target whose qualifiers are stored as a tuple |
| Subtyping.SingleQualifierComparisonRaises | fileformats/core/mixin.py:410-413 | on an unordered single-qualifier base, comparing `b[x]` with `b[y]` for `x != y` raises AttributeError as written; the intended answer is "not a subtype" |
| Namespaces.TypeNamespace | fileformats/core/mixin.py:484-506 | an unqualified class has its own namespace; the only failure is `NoCommonNamespace` |
| Namespaces.QualsNamespacesMeaning | fileformats/core/mixin.py:489 | the qualifiers' namespaces are collected exactly when each has one, and the collection is exactly their namespaces |
| Namespaces.QualifiedNamespace | fileformats/core/mixin.py:488-503 | a qualified class has namespace `n` exactly when every qualifier lives in `n`, and the base does too unless it is generically qualified (in which case some qualifier must supply `n`) |
| Collections.Gather | fileformats/core/mixin.py:330-397 | the lookup scan: succeeds exactly when no entry's decision raises; otherwise it reports the first raising entry. On success it returns exactly the projections of the matching entries |
| Collections.PutGet | fileformats/core/mixin.py:480 | after `d[k] = v`, `k` maps to `v` and every other key keeps its value |
| Collections.PutKeepsKeysUnique | fileformats/core/mixin.py:480 | dict assignment keeps keys distinct |
| TemplateRegistry.Store | fileformats/core/mixin.py:479-480 | the source maps to the converter plus the target's qualifiers in the target base's registry; every other key and every other base are unchanged |
| TemplateRegistry.Register | fileformats/core/mixin.py:441-482 | each error in both directions: placeholder source with several target wildcards, unqualified source, mismatched wildcards, a format source whose slot is already taken, whatever converter holds it. A non-wildcard target delegates to the plain registry; otherwise only the source's entry is added |
| TemplateRegistry.RegisterKeepsWellShaped | fileformats/core/mixin.py:441-480 | every stored entry has the shape registration guarantees. A placeholder key goes with one target wildcard; a format key is qualified and carries the target's wildcards |
| TemplateRegistry.RegisterAsWritten | fileformats/core/mixin.py:460-467 | as written, every format source that passes the wildcard checks raises TypeError; all other inputs behave as in `Register` |
| TemplateRegistry.AsWrittenStoresOnlyPlaceholders | fileformats/core/mixin.py:454-467 | as written, a registration from a format source never stores a template |
| TemplateRegistry.GenericEntry | fileformats/core/mixin.py:334-343 | a generic-source entry matches exactly when its placeholder is the template's wildcard and the target leaves a single qualifier outside the template's non-wildcards that the source is a subtype of. It fails its assertion when the placeholder is not the template's wildcard, and raises IndexError when nothing is left over |
| TemplateRegistry.BindMeaning | fileformats/core/mixin.py:356-362 | `wildcard_map` binds exactly the placeholders among the template positions `zip` reaches, each to the actual at its last such position |
| TemplateRegistry.GetConverterTuples | fileformats/core/mixin.py:311-397 | the repaired lookup (Findings rows 1, 3 and 6). The plain answer is kept when non-empty or when either class is unqualified. Otherwise the lookup succeeds exactly when no entry raises, and the result holds exactly the converters of matching entries |
| TemplateRegistry.TemplateEntryMeaning | fileformats/core/mixin.py:344-394 | in the repaired entry test, a well-shaped template-source entry never raises. It matches exactly when the source's base descends from the template source's base and the ordered or unordered comparison holds |
| TemplateRegistry.TemplateEntryAsWritten | fileformats/core/mixin.py:333-395 | as written, an entry fails exactly when the repaired one does. A source whose base does not descend from the template source's base is accepted, where the repaired test refuses it. On a related source with an unordered target the two agree |
| TemplateRegistry.GetConverterTuplesAsWritten | fileformats/core/mixin.py:328-397 | the lookup as written succeeds exactly when the repaired one does, and reports exactly the converters of the entries the as-written test accepts |
| TemplateRegistry.OrderedLengthMismatch | fileformats/core/mixin.py:350-354 | in the repaired entry test, any length mismatch on an ordered target rules the template out |
| TemplateRegistry.OrderedMatchSound | fileformats/core/mixin.py:356-375 | every position of an ordered match is justified: directly, or because the target qualifier is a subtype of what the source has at a position of the same placeholder |
| TemplateRegistry.LookupFaults | fileformats/core/mixin.py:328-397 | in a well-shaped registry, only a generic-source entry can make the lookup raise, through a mismatched placeholder or nothing left to match |
| TemplateRegistry.OrderedLookupMissesBinding | fileformats/core/mixin.py:363-375 | for the template `K[T]` from `S[T]`, the lookup `K[A]` from `S[A]` is refused as written and accepted by the corrected comparison |
| GenericRegistry.Prior | fileformats/core/converter.py:156-164 | `prev_registered` holds exactly the entries in the source's slot: same base, same non-wildcard qualifiers |
| GenericRegistry.PriorAtMostOne | fileformats/core/converter.py:165 | with one entry per slot, the scan finds at most one previous registration |
| GenericRegistry.Register | fileformats/core/converter.py:127-183 | errors in both directions: more than one wildcard, missing `unclassified`, conflicting converter in the slot. A same-origin, equal-kwargs duplicate leaves the registry unchanged; a free slot receives exactly `converters[source] = conv` |
| GenericRegistry.RegisterKeepsOnePerSlot | fileformats/core/converter.py:156-183 | registration keeps at most one key per slot |
| GenericRegistry.RegisterAsWritten | fileformats/core/converter.py:176-181 | as written, every conflict surfaces as AttributeError, not the intended definition error; all other inputs behave as in `Register` |
| GenericRegistry.Decide | fileformats/core/converter.py:110-124 | one entry raises exactly when its key is unqualified, or related with other than one wildcard. It matches exactly when the key's base is a subclass of the source's, its non-wildcards are among the source's qualifiers, and some remaining source qualifier converts to the target |
| GenericRegistry.Lookup | fileformats/core/converter.py:99-125 | an unqualified source gets no converters. Otherwise the lookup fails exactly when some key is faulty, and returns exactly the converters of applicable templates |
| GenericRegistry.LookupTotal | fileformats/core/converter.py:116 | a registry whose keys each carry one wildcard never makes the lookup raise |
| GenericRegistry.LookupAsWritten | fileformats/core/converter.py:108-111 | as written, a qualified source with a non-empty registry fails the `isinstance` assertion |
| GenericRegistry.PlaceholderHook | fileformats/core/converter.py:93-97 | a placeholder is a subclass of another exactly when its bound descends from the other's; a concrete class is never a subclass of a placeholder |
| MimeNames.ToMime | fileformats/core/utils.py:177-181 | the MIME name has no upper-case ASCII letter; its first character is the lowered first letter unless the name starts with `_`; the empty name raises IndexError |
| MimeNames.CaseRoundTrip | fileformats/core/utils.py:178-189 | lower and upper casing undo each other on ASCII letters |
| MimeNames.DashRoundTrip | fileformats/core/utils.py:180-188 | marking capitals with `-` and reading the marks back restores a dash-free text |
| MimeNames.PlusRoundTrip | fileformats/core/utils.py:179-189 | marking `_X` with `+x` and reading it back restores a plus-free text |
| MimeNames.RoundTrip | fileformats/core/utils.py:177-190 | an ASCII name that starts with a capital, has no `-` or `+`, and is not `X` followed by a capital reads back unchanged from its MIME name |
| MimeNames.ExperimentalPrefixLost | fileformats/core/utils.py:185-186 | `XY` encodes to `x-y`, which decodes to `Y`: the stripped prefix breaks the round trip |
| RequiredIn.Split | fileformats/core/utils.py:129 | `split(".")` always gives at least one component, and none contains a dot |
| RequiredIn.JoinSplit | fileformats/core/utils.py:129 | joining the components with dots gives back the module path |
| RequiredIn.SplitJoin | fileformats/core/utils.py:129 | splitting dot-joined, dot-free components gives back the components |
| RequiredIn.RequiredIn | fileformats/core/utils.py:127-134 | fails its assertion exactly when the first component is not `fileformats`, and raises IndexError exactly for `fileformats` alone. Otherwise the answer is `fileformats` for a standard second component and `fileformats-<ns>` for any other |
| RequiredIn.RequiredInModule | fileformats/core/utils.py:127-134 | for `fileformats.<ns>` and any submodule of it, the package is decided by `<ns>` alone |
| Contents.Coverage | fileformats/generic/set.py:29-40 | passes exactly when every content type matches some path; otherwise it reports exactly the unmatched types |
| Contents.ValidateContents | fileformats/generic/set.py:25-40 | no content types pass at once; otherwise the worklist scan passes exactly when every type matches some path, reports exactly the unmatched types, and agrees with `Coverage` |
| Contents.Strike | fileformats/generic/set.py:31-35 | leaves exactly the remaining types the path does not match, stopping once none is left |
| Contents.EarlyStop | fileformats/generic/set.py:34-35 | once a prefix of the paths matches every type, the full scan would pass too |
| Contents.CoverageOrderFree | fileformats/generic/set.py:29-35 | the outcome depends only on which paths there are, not their order or repeats |
| Contents.ConstructedMembers | fileformats/generic/set.py:16-23 | the contents are exactly the formats some content type constructs from some path |
| Contents.ConstructedAppend | fileformats/generic/set.py:18-19 | contents come in content-type-major order: the per-type lists concatenate |
| Contents.BuiltMembers | fileformats/generic/set.py:19-23 | one type's contents are exactly what it constructs from the paths, skipping mismatches |
| Contents.Dirs | fileformats/generic/directory.py:20 | the directories are exactly the paths that are not files |
| Contents.DirsCounted | fileformats/generic/directory.py:20-23 | the directory list has the length the directory count gives |
| Contents.Missing | fileformats/generic/directory.py:28-40 | the missing types are exactly the content types that construct from no entry |
| Contents.MissingAppend | fileformats/generic/directory.py:28-40 | the missing list keeps the order of the content types: a concatenation's missing types are the first part's followed by the second's |
| Contents.Fspath | fileformats/generic/directory.py:17-45 | raises when no path is a directory and when more than one is, each in both directions. Otherwise it reports the non-empty list of types with no constructible entry, in content-type order, or returns the one directory, which holds a constructible entry for every type |
| Contents.ValidateDirectory | fileformats/generic/directory.py:69-84 | no content types pass; a failing `fspath` propagates; otherwise the check passes exactly when every type matches an entry of the directory, and reports exactly the unmatched types |
| Contents.DirectoryContents | fileformats/generic/directory.py:47-55 | no content types give nothing; otherwise it succeeds exactly when `fspath` does, and yields exactly what the types construct from the directory's entries |
| Contents.UnconstrainedValidates | fileformats/generic/directory.py:57-72 | a directory whose parent is unconstrained and which has no content types is unconstrained, and it passes validation whatever its paths |
| Scenarios.NominalSubtypes | fileformats/core/tests/test_qualifiers.py:49-54 | `G` is a subtype of `F` and not the reverse; `J` is a subtype of `J` and of `H` |
| Scenarios.RootSubtypes | fileformats/core/tests/test_qualifiers.py:64-65 | `FileSet` is a subtype of `DataType`, and so is a placeholder bounded by it of one bounded by `DataType` |
| Scenarios.QualifiedSubtypes | fileformats/core/tests/test_qualifiers.py:55-63 | the nine qualified comparisons of the test, each with the expected answer |
| Scenarios.PlaceholderQualifiersNotCovariant | fileformats/core/tests/test_qualifiers.py:66 | `F[SpecificFileSet]` is not a subtype of `F[SpecificDataType]` |
| Scenarios.UnorderedEquivalence | fileformats/core/tests/test_qualifiers.py:40-41 | `F[A, B]` and `F[B, A]` synthesise the same class, and subscripting again returns it from the cache |
| Scenarios.OrderedDistinction | fileformats/core/tests/test_qualifiers.py:42 | `K[A, B]` and `K[B, A]` are different classes |
| Scenarios.QualifiersDistinguish | fileformats/core/tests/test_qualifiers.py:43-46 | `F[A]`, `F[B]`, `F[SpecificDataType]` and `F[SpecificFileSet]` are pairwise different where the test says so |
| Scenarios.AllowedQualifiers | fileformats/core/tests/test_qualifiers.py:71 | `H[A, B, C]` is accepted |
| Scenarios.DisallowedQualifier | fileformats/core/tests/test_qualifiers.py:72-76 | `F[D]` is accepted and `H[D]` is refused, naming `D` |
| Scenarios.RepeatedQualifierExamples | fileformats/core/tests/test_qualifiers.py:78-82 | `H[A, B, A]` is refused for repeating `A`; `K[A, B, A]` is accepted |
| Scenarios.SingleQualifierBaseAcceptsTwo | fileformats/core/tests/test_qualifiers.py:91-93 | `M[A, B]` is accepted, contrary to the test |
| Scenarios.NamespaceExamples | fileformats/core/tests/test_qualifiers.py:118-122 | `Directory[F]` and `Directory[F, H]` live in `testing`, the namespace their MIME-like names start with |
| Scenarios.MixedNamespaces | fileformats/core/mixin.py:487-503 | `F[Directory]` mixes `testing` with `generic`, so it has no namespace |
| Scenarios.RegisterF2N | fileformats/core/tests/test_qualifiers.py:163-166 | `f2n_template` is stored under `N`, and registering it again is a conflict; as written, registering it raises TypeError |
| Scenarios.TemplateFromTemplate | fileformats/core/tests/test_qualifiers.py:163-166 | with `f2n_template` registered, the repaired lookup finds `N[x]` from `s[y]` exactly when `s` descends from `F` and `x` is `y` |
| Scenarios.TemplateFromTemplateExamples | fileformats/core/tests/test_qualifiers.py:163-166 | `f2n_template` gives `N[A]` from `F[A]` and from `G[A]`, and nothing gives `N[B]` from `F[A]` |
| Scenarios.UnrelatedSourceFoundAsWritten | fileformats/core/mixin.py:333-396 | with `f2n_template` registered, `N[A]` from `H[A]` finds `f2n_template` as written and nothing in the repaired lookup |
| Scenarios.RegisterTemplateConverters | fileformats/core/tests/test_qualifiers.py:163-178 | registering `f2p_template` and then `p2n_template` after `f2n_template` fills two slots of `N` and one of `P` |
| Scenarios.WildcardTemplateFromTemplate | fileformats/core/tests/test_qualifiers.py:181-184 | with the three templates registered, none targets `H`. So `H[A]` from `F[A]` gets the plain registry's answer, and `H[B]` from `F[A]` finds nothing, as written and repaired |
| Scenarios.RegisterGenericSources | fileformats/core/tests/test_qualifiers.py:190-199 | registering `generic2f` and `generic2n` stores both templates |
| Scenarios.GenericToF | fileformats/core/tests/test_qualifiers.py:190-206 | with `generic2f` registered, `F[qs]` is found exactly when `qs` is one class the source is a subtype of |
| Scenarios.GenericToN | fileformats/core/tests/test_qualifiers.py:196-213 | with `generic2n` registered, `N[qs]` is found exactly when `qs` holds one class besides `H` that the source is a subtype of |
| Scenarios.TemplateFromGenericFound | fileformats/core/tests/test_qualifiers.py:204 | `F[J]` is found from the qualified source `J[A]` |
| Scenarios.TemplateFromGenericFoundWithH | fileformats/core/tests/test_qualifiers.py:208-209 | `N[J]` and `N[J, H]` are found from `J[A]` |
| Scenarios.TemplateFromGenericRefused | fileformats/core/tests/test_qualifiers.py:205-213 | `F[K]`, `F[K, H]` and `F[J, K]` are not found from `J[A]` |
| Scenarios.UnqualifiedSourceSkipsTemplates | fileformats/core/mixin.py:328 | from the unqualified source `J`, the template registry is not consulted and the plain answer stands |
| Scenarios.RegisterToGeneric | fileformats/core/tests/test_qualifiers.py:219-228 | `f2generic` and `n2generic` fill two slots; a repeat changes nothing; another converter for a slot is refused (as written, with AttributeError) |
| Scenarios.ToGenericFromF | fileformats/core/tests/test_qualifiers.py:231-234 | from `F[qs]`, a generic target is found exactly when some member of `qs` derives from it |
| Scenarios.ToGenericFromN | fileformats/core/tests/test_qualifiers.py:237-241 | from `N[qs]`, a generic target is found exactly when `qs` holds `H` and another member derives from it |
| Scenarios.GenericFromTemplateFound | fileformats/core/tests/test_qualifiers.py:231-239 | `J` is found from `F[J]` and from `N[J, H]`; as written, the lookup fails its assertion |
| Scenarios.GenericFromTemplateRefused | fileformats/core/tests/test_qualifiers.py:233-234 | `J` is not found from `F[K]` |
| Scenarios.GenericFromMultiTemplateRefused | fileformats/core/tests/test_qualifiers.py:240-241 | `J` is not found from `N[J, K]` |

## Left out

- The plain converter registry and its lookup (`FileSet.register_converter` and `get_converter_tuples`, reached through `super()`) are not part of this model. `fileformats/core/fileset.py` is not part of this model. Its answer enters `TemplateRegistry.GetConverterTuples` as the parameter `plain`, and a non-wildcard target's registration returns `Delegated`. For the same reason, `test_qualifier_converters` (test_qualifiers.py:96-113) is not replayed.
- Nominal `issubclass` between bases and the unqualified `is_subtype_of` are taken from a catalogue of direct superclasses with a rank that witnesses acyclicity. The catalogue also supplies each base's inherited class attributes and namespace. Deriving a namespace from a module path is not part of this model.
- The template registry is read as the one registration writes, one registry per base (`get_converters_dict(cls.unqualified)` is not shown). Plain two-element entries stored beside templates are skipped by the lookup and not represented. `_GenericConversionTarget` is represented by keying a generic-source template under its placeholder.
- Class synthesis details are left out: the generated class name, the `qualifiers_attr_name` attribute and its missing-default error (mixin.py:291-307, so test line 84-89 is not replayed), and the reflection-based error text. Error messages are reduced to `Error` constructors.
- The remaining mixins in `mixin.py` (magic numbers, adjacent files, separate headers, side cars), `ConverterWrapper`, and the file-system and import helpers in `utils.py` are left out. They read files or build workflows through other libraries.
- `matching_source` and `describe_task` are not shown. The first is the parameter `sameSource`; the second only formats a log message.
- The file system is represented by parameters: `matches`, successful construction (`build`), `is_file` and `iterdir` (`listing`). Logging is not modelled.
- Python `set` iteration order is the parameter `iter` wherever the code zips or indexes a frozenset.
- MimeNames.ToMime: case mapping and `[A-Z]` are ASCII only. The two rewriting steps are stated through the round trip (`RoundTrip`, `DashRoundTrip`, `PlusRoundTrip`), not as separate postconditions.
- MimeNames.FromMime: `str.capitalize`, `upper` and `\w` are taken over ASCII only. It carries no contract of its own; its behaviour is stated by `RoundTrip` and `ExperimentalPrefixLost`.
- Qualification.SingleQualifierNotEnforced: test_qualifiers.py:91-93 expects `M[A, B]` to be refused, but the code has no such check. The model follows the code.
- Subtyping.PlaceholdersNotCovariant: test_qualifiers.py:66 expects `F[SpecificFileSet]` to be a subtype of `F[SpecificDataType]`, but the code compares qualifiers by membership. The model follows the code.
- Scenarios.TemplateFromGenericFound: test_qualifiers.py:204-213 queries from the unqualified `J`. The template lookup skips unqualified sources (mixin.py:328), so those calls depend on the plain registry. The lemmas use the qualified source `J[A]` instead, and `UnqualifiedSourceSkipsTemplates` shows the skip.
- TemplateRegistry.Register: the corrected duplicate check uses the slot rule of `converter.py` (same base, same non-wildcard qualifiers). mixin.py:460-465 compares non-wildcard qualifiers only and reads a differently named attribute. As in mixin.py:466-478, any occupant of the slot is a conflict, including the same converter registered again; the same-converter no-op of converter.py:168-175 is not applied here.
- Qualification.Qualify: the allowed-qualifier test at mixin.py:261 uses the repaired `IsSubtypeOf` of Findings row 1. As written, `q.is_subtype_of(t)` raises AttributeError when a qualified `q` with an unordered base is compared with a related `t` whose qualifiers are a tuple. That error is not represented.
- TemplateRegistry.GetConverterTuples: it states the repaired lookup. The entry test is the repaired one of Findings row 6, and the ordered comparison is the repaired one of Findings row 3. The generic branch (mixin.py:343) and the ordered branch (mixin.py:366, 370) use the repaired `IsSubtypeOf` of Findings row 1, so the AttributeError those calls can raise as written is not represented. The as-written entry test is `TemplateRegistry.GetConverterTuplesAsWritten`.
- TemplateRegistry.TemplateEntryMeaning: it states the repaired entry test. As written, a source whose base does not descend from the template source's base is accepted (`TemplateRegistry.TemplateEntryAsWritten`).
- TemplateRegistry.OrderedLengthMismatch: it states the repaired entry test. As written, a source whose base does not descend from the template source's base is accepted whatever the lengths.
- Subtyping.QualIsSubclass: a placeholder is taken to be a `SubtypeVar` class derived from its bound (converter.py:75-95), so it compares with other placeholders by bound and is a subclass of its bound. The qualifier mixin recognises placeholders by `isinstance(t, ty.TypeVar)` (mixin.py:240, 246, 260, 361, 368, 442). `DataType.type_var`, which builds the placeholders the tests use, is not part of this model. The model assumes the object it builds passes both tests.
- Namespaces.QualifierNamespace: a placeholder's namespace is taken to be its bound's. The `namespace` of a placeholder, read at mixin.py:489, is not part of this model.
- Scenarios.NamespaceExamples: test_qualifiers.py:116-126 checks the MIME-like names `testing/f+directory` and `testing/f.h+directory`, their `from_mime` inverses and the `Array[TestField]` error. `mime_like`, `from_mime` and field arrays are not part of this model, so only the namespace those names start with is replayed. `F[Directory]` in `MixedNamespaces` is not from the test.
- Scenarios.TemplateFromTemplate: test_qualifiers.py:181-184 queries `H`, which no template targets. This lemma and `TemplateFromTemplateExamples` instead instantiate `f2n_template` for `N`. `WildcardTemplateFromTemplate` replays the test's own queries.
- Scenarios.WildcardTemplateFromTemplate: the success of `H[A]` from `F[A]` rests on `f2h`, which `test_qualifier_converters` registers in the plain registry. That registry is not part of this model, so its answer enters as `plain`.
- TemplateRegistry.GenericEntry: the assertion at mixin.py:335 compares a one-element tuple; for a single wildcard the model compares the set, which is equivalent.

## Findings

| source | as written | input that shows it | evidently intended | confidence | as-written member | corrected member |
|---|---|---|---|---|---|---|
| fileformats/core/mixin.py:410-413 | calls `issubset` on the target's qualifiers, which are a tuple when the base takes a single unordered qualifier | `M[A].is_subtype_of(M[B])` raises AttributeError | compare the qualifiers as sets, giving "not a subtype" | high; not executed | Subtyping.SingleQualifierComparisonRaises | Subtyping.IsSubtypeOf |
| fileformats/core/mixin.py:460-467 | builds `prev_registered` as a generator and calls `len` on it | registering `f2n_template` (`F[T] -> N[T]`) raises TypeError | scan the registry for a previous registration in the same slot | high; not executed | TemplateRegistry.RegisterAsWritten | TemplateRegistry.Register |
| fileformats/core/mixin.py:363-375 | looks up the source's binding under the actual qualifier, not under the template placeholder | ordered template `K[T]` from `S[T]`: `K[A]` from `S[A]` is refused | look up `wildcard_map[template]` | high; not executed | TemplateRegistry.OrderedLookupMissesBinding | TemplateRegistry.OrderedMatch |
| fileformats/core/converter.py:176 | calls `wildcard_classifiers` on the previous task, not its source format | registering a second, different converter from `F[T]` to `T` raises AttributeError instead of the definition error | name the generic type from the previously registered source format | high; not executed | GenericRegistry.RegisterAsWritten | GenericRegistry.Register |
| fileformats/core/converter.py:111 | asserts that a template source class is an instance of the mixin | looking up a conversion from `F[J]` to `J` with `f2generic` registered fails the assertion | check that the class is a subclass of the mixin (`issubclass`) | medium (a metaclass could make the check pass); not executed | GenericRegistry.LookupAsWritten | GenericRegistry.Lookup |
| fileformats/core/mixin.py:333-396 | sets `wildcard_match = True` (line 333) before an `if`/`elif` with no `else`, so a source whose base does not descend from the template source's base keeps the flag | with `f2n_template` (`F[T] -> N[T]`) registered, `N[A]` from `H[A]` returns `f2n_template` | refuse the entry when the source's base does not descend | high; not executed | Scenarios.UnrelatedSourceFoundAsWritten | TemplateRegistry.TemplateEntryMeaning |
