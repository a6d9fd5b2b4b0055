/**
 * Format types, qualifiers and the class catalogue they live in.
 *
 * A Python format class is either a base class defined by the catalogue
 * (`Base`) or a class synthesised by subscripting a base with qualifiers
 * (`Qualified`, e.g. `DirectoryOf[Png, Gif]`). Synthesised classes are
 * interned, so structural equality of `FType` values stands in for the
 * identity (`is`) comparison of the original classes.
 *
 * The original code calls the same mechanism `WithQualifiers` in one file
 * and `WithClassifiers` in the others; both names denote this one concept.
 */
module FormatTypes {
  import opened Wrappers

  /** The identity of a base (unqualified) format class, compared only for equality. */
  type BaseId = int

  /** One member of a qualifier collection. */
  datatype Qualifier =
    | Concrete(t: FType)
      /** A type-variable placeholder, a class derived from its `bound`. */
    | Wildcard(name: string, bound: BaseId)

  datatype FType =
    | Base(id: BaseId)
    | Qualified(base: BaseId, quals: Quals)
  {
    /** The base class: the class itself, or the class it was synthesised from. */
    function BaseOf(): BaseId {
      match this
      case Base(id) => id
      case Qualified(b, _) => b
    }
  }

  /**
   * A normalised qualifier collection: a tuple when order matters (or when the
   * base takes a single qualifier), a frozenset otherwise.
   */
  datatype Quals = QSeq(items: seq<Qualifier>) | QSet(members: set<Qualifier>)

  /** `set(qualifiers)`: the members of a collection, ignoring order and repeats. */
  function Members(q: Quals): set<Qualifier> {
    match q
    case QSeq(items) => set x | x in items
    case QSet(members) => members
  }

  /** `len(qualifiers)`. */
  function Size(q: Quals): nat {
    match q
    case QSeq(items) => |items|
    case QSet(members) => |members|
  }

  /** `wildcard_qualifiers(qualifiers)`. */
  function Wildcards(q: Quals): set<Qualifier> {
    set x | x in Members(q) && x.Wildcard?
  }

  /** `non_wildcard_qualifiers(qualifiers)`. */
  function NonWildcards(q: Quals): set<Qualifier> {
    set x | x in Members(q) && x.Concrete?
  }

  /** `cls.wildcard_qualifiers()`: an unqualified class has none. */
  function TypeWildcards(t: FType): set<Qualifier> {
    match t
    case Base(_) => {}
    case Qualified(_, q) => Wildcards(q)
  }

  /** `cls.non_wildcard_qualifiers()`: an unqualified class has none. */
  function TypeNonWildcards(t: FType): set<Qualifier> {
    match t
    case Base(_) => {}
    case Qualified(_, q) => NonWildcards(q)
  }

  /** The class attributes of a qualifiable base. */
  datatype QualConfig = QualConfig(
    multiple: bool,       // multiple_qualifiers
    allowed: seq<FType>,  // allowed_qualifiers; empty means unrestricted
    ordered: bool,        // ordered_qualifiers
    generic: bool         // generically_qualified
  )

  /** The defaults declared on the mixin itself. */
  const DefaultConfig := QualConfig(true, [], false, false)

  datatype BaseInfo = BaseInfo(namespace: string, config: QualConfig)

  /**
   * The class hierarchy: direct superclasses of each base (multiple
   * inheritance allowed), a rank that witnesses acyclicity, and each base's
   * namespace and qualifier attributes as resolved through inheritance.
   */
  datatype Catalogue = Catalogue(
    parents: map<BaseId, set<BaseId>>,
    rank: map<BaseId, nat>,
    info: map<BaseId, BaseInfo>
  )

  /** Every superclass sits strictly lower in the rank than its subclass. */
  predicate Ranked(c: Catalogue) {
    forall b | b in c.parents ::
      b in c.rank && forall p | p in c.parents[b] :: p in c.rank && c.rank[p] < c.rank[b]
  }

  /** Python class hierarchies are acyclic. */
  type Hierarchy = c: Catalogue | Ranked(c) witness Catalogue(map[], map[], map[])

  /** The attributes of a base; a base outside the catalogue keeps the mixin defaults. */
  function Config(h: Hierarchy, b: BaseId): QualConfig {
    if b in h.info then h.info[b].config else DefaultConfig
  }

  /** The namespace of an unqualified class (derived elsewhere from its module). */
  function BaseNamespace(h: Hierarchy, b: BaseId): string {
    if b in h.info then h.info[b].namespace else ""
  }

  /** Errors raised by the modelled operations. */
  datatype Error =
    | InvalidQualifiers(notAllowed: seq<Qualifier>)  // qualifier outside allowed_qualifiers
    | RepeatedQualifiers(repeated: set<Qualifier>)   // repeat on an unordered multi-qualifier base
    | WildcardInstance                              // instantiating a wildcard-bearing class
    | TooManyWildcards                              // more than one wildcard in a registration
    | UngenericSource                               // unqualified source for a wildcard target
    | MismatchedWildcards                           // source and target wildcards differ
    | ConverterConflict                             // a different converter is already registered
    | NoCommonNamespace                             // qualifiers span several namespaces
    | MissingAttribute                              // Python AttributeError
    | BadOperand                                    // Python TypeError
    | AssertionFailed                               // Python AssertionError
    | IndexOutOfRange                               // Python IndexError

  /** `__attrs_pre_init__`: a class with wildcard qualifiers cannot be instantiated. */
  function CheckInstantiable(t: FType): (r: Outcome<Error>)
    ensures r.Pass? <==> (t.Qualified? ==> forall x | x in Members(t.quals) :: x.Concrete?)
    ensures r.Fail? ==> r.error == WildcardInstance
  {
    if TypeWildcards(t) != {} then
      Fail(WildcardInstance)
    else
      assert t.Qualified? ==> forall x | x in Members(t.quals) :: x !in Wildcards(t.quals);
      Pass
  }

  /**
   * The two partitions are disjoint, cover the collection, hold only
   * placeholders and only concrete types respectively.
   */
  lemma WildcardPartition(q: Quals)
    ensures Wildcards(q) !! NonWildcards(q)
    ensures Wildcards(q) + NonWildcards(q) == Members(q)
    ensures forall x | x in Wildcards(q) :: x.Wildcard?
    ensures forall x | x in NonWildcards(q) :: x.Concrete?
  {
  }

  /** Both partitions of an unqualified class are empty. */
  lemma UnqualifiedHasNoQualifiers(b: BaseId)
    ensures TypeWildcards(Base(b)) == {} && TypeNonWildcards(Base(b)) == {}
  {
  }
}
