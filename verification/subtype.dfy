/**
 * The subtype relation between (possibly qualified) format classes.
 *
 * Nominal ancestry (`issubclass`) is decided by the catalogue's superclass
 * map. On top of it, `is_subtype_of` relates two qualified classes whose
 * bases are related and whose qualifiers agree: equal tuples for an ordered
 * base, and "more qualifiers is more specific" for an unordered one.
 */
module Subtyping {
  import opened Wrappers
  import opened FormatTypes

  function Rank(h: Hierarchy, b: BaseId): nat {
    if b in h.rank then h.rank[b] else 0
  }

  /** `issubclass(x, y)` between base classes: `y` is `x` or one of its ancestors. */
  predicate Descends(h: Hierarchy, x: BaseId, y: BaseId)
    decreases Rank(h, x)
  {
    x == y || (x in h.parents && exists p | p in h.parents[x] :: Descends(h, p, y))
  }

  /**
   * `issubclass(c, t)` between format classes. A synthesised class has its
   * base as its only superclass, so it is a subclass of the ancestors of its
   * base and of itself, and of no other qualified class.
   */
  predicate IsSubclass(h: Hierarchy, c: FType, t: FType) {
    match t
    case Base(y) => Descends(h, c.BaseOf(), y)
    case Qualified(_, _) => c == t
  }

  /**
   * `issubclass(a, b)` between qualifiers. A placeholder is a class derived
   * from its bound; against another placeholder the bounds are compared
   * (`SubtypeVar.__subclasshook__`), and no concrete class derives from a
   * placeholder.
   */
  predicate QualIsSubclass(h: Hierarchy, a: Qualifier, b: Qualifier) {
    match (a, b)
    case (Wildcard(_, b1), Wildcard(_, b2)) => Descends(h, b1, b2)
    case (Wildcard(_, b1), Concrete(t)) => IsSubclass(h, Base(b1), t)
    case (Concrete(_), Wildcard(_, _)) => false
    case (Concrete(c), Concrete(t)) => IsSubclass(h, c, t)
  }

  /**
   * The qualifier comparison of `is_subtype_of`, decided by the candidate's
   * ordering attribute. For an unordered candidate the target's qualifiers are
   * compared as a set, whatever their stored shape.
   */
  predicate QualsCovered(h: Hierarchy, c: FType, t: FType)
    requires c.Qualified? && t.Qualified?
  {
    if Config(h, c.base).ordered then c.quals == t.quals
    else Members(t.quals) <= Members(c.quals)
  }

  /** `is_subtype_of`, with the unordered comparison taken over members. */
  predicate IsSubtypeOf(h: Hierarchy, c: FType, t: FType) {
    || IsSubclass(h, c, t)
    || (&& c.Qualified? && t.Qualified?
        && Descends(h, c.base, t.base)
        && QualsCovered(h, c, t))
  }

  /**
   * `is_subtype_of` exactly as written: for an unordered candidate it calls
   * `issubset` on the target's qualifiers, which a tuple does not have.
   */
  function SubtypeAsWritten(h: Hierarchy, c: FType, t: FType): Result<bool, Error> {
    if IsSubclass(h, c, t) then Success(true)
    else if !c.Qualified? || !t.Qualified? || !Descends(h, c.base, t.base) then Success(false)
    else if Config(h, c.base).ordered then Success(c.quals == t.quals)
    else if t.quals.QSeq? then Failure(MissingAttribute)
    else Success(t.quals.members <= Members(c.quals))
  }

  /** `a.is_subtype_of(b)` for a qualifier; a placeholder only has the nominal part. */
  predicate QualSubtype(h: Hierarchy, a: Qualifier, b: Qualifier) {
    if a.Concrete? && b.Concrete? then IsSubtypeOf(h, a.t, b.t)
    else QualIsSubclass(h, a, b)
  }

  /** Ancestry is transitive. */
  lemma {:induction false} DescendsTransitive(h: Hierarchy, x: BaseId, y: BaseId, z: BaseId)
    requires Descends(h, x, y) && Descends(h, y, z)
    ensures Descends(h, x, z)
    decreases Rank(h, x)
  {
    if x != y {
      var p :| p in h.parents[x] && Descends(h, p, y);
      DescendsTransitive(h, p, y, z);
    }
  }

  /** A class never descends from a different class ranked at least as high. */
  lemma {:induction false} NotDescends(h: Hierarchy, x: BaseId, y: BaseId)
    requires x != y && Rank(h, x) <= Rank(h, y)
    ensures !Descends(h, x, y)
    decreases Rank(h, x)
  {
    if x in h.parents {
      forall p | p in h.parents[x] ensures !Descends(h, p, y) {
        NotDescends(h, p, y);
      }
    }
  }

  /** Every class is a subtype of itself, and so is every qualifier. */
  lemma SubtypeReflexive(h: Hierarchy, t: FType, x: Qualifier)
    ensures IsSubtypeOf(h, t, t)
    ensures QualSubtype(h, x, x)
  {
  }

  /**
   * A qualified class is a subtype of an unqualified one exactly when its base
   * descends from it (so `J[A]` is a subtype of `J`), and an unqualified class
   * is never a subtype of a qualified one.
   */
  lemma QualifiedAgainstBase(h: Hierarchy, b: BaseId, q: Quals, y: BaseId)
    ensures IsSubtypeOf(h, Qualified(b, q), Base(y)) <==> Descends(h, b, y)
    ensures !IsSubtypeOf(h, Base(y), Qualified(b, q))
  {
  }

  /**
   * Unordered bases: a qualified class is a subtype of another exactly when
   * its base descends from the other's and it carries at least the other's
   * qualifiers.
   */
  lemma UnorderedSubtype(h: Hierarchy, b1: BaseId, q1: Quals, b2: BaseId, q2: Quals)
    requires !Config(h, b1).ordered
    ensures IsSubtypeOf(h, Qualified(b1, q1), Qualified(b2, q2))
        <==> Qualified(b1, q1) == Qualified(b2, q2) || (Descends(h, b1, b2) && Members(q2) <= Members(q1))
  {
  }

  /** Ordered bases: the qualifier tuples must be equal, position by position. */
  lemma OrderedSubtype(h: Hierarchy, b1: BaseId, q1: Quals, b2: BaseId, q2: Quals)
    requires Config(h, b1).ordered
    ensures IsSubtypeOf(h, Qualified(b1, q1), Qualified(b2, q2)) <==> Descends(h, b1, b2) && q1 == q2
  {
  }

  /** One placeholder is a subtype of another exactly when its bound is. */
  lemma PlaceholderSubtype(h: Hierarchy, n1: string, b1: BaseId, n2: string, b2: BaseId)
    ensures QualSubtype(h, Wildcard(n1, b1), Wildcard(n2, b2)) <==> Descends(h, b1, b2)
  {
  }

  /**
   * Qualifying with placeholders is not covariant: even when one bound
   * descends from another, qualifying the same base with the two placeholders
   * gives unrelated classes, since qualifiers are compared by identity.
   */
  lemma PlaceholdersNotCovariant(h: Hierarchy, b: BaseId, v1: Qualifier, v2: Qualifier)
    requires v1.Wildcard? && v2.Wildcard? && v1 != v2
    requires !Config(h, b).ordered
    ensures !IsSubtypeOf(h, Qualified(b, QSet({v1})), Qualified(b, QSet({v2})))
  {
  }

  /** Wherever the code as written returns, it agrees with `IsSubtypeOf`. */
  lemma SubtypeAsWrittenAgrees(h: Hierarchy, c: FType, t: FType)
    ensures SubtypeAsWritten(h, c, t).Success? ==> SubtypeAsWritten(h, c, t).value == IsSubtypeOf(h, c, t)
    ensures SubtypeAsWritten(h, c, t).Failure?
        <==> (&& !IsSubclass(h, c, t) && c.Qualified? && t.Qualified?
              && Descends(h, c.base, t.base) && !Config(h, c.base).ordered && t.quals.QSeq?)
  {
  }

  /**
   * On a base that takes a single, unordered qualifier (stored as a tuple),
   * comparing two different qualifications raises AttributeError as written,
   * where the intended answer is "not a subtype".
   */
  lemma SingleQualifierComparisonRaises(h: Hierarchy, b: BaseId, x: Qualifier, y: Qualifier)
    requires !Config(h, b).ordered && x != y
    ensures SubtypeAsWritten(h, Qualified(b, QSeq([x])), Qualified(b, QSeq([y]))) == Failure(MissingAttribute)
    ensures !IsSubtypeOf(h, Qualified(b, QSeq([x])), Qualified(b, QSeq([y])))
    ensures IsSubtypeOf(h, Qualified(b, QSeq([x])), Qualified(b, QSeq([x])))
  {
    assert Members(QSeq([y])) == {y};
    assert Members(QSeq([x])) == {x};
  }
}
