/**
 * The namespace of a format class (`namespace`, mixin.py:484-506): an
 * unqualified class has its own; a qualified class has the one namespace that
 * all its qualifiers share with its base, the base being left out when it is
 * generically qualified.
 */
module Namespaces {
  import opened Wrappers
  import opened FormatTypes
  import opened Collections

  /** A placeholder lives in the namespace of its bound. */
  function QualifierNamespace(h: Hierarchy, x: Qualifier): Result<string, Error>
    decreases x, 1
  {
    match x
    case Wildcard(_, bound) => Success(BaseNamespace(h, bound))
    case Concrete(t) => TypeNamespace(h, t)
  }

  /** The namespaces of every qualifier, or the failure of any one of them. */
  function QualsNamespaces(h: Hierarchy, q: Quals): Result<set<string>, Error>
    decreases q, 0
  {
    match q
    case QSeq(items) =>
      if exists x | x in items :: QualifierNamespace(h, x).Failure? then Failure(NoCommonNamespace)
      else Success(set x | x in items :: QualifierNamespace(h, x).value)
    case QSet(members) =>
      if exists x | x in members :: QualifierNamespace(h, x).Failure? then Failure(NoCommonNamespace)
      else Success(set x | x in members :: QualifierNamespace(h, x).value)
  }

  /** `cls.namespace`. */
  function TypeNamespace(h: Hierarchy, t: FType): (r: Result<string, Error>)
    decreases t, 2
    ensures t.Base? ==> r == Success(BaseNamespace(h, t.id))
    ensures r.Failure? ==> r.error == NoCommonNamespace
  {
    match t
    case Base(b) => Success(BaseNamespace(h, b))
    case Qualified(b, q) =>
      match QualsNamespaces(h, q)
      case Failure(e) => Failure(e)
      case Success(inner) =>
        var found := if Config(h, b).generic then inner else inner + {BaseNamespace(h, b)};
        if |found| == 1 then Success(Only(found)) else Failure(NoCommonNamespace)
  }

  /**
   * `n` is the one namespace of the qualified class `Qualified(b, q)`: every
   * qualifier lives in it, and so does the base unless the base is generically
   * qualified, in which case some qualifier must supply it.
   */
  predicate CommonNamespace(h: Hierarchy, b: BaseId, q: Quals, n: string) {
    && (forall x | x in Members(q) :: QualifierNamespace(h, x) == Success(n))
    && (if Config(h, b).generic then Members(q) != {} else BaseNamespace(h, b) == n)
  }

  /** The qualifiers' namespaces are collected unless one of them fails. */
  lemma QualsNamespacesMeaning(h: Hierarchy, q: Quals)
    ensures QualsNamespaces(h, q).Success? <==> forall x | x in Members(q) :: QualifierNamespace(h, x).Success?
    ensures QualsNamespaces(h, q).Success? ==>
              forall n :: n in QualsNamespaces(h, q).value
                <==> exists x | x in Members(q) :: QualifierNamespace(h, x) == Success(n)
  {
    match q
    case QSeq(items) =>
      assert forall x :: x in Members(q) <==> x in items;
    case QSet(members) =>
      assert Members(q) == members;
  }

  /**
   * A qualified class has a namespace exactly when its qualifiers and (unless
   * generically qualified) its base share one, and that shared namespace is
   * the result.
   */
  lemma QualifiedNamespace(h: Hierarchy, b: BaseId, q: Quals)
    ensures TypeNamespace(h, Qualified(b, q)).Success? ==>
              CommonNamespace(h, b, q, TypeNamespace(h, Qualified(b, q)).value)
    ensures forall n :: CommonNamespace(h, b, q, n) ==> TypeNamespace(h, Qualified(b, q)) == Success(n)
  {
    QualsNamespacesMeaning(h, q);
    var r := TypeNamespace(h, Qualified(b, q));
    if QualsNamespaces(h, q).Success? {
      var inner := QualsNamespaces(h, q).value;
      var found := if Config(h, b).generic then inner else inner + {BaseNamespace(h, b)};
      if r.Success? {
        var n := r.value;
        assert found == {n};
        forall x | x in Members(q) ensures QualifierNamespace(h, x) == Success(n) {
          assert QualifierNamespace(h, x).value in inner;
        }
      }
      forall n | CommonNamespace(h, b, q, n) ensures r == Success(n) {
        assert forall m :: m in inner ==> m == n;
        if Config(h, b).generic {
          var x :| x in Members(q);
          assert n in inner;
        }
        assert found == {n};
      }
    }
  }
}
