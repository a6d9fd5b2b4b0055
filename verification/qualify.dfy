/**
 * Qualification of a base class (`__class_getitem__`, mixin.py:248-309):
 * validation against `allowed_qualifiers`, the repeat check and
 * normalisation to a frozenset for unordered multi-qualifier bases, and the
 * per-base cache that makes `F[A] is F[A]` hold.
 */
module Qualification {
  import opened Wrappers
  import opened FormatTypes
  import opened Subtyping

  /**
   * Each base owns its own memo of synthesised classes, keyed by the
   * normalised qualifier collection.
   */
  type Cache = map<BaseId, map<Quals, FType>>

  /** Every cached class is the qualification of its owner by its key. */
  predicate CacheCoherent(cache: Cache) {
    forall b, q | b in cache && q in cache[b] :: cache[b][q] == Qualified(b, q)
  }

  /** A frozenset for unordered multi-qualifier bases, the tuple otherwise. */
  function Normalise(cfg: QualConfig, qs: seq<Qualifier>): Quals {
    if cfg.multiple && !cfg.ordered then QSet(set x | x in qs) else QSeq(qs)
  }

  /** A placeholder is always permitted; a class must subtype some allowed class. */
  predicate Permitted(h: Hierarchy, allowed: seq<FType>, x: Qualifier) {
    x.Wildcard? || exists a | a in allowed :: IsSubtypeOf(h, x.t, a)
  }

  /** The `not_allowed` list, in argument order. */
  function Disallowed(h: Hierarchy, allowed: seq<FType>, qs: seq<Qualifier>): (r: seq<Qualifier>)
    ensures forall x :: x in r <==> x in qs && !Permitted(h, allowed, x)
    ensures |r| <= |qs|
  {
    if |qs| == 0 then []
    else
      var rest := Disallowed(h, allowed, qs[1..]);
      assert forall x :: x in qs <==> x == qs[0] || x in qs[1..];
      if Permitted(h, allowed, qs[0]) then rest else [qs[0]] + rest
  }

  /** The qualifiers that `Counter` sees more than once. */
  function Repeated(qs: seq<Qualifier>): set<Qualifier> {
    set x | x in qs && multiset(qs)[x] > 1
  }

  /** `x` occurs at two different positions of `qs`. */
  predicate Duplicated(qs: seq<Qualifier>, x: Qualifier) {
    exists i, j | 0 <= i < j < |qs| :: qs[i] == x && qs[j] == x
  }

  /**
   * `__class_getitem__`: returns the qualified class and the updated cache.
   * The cache is consulted only after validation, and a hit returns the
   * memoised class unchanged.
   */
  function Qualify(h: Hierarchy, cache: Cache, b: BaseId, qs: seq<Qualifier>): (r: Result<(FType, Cache), Error>)
    // allowed_qualifiers rejects exactly the classes that subtype no allowed class
    ensures (|Config(h, b).allowed| > 0 && exists x | x in qs :: !Permitted(h, Config(h, b).allowed, x))
        <==> r.Failure? && r.error.InvalidQualifiers?
    ensures r.Failure? && r.error.InvalidQualifiers? ==>
              forall x :: x in r.error.notAllowed <==> x in qs && !Permitted(h, Config(h, b).allowed, x)
    // repeats are rejected only on unordered multi-qualifier bases
    ensures r.Failure? && r.error.RepeatedQualifiers? <==>
              && !(|Config(h, b).allowed| > 0 && exists x | x in qs :: !Permitted(h, Config(h, b).allowed, x))
              && Config(h, b).multiple && !Config(h, b).ordered
              && exists x | x in qs :: Duplicated(qs, x)
    ensures r.Failure? && r.error.RepeatedQualifiers? ==>
              forall x :: x in r.error.repeated <==> x in qs && Duplicated(qs, x)
    ensures r.Failure? ==> r.error.InvalidQualifiers? || r.error.RepeatedQualifiers?
    // the key is the normalised collection; the result is cached under it and nothing else changes
    ensures r.Success? ==>
              var key := Normalise(Config(h, b), qs);
              var (t, cache') := r.value;
              && b in cache' && key in cache'[b] && cache'[b][key] == t
              && (b in cache ==> forall k | k in cache[b] :: k in cache'[b] && cache'[b][k] == cache[b][k])
              && (forall o | o != b :: (o in cache <==> o in cache') && (o in cache ==> cache'[o] == cache[o]))
              && (b in cache && key in cache[b] ==> cache' == cache && t == cache[b][key])
              && (CacheCoherent(cache) ==> CacheCoherent(cache') && t == Qualified(b, key))
  {
    var cfg := Config(h, b);
    var bad := Disallowed(h, cfg.allowed, qs);
    if |cfg.allowed| > 0 && |bad| > 0 then
      assert bad[0] in bad;
      Failure(InvalidQualifiers(bad))
    else if cfg.multiple && !cfg.ordered && Repeated(qs) != {} then
      RepeatedIsDuplicated(qs);
      Failure(RepeatedQualifiers(Repeated(qs)))
    else
      RepeatedIsDuplicated(qs);
      var key := Normalise(cfg, qs);
      var own := if b in cache then cache[b] else map[];
      if key in own then
        Success((own[key], cache))
      else
        var t := Qualified(b, key);
        Success((t, cache[b := own[key := t]]))
  }

  /** Counter's notion of a repeat is an element at two positions. */
  lemma RepeatedIsDuplicated(qs: seq<Qualifier>)
    ensures forall x :: x in Repeated(qs) <==> x in qs && Duplicated(qs, x)
  {
    forall x | x in qs
      ensures multiset(qs)[x] > 1 <==> Duplicated(qs, x)
    {
      CountAboveOne(qs, x);
    }
  }

  lemma {:induction false} CountAboveOne(qs: seq<Qualifier>, x: Qualifier)
    ensures multiset(qs)[x] > 1 <==> Duplicated(qs, x)
  {
    if |qs| > 0 {
      var t := qs[1..];
      assert qs == [qs[0]] + t;
      assert multiset(qs)[x] == (if qs[0] == x then 1 else 0) + multiset(t)[x];
      CountAboveOne(t, x);
      if multiset(qs)[x] > 1 {
        if qs[0] == x {
          assert x in multiset(t);
          var j :| 0 <= j < |t| && t[j] == x;
          assert qs[0] == x && qs[j + 1] == x;
        } else {
          var i, j :| 0 <= i < j < |t| && t[i] == x && t[j] == x;
          assert qs[i + 1] == x && qs[j + 1] == x;
        }
      }
      if Duplicated(qs, x) {
        var i, j :| 0 <= i < j < |qs| && qs[i] == x && qs[j] == x;
        if i == 0 {
          assert t[j - 1] == x;
          assert x in multiset(t);
        } else {
          assert t[i - 1] == x && t[j - 1] == x;
        }
      }
    }
  }

  /**
   * Qualifying twice with the same arguments gives the same class, and the
   * second call leaves the cache as the first call left it.
   */
  lemma QualifyIdempotent(h: Hierarchy, cache: Cache, b: BaseId, qs: seq<Qualifier>)
    requires Qualify(h, cache, b, qs).Success?
    ensures var (t, cache') := Qualify(h, cache, b, qs).value;
            Qualify(h, cache', b, qs) == Success((t, cache'))
  {
  }

  /**
   * On an unordered multi-qualifier base the order of the arguments does not
   * matter: `F[A, B] is F[B, A]`.
   */
  lemma UnorderedIgnoresOrder(h: Hierarchy, cache: Cache, b: BaseId, qs1: seq<Qualifier>, qs2: seq<Qualifier>)
    requires Config(h, b).multiple && !Config(h, b).ordered
    requires multiset(qs1) == multiset(qs2)
    ensures Qualify(h, cache, b, qs1).Success? <==> Qualify(h, cache, b, qs2).Success?
    ensures Qualify(h, cache, b, qs1).Success? ==> Qualify(h, cache, b, qs1) == Qualify(h, cache, b, qs2)
  {
    var cfg := Config(h, b);
    assert forall x :: x in qs1 <==> x in qs2 by {
      forall x ensures x in qs1 <==> x in qs2 {
        assert x in qs1 <==> x in multiset(qs1);
        assert x in qs2 <==> x in multiset(qs2);
      }
    }
    var bad1 := Disallowed(h, cfg.allowed, qs1);
    var bad2 := Disallowed(h, cfg.allowed, qs2);
    assert |bad1| > 0 <==> |bad2| > 0 by {
      if |bad1| > 0 { assert bad1[0] in bad2; }
      if |bad2| > 0 { assert bad2[0] in bad1; }
    }
    assert Repeated(qs1) == Repeated(qs2);
    assert (set x | x in qs1) == (set x | x in qs2);
  }

  /**
   * On an ordered base different argument tuples give different classes:
   * `K[A, B] is not K[B, A]`.
   */
  lemma OrderedKeepsOrder(h: Hierarchy, cache: Cache, b: BaseId, qs1: seq<Qualifier>, qs2: seq<Qualifier>)
    requires Config(h, b).ordered && CacheCoherent(cache) && qs1 != qs2
    requires Qualify(h, cache, b, qs1).Success? && Qualify(h, cache, b, qs2).Success?
    ensures Qualify(h, cache, b, qs1).value.0 != Qualify(h, cache, b, qs2).value.0
  {
  }

  /**
   * Nothing in the shown code limits a single-qualifier base to one
   * qualifier: without an allowed list every argument tuple is accepted.
   */
  lemma SingleQualifierNotEnforced(h: Hierarchy, cache: Cache, b: BaseId, qs: seq<Qualifier>)
    requires !Config(h, b).multiple && |Config(h, b).allowed| == 0
    ensures Qualify(h, cache, b, qs).Success?
  {
  }
}
