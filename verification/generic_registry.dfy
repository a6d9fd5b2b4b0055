/**
 * The registry of converters whose target is a placeholder
 * (`SubtypeVar.converters`, converter.py:59-183): e.g. `unzip` converts
 * `Zip[T]` to `T` for whatever `T` is. Keys are template source formats with
 * one wildcard qualifier.
 */
module GenericRegistry {
  import opened Wrappers
  import opened FormatTypes
  import opened Subtyping
  import opened Collections
  import opened Converters

  /** Template source formats to converter tuples, in registration order. */
  type Registry = Dict<FType, ConvTuple>

  /** At most one entry per registration slot. */
  predicate OnePerSlot(reg: Registry) {
    forall i, j | 0 <= i < j < |reg| :: ClassKey(reg[i].0) != ClassKey(reg[j].0)
  }

  /** The entries already occupying the slot of `source` (`prev_registered`). */
  function Prior(reg: Registry, source: FType): (r: Registry)
    ensures forall e :: e in r <==> e in reg && ClassKey(e.0) == ClassKey(source)
    ensures (forall e | e in reg :: ClassKey(e.0) != ClassKey(source)) ==> r == []
  {
    if |reg| == 0 then []
    else
      assert forall e :: e in reg <==> e == reg[0] || e in reg[1..];
      (if ClassKey(reg[0].0) == ClassKey(source) then [reg[0]] else []) + Prior(reg[1..], source)
  }

  /** With one entry per slot, the scan for a previous registration finds at most one. */
  lemma {:induction false} PriorAtMostOne(reg: Registry, source: FType)
    ensures OnePerSlot(reg) ==> |Prior(reg, source)| <= 1
  {
    if |reg| > 0 && OnePerSlot(reg) {
      var rest := reg[1..];
      assert OnePerSlot(rest) by {
        forall i, j | 0 <= i < j < |rest| ensures ClassKey(rest[i].0) != ClassKey(rest[j].0) {
          assert rest[i] == reg[i + 1] && rest[j] == reg[j + 1];
        }
      }
      PriorAtMostOne(rest, source);
      if ClassKey(reg[0].0) == ClassKey(source) {
        forall e | e in rest ensures ClassKey(e.0) != ClassKey(source) {
          var k :| 0 <= k < |rest| && rest[k] == e;
          assert reg[k + 1] == e;
        }
        assert Prior(rest, source) == [];
      }
    }
  }

  /**
   * The checks that precede the slot scan: at most one wildcard, and the
   * `unclassified` attribute, which only qualified formats have, of every key
   * and of the source whenever there is a key to compare with.
   */
  predicate Screened(reg: Registry, source: FType) {
    && |TypeWildcards(source)| <= 1
    && (|reg| > 0 ==> source.Qualified? && forall i | 0 <= i < |reg| :: reg[i].0.Qualified?)
  }

  /** `SubtypeVar.register_converter`: the updated registry, or the error raised. */
  function Register(reg: Registry, source: FType, conv: ConvTuple, sameSource: (Task, Task) -> bool): (r: Result<Registry, Error>)
    ensures r == Failure(TooManyWildcards) <==> |TypeWildcards(source)| > 1
    ensures r == Failure(MissingAttribute) <==> |TypeWildcards(source)| <= 1 && !Screened(reg, source)
    ensures r.Failure? ==> r.error in {TooManyWildcards, MissingAttribute, AssertionFailed, ConverterConflict}
    ensures r == Failure(AssertionFailed) ==> !OnePerSlot(reg)
    // a duplicate of the slot's converter changes nothing
    ensures Screened(reg, source) && OnePerSlot(reg) ==>
              (r == Success(reg) <==>
                 exists e | e in reg && ClassKey(e.0) == ClassKey(source) :: SameConverter(sameSource, conv, e.1))
    // any other converter for an occupied slot is rejected
    ensures Screened(reg, source) && OnePerSlot(reg) ==>
              (r == Failure(ConverterConflict) <==>
                 exists e | e in reg && ClassKey(e.0) == ClassKey(source) :: !SameConverter(sameSource, conv, e.1))
    // a free slot receives exactly `converters[source] = conv`
    ensures Screened(reg, source) ==>
              (r == Success(reg + [(source, conv)]) <==>
                 forall e | e in reg :: ClassKey(e.0) != ClassKey(source))
  {
    if |TypeWildcards(source)| > 1 then Failure(TooManyWildcards)
    else if !Screened(reg, source) then Failure(MissingAttribute)
    else
      var prior := Prior(reg, source);
      if |prior| > 1 then
        PriorAtMostOne(reg, source);
        assert prior[0] in prior;
        Failure(AssertionFailed)
      else if |prior| == 1 then
        assert prior[0] in prior;
        assert forall e | e in reg && ClassKey(e.0) == ClassKey(source) :: e == prior[0];
        if SameConverter(sameSource, conv, prior[0].1) then Success(reg) else Failure(ConverterConflict)
      else
        assert forall e | e in reg :: ClassKey(e.0) != ClassKey(source);
        assert Get(reg, source).None?;
        Success(Put(reg, source, conv))
  }

  /** Registration keeps one entry per slot. */
  lemma RegisterKeepsOnePerSlot(reg: Registry, source: FType, conv: ConvTuple, sameSource: (Task, Task) -> bool)
    requires OnePerSlot(reg)
    requires Register(reg, source, conv, sameSource).Success?
    ensures OnePerSlot(Register(reg, source, conv, sameSource).value)
  {
    var r := Register(reg, source, conv, sameSource).value;
    if r != reg {
      assert r == reg + [(source, conv)];
      forall i | 0 <= i < |reg| ensures ClassKey(r[i].0) != ClassKey(r[|reg|].0) {
        assert r[i] in reg;
      }
    }
  }

  /**
   * `issubclass(q, target_format)` for a qualifier: a placeholder is a class
   * derived from its bound, and only another placeholder's subclass hook
   * compares bounds.
   */
  predicate Converts(h: Hierarchy, q: Qualifier, target: Qualifier) {
    QualIsSubclass(h, q, target)
  }

  /**
   * The template `key` supplies a conversion from `source` to `target`: its
   * base is a subclass of the source's base, its non-wildcard qualifiers are
   * among the source's, and one of the remaining source qualifiers is a
   * subclass of the target.
   */
  predicate Applies(h: Hierarchy, key: FType, source: FType, target: Qualifier) {
    && key.Qualified? && source.Qualified?
    && Descends(h, key.base, source.base)
    && NonWildcards(key.quals) <= Members(source.quals)
    && exists q | q in Members(source.quals) - NonWildcards(key.quals) :: Converts(h, q, target)
  }

  /**
   * A key the scan cannot get past: one without `unclassified`, or a related
   * one that does not have exactly one wildcard.
   */
  predicate Faulty(h: Hierarchy, key: FType, source: FType)
    requires source.Qualified?
  {
    !key.Qualified? || (Descends(h, key.base, source.base) && |Wildcards(key.quals)| != 1)
  }

  /** The decision the lookup loop takes for one entry. */
  function Decide(h: Hierarchy, source: FType, target: Qualifier, key: FType): (r: Result<bool, Error>)
    requires source.Qualified?
    ensures r.Failure? <==> Faulty(h, key, source)
    ensures r == Success(true) <==> !Faulty(h, key, source) && Applies(h, key, source, target)
  {
    if !key.Qualified? then Failure(MissingAttribute)
    else if !Descends(h, key.base, source.base) then Success(false)
    else if |Wildcards(key.quals)| != 1 then Failure(AssertionFailed)
    else
      var nonWild := NonWildcards(key.quals);
      if !(nonWild <= Members(source.quals)) then Success(false)
      else Success(exists q | q in Members(source.quals) - nonWild :: Converts(h, q, target))
  }

  /**
   * `SubtypeVar.get_converter_tuples`: the converters of every template that
   * applies; an unqualified source has none.
   */
  function Lookup(h: Hierarchy, reg: Registry, source: FType, target: Qualifier): (r: Result<seq<ConvTuple>, Error>)
    ensures !source.Qualified? ==> r == Success([])
    ensures r.Failure? <==> source.Qualified? && exists i | 0 <= i < |reg| :: Faulty(h, reg[i].0, source)
    ensures r.Failure? ==> r.error == MissingAttribute || r.error == AssertionFailed
    ensures r.Success? ==>
              forall c :: c in r.value <==>
                exists i | 0 <= i < |reg| :: reg[i].1 == c && Applies(h, reg[i].0, source, target)
  {
    if !source.Qualified? then Success([])
    else Gather(reg, (key, conv) => Decide(h, source, target, key), (conv: ConvTuple) => conv)
  }

  /**
   * Keys with exactly one wildcard never stop the scan, so the lookup then
   * always answers.
   */
  lemma LookupTotal(h: Hierarchy, reg: Registry, source: FType, target: Qualifier)
    requires forall i | 0 <= i < |reg| :: reg[i].0.Qualified? && |Wildcards(reg[i].0.quals)| == 1
    ensures Lookup(h, reg, source, target).Success?
  {
  }

  /**
   * `isinstance(template_source_format, WithClassifiers)` asks whether a class
   * object is an instance of the mixin, which it is not: as written, every
   * lookup from a qualified source over a non-empty registry fails.
   */
  function LookupAsWritten(h: Hierarchy, reg: Registry, source: FType, target: Qualifier): (r: Result<seq<ConvTuple>, Error>)
    ensures !source.Qualified? || |reg| == 0 ==> r == Lookup(h, reg, source, target)
    ensures source.Qualified? && |reg| > 0 ==> r == Failure(AssertionFailed)
  {
    if source.Qualified? && |reg| > 0 then Failure(AssertionFailed) else Lookup(h, reg, source, target)
  }

  /**
   * The conflict branch names the generic type by calling
   * `wildcard_classifiers` on the previous task rather than on its source
   * format; a task has no such attribute, so as written the conflict surfaces
   * as an AttributeError.
   */
  function RegisterAsWritten(reg: Registry, source: FType, conv: ConvTuple, sameSource: (Task, Task) -> bool): (r: Result<Registry, Error>)
    ensures Register(reg, source, conv, sameSource) == Failure(ConverterConflict) ==> r == Failure(MissingAttribute)
    ensures Register(reg, source, conv, sameSource) != Failure(ConverterConflict) ==> r == Register(reg, source, conv, sameSource)
  {
    var r := Register(reg, source, conv, sameSource);
    if r == Failure(ConverterConflict) then Failure(MissingAttribute) else r
  }

  /** One placeholder is a subclass of another exactly when its bound is (`__subclasshook__`). */
  lemma PlaceholderHook(h: Hierarchy, n1: string, b1: BaseId, n2: string, b2: BaseId, t: FType)
    ensures Converts(h, Wildcard(n1, b1), Wildcard(n2, b2)) <==> Descends(h, b1, b2)
    ensures !Converts(h, Concrete(t), Wildcard(n2, b2))
  {
  }
}
