/**
 * Template converters between qualified formats (`register_converter` and
 * `get_converter_tuples` of the qualifier mixin, mixin.py:311-397, 416-482).
 *
 * A converter registered to a target with wildcard qualifiers, e.g.
 * `F[T] -> N[T]`, is stored with the target's qualifiers in the registry of
 * the target's base and later instantiated for concrete qualifiers:
 * `F[A] -> N[A]`. The source of a registration is either a placeholder
 * (a conversion from any type, `T -> F[T]`) or a qualified format.
 *
 * The registry the lookup reads (`get_converters_dict(cls.unqualified)`) is
 * taken to be the one the registration writes: one registry per base.
 * Plain two-element converters stored in the same registry are skipped by
 * the lookup and are not represented here.
 */
module TemplateRegistry {
  import opened Wrappers
  import opened FormatTypes
  import opened Subtyping
  import opened Collections
  import opened Converters

  /** A stored registration: the converter and the target's qualifiers. */
  datatype Template = Template(conv: ConvTuple, quals: Quals)

  /**
   * The template registrations of one base, keyed by source: a placeholder
   * for a conversion from a generic type, a qualified format otherwise.
   */
  type Entries = Dict<Qualifier, Template>

  type Templates = map<BaseId, Entries>

  function TemplatesAt(reg: Templates, b: BaseId): Entries {
    if b in reg then reg[b] else []
  }

  /** Where a registration ended up: stored here, or passed to the plain registry. */
  datatype Registration = Stored(templates: Templates) | Delegated

  /**
   * What registration guarantees of every entry: a placeholder source goes with
   * a single target wildcard; a format source is qualified and carries
   * exactly the target's wildcards.
   */
  predicate EntryShaped(key: Qualifier, tmpl: Template) {
    match key
    case Wildcard(_, _) => |Wildcards(tmpl.quals)| == 1
    case Concrete(s) => s.Qualified? && Wildcards(tmpl.quals) == Wildcards(s.quals) && Wildcards(tmpl.quals) != {}
  }

  predicate WellShaped(reg: Templates) {
    forall b, e | b in reg && e in reg[b] :: EntryShaped(e.0, e.1)
  }

  /** The format-source entries in the same slot as `s`. */
  predicate Occupies(key: Qualifier, s: FType) {
    key.Concrete? && ClassKey(key.t) == ClassKey(s)
  }

  /** `converters_dict[source_format] = converter_tuple + (cls.qualifiers,)`. */
  function Store(reg: Templates, target: FType, source: Qualifier, conv: ConvTuple): (r: Templates)
    ensures Get(TemplatesAt(r, target.BaseOf()), source) == Some(Template(conv, TypeQuals(target)))
    ensures forall k | k != source :: Get(TemplatesAt(r, target.BaseOf()), k) == Get(TemplatesAt(reg, target.BaseOf()), k)
    ensures forall o | o != target.BaseOf() :: TemplatesAt(r, o) == TemplatesAt(reg, o)
  {
    var b := target.BaseOf();
    var entries := TemplatesAt(reg, b);
    var tmpl := Template(conv, TypeQuals(target));
    forall k ensures Get(Put(entries, source, tmpl), source) == Some(tmpl)
                 && (k != source ==> Get(Put(entries, source, tmpl), k) == Get(entries, k)) {
      PutGet(entries, source, tmpl, k);
    }
    reg[b := Put(entries, source, tmpl)]
  }

  /** The qualifiers of a class; an unqualified class has the empty tuple. */
  function TypeQuals(t: FType): Quals {
    match t
    case Base(_) => QSeq([])
    case Qualified(_, q) => q
  }

  /**
   * The checks a format source passes before the slot scan: it is qualified
   * and carries the same wildcards as the target.
   */
  predicate FormatSourceScreened(target: FType, source: Qualifier) {
    && TypeWildcards(target) != {}
    && source.Concrete? && source.t.Qualified?
    && TypeWildcards(target) == TypeWildcards(source.t)
  }

  /**
   * `register_converter` with the duplicate scan repaired: a format source
   * whose slot is already taken is rejected, whatever converter holds it.
   */
  function Register(reg: Templates, target: FType, source: Qualifier, conv: ConvTuple): (r: Result<Registration, Error>)
    // non-wildcard targets go to the plain registry
    ensures r == Success(Delegated) <==> TypeWildcards(target) == {}
    ensures r == Failure(TooManyWildcards) <==> source.Wildcard? && |TypeWildcards(target)| > 1
    ensures r == Failure(UngenericSource) <==> TypeWildcards(target) != {} && source.Concrete? && !source.t.Qualified?
    ensures r == Failure(MismatchedWildcards) <==>
              && TypeWildcards(target) != {} && source.Concrete? && source.t.Qualified?
              && TypeWildcards(target) != TypeWildcards(source.t)
    ensures r == Failure(ConverterConflict) <==>
              && FormatSourceScreened(target, source)
              && exists e | e in TemplatesAt(reg, target.BaseOf()) :: Occupies(e.0, source.t)
    ensures r.Failure? ==> r.error in {TooManyWildcards, UngenericSource, MismatchedWildcards, ConverterConflict}
    // otherwise the source now maps to the converter and the target's qualifiers
    ensures r.Success? && r.value.Stored? ==>
              && Get(TemplatesAt(r.value.templates, target.BaseOf()), source) == Some(Template(conv, TypeQuals(target)))
              && (forall k | k != source ::
                    Get(TemplatesAt(r.value.templates, target.BaseOf()), k) == Get(TemplatesAt(reg, target.BaseOf()), k))
              && (forall o | o != target.BaseOf() :: TemplatesAt(r.value.templates, o) == TemplatesAt(reg, o))
  {
    var ws := TypeWildcards(target);
    if ws == {} then Success(Delegated)
    else
      match source
      case Wildcard(_, _) =>
        if |ws| > 1 then Failure(TooManyWildcards) else Success(Stored(Store(reg, target, source, conv)))
      case Concrete(s) =>
        if !s.Qualified? then Failure(UngenericSource)
        else if ws != TypeWildcards(s) then Failure(MismatchedWildcards)
        else if exists e | e in TemplatesAt(reg, target.BaseOf()) :: Occupies(e.0, s) then Failure(ConverterConflict)
        else Success(Stored(Store(reg, target, source, conv)))
  }

  /**
   * `register_converter` as written: the duplicate scan for a format source
   * takes `len` of a generator expression, which raises TypeError before the
   * registry is touched.
   */
  function RegisterAsWritten(reg: Templates, target: FType, source: Qualifier, conv: ConvTuple): (r: Result<Registration, Error>)
    ensures FormatSourceScreened(target, source) ==> r == Failure(BadOperand)
    ensures !FormatSourceScreened(target, source) ==> r == Register(reg, target, source, conv)
  {
    if FormatSourceScreened(target, source) then Failure(BadOperand)
    else Register(reg, target, source, conv)
  }

  /**
   * As written, no template between two formats can ever be registered: only
   * conversions from a placeholder reach the registry.
   */
  lemma AsWrittenStoresOnlyPlaceholders(reg: Templates, target: FType, source: Qualifier, conv: ConvTuple)
    requires source.Concrete?
    ensures RegisterAsWritten(reg, target, source, conv).Success? ==>
              RegisterAsWritten(reg, target, source, conv) == Success(Delegated)
  {
  }

  /** Registration only ever adds well-shaped entries. */
  lemma RegisterKeepsWellShaped(reg: Templates, target: FType, source: Qualifier, conv: ConvTuple)
    requires WellShaped(reg)
    requires Register(reg, target, source, conv).Success?
    requires Register(reg, target, source, conv).value.Stored?
    ensures WellShaped(Register(reg, target, source, conv).value.templates)
  {
    var m := Register(reg, target, source, conv).value.templates;
    if m != reg {
      var b := target.BaseOf();
      var tmpl := Template(conv, TypeQuals(target));
      assert m == reg[b := Put(TemplatesAt(reg, b), source, tmpl)];
      PutEntries(TemplatesAt(reg, b), source, tmpl);
      assert EntryShaped(source, tmpl);
    }
  }

  // ---------------------------------------------------------------------------
  // Lookup

  /** The iteration order of a qualifier collection; a frozenset's is given by `iter`. */
  function Items(q: Quals, iter: set<Qualifier> -> seq<Qualifier>): seq<Qualifier> {
    match q
    case QSeq(items) => items
    case QSet(members) => iter(members)
  }

  /**
   * The entry keyed by the placeholder `key` (a conversion from a generic
   * type): the target must leave exactly one qualifier outside the
   * template's non-wildcards, and the source must be a subtype of it.
   */
  function GenericEntry(h: Hierarchy, target: FType, source: FType, key: Qualifier, tmpl: Template): (r: Result<bool, Error>)
    requires target.Qualified?
    ensures r == Success(true) <==>
              && Wildcards(tmpl.quals) == {key}
              && exists q :: Members(target.quals) - NonWildcards(tmpl.quals) == {q} && QualSubtype(h, Concrete(source), q)
    // the placeholder must be the template's only wildcard
    ensures r == Failure(AssertionFailed) <==> Wildcards(tmpl.quals) != {key}
    // `to_match[0]` on an empty tuple
    ensures r == Failure(IndexOutOfRange) <==>
              Wildcards(tmpl.quals) == {key} && Members(target.quals) <= NonWildcards(tmpl.quals)
    ensures r.Failure? ==> r.error == AssertionFailed || r.error == IndexOutOfRange
  {
    if Wildcards(tmpl.quals) != {key} then Failure(AssertionFailed)
    else
      var toMatch := Members(target.quals) - NonWildcards(tmpl.quals);
      if |toMatch| > 1 then
        assert forall q :: toMatch != {q};
        Success(false)
      else if |toMatch| == 0 then
        assert forall x | x in Members(target.quals) :: x in NonWildcards(tmpl.quals) by {
          forall x | x in Members(target.quals) ensures x in NonWildcards(tmpl.quals) {
            assert x !in toMatch;
          }
        }
        Failure(IndexOutOfRange)
      else
        var q := Only(toMatch);
        assert forall q' :: toMatch == {q'} ==> q' == q;
        Success(QualSubtype(h, Concrete(source), q))
  }

  /**
   * `wildcard_map`: each placeholder among `templates` bound to the actual at
   * the same position, the last position winning (`zip` stops at the shorter).
   */
  function Bind(actuals: seq<Qualifier>, templates: seq<Qualifier>): (m: map<Qualifier, Qualifier>)
    ensures forall k | k in m :: k.Wildcard?
  {
    if |actuals| == 0 || |templates| == 0 then map[]
    else
      var rest := Bind(actuals[1..], templates[1..]);
      var t := templates[0];
      if t.Wildcard? && t !in rest then
        rest[t := actuals[0]]
      else
        rest
  }

  /** Position `i` is the last position `zip` reaches where `templates` holds `k`. */
  predicate LastAt(actuals: seq<Qualifier>, templates: seq<Qualifier>, k: Qualifier, i: int) {
    && 0 <= i < |actuals| && i < |templates| && templates[i] == k
    && forall j | i < j < |actuals| && j < |templates| :: templates[j] != k
  }

  /**
   * The map binds exactly the placeholders at positions `zip` reaches, each
   * to the actual at the last such position.
   */
  lemma {:induction false} BindMeaning(actuals: seq<Qualifier>, templates: seq<Qualifier>)
    ensures forall k :: k in Bind(actuals, templates) <==>
              k.Wildcard? && exists i | 0 <= i < |actuals| && i < |templates| :: templates[i] == k
    ensures forall k | k in Bind(actuals, templates) ::
              exists i :: LastAt(actuals, templates, k, i) && Bind(actuals, templates)[k] == actuals[i]
  {
    if |actuals| > 0 && |templates| > 0 {
      var a', t' := actuals[1..], templates[1..];
      BindMeaning(a', t');
      var rest := Bind(a', t');
      var m := Bind(actuals, templates);
      var t := templates[0];
      assert forall i | 0 <= i < |a'| && i < |t'| :: a'[i] == actuals[i + 1] && t'[i] == templates[i + 1];
      // a binding of the tail is a binding of the whole, one position later
      forall k, i | LastAt(a', t', k, i) ensures LastAt(actuals, templates, k, i + 1) {
        forall j | i + 1 < j < |actuals| && j < |templates| ensures templates[j] != k {
          assert t'[j - 1] != k;
        }
      }
      forall k ensures k in m <==> k.Wildcard? && exists i | 0 <= i < |actuals| && i < |templates| :: templates[i] == k {
        if k.Wildcard? && (exists i | 0 <= i < |actuals| && i < |templates| :: templates[i] == k) && k != t {
          var i :| 0 <= i < |actuals| && i < |templates| && templates[i] == k;
          assert i > 0 && t'[i - 1] == k;
        }
        if k in rest {
          var i :| 0 <= i < |a'| && i < |t'| && t'[i] == k;
          assert templates[i + 1] == k;
        }
      }
      forall k | k in m ensures exists i :: LastAt(actuals, templates, k, i) && m[k] == actuals[i] {
        if k in rest && m[k] == rest[k] {
          var i :| LastAt(a', t', k, i) && rest[k] == a'[i];
          assert LastAt(actuals, templates, k, i + 1);
        } else {
          assert k == t && t !in rest && m[k] == actuals[0];
          forall j | 0 < j < |actuals| && j < |templates| ensures templates[j] != k {
            assert t'[j - 1] == templates[j];
          }
          assert LastAt(actuals, templates, k, 0);
        }
      }
    }
  }

  /**
   * One position of the ordered comparison: the target's qualifier is a
   * subtype of the template's, or the template has a placeholder there and
   * the qualifier is a subtype of what the source bound to that placeholder.
   */
  predicate PositionOk(h: Hierarchy, actual: Qualifier, template: Qualifier, wmap: map<Qualifier, Qualifier>) {
    || QualSubtype(h, actual, template)
    || (template.Wildcard? && template in wmap && QualSubtype(h, actual, wmap[template]))
  }

  /** The same position as written: the binding is looked up under the actual qualifier. */
  predicate PositionOkAsWritten(h: Hierarchy, actual: Qualifier, template: Qualifier, wmap: map<Qualifier, Qualifier>) {
    || QualSubtype(h, actual, template)
    || (template.Wildcard? && actual in wmap && QualSubtype(h, actual, wmap[actual]))
  }

  /** Both qualifier tuples have their template's length. */
  predicate LengthsAgree(target: FType, source: FType, ks: FType, tmpl: Template)
    requires target.Qualified? && source.Qualified? && ks.Qualified?
  {
    Size(target.quals) == Size(tmpl.quals) && Size(source.quals) == Size(ks.quals)
  }

  /** The ordered comparison, position by position after binding the source's placeholders. */
  predicate OrderedMatch(h: Hierarchy, target: FType, source: FType, ks: FType, tmpl: Template, iter: set<Qualifier> -> seq<Qualifier>)
    requires target.Qualified? && source.Qualified? && ks.Qualified?
  {
    && LengthsAgree(target, source, ks, tmpl)
    && var wmap := Bind(Items(source.quals, iter), Items(ks.quals, iter));
       var actuals := Items(target.quals, iter);
       var templates := Items(tmpl.quals, iter);
       forall i | 0 <= i < |actuals| && i < |templates| :: PositionOk(h, actuals[i], templates[i], wmap)
  }

  /** The ordered comparison as written. */
  predicate OrderedMatchAsWritten(h: Hierarchy, target: FType, source: FType, ks: FType, tmpl: Template, iter: set<Qualifier> -> seq<Qualifier>)
    requires target.Qualified? && source.Qualified? && ks.Qualified?
  {
    && LengthsAgree(target, source, ks, tmpl)
    && var wmap := Bind(Items(source.quals, iter), Items(ks.quals, iter));
       var actuals := Items(target.quals, iter);
       var templates := Items(tmpl.quals, iter);
       forall i | 0 <= i < |actuals| && i < |templates| :: PositionOkAsWritten(h, actuals[i], templates[i], wmap)
  }

  /**
   * The unordered comparison: both templates' concrete qualifiers are present,
   * and what the target has beyond its template is among what the source has
   * beyond its own.
   */
  predicate UnorderedMatch(target: FType, source: FType, ks: FType, tmpl: Template)
    requires target.Qualified? && source.Qualified? && ks.Qualified?
  {
    && NonWildcards(tmpl.quals) <= Members(target.quals)
    && NonWildcards(ks.quals) <= Members(source.quals)
    && Members(target.quals) - NonWildcards(tmpl.quals) <= Members(source.quals) - NonWildcards(ks.quals)
  }

  /** The entry keyed by the template source format `ks`. */
  function TemplateEntry(h: Hierarchy, target: FType, source: FType, ks: FType, tmpl: Template, iter: set<Qualifier> -> seq<Qualifier>): Result<bool, Error>
    requires target.Qualified? && source.Qualified?
  {
    if !ks.Qualified? then Failure(MissingAttribute)
    // the unqualified bases are compared with `is_subtype_of`, i.e. by ancestry
    else if !Descends(h, source.base, ks.base) then Success(false)
    else if Wildcards(tmpl.quals) != Wildcards(ks.quals) then Failure(AssertionFailed)
    else if Config(h, target.base).ordered then Success(OrderedMatch(h, target, source, ks, tmpl, iter))
    else Success(UnorderedMatch(target, source, ks, tmpl))
  }

  /**
   * The entry keyed by `ks` exactly as written. The flag is set before the
   * branches, and when the source's base does not descend from the template
   * source's base neither branch runs, so the converter is kept; the ordered
   * branch looks bindings up under the actual qualifier.
   */
  function TemplateEntryAsWritten(h: Hierarchy, target: FType, source: FType, ks: FType, tmpl: Template, iter: set<Qualifier> -> seq<Qualifier>): (r: Result<bool, Error>)
    requires target.Qualified? && source.Qualified?
    ensures r.Failure? <==> TemplateEntry(h, target, source, ks, tmpl, iter).Failure?
    // an unrelated source is accepted, where the repaired comparison refuses it
    ensures ks.Qualified? && !Descends(h, source.base, ks.base) ==>
              r == Success(true) && TemplateEntry(h, target, source, ks, tmpl, iter) == Success(false)
    // on a related source with unordered qualifiers both agree
    ensures ks.Qualified? && Descends(h, source.base, ks.base) && !Config(h, target.base).ordered ==>
              r == TemplateEntry(h, target, source, ks, tmpl, iter)
  {
    if !ks.Qualified? then Failure(MissingAttribute)
    else if !Descends(h, source.base, ks.base) then Success(true)
    else if Wildcards(tmpl.quals) != Wildcards(ks.quals) then Failure(AssertionFailed)
    else if Config(h, target.base).ordered then Success(OrderedMatchAsWritten(h, target, source, ks, tmpl, iter))
    else Success(UnorderedMatch(target, source, ks, tmpl))
  }

  /** The decision of the lookup loop for one registry entry. */
  function EntryOutcome(h: Hierarchy, target: FType, source: FType, iter: set<Qualifier> -> seq<Qualifier>, key: Qualifier, tmpl: Template): Result<bool, Error>
    requires target.Qualified? && source.Qualified?
  {
    match key
    case Wildcard(_, _) => GenericEntry(h, target, source, key, tmpl)
    case Concrete(ks) => TemplateEntry(h, target, source, ks, tmpl, iter)
  }

  /** The decision for one registry entry as written. */
  function EntryOutcomeAsWritten(h: Hierarchy, target: FType, source: FType, iter: set<Qualifier> -> seq<Qualifier>, key: Qualifier, tmpl: Template): Result<bool, Error>
    requires target.Qualified? && source.Qualified?
  {
    match key
    case Wildcard(_, _) => GenericEntry(h, target, source, key, tmpl)
    case Concrete(ks) => TemplateEntryAsWritten(h, target, source, ks, tmpl, iter)
  }

  /**
   * `cls.get_converter_tuples(source_format)` for target `cls`: the plain
   * registry's answer `plain` when it has one or when either format is
   * unqualified; otherwise the converters of every matching template.
   */
  function GetConverterTuples(h: Hierarchy, reg: Templates, target: FType, source: FType, plain: seq<ConvTuple>, iter: set<Qualifier> -> seq<Qualifier>): (r: Result<seq<ConvTuple>, Error>)
    ensures |plain| > 0 || !target.Qualified? || !source.Qualified? ==> r == Success(plain)
    ensures |plain| == 0 && target.Qualified? && source.Qualified? ==>
              var entries := TemplatesAt(reg, target.base);
              && (r.Success? <==> forall i | 0 <= i < |entries| :: EntryOutcome(h, target, source, iter, entries[i].0, entries[i].1).Success?)
              && (r.Success? ==>
                    forall c :: c in r.value <==>
                      exists i | 0 <= i < |entries| ::
                        EntryOutcome(h, target, source, iter, entries[i].0, entries[i].1) == Success(true) && entries[i].1.conv == c)
  {
    if |plain| > 0 || !target.Qualified? || !source.Qualified? then Success(plain)
    else
      Gather(TemplatesAt(reg, target.base),
             (key, tmpl) => EntryOutcome(h, target, source, iter, key, tmpl),
             (tmpl: Template) => tmpl.conv)
  }

  /**
   * The lookup as written: the same scan, with every entry decided as the
   * code decides it. Any converter it reports comes from an entry it accepted.
   */
  function GetConverterTuplesAsWritten(h: Hierarchy, reg: Templates, target: FType, source: FType, plain: seq<ConvTuple>, iter: set<Qualifier> -> seq<Qualifier>): (r: Result<seq<ConvTuple>, Error>)
    ensures |plain| > 0 || !target.Qualified? || !source.Qualified? ==> r == Success(plain)
    ensures |plain| == 0 && target.Qualified? && source.Qualified? ==>
              var entries := TemplatesAt(reg, target.base);
              && (r.Success? <==> forall i | 0 <= i < |entries| :: EntryOutcome(h, target, source, iter, entries[i].0, entries[i].1).Success?)
              && (r.Success? ==>
                    forall c :: c in r.value <==>
                      exists i | 0 <= i < |entries| ::
                        EntryOutcomeAsWritten(h, target, source, iter, entries[i].0, entries[i].1) == Success(true) && entries[i].1.conv == c)
  {
    if |plain| > 0 || !target.Qualified? || !source.Qualified? then Success(plain)
    else
      var entries := TemplatesAt(reg, target.base);
      assert forall i | 0 <= i < |entries| ::
               EntryOutcomeAsWritten(h, target, source, iter, entries[i].0, entries[i].1).Success?
               == EntryOutcome(h, target, source, iter, entries[i].0, entries[i].1).Success?;
      Gather(entries,
             (key, tmpl) => EntryOutcomeAsWritten(h, target, source, iter, key, tmpl),
             (tmpl: Template) => tmpl.conv)
  }

  /**
   * A well-shaped format-source entry never raises: it matches exactly when
   * the source's base descends from the template source's base and the
   * qualifiers compare as the target's ordering demands.
   */
  lemma TemplateEntryMeaning(h: Hierarchy, target: FType, source: FType, ks: FType, tmpl: Template, iter: set<Qualifier> -> seq<Qualifier>)
    requires target.Qualified? && source.Qualified?
    requires EntryShaped(Concrete(ks), tmpl)
    ensures TemplateEntry(h, target, source, ks, tmpl, iter).Success?
    ensures TemplateEntry(h, target, source, ks, tmpl, iter) == Success(true) <==>
              && Descends(h, source.base, ks.base)
              && (if Config(h, target.base).ordered then OrderedMatch(h, target, source, ks, tmpl, iter)
                  else UnorderedMatch(target, source, ks, tmpl))
  {
  }

  /** On an ordered target any length mismatch rules the template out. */
  lemma OrderedLengthMismatch(h: Hierarchy, target: FType, source: FType, ks: FType, tmpl: Template, iter: set<Qualifier> -> seq<Qualifier>)
    requires target.Qualified? && source.Qualified? && ks.Qualified?
    requires Config(h, target.base).ordered
    requires Size(target.quals) != Size(tmpl.quals) || Size(source.quals) != Size(ks.quals)
    ensures TemplateEntry(h, target, source, ks, tmpl, iter) != Success(true)
  {
  }

  /**
   * Every position of an ordered match is justified either directly or by a
   * placeholder of the template source: the target's qualifier is then a
   * subtype of the source's qualifier at the last position that placeholder
   * occupies.
   */
  lemma OrderedMatchSound(h: Hierarchy, target: FType, source: FType, ks: FType, tmpl: Template, iter: set<Qualifier> -> seq<Qualifier>)
    requires target.Qualified? && source.Qualified? && ks.Qualified?
    requires OrderedMatch(h, target, source, ks, tmpl, iter)
    ensures var actuals := Items(target.quals, iter);
            var templates := Items(tmpl.quals, iter);
            var srcActuals := Items(source.quals, iter);
            var srcTemplates := Items(ks.quals, iter);
            forall i | 0 <= i < |actuals| && i < |templates| ::
              || QualSubtype(h, actuals[i], templates[i])
              || exists j | 0 <= j < |srcActuals| && j < |srcTemplates| ::
                   && srcTemplates[j] == templates[i] && templates[i].Wildcard?
                   && QualSubtype(h, actuals[i], srcActuals[j])
  {
    var srcActuals := Items(source.quals, iter);
    var srcTemplates := Items(ks.quals, iter);
    var wmap := Bind(srcActuals, srcTemplates);
    BindMeaning(srcActuals, srcTemplates);
    var actuals := Items(target.quals, iter);
    var templates := Items(tmpl.quals, iter);
    forall i | 0 <= i < |actuals| && i < |templates| && !QualSubtype(h, actuals[i], templates[i])
      ensures exists j | 0 <= j < |srcActuals| && j < |srcTemplates| ::
                && srcTemplates[j] == templates[i] && templates[i].Wildcard?
                && QualSubtype(h, actuals[i], srcActuals[j])
    {
      assert PositionOk(h, actuals[i], templates[i], wmap);
      var j :| LastAt(srcActuals, srcTemplates, templates[i], j) && wmap[templates[i]] == srcActuals[j];
      assert QualSubtype(h, actuals[i], srcActuals[j]);
    }
  }

  /**
   * In a well-shaped registry only placeholder entries can make the lookup
   * raise: one whose placeholder is not the template's wildcard, or one whose
   * template's concrete qualifiers cover every qualifier of the target.
   */
  lemma LookupFaults(h: Hierarchy, reg: Templates, target: FType, source: FType, plain: seq<ConvTuple>, iter: set<Qualifier> -> seq<Qualifier>)
    requires WellShaped(reg)
    requires GetConverterTuples(h, reg, target, source, plain, iter).Failure?
    ensures target.Qualified?
    ensures exists e | e in TemplatesAt(reg, target.base) ::
              && e.0.Wildcard?
              && (Wildcards(e.1.quals) != {e.0} || Members(target.quals) <= NonWildcards(e.1.quals))
  {
    var entries := TemplatesAt(reg, target.base);
    var i :| 0 <= i < |entries| && EntryOutcome(h, target, source, iter, entries[i].0, entries[i].1).Failure?;
    var e := entries[i];
    assert e in entries;
    assert EntryShaped(e.0, e.1);
    if e.0.Concrete? {
      TemplateEntryMeaning(h, target, source, e.0.t, e.1, iter);
      assert false;
    }
  }

  /**
   * As written, the ordered comparison misses a placeholder binding: for the
   * template `K[T]` from `S[T]`, the lookup `K[A]` from `S[A]` is refused,
   * though `A` is exactly what the source bound to `T`.
   */
  lemma OrderedLookupMissesBinding(h: Hierarchy, k: BaseId, s: BaseId, a: FType, t: Qualifier, conv: ConvTuple, iter: set<Qualifier> -> seq<Qualifier>)
    requires t.Wildcard?
    ensures var target := Qualified(k, QSeq([Concrete(a)]));
            var source := Qualified(s, QSeq([Concrete(a)]));
            var ks := Qualified(s, QSeq([t]));
            var tmpl := Template(conv, QSeq([t]));
            && !OrderedMatchAsWritten(h, target, source, ks, tmpl, iter)
            && OrderedMatch(h, target, source, ks, tmpl, iter)
  {
    var wmap := Bind([Concrete(a)], [t]);
    assert [Concrete(a)][1..] == [] && [t][1..] == [];
    assert Bind([], []) == map[];
    assert t in wmap && wmap[t] == Concrete(a);
    assert Concrete(a) !in wmap;
    SubtypeReflexive(h, a, Concrete(a));
  }
}
