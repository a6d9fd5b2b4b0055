/**
 * Converter tuples and the registration slot shared by both converter
 * registries.
 */
module Converters {
  import opened FormatTypes

  /**
   * A converter task. Tasks are compared only through `matching_source`,
   * which is a parameter of the registration functions.
   */
  datatype Task = Task(name: string)

  /** Keyword arguments handed to the task at initialisation time. */
  type Kwargs = map<string, string>

  /** `(task_spec, converter_kwargs)`. */
  datatype ConvTuple = ConvTuple(task: Task, kwargs: Kwargs)

  /**
   * The slot a source format occupies in a registry: its unqualified base and
   * its non-wildcard qualifiers. Two sources in the same slot are treated as
   * registrations of the same conversion.
   */
  function ClassKey(t: FType): (BaseId, set<Qualifier>) {
    (t.BaseOf(), TypeNonWildcards(t))
  }

  /**
   * A repeated registration is harmless when the task has the same origin and
   * the keyword arguments are equal (the module was merely imported twice).
   */
  predicate SameConverter(sameSource: (Task, Task) -> bool, conv: ConvTuple, prev: ConvTuple) {
    sameSource(conv.task, prev.task) && conv.kwargs == prev.kwargs
  }
}
