/**
 * Content checks of the container formats: a typed set of files
 * (`TypedSet`, set.py:10-40) and a directory (`Directory`, directory.py:11-84),
 * each constrained by a list of content types.
 *
 * Content types and paths are type parameters. Whether a type matches a path
 * (`content_type.matches(p)`), whether constructing the type from a path
 * succeeds (`content_type([p])`), whether a path is a file, and the listing of
 * a directory are all given as functions: they read the file system, which
 * is not part of this model. A path collection is a sequence in iteration
 * order.
 */
module Contents {
  import opened Wrappers

  /** The content types that no path matches. */
  function Unmatched<T(==,!new), P(==,!new)>(types: seq<T>, paths: seq<P>, matches: (T, P) -> bool): set<T> {
    set t | t in types && forall p | p in paths :: !matches(t, p)
  }

  /** Every content type is matched by some path, or the unmatched ones are reported. */
  function Coverage<T(==,!new), P(==,!new)>(types: seq<T>, paths: seq<P>, matches: (T, P) -> bool): (r: Outcome<set<T>>)
    ensures r.Pass? <==> forall t | t in types :: exists p | p in paths :: matches(t, p)
    ensures r.Fail? ==> forall t :: t in r.error <==> t in types && forall p | p in paths :: !matches(t, p)
  {
    var missing := Unmatched(types, paths, matches);
    if missing == {} then
      assert forall t | t in types :: t !in missing;
      Pass
    else
      Fail(missing)
  }

  /**
   * One pass of the inner loop of `_validate_contents`: strikes off every
   * remaining type that `path` matches, stopping once none is left.
   */
  method Strike<T(==,!new), P>(notFound: set<T>, path: P, matches: (T, P) -> bool) returns (rest: set<T>)
    ensures rest == set t | t in notFound && !matches(t, path)
  {
    rest := notFound;
    var pending := notFound;
    while pending != {}
      invariant pending <= notFound
      invariant rest == set t | t in notFound && (t in pending || !matches(t, path))
      decreases |pending|
    {
      var t :| t in pending;
      pending := pending - {t};
      if matches(t, path) {
        rest := rest - {t};
        if rest == {} {
          return;
        }
      }
    }
  }

  /**
   * `_validate_contents`: scans the paths, striking off every still-unmatched
   * type that a path matches, and stops as soon as none is left.
   */
  method ValidateContents<T(==,!new), P(==,!new)>(types: seq<T>, paths: seq<P>, matches: (T, P) -> bool) returns (r: Outcome<set<T>>)
    ensures |types| == 0 ==> r == Pass
    ensures r.Pass? <==> forall t | t in types :: exists p | p in paths :: matches(t, p)
    ensures r.Fail? ==> forall t :: t in r.error <==> t in types && forall p | p in paths :: !matches(t, p)
    ensures r == Coverage(types, paths, matches)
  {
    if |types| == 0 {
      return Pass;
    }
    var notFound := set t | t in types;
    assert types[0] in notFound;
    var i := 0;
    while i < |paths|
      invariant 0 <= i <= |paths|
      invariant notFound == Unmatched(types, paths[..i], matches)
      invariant notFound != {}
    {
      notFound := Strike(notFound, paths[i], matches);
      assert notFound == Unmatched(types, paths[..i + 1], matches) by {
        assert paths[..i + 1] == paths[..i] + [paths[i]];
      }
      if notFound == {} {
        EarlyStop(types, paths, i + 1, matches);
        return Pass;
      }
      i := i + 1;
    }
    assert paths[..i] == paths;
    return Fail(notFound);
  }

  /** Once a prefix of the paths covers every type, so do all the paths: stopping early is sound. */
  lemma EarlyStop<T(!new), P(!new)>(types: seq<T>, paths: seq<P>, n: nat, matches: (T, P) -> bool)
    requires n <= |paths|
    requires Unmatched(types, paths[..n], matches) == {}
    ensures Coverage(types, paths, matches) == Pass
  {
    forall t | t in types ensures exists p | p in paths :: matches(t, p) {
      assert t !in Unmatched(types, paths[..n], matches);
      var p :| p in paths[..n] && matches(t, p);
      assert p in paths;
    }
  }

  /** The outcome depends only on which paths there are, not on their order or repeats. */
  lemma CoverageOrderFree<T(!new), P(!new)>(types: seq<T>, paths1: seq<P>, paths2: seq<P>, matches: (T, P) -> bool)
    requires forall p :: p in paths1 <==> p in paths2
    ensures Coverage(types, paths1, matches) == Coverage(types, paths2, matches)
  {
    assert Unmatched(types, paths1, matches) == Unmatched(types, paths2, matches);
  }

  /**
   * `TypedSet.contents`: for each content type in turn, every path from which
   * the type constructs, skipping the paths that do not match.
   */
  function Constructed<T(==,!new), P(==,!new), V(==,!new)>(types: seq<T>, paths: seq<P>, build: (T, P) -> Option<V>): seq<V> {
    if |types| == 0 then [] else Built(types[0], paths, build) + Constructed(types[1..], paths, build)
  }

  /** The contents are exactly what some content type constructs from some path. */
  lemma {:induction false} ConstructedMembers<T(!new), P(!new), V(!new)>(types: seq<T>, paths: seq<P>, build: (T, P) -> Option<V>)
    ensures forall v :: v in Constructed(types, paths, build) <==>
              exists t, p | t in types && p in paths :: build(t, p) == Some(v)
  {
    if |types| > 0 {
      ConstructedMembers(types[1..], paths, build);
      BuiltMembers(types[0], paths, build);
      assert forall t :: t in types <==> t == types[0] || t in types[1..];
    }
  }

  /** What a single content type constructs from the paths, in path order. */
  function Built<T(==,!new), P(==,!new), V(==,!new)>(t: T, paths: seq<P>, build: (T, P) -> Option<V>): (r: seq<V>)
    ensures |r| <= |paths|
  {
    if |paths| == 0 then []
    else
      var rest := Built(t, paths[1..], build);
      match build(t, paths[0])
      case Some(v) => [v] + rest
      case None => rest
  }

  /** One type's contents are exactly what it constructs from some path. */
  lemma {:induction false} BuiltMembers<T(!new), P(!new), V(!new)>(t: T, paths: seq<P>, build: (T, P) -> Option<V>)
    ensures forall v :: v in Built(t, paths, build) <==> exists p | p in paths :: build(t, p) == Some(v)
  {
    if |paths| > 0 {
      BuiltMembers(t, paths[1..], build);
      assert forall p :: p in paths <==> p == paths[0] || p in paths[1..];
    }
  }

  /** Contents come in content-type-major order: the types' lists concatenate. */
  lemma {:induction false} ConstructedAppend<T(!new), P(!new), V(!new)>(types1: seq<T>, types2: seq<T>, paths: seq<P>, build: (T, P) -> Option<V>)
    ensures Constructed(types1 + types2, paths, build) == Constructed(types1, paths, build) + Constructed(types2, paths, build)
  {
    if |types1| > 0 {
      var ts := types1 + types2;
      var head := Built(types1[0], paths, build);
      var rest1 := Constructed(types1[1..], paths, build);
      var rest2 := Constructed(types2, paths, build);
      assert Constructed(ts, paths, build) == head + (rest1 + rest2) by {
        assert ts[0] == types1[0] && ts[1..] == types1[1..] + types2;
        ConstructedAppend(types1[1..], types2, paths, build);
      }
      assert Constructed(types1, paths, build) == head + rest1;
      AppendAssociative(head, rest1, rest2);
    } else {
      assert types1 + types2 == types2;
    }
  }

  lemma AppendAssociative<V>(a: seq<V>, b: seq<V>, c: seq<V>)
    ensures a + (b + c) == (a + b) + c
  {
  }

  /** Failures of `Directory.fspath`. */
  datatype DirError<T> =
    | NoDirectory                   // every path is a file
    | MultipleDirectories           // more than one path is a directory
    | MissingContents(types: seq<T>) // content types with no constructible entry
    | NotFound(unmatched: set<T>)   // content types matched by no entry

  /** The paths that are not files, in order. */
  function Dirs<P(==,!new)>(fspaths: seq<P>, isFile: P -> bool): (r: seq<P>)
    ensures forall p :: p in r <==> p in fspaths && !isFile(p)
    ensures |r| <= |fspaths|
  {
    if |fspaths| == 0 then []
    else
      var rest := Dirs(fspaths[1..], isFile);
      assert forall p :: p in fspaths <==> p == fspaths[0] || p in fspaths[1..];
      if isFile(fspaths[0]) then rest else [fspaths[0]] + rest
  }

  /** The number of directories among the paths. */
  function DirCount<P(==,!new)>(fspaths: seq<P>, isFile: P -> bool): nat {
    if |fspaths| == 0 then 0 else (if isFile(fspaths[0]) then 0 else 1) + DirCount(fspaths[1..], isFile)
  }

  lemma {:induction false} DirsCounted<P(!new)>(fspaths: seq<P>, isFile: P -> bool)
    ensures |Dirs(fspaths, isFile)| == DirCount(fspaths, isFile)
  {
    if |fspaths| > 0 {
      DirsCounted(fspaths[1..], isFile);
    }
  }

  /** The content types, in order, that construct from none of the entries. */
  function Missing<T(==,!new), P(==,!new), V(==,!new)>(types: seq<T>, entries: seq<P>, build: (T, P) -> Option<V>): (r: seq<T>)
    ensures forall t :: t in r <==> t in types && forall p | p in entries :: build(t, p).None?
    ensures |r| <= |types|
  {
    if |types| == 0 then []
    else
      var rest := Missing(types[1..], entries, build);
      assert forall t :: t in types <==> t == types[0] || t in types[1..];
      if exists p | p in entries :: build(types[0], p).Some? then rest else [types[0]] + rest
  }

  /**
   * The missing types keep the order of `content_types`: those missing from
   * a concatenation are the first part's followed by the second's.
   */
  lemma {:induction false} MissingAppend<T(!new), P(!new), V(!new)>(types1: seq<T>, types2: seq<T>, entries: seq<P>, build: (T, P) -> Option<V>)
    ensures Missing(types1 + types2, entries, build) == Missing(types1, entries, build) + Missing(types2, entries, build)
  {
    if |types1| == 0 {
      assert types1 + types2 == types2;
    } else {
      var both := types1 + types2;
      MissingAppend(types1[1..], types2, entries, build);
      assert both[0] == types1[0] && both[1..] == types1[1..] + types2;
      var head := if exists p | p in entries :: build(types1[0], p).Some? then [] else [types1[0]];
      assert Missing(both, entries, build) == head + Missing(types1[1..] + types2, entries, build);
      assert Missing(types1, entries, build) == head + Missing(types1[1..], entries, build);
      AppendAssociative(head, Missing(types1[1..], entries, build), Missing(types2, entries, build));
    }
  }

  /**
   * `Directory.fspath`: the single directory among the paths, provided every
   * content type constructs from at least one of its entries.
   */
  function Fspath<T(==,!new), P(==,!new), V(==,!new)>(types: seq<T>, fspaths: seq<P>, isFile: P -> bool, listing: P -> seq<P>, build: (T, P) -> Option<V>): (r: Result<P, DirError<T>>)
    ensures r == Failure(NoDirectory) <==> forall p | p in fspaths :: isFile(p)
    ensures r == Failure(MultipleDirectories) <==> DirCount(fspaths, isFile) > 1
    ensures r.Failure? ==> r.error.NoDirectory? || r.error.MultipleDirectories? || r.error.MissingContents?
    ensures r.Failure? && r.error.MissingContents? ==>
              && DirCount(fspaths, isFile) == 1
              && r.error.types != []
              // in `content_types` order (`MissingAppend`)
              && r.error.types == Missing(types, listing(Dirs(fspaths, isFile)[0]), build)
              && forall t :: t in r.error.types <==>
                   t in types && forall p | p in listing(Dirs(fspaths, isFile)[0]) :: build(t, p).None?
    ensures r.Success? ==>
              && DirCount(fspaths, isFile) == 1
              && r.value in fspaths && !isFile(r.value)
              && forall t | t in types :: exists p | p in listing(r.value) :: build(t, p).Some?
  {
    var dirs := Dirs(fspaths, isFile);
    DirsCounted(fspaths, isFile);
    if |dirs| == 0 then
      assert forall p | p in fspaths :: isFile(p);
      Failure(NoDirectory)
    else if |dirs| > 1 then
      assert dirs[0] in dirs;
      Failure(MultipleDirectories)
    else
      var dir := dirs[0];
      assert dir in dirs;
      var missing := Missing(types, listing(dir), build);
      if |missing| > 0 then Failure(MissingContents(missing))
      else
        assert forall t | t in types :: t !in missing;
        Success(dir)
  }

  /**
   * `Directory._validate_contents`: nothing to check without content types;
   * otherwise the directory must resolve and every type must match an entry.
   */
  method ValidateDirectory<T(==,!new), P(==,!new), V(==,!new)>(types: seq<T>, fspaths: seq<P>, isFile: P -> bool, listing: P -> seq<P>, build: (T, P) -> Option<V>, matches: (T, P) -> bool)
    returns (r: Outcome<DirError<T>>)
    ensures |types| == 0 ==> r == Pass
    ensures |types| > 0 && Fspath(types, fspaths, isFile, listing, build).Failure? ==>
              r == Fail(Fspath(types, fspaths, isFile, listing, build).error)
    ensures |types| > 0 && Fspath(types, fspaths, isFile, listing, build).Success? ==>
              var entries := listing(Fspath(types, fspaths, isFile, listing, build).value);
              && (r.Pass? <==> forall t | t in types :: exists p | p in entries :: matches(t, p))
              && (r.Fail? ==> r.error == NotFound(Unmatched(types, entries, matches)))
  {
    if |types| == 0 {
      return Pass;
    }
    var dir := Fspath(types, fspaths, isFile, listing, build);
    if dir.Failure? {
      return Fail(dir.error);
    }
    var outcome := ValidateContents(types, listing(dir.value), matches);
    if outcome.Fail? {
      return Fail(NotFound(outcome.error));
    }
    return Pass;
  }

  /**
   * `Directory.contents`: each content type in turn against the entries of
   * the directory, which is resolved (and may fail) as soon as there is a
   * content type to look for.
   */
  function DirectoryContents<T(==,!new), P(==,!new), V(==,!new)>(types: seq<T>, fspaths: seq<P>, isFile: P -> bool, listing: P -> seq<P>, build: (T, P) -> Option<V>): (r: Result<seq<V>, DirError<T>>)
    ensures |types| == 0 ==> r == Success([])
    ensures |types| > 0 ==> (r.Success? <==> Fspath(types, fspaths, isFile, listing, build).Success?)
    ensures r.Success? && |types| > 0 ==>
              forall v :: v in r.value <==>
                exists t, p | t in types && p in listing(Fspath(types, fspaths, isFile, listing, build).value) :: build(t, p) == Some(v)
  {
    if |types| == 0 then Success([])
    else
      match Fspath(types, fspaths, isFile, listing, build)
      case Failure(e) => Failure(e)
      case Success(dir) =>
        ConstructedMembers(types, listing(dir), build);
        Success(Constructed(types, listing(dir), build))
  }

  /** `Directory.unconstrained`: the parent's answer, and no content types. */
  function Unconstrained<T>(parentUnconstrained: bool, types: seq<T>): bool {
    parentUnconstrained && |types| == 0
  }

  /** An unconstrained directory accepts any paths: validation has nothing to check. */
  method UnconstrainedValidates<T(==,!new), P(==,!new), V(==,!new)>(parentUnconstrained: bool, types: seq<T>, fspaths: seq<P>, isFile: P -> bool, listing: P -> seq<P>, build: (T, P) -> Option<V>, matches: (T, P) -> bool)
    returns (r: Outcome<DirError<T>>)
    requires Unconstrained(parentUnconstrained, types)
    ensures r == Pass
  {
    r := ValidateDirectory(types, fspaths, isFile, listing, build, matches);
  }
}
