/**
 * The distribution a missing optional dependency must be reinstalled with
 * (`MissingExtendedDependency.__init__`, utils.py:127-134): formats in the
 * standard namespaces ship with the core `fileformats` package, the others
 * with their own `fileformats-<namespace>` extension package.
 */
module RequiredIn {
  import opened Wrappers
  import opened FormatTypes

  /** The namespaces distributed with the core package (utils.py:164-174). */
  const StandardNamespaces: seq<string> :=
    ["archive", "audio", "document", "generic", "image", "numeric", "serialization", "text", "video"]

  predicate NoDot(s: string) {
    forall i | 0 <= i < |s| :: s[i] != '.'
  }

  /** `s.split(".")`: never empty, even for the empty string. */
  function Split(s: string): (parts: seq<string>)
    ensures |parts| >= 1
    ensures forall k | 0 <= k < |parts| :: NoDot(parts[k])
  {
    if |s| == 0 then [""]
    else
      var rest := Split(s[1..]);
      if s[0] == '.' then [""] + rest
      else
        assert NoDot([s[0]] + rest[0]);
        [[s[0]] + rest[0]] + rest[1..]
  }

  /** `".".join(parts)`. */
  function Join(parts: seq<string>): string
    requires |parts| >= 1
  {
    if |parts| == 1 then parts[0] else parts[0] + "." + Join(parts[1..])
  }

  /** Prefixing a character to the first component prefixes it to the joined text. */
  lemma JoinConsChar(c: char, parts: seq<string>)
    requires |parts| >= 1
    ensures Join([[c] + parts[0]] + parts[1..]) == [c] + Join(parts)
  {
    var q := [[c] + parts[0]] + parts[1..];
    assert q[0] == [c] + parts[0] && q[1..] == parts[1..] && |q| == |parts|;
    if |parts| > 1 {
      var tail := Join(parts[1..]);
      Associative([c], parts[0], ".");
      Associative([c], parts[0] + ".", tail);
    }
  }

  lemma Associative(a: string, b: string, c: string)
    ensures (a + b) + c == a + (b + c)
  {
  }

  /** Splitting and joining again gives back the module path. */
  lemma {:induction false} JoinSplit(s: string)
    ensures Join(Split(s)) == s
  {
    if |s| > 0 {
      JoinSplit(s[1..]);
      var rest := Split(s[1..]);
      if s[0] == '.' {
        var parts := [""] + rest;
        assert Split(s) == parts;
        assert parts[1..] == rest;
        assert Join(parts) == "" + "." + Join(rest);
        assert s == "." + s[1..];
      } else {
        assert Split(s) == [[s[0]] + rest[0]] + rest[1..];
        JoinConsChar(s[0], rest);
        assert s == [s[0]] + s[1..];
      }
    }
  }

  /** A dot-free prefix extends the first component. */
  lemma {:induction false} SplitPrefix(a: string, b: string)
    requires NoDot(a)
    ensures Split(a + b) == [a + Split(b)[0]] + Split(b)[1..]
  {
    if |a| > 0 {
      SplitPrefix(a[1..], b);
      assert (a + b)[1..] == a[1..] + b;
      var rest := Split(a[1..] + b);
      assert rest[0] == a[1..] + Split(b)[0];
      assert [a[0]] + rest[0] == a + Split(b)[0];
      assert rest[1..] == Split(b)[1..];
    } else {
      assert a + b == b;
      assert a + Split(b)[0] == Split(b)[0];
      assert Split(b) == [Split(b)[0]] + Split(b)[1..];
    }
  }

  /** Joining dot-free components and splitting again gives back the components. */
  lemma {:induction false} SplitJoin(parts: seq<string>)
    requires |parts| >= 1
    requires forall k | 0 <= k < |parts| :: NoDot(parts[k])
    ensures Split(Join(parts)) == parts
  {
    if |parts| == 1 {
      SplitPrefix(parts[0], "");
      assert parts[0] + "" == parts[0];
    } else {
      SplitJoin(parts[1..]);
      var tail := "." + Join(parts[1..]);
      SplitPrefix(parts[0], tail);
      assert tail[0] == '.' && tail[1..] == Join(parts[1..]);
      assert Split(tail) == [""] + parts[1..];
      assert parts[0] + "" == parts[0];
      assert Join(parts) == parts[0] + tail;
      assert parts == [parts[0]] + parts[1..];
    }
  }

  /** `required_in`, or the error raised for a module path outside the package. */
  function RequiredIn(modulePath: string): (r: Result<string, Error>)
    ensures r == Failure(AssertionFailed) <==> Split(modulePath)[0] != "fileformats"
    ensures r == Failure(IndexOutOfRange) <==> modulePath == "fileformats"
    ensures r.Success? ==>
              |Split(modulePath)| >= 2 &&
              var ns := Split(modulePath)[1];
              r.value == (if ns in StandardNamespaces then "fileformats" else "fileformats-" + ns)
  {
    var parts := Split(modulePath);
    JoinSplit(modulePath);
    assert NoDot("fileformats");
    SplitPrefix("fileformats", "");
    assert "fileformats" + "" == "fileformats";
    if parts[0] != "fileformats" then Failure(AssertionFailed)
    else if |parts| < 2 then Failure(IndexOutOfRange)
    else if parts[1] in StandardNamespaces then Success("fileformats")
    else Success("fileformats-" + parts[1])
  }

  /**
   * For a module `fileformats.<ns>` or `fileformats.<ns>.<...>`, the package is
   * decided by `<ns>` alone.
   */
  lemma RequiredInModule(ns: string, tail: string)
    requires NoDot(ns)
    requires tail == "" || tail[0] == '.'
    ensures RequiredIn("fileformats." + ns + tail)
            == Success(if ns in StandardNamespaces then "fileformats" else "fileformats-" + ns)
  {
    var path := "fileformats." + ns + tail;
    var after := ns + tail;
    SplitPrefix(ns, tail);
    assert Split(tail)[0] == "" by {
      if tail != "" {
        assert Split(tail) == [""] + Split(tail[1..]);
      }
    }
    assert ns + "" == ns;
    assert Split(after)[0] == ns;
    assert NoDot("fileformats");
    var dotted := "." + after;
    SplitPrefix("fileformats", dotted);
    assert dotted[0] == '.' && dotted[1..] == after;
    assert Split(dotted) == [""] + Split(after);
    assert "fileformats" + "" == "fileformats";
    assert "fileformats." == "fileformats" + ".";
    Associative("fileformats", ".", ns);
    Associative("fileformats", "." + ns, tail);
    Associative(".", ns, tail);
    assert path == "fileformats" + dotted;
    var parts := Split(path);
    assert parts == ["fileformats"] + Split(after);
    assert parts[0] == "fileformats" && |parts| >= 2 && parts[1] == ns;
  }
}
