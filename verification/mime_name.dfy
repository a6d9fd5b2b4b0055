/**
 * The conversion between format class names and the names used in MIME-like
 * strings (`to_mime_format_name` / `from_mime_format_name`, utils.py:177-190):
 * `DicomSeries` becomes `dicom-series` and `Nifti_Gz` becomes `nifti+gz`.
 *
 * Case mapping, `[A-Z]` and `\w` are taken over ASCII: other characters are
 * left alone by every step.
 */
module MimeNames {
  import opened Wrappers
  import opened FormatTypes

  predicate IsUpper(c: char) {
    'A' <= c <= 'Z'
  }

  predicate IsLower(c: char) {
    'a' <= c <= 'z'
  }

  /** `\w`: a letter, a digit or the underscore. */
  predicate IsWord(c: char) {
    IsUpper(c) || IsLower(c) || '0' <= c <= '9' || c == '_'
  }

  function Lower(c: char): (r: char)
    ensures !IsUpper(r)
    ensures IsUpper(c) ==> IsLower(r)
    ensures !IsUpper(c) ==> r == c
  {
    if IsUpper(c) then (c as int - 'A' as int + 'a' as int) as char else c
  }

  function Upper(c: char): (r: char)
    ensures !IsLower(r)
    ensures IsLower(c) ==> IsUpper(r)
    ensures !IsLower(c) ==> r == c
  {
    if IsLower(c) then (c as int - 'a' as int + 'A' as int) as char else c
  }

  /** The two case mappings undo each other on letters. */
  lemma CaseRoundTrip(c: char)
    ensures IsUpper(c) ==> Upper(Lower(c)) == c
    ensures IsLower(c) ==> Lower(Upper(c)) == c
  {
  }

  predicate NoUpper(s: string) {
    forall i | 0 <= i < |s| :: !IsUpper(s[i])
  }

  /** `re.sub("_([A-Z])", "+" + lower)`: an underscore before a capital becomes `+`. */
  function SubUnderscore(s: string): (r: string)
    ensures forall i | 0 <= i < |r| :: r[i] != '-' || exists j | 0 <= j < |s| :: s[j] == '-'
  {
    if |s| >= 2 && s[0] == '_' && IsUpper(s[1]) then
      var rest := SubUnderscore(s[2..]);
      assert forall j | 0 <= j < |s[2..]| :: s[2..][j] == s[j + 2];
      ['+', Lower(s[1])] + rest
    else if |s| >= 1 then
      var rest := SubUnderscore(s[1..]);
      assert forall j | 0 <= j < |s[1..]| :: s[1..][j] == s[j + 1];
      [s[0]] + rest
    else
      []
  }

  /** `re.sub("([A-Z])", "-" + lower)`: every capital becomes `-` and its lower case. */
  function SubUpper(s: string): (r: string)
    ensures NoUpper(r)
  {
    if |s| == 0 then []
    else if IsUpper(s[0]) then ['-', Lower(s[0])] + SubUpper(s[1..])
    else [s[0]] + SubUpper(s[1..])
  }

  /** `to_mime_format_name`; the empty name has no first character to lower. */
  function ToMime(name: string): (r: Result<string, Error>)
    ensures |name| == 0 <==> r == Failure(IndexOutOfRange)
    ensures r.Success? ==> NoUpper(r.value) && |r.value| > 0
    ensures r.Success? && name[0] != '_' ==> r.value[0] == Lower(name[0])
  {
    if |name| == 0 then Failure(IndexOutOfRange)
    else
      var first := [Lower(name[0])] + name[1..];
      var r := SubUpper(SubUnderscore(first));
      assert name[0] != '_' ==> SubUnderscore(first) == [Lower(name[0])] + SubUnderscore(name[1..]) by {
        assert first[0] == Lower(name[0]) && first[1..] == name[1..];
      }
      Success(r)
  }

  /** `str.capitalize`: the first character upper case, the rest lower case. */
  function Capitalize(s: string): string {
    if |s| == 0 then [] else [Upper(s[0])] + LowerAll(s[1..])
  }

  function LowerAll(s: string): (r: string)
    ensures |r| == |s|
    ensures NoUpper(r)
    ensures NoUpper(s) ==> r == s
  {
    if |s| == 0 then [] else [Lower(s[0])] + LowerAll(s[1..])
  }

  /** `re.sub(r"(-)(\w)", upper)`: a dash before a word character capitalises it. */
  function SubDash(s: string): string {
    if |s| >= 2 && s[0] == '-' && IsWord(s[1]) then [Upper(s[1])] + SubDash(s[2..])
    else if |s| >= 1 then [s[0]] + SubDash(s[1..])
    else []
  }

  /** `re.sub(r"(\+)(\w)", "_" + upper)`: a plus before a word character becomes `_` and a capital. */
  function SubPlus(s: string): string {
    if |s| >= 2 && s[0] == '+' && IsWord(s[1]) then ['_', Upper(s[1])] + SubPlus(s[2..])
    else if |s| >= 1 then [s[0]] + SubPlus(s[1..])
    else []
  }

  /** `from_mime_format_name`: one leading `x-` is dropped first. */
  function FromMime(mime: string): string {
    var body := if |mime| >= 2 && mime[..2] == "x-" then mime[2..] else mime;
    SubPlus(SubDash(Capitalize(body)))
  }

  predicate NoDash(s: string) {
    forall i | 0 <= i < |s| :: s[i] != '-'
  }

  predicate NoPlus(s: string) {
    forall i | 0 <= i < |s| :: s[i] != '+'
  }

  /** Marking capitals with dashes and then reading the dashes back restores the text. */
  lemma {:induction false} DashRoundTrip(v: string)
    requires NoDash(v)
    ensures SubDash(SubUpper(v)) == v
  {
    if |v| > 0 {
      DashRoundTrip(v[1..]);
      var tail := SubUpper(v[1..]);
      if IsUpper(v[0]) {
        var s := ['-', Lower(v[0])] + tail;
        assert s[0] == '-' && s[1] == Lower(v[0]) && s[2..] == tail;
        CaseRoundTrip(v[0]);
      } else {
        var s := [v[0]] + tail;
        assert s[1..] == tail;
      }
      assert v == [v[0]] + v[1..];
    }
  }

  /** Marking underscores before capitals with `+` and then reading them back restores the text. */
  lemma {:induction false} PlusRoundTrip(t: string)
    requires NoPlus(t)
    ensures SubPlus(SubUnderscore(t)) == t
  {
    if |t| >= 2 && t[0] == '_' && IsUpper(t[1]) {
      PlusRoundTrip(t[2..]);
      var s := ['+', Lower(t[1])] + SubUnderscore(t[2..]);
      assert s[0] == '+' && s[1] == Lower(t[1]) && s[2..] == SubUnderscore(t[2..]);
      CaseRoundTrip(t[1]);
      assert t == ['_', t[1]] + t[2..];
    } else if |t| >= 1 {
      PlusRoundTrip(t[1..]);
      var s := [t[0]] + SubUnderscore(t[1..]);
      assert s[1..] == SubUnderscore(t[1..]);
      assert t == [t[0]] + t[1..];
    }
  }

  /** Every character is ASCII, where the case mappings above agree with Python's. */
  predicate IsAscii(s: string) {
    forall i | 0 <= i < |s| :: s[i] < 128 as char
  }

  /** The class names whose MIME form reads back unchanged. */
  predicate Reversible(name: string) {
    && |name| > 0 && IsUpper(name[0])
    // `str.capitalize` lowers non-ASCII capitals, which the encoding leaves alone
    && IsAscii(name)
    && NoDash(name) && NoPlus(name)
    // `X` followed by a capital would encode to a leading `x-`, which decoding drops
    && !(name[0] == 'X' && |name| > 1 && IsUpper(name[1]))
  }

  /** Capitalised ASCII names without `-` or `+` survive the round trip through the MIME form. */
  lemma RoundTrip(name: string)
    requires Reversible(name)
    ensures ToMime(name).Success? && FromMime(ToMime(name).value) == name
  {
    var rest := name[1..];
    var v := SubUnderscore(rest);
    assert NoDash(v);
    var e := SubUpper(v);
    var first := [Lower(name[0])] + rest;
    assert first[0] == Lower(name[0]) && first[1..] == rest;
    assert SubUnderscore(first) == [Lower(name[0])] + v;
    var m := [Lower(name[0])] + e;
    assert SubUpper([Lower(name[0])] + v) == m by {
      assert ([Lower(name[0])] + v)[1..] == v;
    }
    assert ToMime(name) == Success(m);
    // no experimental prefix to strip
    assert !(|m| >= 2 && m[..2] == "x-");
    CaseRoundTrip(name[0]);
    assert Capitalize(m) == [name[0]] + e by {
      assert m[1..] == e;
    }
    DashRoundTrip(v);
    var d := SubDash([name[0]] + e);
    assert d == [name[0]] + v by {
      assert ([name[0]] + e)[1..] == e;
    }
    assert NoPlus(rest);
    PlusRoundTrip(rest);
    assert SubPlus(d) == [name[0]] + rest by {
      assert d[1..] == v;
    }
    assert name == [name[0]] + rest;
  }

  /** A name starting with `X` and a capital loses its first letter: `XY` reads back as `Y`. */
  lemma ExperimentalPrefixLost()
    ensures ToMime("XY") == Success("x-y")
    ensures FromMime("x-y") == "Y"
  {
    assert SubUnderscore("xY") == "xY" by {
      assert SubUnderscore("Y") == "Y";
    }
    assert SubUpper("xY") == "x-y" by {
      assert SubUpper("Y") == "-y";
    }
    assert "x-y"[..2] == "x-" && "x-y"[2..] == "y";
  }
}
