/**
 * Insertion-ordered dictionaries (Python `dict`) as association lists, and
 * the "scan, append matches, stop at the first exception" loop that the
 * converter lookups share.
 */
module Collections {
  import opened Wrappers

  /** The only element of a singleton set. */
  function Only<T>(s: set<T>): (x: T)
    requires |s| == 1
    ensures s == {x}
  {
    var x :| x in s;
    assert |s - {x}| == |s| - 1;
    x
  }

  /** A dict: key/value pairs in insertion order. */
  type Dict<K, V> = seq<(K, V)>

  predicate KeysUnique<K(==), V>(d: Dict<K, V>) {
    forall i, j | 0 <= i < j < |d| :: d[i].0 != d[j].0
  }

  /** `d.get(k)`. */
  function Get<K(==), V>(d: Dict<K, V>, k: K): (r: Option<V>)
    ensures r.Some? <==> exists i | 0 <= i < |d| :: d[i].0 == k
    ensures r.Some? ==> exists i | 0 <= i < |d| :: d[i] == (k, r.value)
  {
    if |d| == 0 then None
    else if d[0].0 == k then Some(d[0].1)
    else
      var r := Get(d[1..], k);
      assert forall i | 0 < i < |d| :: d[i] == d[1..][i - 1];
      r
  }

  /**
   * `d[k] = v`: an existing key keeps its position and takes the new value,
   * a new key goes at the end.
   */
  function Put<K(==), V>(d: Dict<K, V>, k: K, v: V): (r: Dict<K, V>)
    ensures |r| == |d| + (if Get(d, k).Some? then 0 else 1)
    ensures forall i | 0 <= i < |d| :: r[i].0 == d[i].0
    ensures Get(d, k).None? ==> r == d + [(k, v)]
  {
    if |d| == 0 then [(k, v)]
    else if d[0].0 == k then [(k, v)] + d[1..]
    else [d[0]] + Put(d[1..], k, v)
  }

  /** After `d[k] = v`, `k` maps to `v` and every other key is unaffected. */
  lemma {:induction false} PutGet<K, V>(d: Dict<K, V>, k: K, v: V, k': K)
    ensures Get(Put(d, k, v), k) == Some(v)
    ensures k' != k ==> Get(Put(d, k, v), k') == Get(d, k')
  {
    if |d| > 0 && d[0].0 != k {
      PutGet(d[1..], k, v, k');
      assert Put(d, k, v)[1..] == Put(d[1..], k, v);
    }
  }

  /** Assignment adds the new pair and otherwise keeps the old ones. */
  lemma {:induction false} PutEntries<K, V>(d: Dict<K, V>, k: K, v: V)
    ensures (k, v) in Put(d, k, v)
    ensures forall e | e in Put(d, k, v) :: e in d || e == (k, v)
  {
    if |d| > 0 && d[0].0 != k {
      PutEntries(d[1..], k, v);
      assert Put(d, k, v) == [d[0]] + Put(d[1..], k, v);
      assert forall e | e in d[1..] :: e in d;
    } else if |d| > 0 {
      assert forall e | e in d[1..] :: e in d;
    }
  }

  /** Assignment keeps the keys distinct. */
  lemma {:induction false} PutKeepsKeysUnique<K, V>(d: Dict<K, V>, k: K, v: V)
    requires KeysUnique(d)
    ensures KeysUnique(Put(d, k, v))
  {
    if |d| > 0 && d[0].0 != k {
      PutKeepsKeysUnique(d[1..], k, v);
      var r := Put(d, k, v);
      assert r[1..] == Put(d[1..], k, v);
      forall j | 0 < j < |r| ensures r[0].0 != r[j].0 {
        if j < |d| {
          assert r[j].0 == d[j].0;
        } else {
          assert Get(d, k).None?;
          assert r == d + [(k, v)];
        }
      }
    }
  }

  /** A non-empty sequence has its first element as a member. */
  lemma HeadIsMember<T>(s: seq<T>)
    ensures |s| > 0 ==> s[0] in s
  {
  }

  /**
   * Decide every entry in order and keep the projections of those that
   * match; the first entry whose decision raises aborts the whole scan.
   */
  function Gather<K, V, W(==,!new), E(==)>(d: Dict<K, V>, decide: (K, V) -> Result<bool, E>, project: V -> W): (r: Result<seq<W>, E>)
    ensures r.Success? <==> forall i | 0 <= i < |d| :: decide(d[i].0, d[i].1).Success?
    ensures r.Failure? ==>
              exists i | 0 <= i < |d| ::
                && decide(d[i].0, d[i].1) == Failure(r.error)
                && forall j | 0 <= j < i :: decide(d[j].0, d[j].1).Success?
    ensures r.Success? ==>
              forall w :: w in r.value <==>
                exists i | 0 <= i < |d| :: decide(d[i].0, d[i].1) == Success(true) && project(d[i].1) == w
    ensures r.Success? ==> |r.value| <= |d|
  {
    if |d| == 0 then Success([])
    else
      var (k, v) := d[0];
      assert forall i | 0 < i < |d| :: d[i] == d[1..][i - 1];
      match decide(k, v)
      case Failure(e) => Failure(e)
      case Success(keep) =>
        match Gather(d[1..], decide, project)
        case Failure(e) =>
          ghost var i :| 0 <= i < |d[1..]| && decide(d[1..][i].0, d[1..][i].1) == Failure(e)
                          && forall j | 0 <= j < i :: decide(d[1..][j].0, d[1..][j].1).Success?;
          assert decide(d[i + 1].0, d[i + 1].1) == Failure(e);
          Failure(e)
        case Success(rest) =>
          Success(if keep then [project(v)] + rest else rest)
  }
}
