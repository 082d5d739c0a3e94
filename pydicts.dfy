/**
 * Python dictionaries as the modelled code uses them: an insertion-ordered list of
 * (key, value) entries. Assigning to a present key replaces its value in place;
 * assigning to a new key appends it (the semantics of `d[k] = v` and `d.update(e)`).
 */
module PyDicts {
  import opened Wrappers

  type Dict<V> = seq<(string, V)>

  function Keys<V>(d: Dict<V>): (ks: seq<string>)
    ensures |ks| == |d|
    ensures forall i :: 0 <= i < |d| ==> ks[i] == d[i].0
  {
    seq(|d|, i requires 0 <= i < |d| => d[i].0)
  }

  /** The position of `k` in `d`, if present (the first one, should keys repeat). */
  function Find<V>(d: Dict<V>, k: string): (r: Option<nat>)
    ensures r.Some? ==> r.value < |d| && d[r.value].0 == k
    ensures r.Some? ==> forall j :: 0 <= j < r.value ==> d[j].0 != k
    ensures r.None? ==> forall j :: 0 <= j < |d| ==> d[j].0 != k
  {
    if d == [] then None
    else if d[0].0 == k then Some(0)
    else match Find(d[1..], k)
      case None => None
      case Some(i) => Some(i + 1)
  }

  /** `k in d`. */
  predicate HasKey<V>(d: Dict<V>, k: string) {
    Find(d, k).Some?
  }

  /** Every real dict has this property; the functions below preserve it. */
  predicate UniqueKeys<V>(d: Dict<V>) {
    forall i, j :: 0 <= i < j < |d| ==> d[i].0 != d[j].0
  }

  /** A new key in front of a dict with unique keys keeps them unique. */
  lemma PrependUnique<V>(k: string, v: V, d: Dict<V>)
    requires UniqueKeys(d) && !HasKey(d, k)
    ensures UniqueKeys([(k, v)] + d)
  {
    var e := [(k, v)] + d;
    forall i, j | 0 <= i < j < |e| ensures e[i].0 != e[j].0 {
      assert e[j] == d[j - 1];
      if i > 0 {
        assert e[i] == d[i - 1];
      }
    }
  }

  /** `d.get(k)`: the value stored under `k`, if any. */
  function Get<V>(d: Dict<V>, k: string): Option<V> {
    match Find(d, k)
    case None => None
    case Some(i) => Some(d[i].1)
  }

  /** `d[k] = v`: a present key keeps its position, a new key goes last. */
  function Update<V>(d: Dict<V>, k: string, v: V): (r: Dict<V>)
    ensures Get(r, k) == Some(v)
    ensures forall k' :: k' != k ==> Get(r, k') == Get(d, k')
    ensures HasKey(d, k) ==> Keys(r) == Keys(d)
    ensures !HasKey(d, k) ==> r == d + [(k, v)]
    ensures UniqueKeys(d) ==> UniqueKeys(r)
    ensures forall j :: 0 <= j < |r| ==> (j < |d| && r[j] == d[j]) || r[j] == (k, v)
  {
    match Find(d, k)
    case Some(i) =>
      var r := d[i := (k, v)];
      FindByKeys(d, r);
      r
    case None =>
      FindAppend(d, k, v);
      d + [(k, v)]
  }

  lemma FindAppend<V>(d: Dict<V>, k: string, v: V)
    ensures forall k' :: Find(d + [(k, v)], k') ==
                         if HasKey(d, k') then Find(d, k') else if k' == k then Some(|d|) else None
  {
    var r := d + [(k, v)];
    assert forall j :: 0 <= j < |d| ==> r[j] == d[j];
    assert r[|d|] == (k, v);
    forall k' ensures Find(r, k') == if HasKey(d, k') then Find(d, k') else if k' == k then Some(|d|) else None {
      var fa, fb := Find(r, k'), Find(d, k');
      if fa.Some? && fb.Some? {
        assert !(fa.value < fb.value) && !(fb.value < fa.value);
      } else if fa.Some? {
        assert fa.value == |d|;
      }
    }
  }

  /** `Find` looks at keys only: two lists with the same keys position by position agree on it. */
  lemma FindByKeys<V>(a: Dict<V>, b: Dict<V>)
    requires |a| == |b| && forall j :: 0 <= j < |a| ==> a[j].0 == b[j].0
    ensures forall k :: Find(a, k) == Find(b, k)
  {
    forall k ensures Find(a, k) == Find(b, k) {
      var fa, fb := Find(a, k), Find(b, k);
      if fa.Some? && fb.Some? {
        assert !(fa.value < fb.value) && !(fb.value < fa.value);
      }
    }
  }

  /** `d.update(e)`: the entries of `e` assigned one by one, in order. */
  function UpdateAll<V>(d: Dict<V>, e: Dict<V>): (r: Dict<V>)
    ensures UniqueKeys(d) ==> UniqueKeys(r)
    decreases |e|
  {
    if e == [] then d else UpdateAll(Update(d, e[0].0, e[0].1), e[1..])
  }

  lemma GetUnique<V>(d: Dict<V>, i: nat)
    requires UniqueKeys(d) && i < |d|
    ensures Get(d, d[i].0) == Some(d[i].1)
  {
    if i > 0 {
      GetUnique(d[1..], i - 1);
    }
  }

  /** After `d.update(e)` every key of `e` holds `e`'s value and every other key keeps `d`'s. */
  lemma {:induction false} UpdateAllGet<V>(d: Dict<V>, e: Dict<V>, k: string)
    requires UniqueKeys(e)
    ensures Get(UpdateAll(d, e), k) == if HasKey(e, k) then Get(e, k) else Get(d, k)
    decreases |e|
  {
    if e != [] {
      var d' := Update(d, e[0].0, e[0].1);
      assert UniqueKeys(e[1..]);
      UpdateAllGet(d', e[1..], k);
      if k == e[0].0 {
        assert forall j :: 0 <= j < |e[1..]| ==> e[1..][j].0 != k by {
          forall j | 0 <= j < |e[1..]| ensures e[1..][j].0 != k {
            assert e[1..][j] == e[j + 1];
          }
        }
      }
    }
  }

  /** The keys after `d.update(e)` are those of `d` and those of `e`. */
  lemma {:induction false} UpdateAllKeys<V>(d: Dict<V>, e: Dict<V>, k: string)
    ensures HasKey(UpdateAll(d, e), k) <==> HasKey(d, k) || HasKey(e, k)
    decreases |e|
  {
    if e != [] {
      assert HasKey(e, k) <==> e[0].0 == k || HasKey(e[1..], k) by {
        if HasKey(e, k) && e[0].0 != k {
          var i := Find(e, k).value;
          assert e[1..][i - 1].0 == k;
        }
        if HasKey(e[1..], k) {
          var i := Find(e[1..], k).value;
          assert e[i + 1].0 == k;
        }
      }
      UpdateAllKeys(Update(d, e[0].0, e[0].1), e[1..], k);
    }
  }
}
