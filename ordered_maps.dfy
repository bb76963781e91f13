/**
 * A PHP array with string keys, as the compiler uses for `$sql['tables']`,
 * `$sql['unions']` and `$sql['fields']`: entries keep insertion order, and
 * assigning to a key that is already present replaces its value in place.
 */
module OrderedMaps {
  import opened Outcomes

  type Entries = seq<(string, string)>

  function Keys(m: Entries): (ks: seq<string>)
    ensures |ks| == |m|
    ensures forall i :: 0 <= i < |m| ==> ks[i] == m[i].0
  {
    seq(|m|, i requires 0 <= i < |m| => m[i].0)
  }

  /** The values in order, as `implode` sees them. */
  function Values(m: Entries): (vs: seq<string>)
    ensures |vs| == |m|
    ensures forall i :: 0 <= i < |m| ==> vs[i] == m[i].1
  {
    seq(|m|, i requires 0 <= i < |m| => m[i].1)
  }

  /** No key occurs twice: what a PHP array guarantees. */
  predicate UniqueKeys(m: Entries) {
    forall i, j :: 0 <= i < j < |m| ==> m[i].0 != m[j].0
  }

  /** The position of key `k`. */
  function Find(m: Entries, k: string): (r: Option<nat>)
    ensures r.Some? ==> r.value < |m| && m[r.value].0 == k
    ensures r.Some? ==> forall j :: 0 <= j < r.value ==> m[j].0 != k
    ensures r.None? <==> k !in Keys(m)
  {
    if m == [] then None
    else if m[0].0 == k then Some(0)
    else
      match Find(m[1..], k)
      case None =>
        assert Keys(m) == [m[0].0] + Keys(m[1..]);
        None
      case Some(j) =>
        Some(j + 1)
  }

  lemma FindByKeys(m: Entries, n: Entries, k: string)
    requires Keys(m) == Keys(n)
    ensures Find(m, k) == Find(n, k)
  {
    if Find(m, k).Some? {
      var i := Find(m, k).value;
      assert n[i].0 == Keys(n)[i] == Keys(m)[i] == k;
      forall j | 0 <= j < i ensures n[j].0 != k {
        assert n[j].0 == Keys(n)[j] == Keys(m)[j] == m[j].0;
      }
      FindIs(n, k, i);
    }
  }

  lemma FindIs(m: Entries, k: string, i: nat)
    requires i < |m| && m[i].0 == k
    requires forall j :: 0 <= j < i ==> m[j].0 != k
    ensures Find(m, k) == Some(i)
  {
    assert k in Keys(m);
  }

  /** `$m[k]`, or None when `isset` would fail. */
  function Get(m: Entries, k: string): (r: Option<string>)
    ensures r.None? <==> k !in Keys(m)
    ensures r.Some? ==> (k, r.value) in m
  {
    match Find(m, k)
    case None => None
    case Some(i) => Some(m[i].1)
  }

  /** `$m[k] = v`. */
  function Put(m: Entries, k: string, v: string): (r: Entries)
    ensures Get(r, k) == Some(v)
    ensures forall k' :: k' != k ==> Get(r, k') == Get(m, k')
    ensures k in Keys(m) ==> Keys(r) == Keys(m)
    ensures k !in Keys(m) ==> r == m + [(k, v)]
    ensures forall k' :: k' in Keys(r) <==> k' in Keys(m) || k' == k
    ensures forall e :: e in r ==> e == (k, v) || e in m
    ensures UniqueKeys(m) ==> UniqueKeys(r)
  {
    match Find(m, k)
    case None =>
      AppendKeys(m, k, v);
      AppendGets(m, k, v);
      AppendUnique(m, k, v);
      m + [(k, v)]
    case Some(i) =>
      PutReplaces(m, k, v, i);
      m[i := (k, v)]
  }

  /** A new key goes to the end: the keys so far, then it. */
  lemma AppendKeys(m: Entries, k: string, v: string)
    ensures Keys(m + [(k, v)]) == Keys(m) + [k]
    ensures forall k' :: k' in Keys(m + [(k, v)]) <==> k' in Keys(m) || k' == k
  {
    var r := m + [(k, v)];
    assert forall j :: 0 <= j < |m| ==> r[j] == m[j];
    assert Keys(r) == Keys(m) + [k];
  }

  lemma AppendGets(m: Entries, k: string, v: string)
    requires Find(m, k).None?
    ensures Get(m + [(k, v)], k) == Some(v)
    ensures forall k' :: k' != k ==> Get(m + [(k, v)], k') == Get(m, k')
  {
    var r := m + [(k, v)];
    AppendKeys(m, k, v);
    assert forall j :: 0 <= j < |m| ==> r[j] == m[j];
    assert forall j :: 0 <= j < |m| ==> m[j].0 == Keys(m)[j];
    FindIs(r, k, |m|);
    forall k' | k' != k ensures Get(r, k') == Get(m, k') {
      if k' in Keys(m) {
        var i := Find(m, k').value;
        FindIs(r, k', i);
      }
    }
  }

  lemma AppendUnique(m: Entries, k: string, v: string)
    requires Find(m, k).None?
    ensures UniqueKeys(m) ==> UniqueKeys(m + [(k, v)])
  {
    var r := m + [(k, v)];
    assert forall j :: 0 <= j < |m| ==> r[j] == m[j] && m[j].0 == Keys(m)[j];
  }

  lemma PutReplaces(m: Entries, k: string, v: string, i: nat)
    requires Find(m, k) == Some(i)
    ensures var r := m[i := (k, v)];
            && Keys(r) == Keys(m)
            && Get(r, k) == Some(v)
            && (forall k' :: k' != k ==> Get(r, k') == Get(m, k'))
            && (forall e :: e in r ==> e == (k, v) || e in m)
            && (UniqueKeys(m) ==> UniqueKeys(r))
  {
    var r := m[i := (k, v)];
    assert forall j :: 0 <= j < |r| && j != i ==> r[j] == m[j];
    assert Keys(r) == Keys(m) by {
      forall j | 0 <= j < |r| ensures Keys(r)[j] == Keys(m)[j] {
      }
    }
    FindByKeys(r, m, k);
    forall k' | k' != k ensures Get(r, k') == Get(m, k') {
      FindByKeys(r, m, k');
    }
    forall e | e in r ensures e == (k, v) || e in m {
      var j :| 0 <= j < |r| && r[j] == e;
    }
    if UniqueKeys(m) {
      forall a, b | 0 <= a < b < |r| ensures r[a].0 != r[b].0 {
        assert r[a].0 == Keys(r)[a] == Keys(m)[a] == m[a].0;
        assert r[b].0 == Keys(r)[b] == Keys(m)[b] == m[b].0;
      }
    }
  }

  /** `$m[k] .= s`: an absent key starts from the empty string. */
  function AppendTo(m: Entries, k: string, s: string): (r: Entries)
    ensures Get(r, k) == Some(Get(m, k).GetOr("") + s)
    ensures forall k' :: k' != k ==> Get(r, k') == Get(m, k')
    ensures forall k' :: k' in Keys(r) <==> k' in Keys(m) || k' == k
    ensures forall e :: e in r ==> e == (k, Get(m, k).GetOr("") + s) || e in m
    ensures UniqueKeys(m) ==> UniqueKeys(r)
  {
    Put(m, k, Get(m, k).GetOr("") + s)
  }

  /** The keys of `m + n` in PHP array-union order: `m`'s keys, then `n`'s keys that `m` lacks. */
  function UnionKeys(m: Entries, n: Entries): (ks: seq<string>)
    ensures forall k :: k in ks <==> k in Keys(m) || k in Keys(n)
  {
    Keys(m) + MissingKeys(Keys(m), Keys(n))
  }

  function MissingKeys(present: seq<string>, ks: seq<string>): (r: seq<string>)
    ensures forall k :: k in r <==> k in ks && k !in present
  {
    if ks == [] then []
    else (if ks[0] in present then [] else [ks[0]]) + MissingKeys(present, ks[1..])
  }
}
