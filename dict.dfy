/** Python dictionaries keyed by positions, as the turn routine builds them
    with comprehensions: an insertion-ordered list of entries with distinct
    keys. Assigning to an existing key replaces its value where it stands;
    assigning to a new key appends it. */
module Dict {
  import opened Opt
  import opened Board

  datatype Entry<V> = Entry(key: Pos, value: V)

  type Dict<V> = seq<Entry<V>>

  predicate DistinctKeys<V>(d: Dict<V>)
  {
    forall i, j :: 0 <= i < j < |d| ==> d[i].key != d[j].key
  }

  /** The index of the first entry with key `k`, if any. */
  function Find<V>(d: Dict<V>, k: Pos): (r: Option<nat>)
    ensures r.Some? ==> r.value < |d| && d[r.value].key == k
    ensures r.Some? ==> forall j :: 0 <= j < r.value ==> d[j].key != k
    ensures r.None? ==> forall j :: 0 <= j < |d| ==> d[j].key != k
  {
    if d == [] then None
    else
      match Find(d[..|d| - 1], k)
      case Some(i) => Some(i)
      case None => if d[|d| - 1].key == k then Some(|d| - 1) else None
  }

  /** `d.get(k)`. */
  function Get<V>(d: Dict<V>, k: Pos): (r: Option<V>)
    ensures r.Some? ==> Entry(k, r.value) in d
    ensures r.None? ==> forall i :: 0 <= i < |d| ==> d[i].key != k
  {
    match Find(d, k)
    case Some(i) => Some(d[i].value)
    case None => None
  }

  /** In a dictionary every entry is what a lookup of its key returns. */
  lemma GetEntry<V>(d: Dict<V>, i: nat)
    requires DistinctKeys(d) && i < |d|
    ensures Get(d, d[i].key) == Some(d[i].value)
  {
    var f := Find(d, d[i].key);
    assert f.Some? && f.value == i;
  }

  /** `ps` lists keys of `d` in the dictionary's own order, each at most once. */
  predicate InKeyOrder<V>(d: Dict<V>, ps: seq<Pos>)
  {
    && (forall i :: 0 <= i < |ps| ==> Find(d, ps[i]).Some?)
    && (forall i, j :: 0 <= i < j < |ps| ==> Find(d, ps[i]).value < Find(d, ps[j]).value)
  }

  /** Dropping the first entry moves every other key one place forward. */
  lemma FindTail<V>(d: Dict<V>, p: Pos)
    requires d != [] && p != d[0].key
    ensures Find(d, p).Some? ==> Find(d, p).value > 0 && Find(d[1..], p) == Some(Find(d, p).value - 1)
    ensures Find(d, p).None? ==> Find(d[1..], p).None?
  {
    var t := d[1..];
    var f, g := Find(d, p), Find(t, p);
    if f.Some? {
      assert t[f.value - 1].key == p;
      assert g.Some?;
      assert d[g.value + 1].key == p;
      assert g.value == f.value - 1;
    }
  }

  /** A key found in `d[1..]` sits one place further on in `d`. */
  lemma FindShift<V>(d: Dict<V>, p: Pos)
    requires DistinctKeys(d) && d != [] && Find(d[1..], p).Some?
    ensures Find(d, p) == Some(Find(d[1..], p).value + 1)
  {
    var v := Find(d[1..], p).value;
    assert d[1..][v].key == p;
    assert d[0].key != d[v + 1].key;
    FindTail(d, p);
  }

  /** A list in the order of `d[1..]` is in the order of `d`, also with `d`'s first key put in front. */
  lemma InKeyOrderTail<V>(d: Dict<V>, ps: seq<Pos>)
    requires DistinctKeys(d) && d != [] && InKeyOrder(d[1..], ps)
    ensures InKeyOrder(d, ps)
    ensures InKeyOrder(d, [d[0].key] + ps)
  {
    forall i | 0 <= i < |ps| ensures Find(d, ps[i]) == Some(Find(d[1..], ps[i]).value + 1) {
      FindShift(d, ps[i]);
    }
    InKeyOrderFirst(d, ps);
  }

  /** The first key of `d` may go in front of an ordered list that does not hold it. */
  lemma InKeyOrderFirst<V>(d: Dict<V>, ps: seq<Pos>)
    requires d != [] && InKeyOrder(d, ps)
    requires forall i :: 0 <= i < |ps| ==> Find(d, ps[i]).value > 0
    ensures InKeyOrder(d, [d[0].key] + ps)
  {
    var q := [d[0].key] + ps;
    assert Find(d, d[0].key) == Some(0);
    assert forall i :: 0 < i < |q| ==> q[i] == ps[i - 1];
  }

  /** Putting the head of an ordered list in front of an ordered selection of its tail keeps the order. */
  lemma InKeyOrderKeepHead<V>(d: Dict<V>, ps: seq<Pos>, rest: seq<Pos>)
    requires |ps| > 0 && InKeyOrder(d, ps) && InKeyOrder(d, rest)
    requires forall p :: p in rest ==> p in ps[1..]
    ensures InKeyOrder(d, [ps[0]] + rest)
  {
    var q := [ps[0]] + rest;
    forall j | 0 <= j < |rest| ensures Find(d, ps[0]).value < Find(d, rest[j]).value {
      assert rest[j] in ps[1..];
      var k :| 0 <= k < |ps| - 1 && ps[1..][k] == rest[j];
      assert ps[k + 1] == rest[j];
    }
    assert forall i :: 0 < i < |q| ==> q[i] == rest[i - 1];
  }

  /** `d[k] = v`. */
  function Put<V>(d: Dict<V>, k: Pos, v: V): (r: Dict<V>)
    requires DistinctKeys(d)
    ensures DistinctKeys(r)
    ensures Get(r, k) == Some(v)
    ensures forall k' :: k' != k ==> Get(r, k') == Get(d, k')
    // insertion order: an existing key keeps its place, a new key goes last
    ensures Get(d, k).None? ==> r == d + [Entry(k, v)]
    ensures Get(d, k).Some? ==> |r| == |d| && forall i :: 0 <= i < |d| ==> r[i].key == d[i].key
  {
    match Find(d, k)
    case Some(i) =>
      var r := d[i := Entry(k, v)];
      GetEntry(r, i);
      forall k' | k' != k ensures Get(r, k') == Get(d, k') {
        GetAfterUpdate(d, r, i, k');
      }
      r
    case None =>
      var r := d + [Entry(k, v)];
      GetEntry(r, |d|);
      forall k' | k' != k ensures Get(r, k') == Get(d, k') {
        GetAfterAppend(d, Entry(k, v), k');
      }
      r
  }

  lemma GetAfterUpdate<V>(d: Dict<V>, r: Dict<V>, i: nat, k': Pos)
    requires i < |d| && |r| == |d|
    requires forall j :: 0 <= j < |d| ==> r[j].key == d[j].key
    requires forall j :: 0 <= j < |d| && j != i ==> r[j] == d[j]
    requires d[i].key != k'
    ensures Get(r, k') == Get(d, k')
  {
    var fd, fr := Find(d, k'), Find(r, k');
    if fd.Some? {
      assert fr.Some? && fr.value == fd.value;
    } else {
      assert fr.None?;
    }
  }

  lemma GetAfterAppend<V>(d: Dict<V>, e: Entry<V>, k': Pos)
    requires e.key != k'
    ensures Get(d + [e], k') == Get(d, k')
  {
    var r := d + [e];
    var fd, fr := Find(d, k'), Find(r, k');
    if fd.Some? {
      assert fr.Some? && fr.value == fd.value;
    } else {
      assert fr.None?;
    }
  }

  /** A dict comprehension `{key: value for ...}` over `es`: later entries
      overwrite earlier ones. */
  function FromEntries<V>(es: seq<Entry<V>>): (d: Dict<V>)
    ensures DistinctKeys(d)
  {
    if es == [] then []
    else
      var last := es[|es| - 1];
      Put(FromEntries(es[..|es| - 1]), last.key, last.value)
  }

  /** Reference reading of a comprehension: the value of the LAST entry with key `k`. */
  function LastValue<V>(es: seq<Entry<V>>, k: Pos): Option<V>
  {
    if es == [] then None
    else if es[|es| - 1].key == k then Some(es[|es| - 1].value)
    else LastValue(es[..|es| - 1], k)
  }

  lemma {:induction false} FromEntriesGet<V>(es: seq<Entry<V>>, k: Pos)
    ensures Get(FromEntries(es), k) == LastValue(es, k)
  {
    if es != [] {
      FromEntriesGet(es[..|es| - 1], k);
    }
  }

  /** Some entry of `es` has key `k`. */
  predicate HasKey<V>(es: seq<Entry<V>>, k: Pos)
  {
    exists i :: 0 <= i < |es| && es[i].key == k
  }

  /** Reference reading of a comprehension's key order: every key where it
      first occurs in `es`. */
  function FirstKeys<V>(es: seq<Entry<V>>): seq<Pos>
  {
    if es == [] then []
    else
      var init, k := es[..|es| - 1], es[|es| - 1].key;
      if HasKey(init, k) then FirstKeys(init) else FirstKeys(init) + [k]
  }

  /** A comprehension lists its keys in the order they first occur: a later
      entry with a key already seen overwrites the value in place. */
  lemma {:induction false} FromEntriesOrder<V>(es: seq<Entry<V>>)
    ensures |FromEntries(es)| == |FirstKeys(es)|
    ensures forall i :: 0 <= i < |FirstKeys(es)| ==> FromEntries(es)[i].key == FirstKeys(es)[i]
  {
    if es != [] {
      var init, k := es[..|es| - 1], es[|es| - 1].key;
      FromEntriesOrder(init);
      FromEntriesGet(init, k);
      LastValueIn(init, k);
      if HasKey(init, k) {
        assert Get(FromEntries(init), k).Some?;
      } else {
        assert Get(FromEntries(init), k).None?;
      }
    }
  }

  /** Over entries with distinct keys, a comprehension is the entries themselves, in order. */
  lemma {:induction false} DistinctFromEntries<V>(es: seq<Entry<V>>)
    requires DistinctKeys(es)
    ensures FromEntries(es) == es
  {
    if es != [] {
      var init, last := es[..|es| - 1], es[|es| - 1];
      DistinctFromEntries(init);
      assert Get(init, last.key).None?;
      assert init + [last] == es;
    }
  }

  /** The last entry with key `k` is one of the entries. */
  lemma {:induction false} LastValueIn<V>(es: seq<Entry<V>>, k: Pos)
    ensures LastValue(es, k).Some? ==> Entry(k, LastValue(es, k).value) in es
    ensures LastValue(es, k).None? ==> forall i :: 0 <= i < |es| ==> es[i].key != k
  {
    if es != [] {
      LastValueIn(es[..|es| - 1], k);
    }
  }

  /** `local_energy.get(p, 0)`: a cell that was not sent holds no energy. */
  function EnergyAt(energy: Dict<int>, p: Pos): int
  {
    match Get(energy, p)
    case Some(e) => e
    case None => 0
  }

  /** `local_energy.get(p, 0)` is the energy stored under `p`, and 0 when no
      entry has key `p`. */
  lemma EnergyAtEntry(energy: Dict<int>, p: Pos)
    requires DistinctKeys(energy)
    ensures forall i :: 0 <= i < |energy| && energy[i].key == p ==> EnergyAt(energy, p) == energy[i].value
    ensures (forall i :: 0 <= i < |energy| ==> energy[i].key != p) ==> EnergyAt(energy, p) == 0
  {
    forall i | 0 <= i < |energy| && energy[i].key == p ensures EnergyAt(energy, p) == energy[i].value {
      GetEntry(energy, i);
    }
  }
}
