/** An insertion-ordered dictionary with string keys: writing an existing key replaces its value and keeps
    its position. Both the mount merge and the job list of the NVCF driver are filled this way. */
module OrderedDict {

  datatype Entry<+V> = Entry(key: string, value: V)

  type Items<+V> = seq<Entry<V>>

  ghost predicate DistinctKeys<V>(d: Items<V>) {
    forall i, j :: 0 <= i < j < |d| ==> d[i].key != d[j].key
  }

  /** Position of the first entry with key `k`, or `|d|`. */
  function Find<V>(d: Items<V>, k: string): (i: nat)
    ensures i <= |d|
    ensures i < |d| ==> d[i].key == k
    ensures forall j :: 0 <= j < i ==> d[j].key != k
  {
    if d == [] then 0 else if d[0].key == k then 0 else 1 + Find(d[1..], k)
  }

  /** Position of the last entry with key `k`, or `|d|`. */
  function FindLast<V>(d: Items<V>, k: string): (i: nat)
    ensures i <= |d|
    ensures i < |d| ==> d[i].key == k
    ensures forall j :: (if i < |d| then i + 1 else 0) <= j < |d| ==> d[j].key != k
  {
    if d == [] then 0
    else if d[|d| - 1].key == k then |d| - 1
    else
      var i := FindLast(d[..|d| - 1], k);
      if i == |d| - 1 then |d| else i
  }

  predicate Has<V>(d: Items<V>, k: string) {
    Find(d, k) < |d|
  }

  /** `d[e.key] = e.value`. */
  function Put<V>(d: Items<V>, e: Entry<V>): Items<V> {
    var i := Find(d, e.key);
    if i < |d| then d[i := e] else d + [e]
  }

  /** `for e in items: d[e.key] = e.value`. */
  function PutAll<V>(d: Items<V>, items: Items<V>): Items<V> {
    if items == [] then d else Put(PutAll(d, items[..|items| - 1]), items[|items| - 1])
  }

  /** The dictionary built from a list of writes. */
  function FromItems<V>(items: Items<V>): Items<V> {
    PutAll([], items)
  }

  lemma {:induction false} PutAllAppend<V>(d: Items<V>, a: Items<V>, b: Items<V>)
    ensures PutAll(PutAll(d, a), b) == PutAll(d, a + b)
  {
    if b == [] {
      assert a + b == a;
    } else {
      PutAllAppend(d, a, b[..|b| - 1]);
      assert (a + b)[..|a + b| - 1] == a + b[..|b| - 1];
    }
  }

  /** Writing the entries of a dictionary into an empty one rebuilds it. */
  lemma {:induction false} RebuildIsIdentity<V>(d: Items<V>)
    requires DistinctKeys(d)
    ensures FromItems(d) == d
  {
    if d != [] {
      var n := |d| - 1;
      RebuildIsIdentity(d[..n]);
      assert Find(d[..n], d[n].key) == n;
      assert d[..n] + [d[n]] == d;
    }
  }

  /** What a dictionary built from a list of writes is: the keys written, each once and holding the value
      written last, in the order in which they were first written. */
  ghost predicate IsLastWinsFirstPosition<V>(items: Items<V>, d: Items<V>) {
    && DistinctKeys(d)
    && (forall k :: Has(d, k) <==> Has(items, k))
    && (forall k :: Has(d, k) && Has(items, k) ==>
          FindLast(items, k) < |items| && d[Find(d, k)] == items[FindLast(items, k)])
    && (forall k, l :: Has(d, k) && Has(d, l) ==> (Find(d, k) < Find(d, l) <==> Find(items, k) < Find(items, l)))
  }

  lemma {:induction false} FindAppend<V>(before: Items<V>, e: Entry<V>, k: string)
    ensures Find(before + [e], k)
         == if Has(before, k) then Find(before, k) else if e.key == k then |before| else |before| + 1
  {
    if before != [] {
      assert (before + [e])[1..] == before[1..] + [e];
      FindAppend(before[1..], e, k);
    }
  }

  lemma FindUpdate<V>(d: Items<V>, e: Entry<V>, k: string)
    requires Has(d, e.key)
    ensures Find(Put(d, e), k) == Find(d, k)
  {
    var r := Put(d, e);
    assert forall j :: 0 <= j < |d| ==> r[j].key == d[j].key;
    var x, y := Find(r, k), Find(d, k);
    assert x >= y && y >= x;
  }

  lemma FindPut<V>(d: Items<V>, e: Entry<V>, k: string)
    ensures Find(Put(d, e), k) == if Has(d, k) || e.key == k then Find(d, k) else |Put(d, e)|
    ensures Has(Put(d, e), k) <==> Has(d, k) || e.key == k
    ensures Has(d, k) && e.key != k ==> Put(d, e)[Find(d, k)] == d[Find(d, k)]
  {
    if Has(d, e.key) { FindUpdate(d, e, k); } else { FindAppend(d, e, k); }
  }

  lemma FindLastAppend<V>(before: Items<V>, e: Entry<V>, k: string)
    ensures FindLast(before, k) < |before| <==> Has(before, k)
    ensures FindLast(before + [e], k)
         == if e.key == k then |before| else if Has(before, k) then FindLast(before, k) else |before| + 1
  {
    var i, l := Find(before, k), FindLast(before, k);
    if i < |before| { assert before[i].key == k; }
    if l < |before| { assert before[l].key == k; }
    assert (before + [e])[..|before|] == before;
  }

  lemma {:induction false} FromItemsSpec<V>(items: Items<V>)
    ensures IsLastWinsFirstPosition(items, FromItems(items))
  {
    if items != [] {
      var n := |items| - 1;
      var before, e := items[..n], items[n];
      assert items == before + [e];
      FromItemsSpec(before);
      var d := FromItems(before);
      var r := Put(d, e);
      PutDistinct(d, e);
      forall k
        ensures Has(r, k) <==> Has(items, k)
        ensures Has(items, k) ==> FindLast(items, k) < |items| && r[Find(r, k)] == items[FindLast(items, k)]
      {
        FindPut(d, e, k); FindAppend(before, e, k); FindLastAppend(before, e, k);
      }
      forall k, l | Has(r, k) && Has(r, l)
        ensures Find(r, k) < Find(r, l) <==> Find(items, k) < Find(items, l)
      {
        FindPut(d, e, k); FindAppend(before, e, k);
        FindPut(d, e, l); FindAppend(before, e, l);
      }
    }
  }

  lemma PutDistinct<V>(d: Items<V>, e: Entry<V>)
    requires DistinctKeys(d)
    ensures DistinctKeys(Put(d, e))
  {
  }
}
