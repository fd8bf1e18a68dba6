/**
  The string-keyed dictionaries of the client (request bodies, parsed JSON
  objects and header sets), modelled as ordered sequences of entries.

  Assigning a key that is already present replaces its value where it stands;
  assigning a new key appends it, so the entry order is the order in which the
  keys were first assigned. Lookup reads the last entry carrying the key, so a
  sequence that repeats a key (a JSON object text with a duplicate key) reads
  as last-write-wins.
 */
module OrderedMap {
  import opened Wrappers

  type Dict<V> = seq<(string, V)>

  /** The set of keys present in `d`. */
  function Keys<V>(d: Dict<V>): set<string> {
    set i | 0 <= i < |d| :: d[i].0
  }

  /** No key occurs in two entries: what every Python dict satisfies. */
  predicate UniqueKeys<V>(d: Dict<V>) {
    forall i, j :: 0 <= i < j < |d| ==> d[i].0 != d[j].0
  }

  /** Index of the last entry carrying `k`, or -1 when there is none. */
  function LastIndex<V>(d: Dict<V>, k: string): (i: int)
    ensures -1 <= i < |d|
    ensures 0 <= i ==> d[i].0 == k && forall j :: i < j < |d| ==> d[j].0 != k
    ensures i < 0 ==> forall j :: 0 <= j < |d| ==> d[j].0 != k
  {
    if |d| == 0 then -1
    else if d[|d| - 1].0 == k then |d| - 1
    else LastIndex(d[..|d| - 1], k)
  }

  /** `d[k]`: the value of the last entry with key `k`, so a repeated key reads as last-write-wins. */
  function Get<V>(d: Dict<V>, k: string): (r: Option<V>)
    ensures r.None? <==> k !in Keys(d)
    ensures r.Some? ==> exists i :: 0 <= i < |d| && d[i] == (k, r.value) && forall j :: i < j < |d| ==> d[j].0 != k
  {
    var i := LastIndex(d, k);
    if i < 0 then
      None
    else
      assert d[i].0 in Keys(d);
      Some(d[i].1)
  }

  /** Two dictionaries with the same keys position by position find the same last index. */
  lemma LastIndexSameKeys<V>(d1: Dict<V>, d2: Dict<V>, k: string)
    requires |d1| == |d2|
    requires forall i :: 0 <= i < |d1| ==> d1[i].0 == d2[i].0
    ensures LastIndex(d1, k) == LastIndex(d2, k)
  {
  }

  /**
    `d[k] = v`: replaces the value of `k` in place when `k` is present,
    otherwise appends the entry.
   */
  function Put<V>(d: Dict<V>, k: string, v: V): (r: Dict<V>)
    ensures |r| == if k in Keys(d) then |d| else |d| + 1
    ensures UniqueKeys(d) ==> UniqueKeys(r)
  {
    var i := LastIndex(d, k);
    if 0 <= i then
      assert d[i].0 in Keys(d);
      d[i := (k, v)]
    else
      d + [(k, v)]
  }

  /** After an assignment the key reads the new value and every other key reads what it read before. */
  lemma PutGet<V>(d: Dict<V>, k: string, v: V)
    ensures Get(Put(d, k, v), k) == Some(v)
    ensures forall k' :: k' != k ==> Get(Put(d, k, v), k') == Get(d, k')
  {
    var r := Put(d, k, v);
    var i := LastIndex(d, k);
    if 0 <= i {
      assert r == d[i := (k, v)];
      forall k' | k' != k
        ensures Get(r, k') == Get(d, k')
      {
        LastIndexSameKeys(r, d, k');
      }
      LastIndexSameKeys(r, d, k);
    } else {
      assert r == d + [(k, v)];
      assert r[..|d|] == d;
    }
  }

  /** An assignment adds its key to the key set and removes none. */
  lemma PutKeys<V>(d: Dict<V>, k: string, v: V)
    ensures Keys(Put(d, k, v)) == Keys(d) + {k}
  {
    var r := Put(d, k, v);
    var i := LastIndex(d, k);
    if 0 <= i {
      assert r == d[i := (k, v)];
      assert forall j :: 0 <= j < |d| ==> r[j].0 == d[j].0;
      assert d[i].0 in Keys(d);
    } else {
      assert r == d + [(k, v)];
      assert r[|d|].0 == k;
      assert forall j :: 0 <= j < |d| ==> r[j] == d[j];
    }
  }

  /**
    An assignment keeps every entry's key in its place and changes at most the
    entry of its own key; a new key goes to the end.
   */
  lemma PutShape<V>(d: Dict<V>, k: string, v: V)
    ensures forall i :: 0 <= i < |d| ==> Put(d, k, v)[i].0 == d[i].0
    ensures k !in Keys(d) ==> Put(d, k, v) == d + [(k, v)]
    ensures forall i :: 0 <= i < |Put(d, k, v)| ==> Put(d, k, v)[i] == (k, v) || Put(d, k, v)[i] == d[i]
  {
  }
}
