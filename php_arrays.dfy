/**
 * PHP arrays with string keys, as the helpers build them: entries in
 * insertion order, `$a[$k] = $v` replacing in place or appending, and
 * array_merge.
 */
module PhpArrays {
  import opened Wrappers

  type Entries = seq<(string, string)>

  /** array_keys. */
  function Keys(e: Entries): seq<string>
    decreases |e|
  {
    if e == [] then [] else [e[0].0] + Keys(e[1..])
  }

  /** `$a[$k]`, or None when the key is absent. */
  function Lookup(e: Entries, k: string): Option<string>
    decreases |e|
  {
    if e == [] then None else if e[0].0 == k then Some(e[0].1) else Lookup(e[1..], k)
  }

  /** A PHP array never holds a key twice. */
  predicate UniqueKeys(e: Entries) {
    forall i, j | 0 <= i < j < |e| :: e[i].0 != e[j].0
  }

  lemma {:induction false} KeysLength(e: Entries)
    ensures |Keys(e)| == |e|
    ensures forall i | 0 <= i < |e| :: Keys(e)[i] == e[i].0
    decreases |e|
  {
    if e != [] {
      KeysLength(e[1..]);
    }
  }

  lemma {:induction false} LookupPresent(e: Entries, k: string)
    ensures k in Keys(e) <==> Lookup(e, k).Some?
    decreases |e|
  {
    if e != [] {
      LookupPresent(e[1..], k);
    }
  }

  /** `$a[$k] = $v`: an existing key keeps its position, a new key goes last. */
  function Put(e: Entries, k: string, v: string): (r: Entries)
    ensures Keys(r) == if k in Keys(e) then Keys(e) else Keys(e) + [k]
    ensures Lookup(r, k) == Some(v)
    ensures forall other | other != k :: Lookup(r, other) == Lookup(e, other)
    decreases |e|
  {
    if e == [] then [(k, v)]
    else if e[0].0 == k then
      var r := [(k, v)] + e[1..];
      assert r[1..] == e[1..];
      r
    else
      var rest := Put(e[1..], k, v);
      var r := [e[0]] + rest;
      assert r[1..] == rest;
      r
  }

  /** Assignments keep the keys unique. */
  lemma PutUnique(e: Entries, k: string, v: string)
    requires UniqueKeys(e)
    ensures UniqueKeys(Put(e, k, v))
  {
    var r := Put(e, k, v);
    KeysLength(e);
    KeysLength(r);
    assert forall i, j | 0 <= i < j < |r| :: Keys(r)[i] != Keys(r)[j] by {
      forall i, j | 0 <= i < j < |r| ensures Keys(r)[i] != Keys(r)[j] {
        if j < |e| {
          assert Keys(r)[i] == Keys(e)[i] && Keys(r)[j] == Keys(e)[j];
        } else {
          assert Keys(r)[j] == k && Keys(r)[i] == Keys(e)[i];
        }
      }
    }
  }

  /** array_merge of arrays with string keys: the keys of `a`, then the new keys of `b`, later values winning. */
  function Merge(a: Entries, b: Entries): Entries
    decreases |b|
  {
    if b == [] then a else Merge(Put(a, b[0].0, b[0].1), b[1..])
  }

  /** The merged keys are those of either array, each once, and those of `a` come first in their own order. */
  lemma {:induction false} MergeKeys(a: Entries, b: Entries)
    requires UniqueKeys(a)
    ensures var r := Merge(a, b);
      UniqueKeys(r) &&
      |Keys(a)| <= |Keys(r)| && Keys(r)[..|Keys(a)|] == Keys(a) &&
      forall k :: k in Keys(r) <==> k in Keys(a) || k in Keys(b)
    decreases |b|
  {
    if b != [] {
      var next := Put(a, b[0].0, b[0].1);
      PutUnique(a, b[0].0, b[0].1);
      MergeKeys(next, b[1..]);
      assert Keys(next)[..|Keys(a)|] == Keys(a);
    }
  }
}
