/**
 * File listings as `rclone lsjson` reports them, and the path-keyed
 * dictionary the scan builds from each one (main.py:246-247).
 */
module Listing {

  /** One record of a listing: the three fields the scan reads. */
  datatype FileEntry = FileEntry(path: string, size: int, modTime: string)

  /**
   * A Python dict from path to record: `keys` in insertion order,
   * `items` the key-value pairs.
   */
  datatype Dict = Dict(keys: seq<string>, items: map<string, FileEntry>)

  predicate Distinct<T(==)>(s: seq<T>) {
    forall i, j :: 0 <= i < j < |s| ==> s[i] != s[j]
  }

  /** The position of the first occurrence of `x` in `s`. */
  function IndexOf<T(==)>(s: seq<T>, x: T): (i: nat)
    requires x in s
    ensures i < |s| && s[i] == x && x !in s[..i]
  {
    if s[0] == x then 0 else 1 + IndexOf(s[1..], x)
  }

  /**
   * A well-formed dictionary: every key once, the key sequence and the
   * map agree, and each value is the record whose `Path` is its key.
   */
  ghost predicate Valid(d: Dict) {
    && Distinct(d.keys)
    && KeysIn(d.keys, d.items)
    && (forall p :: p in d.items ==> p in d.keys)
    && (forall p :: p in d.items ==> d.items[p].path == p)
  }

  /** Every key of `ks` is a key of `m`. */
  ghost predicate KeysIn(ks: seq<string>, m: map<string, FileEntry>) {
    forall k :: k in ks ==> k in m
  }

  /** The `Path` column of a listing (the change records have their own, in `Classifier`). */
  function Paths(es: seq<FileEntry>): (ps: seq<string>)
    ensures |ps| == |es|
    ensures forall i :: 0 <= i < |es| ==> ps[i] == es[i].path
  {
    if es == [] then [] else Paths(es[..|es| - 1]) + [es[|es| - 1].path]
  }

  /** `i` is the position of the last record in `es` with its path. */
  ghost predicate IsLast(es: seq<FileEntry>, i: int) {
    0 <= i < |es| && forall j :: i < j < |es| ==> es[j].path != es[i].path
  }

  /**
   * `d[e.path] = e`: a new key goes to the end, an existing key keeps its
   * position and takes the new value.
   */
  function Insert(d: Dict, e: FileEntry): (r: Dict)
    requires Valid(d)
    ensures Valid(r)
    ensures r.items == d.items[e.path := e]
    ensures e.path in d.items ==> r.keys == d.keys
    ensures e.path !in d.items ==> r.keys == d.keys + [e.path]
  {
    if e.path in d.items then Dict(d.keys, d.items[e.path := e])
    else Dict(d.keys + [e.path], d.items[e.path := e])
  }

  /** `{item['Path']: item for item in es}` */
  function ToDict(es: seq<FileEntry>): (d: Dict)
    ensures Valid(d)
  {
    if es == [] then Dict([], map[])
    else Insert(ToDict(es[..|es| - 1]), es[|es| - 1])
  }

  /** The dictionary's keys are exactly the paths of the listing. */
  lemma {:induction false} ToDictKeys(es: seq<FileEntry>)
    ensures forall p :: p in ToDict(es).items <==> p in Paths(es)
  {
    if es != [] {
      var n := |es| - 1;
      ToDictKeys(es[..n]);
      assert Paths(es) == Paths(es[..n]) + [es[n].path];
    }
  }

  /** When a path occurs several times, the dictionary holds its last record. */
  lemma {:induction false} ToDictLastWins(es: seq<FileEntry>, i: int)
    requires IsLast(es, i)
    ensures es[i].path in ToDict(es).items
    ensures ToDict(es).items[es[i].path] == es[i]
  {
    var n := |es| - 1;
    if i < n {
      ToDictLastWins(es[..n], i);
    }
  }

  /**
   * The keys are ordered by the position of each path's first occurrence
   * in the listing.
   */
  lemma {:induction false} ToDictFirstOrder(es: seq<FileEntry>, a: int, b: int)
    requires 0 <= a < b < |ToDict(es).keys|
    ensures ToDict(es).keys[a] in Paths(es) && ToDict(es).keys[b] in Paths(es)
    ensures IndexOf(Paths(es), ToDict(es).keys[a]) < IndexOf(Paths(es), ToDict(es).keys[b])
  {
    var n := |es| - 1;
    var pre := es[..n];
    var d, d' := ToDict(pre), ToDict(es);
    assert Paths(es) == Paths(pre) + [es[n].path];
    var x, y := d'.keys[a], d'.keys[b];
    ToDictKeys(pre);
    ToDictKeys(es);
    assert x in Paths(pre) by {
      if es[n].path !in d.items { assert a < |d.keys|; }
    }
    IndexOfPrefix(Paths(pre), es[n].path, x);
    if es[n].path in d.items || b < |d.keys| {
      ToDictFirstOrder(pre, a, b);
      IndexOfPrefix(Paths(pre), es[n].path, y);
    } else {
      assert y == es[n].path && y !in Paths(pre);
      IndexOfLast(Paths(pre), y);
    }
  }

  lemma IndexOfPrefix<T>(s: seq<T>, z: T, x: T)
    requires x in s
    ensures IndexOf(s + [z], x) == IndexOf(s, x)
  {
    if s[0] != x {
      assert (s + [z])[1..] == s[1..] + [z];
      IndexOfPrefix(s[1..], z, x);
    }
  }

  lemma IndexOfLast<T>(s: seq<T>, z: T)
    requires z !in s
    ensures IndexOf(s + [z], z) == |s|
  {
    if s != [] {
      assert (s + [z])[0] == s[0] != z;
      assert (s + [z])[1..] == s[1..] + [z];
      IndexOfLast(s[1..], z);
    }
  }

  /** In a sequence without repeats, the element at `k` is first found at `k`. */
  lemma IndexOfDistinct<T>(s: seq<T>, k: int)
    requires Distinct(s) && 0 <= k < |s|
    ensures IndexOf(s, s[k]) == k
  {
    var i := IndexOf(s, s[k]);
    assert i <= k by { assert s[k] == s[i]; }
    assert i >= k by { assert s[..i] != [] ==> s[k] !in s[..i]; }
  }

  /** An element of a prefix is first found inside that prefix. */
  lemma IndexOfInPrefix<T>(s: seq<T>, n: int, x: T)
    requires 0 <= n <= |s| && x in s[..n]
    ensures IndexOf(s, x) < n
  {
    var i := IndexOf(s, x);
    assert x !in s[..i];
  }
}
