/**
 * `Array.prototype.filter` on sequences, and the facts about it that the row
 * stores use when they delete a row by its identity.
 */
module Seqs {

  /** The elements of `s` that satisfy `keep`, in their original order. */
  function Filter<T>(s: seq<T>, keep: T -> bool): (r: seq<T>)
    ensures |r| <= |s|
  {
    if s == [] then [] else (if keep(s[0]) then [s[0]] else []) + Filter(s[1..], keep)
  }

  /** The filter keeps exactly the elements that pass the test. */
  lemma {:induction false} FilterMembers<T>(s: seq<T>, keep: T -> bool)
    ensures forall x :: x in Filter(s, keep) ==> x in s && keep(x)
    ensures forall i :: 0 <= i < |s| && keep(s[i]) ==> s[i] in Filter(s, keep)
  {
    if s != [] {
      FilterMembers(s[1..], keep);
      forall i | 0 < i < |s| && keep(s[i])
        ensures s[i] in Filter(s[1..], keep)
      {
        assert s[1..][i - 1] == s[i];
      }
    }
  }

  /** Filtering a concatenation filters each part. */
  lemma {:induction false} FilterConcat<T>(a: seq<T>, b: seq<T>, keep: T -> bool)
    ensures Filter(a + b, keep) == Filter(a, keep) + Filter(b, keep)
  {
    if a == [] {
      assert a + b == b;
    } else {
      var head := if keep(a[0]) then [a[0]] else [];
      assert (a + b)[0] == a[0] && (a + b)[1..] == a[1..] + b;
      FilterConcat(a[1..], b, keep);
      assert Filter(a + b, keep) == head + (Filter(a[1..], keep) + Filter(b, keep));
      assert head + (Filter(a[1..], keep) + Filter(b, keep)) == (head + Filter(a[1..], keep)) + Filter(b, keep);
    }
  }

  /** A filter that keeps every element changes nothing. */
  lemma {:induction false} FilterKeepsAll<T>(s: seq<T>, keep: T -> bool)
    requires forall i :: 0 <= i < |s| ==> keep(s[i])
    ensures Filter(s, keep) == s
  {
    if s != [] {
      FilterKeepsAll(s[1..], keep);
    }
  }

  /** A filter that drops exactly the element at `k` removes that element and keeps the rest in order. */
  lemma {:induction false} FilterDropsOne<T>(s: seq<T>, keep: T -> bool, k: nat)
    requires k < |s| && !keep(s[k])
    requires forall i :: 0 <= i < |s| && i != k ==> keep(s[i])
    ensures Filter(s, keep) == s[..k] + s[k + 1..]
    decreases k
  {
    var tail := s[1..];
    if k == 0 {
      assert forall i :: 0 <= i < |tail| ==> keep(tail[i]) by {
        forall i | 0 <= i < |tail| ensures keep(tail[i]) { assert tail[i] == s[i + 1]; }
      }
      FilterKeepsAll(tail, keep);
      assert s[..0] + s[1..] == tail;
    } else {
      assert forall i :: 0 <= i < |tail| && i != k - 1 ==> keep(tail[i]) by {
        forall i | 0 <= i < |tail| && i != k - 1 ensures keep(tail[i]) { assert tail[i] == s[i + 1]; }
      }
      FilterDropsOne(tail, keep, k - 1);
      assert [s[0]] + (tail[..k - 1] + tail[k..]) == s[..k] + s[k + 1..];
    }
  }

  /** No two elements of `s` share a key. */
  predicate UniqueKeys<T>(s: seq<T>, key: T -> nat) {
    forall i, j :: 0 <= i < j < |s| ==> key(s[i]) != key(s[j])
  }

  /** Some element of `s` has key `k`. */
  predicate HasKey<T>(s: seq<T>, key: T -> nat, k: nat) {
    exists i :: 0 <= i < |s| && key(s[i]) == k
  }

  /** The filter predicate `x => key(x) !== k`. */
  function Other<T>(key: T -> nat, k: nat): T -> bool {
    x => key(x) != k
  }

  /** `s.filter(x => key(x) !== k)` */
  function RemoveKey<T>(s: seq<T>, key: T -> nat, k: nat): (r: seq<T>)
    ensures |r| <= |s|
    ensures forall x :: x in r ==> x in s && key(x) != k
    ensures forall i :: 0 <= i < |s| && key(s[i]) != k ==> s[i] in r
  {
    FilterMembers(s, Other(key, k));
    Filter(s, Other(key, k))
  }

  /** Dropping one position keeps unique keys unique. */
  lemma UniqueKeysWithout<T>(s: seq<T>, key: T -> nat, i: nat)
    requires UniqueKeys(s, key) && i < |s|
    ensures UniqueKeys(s[..i] + s[i + 1..], key)
  {
    var r := s[..i] + s[i + 1..];
    forall a, b | 0 <= a < b < |r|
      ensures key(r[a]) != key(r[b])
    {
      var a' := if a < i then a else a + 1;
      var b' := if b < i then b else b + 1;
      assert r[a] == s[a'] && r[b] == s[b'] && a' < b';
    }
  }

  /**
   * With unique keys, removing the key of the element at `i` removes exactly
   * that element, keeps the others in order and leaves the keys unique.
   */
  lemma RemoveKeyAt<T>(s: seq<T>, key: T -> nat, i: nat)
    requires UniqueKeys(s, key) && i < |s|
    ensures RemoveKey(s, key, key(s[i])) == s[..i] + s[i + 1..]
    ensures |RemoveKey(s, key, key(s[i]))| == |s| - 1
    ensures UniqueKeys(RemoveKey(s, key, key(s[i])), key)
  {
    var keep := Other(key, key(s[i]));
    forall j | 0 <= j < |s| && j != i
      ensures keep(s[j])
    {
      if j < i {
        assert key(s[j]) != key(s[i]);
      } else {
        assert key(s[i]) != key(s[j]);
      }
    }
    FilterDropsOne(s, keep, i);
    UniqueKeysWithout(s, key, i);
  }

  /** Removing a key no element has changes nothing. */
  lemma RemoveMissingKey<T>(s: seq<T>, key: T -> nat, k: nat)
    requires !HasKey(s, key, k)
    ensures RemoveKey(s, key, k) == s
  {
    var keep := Other(key, k);
    forall j | 0 <= j < |s|
      ensures keep(s[j])
    {
      assert key(s[j]) != k;
    }
    FilterKeepsAll(s, keep);
  }

  /** A removal keeps unique keys unique, whether or not the key is present. */
  lemma RemoveKeyKeepsUnique<T>(s: seq<T>, key: T -> nat, k: nat)
    requires UniqueKeys(s, key)
    ensures UniqueKeys(RemoveKey(s, key, k), key)
  {
    if i :| 0 <= i < |s| && key(s[i]) == k {
      RemoveKeyAt(s, key, i);
    } else {
      RemoveMissingKey(s, key, k);
    }
  }

  /** `s.map(x => key(x) === k ? f(x) : x)` */
  function UpdateKey<T>(s: seq<T>, key: T -> nat, k: nat, f: T -> T): (r: seq<T>)
    ensures |r| == |s|
    ensures forall i :: 0 <= i < |s| && key(s[i]) == k ==> r[i] == f(s[i])
    ensures forall i :: 0 <= i < |s| && key(s[i]) != k ==> r[i] == s[i]
  {
    seq(|s|, i requires 0 <= i < |s| => if key(s[i]) == k then f(s[i]) else s[i])
  }

  /** Updating a key no element has changes nothing. */
  lemma UpdateMissingKey<T>(s: seq<T>, key: T -> nat, k: nat, f: T -> T)
    requires !HasKey(s, key, k)
    ensures UpdateKey(s, key, k, f) == s
  {
  }

  /** With unique keys, updating the key of the element at `i` replaces that element alone. */
  lemma UpdateKeyAt<T>(s: seq<T>, key: T -> nat, i: nat, f: T -> T)
    requires UniqueKeys(s, key) && i < |s|
    ensures UpdateKey(s, key, key(s[i]), f) == s[..i] + [f(s[i])] + s[i + 1..]
  {
    var r := UpdateKey(s, key, key(s[i]), f);
    var t := s[..i] + [f(s[i])] + s[i + 1..];
    forall j | 0 <= j < |r|
      ensures r[j] == t[j]
    {
      if j < i {
        assert key(s[j]) != key(s[i]);
      } else if j > i {
        assert key(s[i]) != key(s[j]);
      }
    }
  }

  /** An update that keeps each element's key keeps the keys, and so keeps them unique. */
  lemma UpdateKeepsKeys<T>(s: seq<T>, key: T -> nat, k: nat, f: T -> T)
    requires forall x :: key(f(x)) == key(x)
    ensures forall i :: 0 <= i < |s| ==> key(UpdateKey(s, key, k, f)[i]) == key(s[i])
    ensures UniqueKeys(s, key) ==> UniqueKeys(UpdateKey(s, key, k, f), key)
  {
  }
}
