/** Sort keys and the stable sort behind every `items.sort(key=...)`.

    Python compares strings code point by code point and tuples component by
    component, a shorter prefix first; every sort key of the handlers is
    therefore written as a sequence of integers compared lexicographically. */
module Ordering {
  import opened Values

  type Key = seq<int>

  /** `a <= b` in lexicographic order, the empty key being the least. */
  predicate LexLe(a: Key, b: Key)
  {
    a == [] || (b != [] && (a[0] < b[0] || (a[0] == b[0] && LexLe(a[1..], b[1..]))))
  }

  lemma {:induction false} LexLeTotal(a: Key, b: Key)
    ensures LexLe(a, b) || LexLe(b, a)
  {
    if a != [] && b != [] && a[0] == b[0] {
      LexLeTotal(a[1..], b[1..]);
    }
  }

  lemma {:induction false} LexLeTransitive(a: Key, b: Key, c: Key)
    requires LexLe(a, b) && LexLe(b, c)
    ensures LexLe(a, c)
  {
    if a != [] && b != [] && c != [] && a[0] == b[0] == c[0] {
      LexLeTransitive(a[1..], b[1..], c[1..]);
    }
  }

  lemma {:induction false} LexLeAntisymmetric(a: Key, b: Key)
    requires LexLe(a, b) && LexLe(b, a)
    ensures a == b
  {
    if a != [] && b != [] {
      LexLeAntisymmetric(a[1..], b[1..]);
      assert a == [a[0]] + a[1..] && b == [b[0]] + b[1..];
    }
  }

  /** A string as the sequence of its code points. */
  function Codes(s: string): (k: Key)
    ensures |k| == |s|
    ensures forall i :: 0 <= i < |s| ==> k[i] == s[i] as int
  {
    seq(|s|, i requires 0 <= i < |s| => s[i] as int)
  }

  /** The key `item.get(f, '')` of a timestamp attribute: the server writes
      every timestamp, so a missing one (the empty string, the least string)
      is the only other case. */
  function TimeKey(item: Record, f: Attr): (k: Key)
    ensures f in item && item[f].Time? ==> k == [item[f].t]
    ensures f !in item ==> k == []
  {
    if f in item && item[f].Time? then [item[f].t] else []
  }

  /** `x` may stand before `y` in a list sorted by `key` (descending when `desc`,
      as `reverse=True`). */
  predicate InOrder(key: Record -> Key, desc: bool, x: Record, y: Record)
  {
    if desc then LexLe(key(y), key(x)) else LexLe(key(x), key(y))
  }

  ghost predicate Sorted(s: seq<Record>, key: Record -> Key, desc: bool)
  {
    forall i, j :: 0 <= i < j < |s| ==> InOrder(key, desc, s[i], s[j])
  }

  lemma InOrderTotal(key: Record -> Key, desc: bool, x: Record, y: Record)
    ensures InOrder(key, desc, x, y) || InOrder(key, desc, y, x)
  {
    LexLeTotal(key(x), key(y));
  }

  lemma InOrderTransitive(key: Record -> Key, desc: bool, x: Record, y: Record, z: Record)
    requires InOrder(key, desc, x, y) && InOrder(key, desc, y, z)
    ensures InOrder(key, desc, x, z)
  {
    if desc {
      LexLeTransitive(key(z), key(y), key(x));
    } else {
      LexLeTransitive(key(x), key(y), key(z));
    }
  }

  /** Put `x` in front of the first element it may precede; `x` goes before
      the elements whose key equals its own, which keeps the sort stable. */
  function Insert(x: Record, t: seq<Record>, key: Record -> Key, desc: bool): (r: seq<Record>)
    ensures multiset(r) == multiset(t) + multiset{x}
    ensures |r| == |t| + 1
  {
    if t == [] || InOrder(key, desc, x, t[0]) then [x] + t
    else
      assert t == [t[0]] + t[1..];
      [t[0]] + Insert(x, t[1..], key, desc)
  }

  /** The stable sort `list.sort(key=key, reverse=desc)`. */
  function SortBy(s: seq<Record>, key: Record -> Key, desc: bool): (r: seq<Record>)
    ensures multiset(r) == multiset(s)
    ensures |r| == |s|
  {
    if s == [] then []
    else
      assert s == [s[0]] + s[1..];
      Insert(s[0], SortBy(s[1..], key, desc), key, desc)
  }

  lemma {:induction false} InsertSorted(x: Record, t: seq<Record>, key: Record -> Key, desc: bool)
    requires Sorted(t, key, desc)
    ensures Sorted(Insert(x, t, key, desc), key, desc)
  {
    if t == [] || InOrder(key, desc, x, t[0]) {
      var r := [x] + t;
      forall i, j | 0 <= i < j < |r| ensures InOrder(key, desc, r[i], r[j]) {
        if i == 0 && j > 1 {
          InOrderTransitive(key, desc, x, t[0], t[j - 1]);
        }
      }
    } else {
      var rest := Insert(x, t[1..], key, desc);
      SortedTail(t, key, desc);
      InsertSorted(x, t[1..], key, desc);
      HeadFirst(x, t, key, desc);
      var r := [t[0]] + rest;
      forall i, j | 0 <= i < j < |r| ensures InOrder(key, desc, r[i], r[j]) {
        if i > 0 {
          assert r[i] == rest[i - 1] && r[j] == rest[j - 1];
        }
      }
    }
  }

  /** The tail of a sorted sequence is sorted. */
  lemma SortedTail(t: seq<Record>, key: Record -> Key, desc: bool)
    requires t != [] && Sorted(t, key, desc)
    ensures Sorted(t[1..], key, desc)
  {
    forall i, j | 0 <= i < j < |t[1..]| ensures InOrder(key, desc, t[1..][i], t[1..][j]) {
      assert t[1..][i] == t[i + 1] && t[1..][j] == t[j + 1];
    }
  }

  /** When `x` goes after the head of a sorted sequence, the head may precede
      everything the rest becomes. */
  lemma HeadFirst(x: Record, t: seq<Record>, key: Record -> Key, desc: bool)
    requires t != [] && Sorted(t, key, desc) && !InOrder(key, desc, x, t[0])
    ensures forall j :: 0 <= j < |Insert(x, t[1..], key, desc)| ==>
              InOrder(key, desc, t[0], Insert(x, t[1..], key, desc)[j])
  {
    InOrderTotal(key, desc, x, t[0]);
    var rest := Insert(x, t[1..], key, desc);
    forall j | 0 <= j < |rest| ensures InOrder(key, desc, t[0], rest[j]) {
      assert rest[j] in multiset(rest);
      assert rest[j] == x || rest[j] in multiset(t[1..]);
      if rest[j] != x {
        var k :| 0 <= k < |t[1..]| && t[1..][k] == rest[j];
        assert t[k + 1] == rest[j];
      }
    }
  }

  /** `SortBy` sorts: every element may precede every later one. */
  lemma {:induction false} SortBySorted(s: seq<Record>, key: Record -> Key, desc: bool)
    ensures Sorted(SortBy(s, key, desc), key, desc)
  {
    if s != [] {
      SortBySorted(s[1..], key, desc);
      InsertSorted(s[0], SortBy(s[1..], key, desc), key, desc);
    }
  }

  /** The elements of `s` whose key is `k`, in their order in `s`. */
  function WithKey(s: seq<Record>, key: Record -> Key, k: Key): seq<Record>
  {
    if s == [] then []
    else (if key(s[0]) == k then [s[0]] else []) + WithKey(s[1..], key, k)
  }

  lemma WithKeyCons(x: Record, t: seq<Record>, key: Record -> Key, k: Key)
    ensures WithKey([x] + t, key, k) == (if key(x) == k then [x] else []) + WithKey(t, key, k)
  {
    assert ([x] + t)[1..] == t;
  }

  /** Passing over an element of another key does not change where `x`
      stands among the elements of its own key. */
  lemma SkipOther(y: Record, x: Record, rest: seq<Record>, t: seq<Record>, key: Record -> Key, k: Key)
    requires key(y) != key(x)
    requires WithKey(rest, key, k) == (if key(x) == k then [x] else []) + WithKey(t, key, k)
    ensures WithKey([y] + rest, key, k) == (if key(x) == k then [x] else []) + WithKey([y] + t, key, k)
  {
    WithKeyCons(y, rest, key, k);
    WithKeyCons(y, t, key, k);
    if key(x) == k {
      assert WithKey([y] + rest, key, k) == WithKey(rest, key, k);
    } else {
      assert WithKey(rest, key, k) == WithKey(t, key, k);
    }
  }

  /** Inserting `x` passes over only elements whose key differs from its own,
      so among the elements of one key it lands first. */
  lemma {:induction false} InsertStable(x: Record, t: seq<Record>, key: Record -> Key, desc: bool, k: Key)
    ensures WithKey(Insert(x, t, key, desc), key, k) == (if key(x) == k then [x] else []) + WithKey(t, key, k)
  {
    if t == [] || InOrder(key, desc, x, t[0]) {
      assert Insert(x, t, key, desc) == [x] + t;
      WithKeyCons(x, t, key, k);
    } else {
      LexLeTotal(key(x), key(x));
      assert key(t[0]) != key(x);
      InsertStable(x, t[1..], key, desc, k);
      assert Insert(x, t, key, desc) == [t[0]] + Insert(x, t[1..], key, desc);
      SkipOther(t[0], x, Insert(x, t[1..], key, desc), t[1..], key, k);
      assert [t[0]] + t[1..] == t;
    }
  }

  /** `SortBy` is stable: the elements of any one key keep their input order. */
  lemma {:induction false} SortByStable(s: seq<Record>, key: Record -> Key, desc: bool, k: Key)
    ensures WithKey(SortBy(s, key, desc), key, k) == WithKey(s, key, k)
  {
    if s != [] {
      SortByStable(s[1..], key, desc, k);
      InsertStable(s[0], SortBy(s[1..], key, desc), key, desc, k);
    }
  }
}
