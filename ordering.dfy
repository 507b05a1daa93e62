/** Ordering of query results. Every default `ordering` of the views is
    a lexicographic comparison of a per-row key (a sequence of integers:
    the title's character codes, or `[-priority, due_date]`, or
    `[-created]`), so one order relation and one sort serve all four. */
module Ordering {
  import opened Models

  /** Lexicographic "at most" on integer sequences; a prefix comes first. */
  predicate LexLe(a: seq<int>, b: seq<int>)
    decreases |a|
  {
    |a| == 0 || (|b| > 0 && (a[0] < b[0] || (a[0] == b[0] && LexLe(a[1..], b[1..]))))
  }

  lemma {:induction false} LexLeReflexive(a: seq<int>)
    ensures LexLe(a, a)
    decreases |a|
  {
    if |a| > 0 { LexLeReflexive(a[1..]); }
  }

  lemma {:induction false} LexLeTotal(a: seq<int>, b: seq<int>)
    ensures LexLe(a, b) || LexLe(b, a)
    decreases |a|
  {
    if |a| > 0 && |b| > 0 && a[0] == b[0] { LexLeTotal(a[1..], b[1..]); }
  }

  lemma {:induction false} LexLeTransitive(a: seq<int>, b: seq<int>, c: seq<int>)
    requires LexLe(a, b) && LexLe(b, c)
    ensures LexLe(a, c)
    decreases |a|
  {
    if |a| > 0 && a[0] == b[0] && b[0] == c[0] { LexLeTransitive(a[1..], b[1..], c[1..]); }
  }

  /** The sort key of a title: its character codes. */
  function TitleKey(t: string): (k: seq<int>)
    ensures |k| == |t| && forall i :: 0 <= i < |t| ==> k[i] == t[i] as int
  {
    seq(|t|, i requires 0 <= i < |t| => t[i] as int)
  }

  /** Every element of `s` has a key and keys never decrease along `s`. */
  predicate SortedBy(s: seq<Id>, key: map<Id, seq<int>>) {
    && (forall i :: 0 <= i < |s| ==> s[i] in key)
    && (forall i, j :: 0 <= i < j < |s| ==> LexLe(key[s[i]], key[s[j]]))
  }

  /** Places `x` before the first element whose key is not smaller than its own. */
  function Insert(x: Id, s: seq<Id>, key: map<Id, seq<int>>): (r: seq<Id>)
    requires x in key && SortedBy(s, key)
    ensures SortedBy(r, key)
    ensures multiset(r) == multiset(s) + multiset{x}
    decreases |s|
  {
    if s == [] then [x]
    else if LexLe(key[x], key[s[0]]) then
      HeadBeforeRest(x, s, key);
      [x] + s
    else
      var rest := Insert(x, s[1..], key);
      LexLeTotal(key[x], key[s[0]]);
      assert s == [s[0]] + s[1..];
      HeadBeforeInserted(s[0], x, s[1..], rest, key);
      [s[0]] + rest
  }

  /** `x` may go in front of a sorted `s` whose first key is not smaller. */
  lemma HeadBeforeRest(x: Id, s: seq<Id>, key: map<Id, seq<int>>)
    requires x in key && SortedBy(s, key) && |s| > 0 && LexLe(key[x], key[s[0]])
    ensures SortedBy([x] + s, key)
  {
    forall j | 0 < j < |s| ensures LexLe(key[x], key[s[j]]) {
      LexLeTransitive(key[x], key[s[0]], key[s[j]]);
    }
  }

  /** `h` may go in front of `r` when `r` holds the elements of `t` and `x`,
      and `h` is not after any of them. */
  lemma HeadBeforeInserted(h: Id, x: Id, t: seq<Id>, r: seq<Id>, key: map<Id, seq<int>>)
    requires h in key && x in key && SortedBy([h] + t, key) && LexLe(key[h], key[x])
    requires SortedBy(r, key) && multiset(r) == multiset(t) + multiset{x}
    ensures SortedBy([h] + r, key)
  {
    var s := [h] + r;
    assert forall i :: 0 < i < |s| ==> s[i] == r[i - 1];
    forall i, j | 0 <= i < j < |s| ensures LexLe(key[s[i]], key[s[j]]) {
      if i > 0 {
        assert s[i] == r[i - 1] && s[j] == r[j - 1];
      } else {
        assert s[0] == h && s[j] == r[j - 1];
        assert r[j - 1] in multiset(r);
        if r[j - 1] != x {
          assert r[j - 1] in multiset(t);
          var k :| 0 <= k < |t| && t[k] == r[j - 1];
          assert ([h] + t)[0] == h && ([h] + t)[k + 1] == t[k];
        }
      }
    }
  }

  /** The elements of `ids`, each once, in ascending key order; rows with
      equal keys come in an unspecified order. */
  ghost function SortByKey(ids: set<Id>, key: map<Id, seq<int>>): (r: seq<Id>)
    requires ids <= key.Keys
    ensures SortedBy(r, key)
    ensures multiset(r) == multiset(ids)
    decreases ids
  {
    if ids == {} then []
    else
      var x :| x in ids;
      assert ids == (ids - {x}) + {x};
      Insert(x, SortByKey(ids - {x}, key), key)
  }

  /** The sorted list holds exactly the given ids. */
  lemma SortByKeyMembers(ids: set<Id>, key: map<Id, seq<int>>)
    requires ids <= key.Keys
    ensures forall x :: x in SortByKey(ids, key) <==> x in ids
    ensures |SortByKey(ids, key)| == |ids|
  {
    var r := SortByKey(ids, key);
    forall x ensures x in r <==> x in ids {
      assert x in r <==> x in multiset(r);
    }
    assert |r| == |multiset(r)| == |multiset(ids)|;
  }

  /** The rows `ids` of table `rows`, each once, ascending in `keyOf` of the row. */
  ghost function SortRows<V>(rows: map<Id, V>, ids: set<Id>, keyOf: V -> seq<int>): (r: seq<Id>)
    requires ids <= rows.Keys
    ensures forall x :: x in r <==> x in ids
    ensures |r| == |ids|
    ensures forall i :: 0 <= i < |r| ==> r[i] in rows
    ensures forall i, j :: 0 <= i < j < |r| ==> LexLe(keyOf(rows[r[i]]), keyOf(rows[r[j]]))
  {
    var key := map x | x in ids :: keyOf(rows[x]);
    SortByKeyMembers(ids, key);
    var r := SortByKey(ids, key);
    assert forall i :: 0 <= i < |r| ==> r[i] in ids;
    r
  }
}
