/**
 * Grouping rows by a key the way `pivot_table` does with
 * `aggfunc={'Hours': 'sum', <column>: 'first'}`: one group per distinct key,
 * the group's hours summed, its descriptive value taken from its first row.
 *
 * `Group` is the one-pass accumulation (each row either adds its hours to the
 * group already holding its key or opens a new group); `Distinct`,
 * `GroupSum` and `FirstIndex` are the declarative reference it is proved
 * against.
 */
module Grouping {
  import opened Wrappers

  /** A row to group (its key, its descriptive value, its hours) or, after
      grouping, a group (its key, its first row's value, its summed hours). */
  datatype Entry<K, V> = Entry(key: K, first: V, hours: real)

  function Keys<K, V>(es: seq<Entry<K, V>>): seq<K> {
    seq(|es|, i requires 0 <= i < |es| => es[i].key)
  }

  predicate NoDuplicates<K(==)>(ks: seq<K>) {
    forall i, j :: 0 <= i < j < |ks| ==> ks[i] != ks[j]
  }

  /** The distinct keys of `ks`, each once, in the order they first appear. */
  function Distinct<K(==)>(ks: seq<K>): (d: seq<K>)
    ensures forall i :: 0 <= i < |d| ==> d[i] in ks
    ensures forall i :: 0 <= i < |ks| ==> ks[i] in d
    ensures NoDuplicates(d)
    ensures forall i, j :: 0 <= i < j < |d| ==> FirstIndex(ks, d[i]) < FirstIndex(ks, d[j])
  {
    if ks == [] then []
    else
      var front := ks[..|ks| - 1];
      var k := ks[|ks| - 1];
      assert ks == front + [k];
      var d := Distinct(front);
      DistinctOrderSnoc(front, k, d);
      if k in d then d else d + [k]
  }

  /** Appending a key keeps the first positions of the keys already there,
      and a new key comes after all of them. */
  lemma {:induction false} DistinctOrderSnoc<K>(front: seq<K>, k: K, d: seq<K>)
    requires forall i :: 0 <= i < |d| ==> d[i] in front
    requires forall i :: 0 <= i < |front| ==> front[i] in d
    requires forall i, j :: 0 <= i < j < |d| ==> FirstIndex(front, d[i]) < FirstIndex(front, d[j])
    ensures forall i :: 0 <= i < |d| ==> FirstIndex(front + [k], d[i]) == FirstIndex(front, d[i])
    ensures k !in d ==> k !in front && FirstIndex(front + [k], k) == |front|
  {
    forall i | 0 <= i < |d|
      ensures FirstIndex(front + [k], d[i]) == FirstIndex(front, d[i])
    {
      FirstIndexSnoc(front, k, d[i]);
    }
    if k !in d {
      FirstIndexOfNew(front, k);
    }
  }

  /** Position of the first occurrence of `k` in `ks`. */
  function FirstIndex<K(==)>(ks: seq<K>, k: K): (i: nat)
    requires k in ks
    ensures i < |ks| && ks[i] == k && k !in ks[..i]
  {
    if ks[0] == k then 0
    else
      var i := FirstIndex(ks[1..], k);
      assert ks[..i + 1] == [ks[0]] + ks[1..][..i];
      1 + i
  }

  /** Hours of all rows whose key is `k`. */
  function GroupSum<K(==), V>(es: seq<Entry<K, V>>, k: K): real {
    if es == [] then 0.0
    else
      var e := es[|es| - 1];
      GroupSum(es[..|es| - 1], k) + (if e.key == k then e.hours else 0.0)
  }

  /** Hours of all rows. */
  function Total<K, V>(es: seq<Entry<K, V>>): real {
    if es == [] then 0.0 else Total(es[..|es| - 1]) + es[|es| - 1].hours
  }

  /** Position of the group with key `k` in a table of groups. */
  function Find<K(==), V>(t: seq<Entry<K, V>>, k: K): (r: Option<nat>)
    ensures r.Some? ==> r.value < |t| && t[r.value].key == k
    ensures r.None? ==> k !in Keys(t)
  {
    if t == [] then None
    else if t[0].key == k then Some(0)
    else
      var r := Find(t[1..], k);
      assert Keys(t) == [t[0].key] + Keys(t[1..]);
      match r
      case None => None
      case Some(i) => Some(i + 1)
  }

  /** One row joins the table: its hours go to the group holding its key,
      or it opens a new group at the end. */
  function Add<K(==), V>(t: seq<Entry<K, V>>, e: Entry<K, V>): (u: seq<Entry<K, V>>)
    ensures |u| == if e.key in Keys(t) then |t| else |t| + 1
  {
    match Find(t, e.key)
    case Some(i) =>
      assert Keys(t)[i] == e.key;
      t[i := t[i].(hours := t[i].hours + e.hours)]
    case None => t + [e]
  }

  /** The rows grouped, groups in the order their keys first appear. */
  function Group<K(==), V>(es: seq<Entry<K, V>>): (g: seq<Entry<K, V>>)
    ensures |g| <= |es|
    ensures es != [] ==> g != []
  {
    if es == [] then [] else Add(Group(es[..|es| - 1]), es[|es| - 1])
  }

  lemma {:induction false} KeysSnoc<K, V>(es: seq<Entry<K, V>>)
    requires es != []
    ensures Keys(es) == Keys(es[..|es| - 1]) + [es[|es| - 1].key]
  {
  }

  lemma {:induction false} AddKeys<K, V>(t: seq<Entry<K, V>>, e: Entry<K, V>)
    ensures Keys(Add(t, e)) == if e.key in Keys(t) then Keys(t) else Keys(t) + [e.key]
  {
    match Find(t, e.key)
    case Some(i) =>
      assert e.key in Keys(t) by {
        assert Keys(t)[i] == e.key;
      }
      assert Keys(Add(t, e)) == Keys(t);
    case None =>
      assert Keys(Add(t, e)) == Keys(t) + [e.key];
  }

  /** The groups are the distinct keys of the rows, in first-appearance
      order: one group per key, and a group for every key. */
  lemma {:induction false} GroupKeys<K, V>(es: seq<Entry<K, V>>)
    ensures Keys(Group(es)) == Distinct(Keys(es))
  {
    if es != [] {
      var front := es[..|es| - 1];
      GroupKeys(front);
      KeysSnoc(es);
      assert Keys(es)[..|es| - 1] == Keys(front);
      AddKeys(Group(front), es[|es| - 1]);
    }
  }

  lemma {:induction false} GroupSumAbsent<K, V>(es: seq<Entry<K, V>>, k: K)
    requires k !in Keys(es)
    ensures GroupSum(es, k) == 0.0
  {
    if es != [] {
      KeysSnoc(es);
      GroupSumAbsent(es[..|es| - 1], k);
    }
  }

  lemma {:induction false} GroupKeysUnique<K, V>(es: seq<Entry<K, V>>)
    ensures NoDuplicates(Keys(Group(es)))
  {
    GroupKeys(es);
  }

  lemma {:induction false} GroupHasKey<K, V>(es: seq<Entry<K, V>>, k: K)
    ensures k in Keys(es) ==> k in Keys(Group(es))
  {
    GroupKeys(es);
  }

  /** Every group holds the summed hours of exactly the rows with its key. */
  lemma {:induction false} GroupHours<K, V>(es: seq<Entry<K, V>>)
    ensures forall i :: 0 <= i < |Group(es)| ==> Group(es)[i].hours == GroupSum(es, Group(es)[i].key)
  {
    if es != [] {
      var front := es[..|es| - 1];
      var e := es[|es| - 1];
      var t := Group(front);
      GroupHours(front);
      GroupKeysUnique(front);
      match Find(t, e.key)
      case Some(j) =>
        forall i | 0 <= i < |t| && i != j
          ensures t[i].key != e.key
        {
          assert Keys(t)[i] == t[i].key && Keys(t)[j] == t[j].key;
        }
      case None =>
        GroupHasKey(front, e.key);
        GroupSumAbsent(front, e.key);
        forall i | 0 <= i < |t|
          ensures t[i].key != e.key
        {
          assert Keys(t)[i] == t[i].key;
        }
    }
  }

  lemma {:induction false} FirstIndexMin<K>(ks: seq<K>, k: K, m: nat)
    requires m < |ks| && ks[m] == k
    ensures FirstIndex(ks, k) <= m
  {
    var i := FirstIndex(ks, k);
    var before := ks[..i];
    assert m < i ==> k in before;
  }

  lemma {:induction false} FirstIndexSnoc<K>(ks: seq<K>, x: K, k: K)
    requires k in ks
    ensures FirstIndex(ks + [x], k) == FirstIndex(ks, k)
  {
    var i := FirstIndex(ks, k);
    FirstIndexMin(ks + [x], k, i);
    var j := FirstIndex(ks + [x], k);
    FirstIndexMin(ks, k, j);
  }

  lemma {:induction false} FirstIndexOfNew<K>(ks: seq<K>, x: K)
    requires x !in ks
    ensures FirstIndex(ks + [x], x) == |ks|
  {
    FirstIndexMin(ks + [x], x, |ks|);
  }

  /** Every group's key is the key of some row. */
  lemma {:induction false} GroupKeysFromRows<K, V>(es: seq<Entry<K, V>>)
    ensures forall i :: 0 <= i < |Group(es)| ==> Group(es)[i].key in Keys(es)
  {
    GroupKeys(es);
    forall i | 0 <= i < |Group(es)|
      ensures Group(es)[i].key in Keys(es)
    {
      assert Keys(Group(es))[i] == Group(es)[i].key;
    }
  }

  lemma {:induction false} AddFirst<K, V>(front: seq<Entry<K, V>>, e: Entry<K, V>, i: nat)
    requires forall i :: 0 <= i < |Group(front)| ==> Group(front)[i].key in Keys(front)
    requires forall i :: 0 <= i < |Group(front)| ==>
               Group(front)[i].first == front[FirstIndex(Keys(front), Group(front)[i].key)].first
    requires i < |Group(front + [e])|
    ensures Group(front + [e])[i].key in Keys(front + [e])
    ensures Group(front + [e])[i].first ==
            (front + [e])[FirstIndex(Keys(front + [e]), Group(front + [e])[i].key)].first
  {
    var es := front + [e];
    assert es[..|es| - 1] == front;
    var t := Group(front);
    var ks := Keys(front);
    var g := Group(es)[i];
    KeysSnoc(es);
    if i < |t| {
      assert g.key == t[i].key && g.first == t[i].first;
      FirstIndexSnoc(ks, e.key, g.key);
    } else {
      assert g == e;
      GroupKeys(front);
      assert Find(t, e.key).None?;
      assert e.key !in ks;
      FirstIndexOfNew(ks, e.key);
    }
  }

  /** Every group carries the value of the first row with its key. */
  lemma {:induction false} GroupFirst<K, V>(es: seq<Entry<K, V>>)
    ensures forall i :: 0 <= i < |Group(es)| ==> Group(es)[i].key in Keys(es)
    ensures forall i :: 0 <= i < |Group(es)| ==>
              Group(es)[i].first == es[FirstIndex(Keys(es), Group(es)[i].key)].first
  {
    GroupKeysFromRows(es);
    if es != [] {
      var front := es[..|es| - 1];
      var e := es[|es| - 1];
      assert es == front + [e];
      GroupFirst(front);
      forall i | 0 <= i < |Group(es)|
        ensures Group(es)[i].first == es[FirstIndex(Keys(es), Group(es)[i].key)].first
      {
        AddFirst(front, e, i);
      }
    }
  }

  lemma {:induction false} TotalUpdate<K, V>(t: seq<Entry<K, V>>, j: nat, h: real)
    requires j < |t|
    ensures Total(t[j := t[j].(hours := t[j].hours + h)]) == Total(t) + h
    decreases |t|
  {
    var u := t[j := t[j].(hours := t[j].hours + h)];
    assert u[..|u| - 1] == if j == |t| - 1 then t[..|t| - 1]
                           else t[..|t| - 1][j := t[j].(hours := t[j].hours + h)];
    if j < |t| - 1 {
      TotalUpdate(t[..|t| - 1], j, h);
    }
  }

  /** Grouping neither loses nor invents hours. */
  lemma {:induction false} GroupConservesTotal<K, V>(es: seq<Entry<K, V>>)
    ensures Total(Group(es)) == Total(es)
  {
    if es != [] {
      var front := es[..|es| - 1];
      var e := es[|es| - 1];
      var t := Group(front);
      GroupConservesTotal(front);
      match Find(t, e.key)
      case Some(j) =>
        TotalUpdate(t, j, e.hours);
      case None =>
        assert (t + [e])[..|t|] == t;
    }
  }
}
