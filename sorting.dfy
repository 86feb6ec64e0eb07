/**
 * Python's stable `list.sort(key=..., reverse=...)` and the export's idiom of sorting once per
 * field, last field first, so that the result is ordered by the first field, ties by the
 * second, and so on.
 *
 * A sort is given here by one reference algorithm (insertion from the end); the lemma
 * `StableSortUnique` shows that any sorted rearrangement keeping every key class in its input
 * order is that same sequence, so the reference stands for any stable sort, Timsort included.
 */
module StableSort {

  /** A sort key as Python compares it: numbers by value, strings by code points. */
  datatype Key = Num(n: real) | Text(s: string)

  /** Python's `<=` on strings: lexicographic on code points. */
  predicate TextLeq(a: string, b: string)
    decreases |a|
  {
    a == [] || (b != [] && (a[0] < b[0] || (a[0] == b[0] && TextLeq(a[1..], b[1..]))))
  }

  lemma {:induction false} TextLeqTotal(a: string, b: string)
    ensures TextLeq(a, b) || TextLeq(b, a)
    decreases |a|
  {
    if a != [] && b != [] && a[0] == b[0] {
      TextLeqTotal(a[1..], b[1..]);
    }
  }

  lemma {:induction false} TextLeqAntisymmetric(a: string, b: string)
    requires TextLeq(a, b) && TextLeq(b, a)
    ensures a == b
    decreases |a|
  {
    if a != [] {
      TextLeqAntisymmetric(a[1..], b[1..]);
      assert a == [a[0]] + a[1..] && b == [b[0]] + b[1..];
    }
  }

  lemma {:induction false} TextLeqTransitive(a: string, b: string, c: string)
    requires TextLeq(a, b) && TextLeq(b, c)
    ensures TextLeq(a, c)
    decreases |a|
  {
    if a != [] && b != [] && c != [] && a[0] == b[0] && b[0] == c[0] {
      TextLeqTransitive(a[1..], b[1..], c[1..]);
    }
  }

  /**
   * Python's `<=` on keys. A number and a string are never compared by a sort that finishes
   * (the comparison raises TypeError); ranking numbers first only makes the order total.
   */
  predicate KeyLeq(a: Key, b: Key) {
    match (a, b)
    case (Num(x), Num(y)) => x <= y
    case (Text(x), Text(y)) => TextLeq(x, y)
    case (Num(_), Text(_)) => true
    case (Text(_), Num(_)) => false
  }

  /** Both kinds of key occur: sorting such a list raises TypeError. */
  predicate MixedKeys(keys: seq<Key>) {
    (exists i :: 0 <= i < |keys| && keys[i].Num?) && (exists j :: 0 <= j < |keys| && keys[j].Text?)
  }

  /** `a` may come before `b` in an ascending (`desc` false) or descending sort. */
  predicate KeyBefore(desc: bool, a: Key, b: Key) {
    if desc then KeyLeq(b, a) else KeyLeq(a, b)
  }

  lemma KeyBeforeTotal(desc: bool, a: Key, b: Key)
    ensures KeyBefore(desc, a, b) || KeyBefore(desc, b, a)
  {
    if a.Text? && b.Text? {
      TextLeqTotal(a.s, b.s);
    }
  }

  lemma KeyBeforeAntisymmetric(desc: bool, a: Key, b: Key)
    requires KeyBefore(desc, a, b) && KeyBefore(desc, b, a)
    ensures a == b
  {
    if a.Text? && b.Text? {
      TextLeqAntisymmetric(a.s, b.s);
    }
  }

  lemma KeyBeforeTransitive(desc: bool, a: Key, b: Key, c: Key)
    requires KeyBefore(desc, a, b) && KeyBefore(desc, b, c)
    ensures KeyBefore(desc, a, c)
  {
    if a.Text? && b.Text? && c.Text? {
      if desc {
        TextLeqTransitive(c.s, b.s, a.s);
      } else {
        TextLeqTransitive(a.s, b.s, c.s);
      }
    }
  }

  lemma {:induction false} KeyBeforeReflexive(desc: bool, a: Key)
    ensures KeyBefore(desc, a, a)
  {
    if a.Text? {
      TextLeqTotal(a.s, a.s);
    }
  }

  /** One `sort` call: the key function and the `reverse` flag. */
  datatype Order<!T> = Order(key: T -> Key, desc: bool)

  predicate Before<T>(o: Order<T>, x: T, y: T) {
    KeyBefore(o.desc, o.key(x), o.key(y))
  }

  predicate Sorted<T>(s: seq<T>, o: Order<T>) {
    forall i, j :: 0 <= i < j < |s| ==> Before(o, s[i], s[j])
  }

  /** The elements of `s` whose key is `k`, in their order in `s`. */
  function Class<T>(s: seq<T>, o: Order<T>, k: Key): (c: seq<T>)
    ensures |c| <= |s|
    decreases |s|
  {
    if s == [] then []
    else
      var last := s[|s| - 1];
      Class(s[..|s| - 1], o, k) + (if o.key(last) == k then [last] else [])
  }

  lemma ClassSnoc<T>(s: seq<T>, x: T, o: Order<T>, k: Key)
    ensures Class(s + [x], o, k) == Class(s, o, k) + (if o.key(x) == k then [x] else [])
  {
    assert (s + [x])[..|s|] == s;
  }

  /** A class holds exactly the elements of `s` with that key. */
  lemma {:induction false} ClassMembers<T>(s: seq<T>, o: Order<T>, k: Key)
    ensures forall i :: 0 <= i < |Class(s, o, k)| ==> Class(s, o, k)[i] in s && o.key(Class(s, o, k)[i]) == k
    ensures forall i :: 0 <= i < |s| && o.key(s[i]) == k ==> s[i] in Class(s, o, k)
    decreases |s|
  {
    if s != [] {
      var s' := s[..|s| - 1];
      var x := s[|s| - 1];
      assert s == s' + [x];
      ClassMembers(s', o, k);
      ClassSnoc(s', x, o, k);
      forall i | 0 <= i < |s| && o.key(s[i]) == k ensures s[i] in Class(s, o, k) {
        if i < |s'| {
          assert s[i] == s'[i];
        }
      }
    }
  }

  lemma {:induction false} ClassAppend<T>(a: seq<T>, b: seq<T>, o: Order<T>, k: Key)
    ensures Class(a + b, o, k) == Class(a, o, k) + Class(b, o, k)
    decreases |b|
  {
    if b == [] {
      assert a + b == a;
    } else {
      var b' := b[..|b| - 1];
      var y := b[|b| - 1];
      var f := if o.key(y) == k then [y] else [];
      assert b == b' + [y];
      calc {
        Class(a + b, o, k);
        { assert a + b == (a + b') + [y]; }
        Class((a + b') + [y], o, k);
        { ClassSnoc(a + b', y, o, k); }
        Class(a + b', o, k) + f;
        { ClassAppend(a, b', o, k); }
        Class(a, o, k) + Class(b', o, k) + f;
        { ClassSnoc(b', y, o, k); }
        Class(a, o, k) + Class(b, o, k);
      }
    }
  }

  /** Two elements of one class keep their relative order inside the class. */
  lemma ClassIndices<T>(s: seq<T>, o: Order<T>, i: nat, j: nat)
    requires i < j < |s| && o.key(s[i]) == o.key(s[j])
    ensures exists p, q ::
      (0 <= p < q < |Class(s, o, o.key(s[i]))| &&
       Class(s, o, o.key(s[i]))[p] == s[i] && Class(s, o, o.key(s[i]))[q] == s[j])
  {
    var k := o.key(s[i]);
    var a, m, b := s[..i], s[i + 1..j], s[j + 1..];
    assert s == a + [s[i]] + m + [s[j]] + b;
    ClassAppend(a + [s[i]] + m + [s[j]], b, o, k);
    ClassAppend(a + [s[i]] + m, [s[j]], o, k);
    ClassAppend(a + [s[i]], m, o, k);
    ClassAppend(a, [s[i]], o, k);
    ClassSnoc([], s[i], o, k);
    ClassSnoc([], s[j], o, k);
    var c := Class(s, o, k);
    var p := |Class(a, o, k)|;
    var q := p + 1 + |Class(m, o, k)|;
    assert c[p] == s[i];
    assert c[q] == s[j];
  }

  lemma SortedSnoc<T>(s: seq<T>, x: T, o: Order<T>)
    requires Sorted(s, o)
    requires forall e :: e in s ==> Before(o, e, x)
    ensures Sorted(s + [x], o)
  {
    var r := s + [x];
    forall i, j | 0 <= i < j < |r|
      ensures Before(o, r[i], r[j])
    {
      if j == |s| {
        assert r[i] in s;
      }
    }
  }

  /** Insert `x` after the last element it may follow: behind every element with an equal key. */
  function Insert<T>(t: seq<T>, x: T, o: Order<T>): (r: seq<T>)
    ensures |r| == |t| + 1
    decreases |t|
  {
    if t == [] then [x]
    else if Before(o, t[|t| - 1], x) then t + [x]
    else Insert(t[..|t| - 1], x, o) + [t[|t| - 1]]
  }

  lemma {:induction false} InsertMultiset<T>(t: seq<T>, x: T, o: Order<T>)
    ensures multiset(Insert(t, x, o)) == multiset(t) + multiset{x}
    decreases |t|
  {
    if t != [] {
      var t' := t[..|t| - 1];
      var l := t[|t| - 1];
      assert t == t' + [l];
      if !Before(o, l, x) {
        InsertMultiset(t', x, o);
      }
    }
  }

  /** Insertion only passes over elements with a different key. */
  lemma InsertPassesOver<T>(t: seq<T>, x: T, o: Order<T>)
    requires t != [] && !Before(o, t[|t| - 1], x)
    ensures o.key(t[|t| - 1]) != o.key(x)
    ensures Before(o, x, t[|t| - 1])
  {
    KeyBeforeTotal(o.desc, o.key(t[|t| - 1]), o.key(x));
    KeyBeforeReflexive(o.desc, o.key(x));
  }

  lemma {:induction false} InsertClass<T>(t: seq<T>, x: T, o: Order<T>, k: Key)
    ensures Class(Insert(t, x, o), o, k) == Class(t, o, k) + (if o.key(x) == k then [x] else [])
    decreases |t|
  {
    if t == [] {
      ClassSnoc([], x, o, k);
    } else {
      var t' := t[..|t| - 1];
      var l := t[|t| - 1];
      assert t == t' + [l];
      if Before(o, l, x) {
        ClassSnoc(t, x, o, k);
      } else {
        InsertPassesOver(t, x, o);
        InsertClass(t', x, o, k);
        ClassSnoc(Insert(t', x, o), l, o, k);
        ClassSnoc(t', l, o, k);
      }
    }
  }

  lemma {:induction false} InsertSorted<T>(t: seq<T>, x: T, o: Order<T>)
    requires Sorted(t, o)
    ensures Sorted(Insert(t, x, o), o)
    decreases |t|
  {
    if t != [] {
      var t' := t[..|t| - 1];
      var l := t[|t| - 1];
      assert t == t' + [l];
      if Before(o, l, x) {
        forall e | e in t ensures Before(o, e, x) {
          var i :| 0 <= i < |t| && t[i] == e;
          if i < |t| - 1 {
            KeyBeforeTransitive(o.desc, o.key(e), o.key(l), o.key(x));
          }
        }
        SortedSnoc(t, x, o);
      } else {
        InsertPassesOver(t, x, o);
        assert Sorted(t', o);
        InsertSorted(t', x, o);
        InsertMultiset(t', x, o);
        var r' := Insert(t', x, o);
        forall e | e in r' ensures Before(o, e, l) {
          assert e in multiset(r');
          if e != x {
            assert e in multiset(t');
            var i :| 0 <= i < |t'| && t'[i] == e;
            assert t[i] == e;
          }
        }
        SortedSnoc(r', l, o);
      }
    }
  }

  /**
   * `list.sort(key=o.key, reverse=o.desc)`: a rearrangement of the input, ordered by the key
   * in the requested direction, in which the elements of each key class keep their input order
   * (stability, which `reverse` keeps as well).
   */
  function Sort<T>(s: seq<T>, o: Order<T>): (r: seq<T>)
    ensures |r| == |s|
    ensures multiset(r) == multiset(s)
    ensures Sorted(r, o)
    ensures forall k :: Class(r, o, k) == Class(s, o, k)
    decreases |s|
  {
    if s == [] then []
    else
      var init := s[..|s| - 1];
      var last := s[|s| - 1];
      assert s == init + [last];
      var sorted := Sort(init, o);
      InsertMultiset(sorted, last, o);
      InsertSorted(sorted, last, o);
      assert forall k :: Class(Insert(sorted, last, o), o, k) == Class(s, o, k) by {
        forall k ensures Class(Insert(sorted, last, o), o, k) == Class(s, o, k) {
          InsertClass(sorted, last, o, k);
          ClassSnoc(init, last, o, k);
        }
      }
      Insert(sorted, last, o)
  }

  /** The last elements of two sorted sequences with the same key classes share their key. */
  lemma LastKeysAgree<T>(r1: seq<T>, r2: seq<T>, o: Order<T>)
    requires r1 != [] && r2 != [] && Sorted(r1, o) && Sorted(r2, o)
    requires forall k :: Class(r1, o, k) == Class(r2, o, k)
    ensures o.key(r1[|r1| - 1]) == o.key(r2[|r2| - 1])
  {
    var x, y := r1[|r1| - 1], r2[|r2| - 1];
    LastFollowsClassmates(r1, r2, o);
    LastFollowsClassmates(r2, r1, o);
    KeyBeforeAntisymmetric(o.desc, o.key(x), o.key(y));
  }

  /** An element is in the class of its own key. */
  lemma InOwnClass<T>(s: seq<T>, o: Order<T>, i: nat)
    requires i < |s|
    ensures s[i] in Class(s, o, o.key(s[i]))
  {
    ClassMembers(s, o, o.key(s[i]));
  }

  /** A class member is an element of the sequence. */
  lemma ClassMemberIsElement<T>(s: seq<T>, o: Order<T>, k: Key, x: T)
    requires x in Class(s, o, k)
    ensures x in s
  {
    ClassMembers(s, o, k);
    var p :| 0 <= p < |Class(s, o, k)| && Class(s, o, k)[p] == x;
  }

  lemma LastFollowsClassmates<T>(r1: seq<T>, r2: seq<T>, o: Order<T>)
    requires r1 != [] && r2 != [] && Sorted(r1, o)
    requires forall k :: Class(r1, o, k) == Class(r2, o, k)
    ensures Before(o, r2[|r2| - 1], r1[|r1| - 1])
  {
    var x, y := r1[|r1| - 1], r2[|r2| - 1];
    var k := o.key(y);
    InOwnClass(r2, o, |r2| - 1);
    assert Class(r1, o, k) == Class(r2, o, k);
    ClassMemberIsElement(r1, o, k, y);
    var i :| 0 <= i < |r1| && r1[i] == y;
    if i == |r1| - 1 {
      KeyBeforeReflexive(o.desc, o.key(x));
    } else {
      assert Before(o, r1[i], r1[|r1| - 1]);
    }
  }

  lemma SameClassesSameEmptiness<T>(r1: seq<T>, r2: seq<T>, o: Order<T>)
    requires forall k :: Class(r1, o, k) == Class(r2, o, k)
    ensures r1 == [] <==> r2 == []
  {
    if r1 != [] {
      ClassMembers(r1, o, o.key(r1[0]));
      assert Class(r2, o, o.key(r1[0])) != [];
    }
    if r2 != [] {
      ClassMembers(r2, o, o.key(r2[0]));
      assert Class(r1, o, o.key(r2[0])) != [];
    }
  }

  /** Any sorted rearrangement that keeps each key class in input order is `Sort`'s result. */
  lemma SortIsTheStableSort<T>(s: seq<T>, r: seq<T>, o: Order<T>)
    requires Sorted(r, o)
    requires forall k :: Class(r, o, k) == Class(s, o, k)
    ensures r == Sort(s, o)
  {
    StableSortUnique(r, Sort(s, o), o);
  }

  /**
   * A stable sort's result is determined: two sorted sequences with the same key classes are
   * equal. So `Sort` is what any correct stable sort returns.
   */
  lemma {:induction false} StableSortUnique<T>(r1: seq<T>, r2: seq<T>, o: Order<T>)
    requires Sorted(r1, o) && Sorted(r2, o)
    requires forall k :: Class(r1, o, k) == Class(r2, o, k)
    ensures r1 == r2
    decreases |r1|
  {
    SameClassesSameEmptiness(r1, r2, o);
    if r1 != [] {
      var x, y := r1[|r1| - 1], r2[|r2| - 1];
      var r1', r2' := r1[..|r1| - 1], r2[..|r2| - 1];
      assert r1 == r1' + [x] && r2 == r2' + [y];
      LastKeysAgree(r1, r2, o);
      forall k ensures Class(r1', o, k) == Class(r2', o, k) && (k == o.key(x) ==> x == y) {
        var c1, c2 := Class(r1, o, k), Class(r2, o, k);
        assert c1 == c2;
        if k == o.key(x) {
          assert c1 == Class(r1', o, k) + [x];
          assert c2 == Class(r2', o, k) + [y];
          assert c1[|c1| - 1] == x && c2[|c2| - 1] == y;
          assert Class(r1', o, k) == c1[..|c1| - 1];
          assert Class(r2', o, k) == c2[..|c2| - 1];
        } else {
          assert c1 == Class(r1', o, k);
          assert c2 == Class(r2', o, k);
        }
      }
      assert x == y by {
        assert Class(r1', o, o.key(x)) == Class(r2', o, o.key(x)) && (o.key(x) == o.key(x) ==> x == y);
      }
      assert Sorted(r1', o) && Sorted(r2', o);
      StableSortUnique(r1', r2', o);
    }
  }

  // ---------------------------------------------------------------------------
  // Sorting by several fields
  // ---------------------------------------------------------------------------

  /** `for field in reversed(fields): s.sort(...)`: the last field is sorted first. */
  function ApplySorts<T>(s: seq<T>, orders: seq<Order<T>>): (r: seq<T>)
    ensures |r| == |s|
    decreases |orders|
  {
    if orders == [] then s else Sort(ApplySorts(s, orders[1..]), orders[0])
  }

  /** `x` may precede `y` when ordering by `orders[0]`, ties broken by the fields after it. */
  predicate LexBefore<T>(orders: seq<Order<T>>, x: T, y: T)
    decreases |orders|
  {
    orders == [] ||
    (Before(orders[0], x, y) && (orders[0].key(x) == orders[0].key(y) ==> LexBefore(orders[1..], x, y)))
  }

  predicate LexSorted<T>(s: seq<T>, orders: seq<Order<T>>) {
    forall i, j :: 0 <= i < j < |s| ==> LexBefore(orders, s[i], s[j])
  }

  /** The key tuple of an element under all the sort fields. */
  function Keys<T>(x: T, orders: seq<Order<T>>): (ks: seq<Key>)
    ensures |ks| == |orders|
  {
    seq(|orders|, i requires 0 <= i < |orders| => orders[i].key(x))
  }

  /** The elements of `s` whose whole key tuple is `ks`, in their order in `s`. */
  function TupleClass<T>(s: seq<T>, orders: seq<Order<T>>, ks: seq<Key>): seq<T>
    decreases |s|
  {
    if s == [] then []
    else
      var last := s[|s| - 1];
      TupleClass(s[..|s| - 1], orders, ks) + (if Keys(last, orders) == ks then [last] else [])
  }

  lemma LexSortedPrefix<T>(s: seq<T>, x: T, orders: seq<Order<T>>)
    requires LexSorted(s + [x], orders)
    ensures LexSorted(s, orders)
    ensures forall e :: e in s ==> LexBefore(orders, e, x)
  {
    var r := s + [x];
    forall i, j | 0 <= i < j < |s| ensures LexBefore(orders, s[i], s[j]) {
      assert s[i] == r[i] && s[j] == r[j];
    }
    forall e | e in s ensures LexBefore(orders, e, x) {
      var i :| 0 <= i < |s| && s[i] == e;
      assert r[i] == e && r[|s|] == x;
    }
  }

  /** A key class of a sequence sorted by some fields is still sorted by them. */
  lemma {:induction false} ClassKeepsLexSorted<T>(s: seq<T>, o: Order<T>, k: Key, orders: seq<Order<T>>)
    requires LexSorted(s, orders)
    ensures LexSorted(Class(s, o, k), orders)
    decreases |s|
  {
    if s != [] {
      var s' := s[..|s| - 1];
      var x := s[|s| - 1];
      assert s == s' + [x];
      LexSortedPrefix(s', x, orders);
      ClassKeepsLexSorted(s', o, k, orders);
      ClassSnoc(s', x, o, k);
      ClassMembers(s', o, k);
      var c := Class(s', o, k);
      if o.key(x) == k {
        var r := c + [x];
        forall i, j | 0 <= i < j < |r| ensures LexBefore(orders, r[i], r[j]) {
          if j == |c| {
            assert r[i] == c[i] && c[i] in s';
          } else {
            assert r[i] == c[i] && r[j] == c[j];
          }
        }
      }
    }
  }

  lemma TupleClassSnoc<T>(s: seq<T>, x: T, orders: seq<Order<T>>, ks: seq<Key>)
    ensures TupleClass(s + [x], orders, ks) == TupleClass(s, orders, ks) + (if Keys(x, orders) == ks then [x] else [])
  {
    assert (s + [x])[..|s|] == s;
  }

  lemma KeysCons<T>(x: T, orders: seq<Order<T>>, ks: seq<Key>)
    requires orders != [] && |ks| == |orders|
    ensures Keys(x, orders) == ks <==> orders[0].key(x) == ks[0] && Keys(x, orders[1..]) == ks[1..]
  {
    var a := Keys(x, orders);
    assert a == [a[0]] + a[1..];
    assert a[1..] == Keys(x, orders[1..]);
    assert ks == [ks[0]] + ks[1..];
  }

  /** Filtering by the first key and then by the remaining tuple is filtering by the whole tuple. */
  lemma {:induction false} TupleClassSplit<T>(s: seq<T>, orders: seq<Order<T>>, ks: seq<Key>)
    requires orders != [] && |ks| == |orders|
    ensures TupleClass(s, orders, ks) == TupleClass(Class(s, orders[0], ks[0]), orders[1..], ks[1..])
    decreases |s|
  {
    if s != [] {
      var s' := s[..|s| - 1];
      var x := s[|s| - 1];
      TupleClassSplit(s', orders, ks);
      KeysCons(x, orders, ks);
      var c := Class(s', orders[0], ks[0]);
      assert s == s' + [x];
      ClassSnoc(s', x, orders[0], ks[0]);
      TupleClassSnoc(s', x, orders, ks);
      if orders[0].key(x) == ks[0] {
        TupleClassSnoc(c, x, orders[1..], ks[1..]);
        assert Class(s, orders[0], ks[0]) == c + [x];
        assert TupleClass(s, orders, ks) == TupleClass(s', orders, ks) + (if Keys(x, orders) == ks then [x] else []);
      } else {
        assert Class(s, orders[0], ks[0]) == c;
        assert TupleClass(s, orders, ks) == TupleClass(s', orders, ks);
      }
    }
  }

  /** The first-key filter and the remaining-tuple filter commute. */
  lemma {:induction false} ClassTupleClassCommute<T>(s: seq<T>, o: Order<T>, k: Key, orders: seq<Order<T>>, ks: seq<Key>)
    ensures TupleClass(Class(s, o, k), orders, ks) == Class(TupleClass(s, orders, ks), o, k)
    decreases |s|
  {
    if s != [] {
      var s' := s[..|s| - 1];
      var x := s[|s| - 1];
      ClassTupleClassCommute(s', o, k, orders, ks);
      var c := Class(s', o, k);
      var t := TupleClass(s', orders, ks);
      assert s == s' + [x];
      if o.key(x) == k {
        TupleClassSnoc(c, x, orders, ks);
        assert Class(s, o, k) == c + [x];
      } else {
        assert Class(s, o, k) == c;
      }
      if Keys(x, orders) == ks {
        ClassSnoc(t, x, o, k);
        assert TupleClass(s, orders, ks) == t + [x];
      } else {
        assert TupleClass(s, orders, ks) == t;
      }
    }
  }

  lemma {:induction false} TupleClassWrongLength<T>(s: seq<T>, orders: seq<Order<T>>, ks: seq<Key>)
    requires |ks| != |orders|
    ensures TupleClass(s, orders, ks) == []
    decreases |s|
  {
    if s != [] {
      TupleClassWrongLength(s[..|s| - 1], orders, ks);
    }
  }

  /**
   * Cutting a sorted sequence after its first `m` elements: the cut-off elements are exactly
   * the rest, and every kept element may precede every cut-off one.
   */
  lemma PrefixBeatsRest<T>(s: seq<T>, orders: seq<Order<T>>, m: nat)
    requires LexSorted(s, orders) && m <= |s|
    ensures multiset(s) - multiset(s[..m]) == multiset(s[m..])
    ensures forall x, y :: x in s[..m] && y in multiset(s) - multiset(s[..m]) ==> LexBefore(orders, x, y)
    ensures LexSorted(s[..m], orders)
  {
    assert s == s[..m] + s[m..];
    forall i, j | 0 <= i < j < m ensures LexBefore(orders, s[..m][i], s[..m][j]) {
      assert s[..m][i] == s[i] && s[..m][j] == s[j];
    }
    forall x, y | x in s[..m] && y in multiset(s) - multiset(s[..m]) ensures LexBefore(orders, x, y) {
      var i :| 0 <= i < m && s[..m][i] == x;
      assert y in s[m..];
      var j :| 0 <= j < |s| - m && s[m..][j] == y;
      assert s[i] == x && s[m + j] == y;
    }
  }

  /** Cutting a sequence sorted by one field: every kept element may precede every cut-off one. */
  lemma SortedPrefixBeatsRest<T>(s: seq<T>, o: Order<T>, m: nat)
    requires Sorted(s, o) && m <= |s|
    ensures forall x, y :: x in multiset(s[..m]) && y in multiset(s) - multiset(s[..m]) ==> Before(o, x, y)
  {
    assert s == s[..m] + s[m..];
    assert multiset(s) == multiset(s[..m]) + multiset(s[m..]);
    forall x, y | x in multiset(s[..m]) && y in multiset(s) - multiset(s[..m]) ensures Before(o, x, y) {
      var i :| 0 <= i < m && s[..m][i] == x;
      assert y in multiset(s[m..]);
      var j :| 0 <= j < |s| - m && s[m..][j] == y;
      assert s[i] == x && s[m + j] == y;
    }
  }

  /** The outermost sort by `o` keeps a sequence already sorted by the later fields sorted by them within ties. */
  lemma LexSortedStep<T>(mid: seq<T>, o: Order<T>, rest: seq<Order<T>>)
    requires LexSorted(mid, rest)
    ensures LexSorted(Sort(mid, o), [o] + rest)
  {
    var out := Sort(mid, o);
    var orders := [o] + rest;
    assert orders[1..] == rest;
    forall i, j | 0 <= i < j < |out| ensures LexBefore(orders, out[i], out[j]) {
      if o.key(out[i]) == o.key(out[j]) {
        var k := o.key(out[i]);
        ClassIndices(out, o, i, j);
        var c := Class(out, o, k);
        var p, q :| 0 <= p < q < |c| && c[p] == out[i] && c[q] == out[j];
        ClassKeepsLexSorted(mid, o, k, rest);
        assert LexBefore(rest, c[p], c[q]);
      }
    }
  }

  lemma TupleClassStep<T>(s: seq<T>, mid: seq<T>, o: Order<T>, rest: seq<Order<T>>)
    requires forall ks :: TupleClass(mid, rest, ks) == TupleClass(s, rest, ks)
    ensures forall ks :: TupleClass(Sort(mid, o), [o] + rest, ks) == TupleClass(s, [o] + rest, ks)
  {
    var out := Sort(mid, o);
    var orders := [o] + rest;
    assert orders[1..] == rest && orders[0] == o;
    forall ks ensures TupleClass(out, orders, ks) == TupleClass(s, orders, ks) {
      if |ks| != |orders| {
        TupleClassWrongLength(out, orders, ks);
        TupleClassWrongLength(s, orders, ks);
      } else {
        TupleClassSplit(out, orders, ks);
        TupleClassSplit(s, orders, ks);
        ClassTupleClassCommute(out, o, ks[0], rest, ks[1..]);
        ClassTupleClassCommute(mid, o, ks[0], rest, ks[1..]);
        ClassTupleClassCommute(s, o, ks[0], rest, ks[1..]);
        assert Class(out, o, ks[0]) == Class(mid, o, ks[0]);
      }
    }
  }

  /**
   * Sorting once per field, last field first, yields a rearrangement ordered by the fields
   * lexicographically, each in its own direction, in which elements with the same key tuple
   * keep their input order.
   */
  lemma {:induction false} ApplySortsSpec<T>(s: seq<T>, orders: seq<Order<T>>)
    ensures multiset(ApplySorts(s, orders)) == multiset(s)
    ensures LexSorted(ApplySorts(s, orders), orders)
    ensures forall ks :: TupleClass(ApplySorts(s, orders), orders, ks) == TupleClass(s, orders, ks)
    decreases |orders|
  {
    if orders != [] {
      var rest := orders[1..];
      var mid := ApplySorts(s, rest);
      ApplySortsSpec(s, rest);
      assert orders == [orders[0]] + rest;
      LexSortedStep(mid, orders[0], rest);
      TupleClassStep(s, mid, orders[0], rest);
    }
  }
}
