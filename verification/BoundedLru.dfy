/**
 * A bounded cache that evicts the least recently used value: a map into a list in
 * order of use.  It refines the plain history of its uses.
 */
module BoundedLru {
  import opened Wrappers

  datatype Element<K, V> = Element(key: K, value: V)

  function Keys<K, V>(order: seq<Element<K, V>>): seq<K> {
    seq(|order|, i requires 0 <= i < |order| => order[i].key)
  }

  // ------------------------------------------------------------- the reference

  function Without<T(==)>(s: seq<T>, x: T): seq<T> {
    if s == [] then [] else if s[0] == x then Without(s[1..], x) else [s[0]] + Without(s[1..], x)
  }

  /** The keys that have been used, each once, the last used first. */
  function Recent<K(==)>(history: seq<K>): seq<K> {
    if history == [] then []
    else
      var k := history[|history| - 1];
      [k] + Without(Recent(history[..|history| - 1]), k)
  }

  function First<T>(n: nat, s: seq<T>): seq<T> {
    if n < |s| then s[..n] else s
  }

  predicate Distinct<T(==)>(s: seq<T>) {
    forall i, j :: 0 <= i < j < |s| ==> s[i] != s[j]
  }

  lemma {:induction false} WithoutHas<T>(s: seq<T>, x: T)
    ensures forall y :: y in Without(s, x) <==> y in s && y != x
    ensures x !in s ==> Without(s, x) == s
  {
    if s != [] {
      WithoutHas(s[1..], x);
      assert s == [s[0]] + s[1..];
    }
  }

  lemma {:induction false} WithoutMember<T>(s: seq<T>, x: T, y: T)
    ensures y in Without(s, x) <==> y in s && y != x
  {
    if s != [] {
      WithoutMember(s[1..], x, y);
      assert s == [s[0]] + s[1..];
    }
  }

  lemma {:induction false} WithoutDistinct<T>(s: seq<T>, x: T)
    requires Distinct(s)
    ensures Distinct(Without(s, x))
  {
    if s != [] {
      WithoutDistinct(s[1..], x);
      WithoutHas(s[1..], x);
      assert s[0] !in s[1..] by {
        assert forall j :: 0 <= j < |s[1..]| ==> s[1..][j] == s[j + 1];
      }
      assert s[0] !in Without(s[1..], x);
    }
  }

  lemma {:induction false} WithoutLength<T>(s: seq<T>, x: T)
    requires Distinct(s) && x in s
    ensures |Without(s, x)| == |s| - 1
  {
    assert forall j :: 0 <= j < |s[1..]| ==> s[1..][j] == s[j + 1];
    if s[0] == x {
      WithoutHas(s[1..], x);
    } else {
      WithoutLength(s[1..], x);
    }
  }

  lemma {:induction false} RecentIsDistinct<K>(history: seq<K>)
    ensures Distinct(Recent(history))
  {
    if history != [] {
      var k, rest := history[|history| - 1], Recent(history[..|history| - 1]);
      RecentIsDistinct(history[..|history| - 1]);
      WithoutDistinct(rest, k);
      WithoutHas(rest, k);
      assert k !in Without(rest, k);
    }
  }

  /** When a key was used last, or -1. */
  function LastUse<K(==)>(history: seq<K>, k: K): (n: int)
    ensures -1 <= n < |history|
    ensures n >= 0 <==> k in history
  {
    if history == [] then -1
    else if history[|history| - 1] == k then |history| - 1
    else LastUse(history[..|history| - 1], k)
  }

  ghost predicate ByLastUse<K>(s: seq<K>, history: seq<K>) {
    forall i, j :: 0 <= i < j < |s| ==> LastUse(history, s[i]) > LastUse(history, s[j])
  }

  lemma {:induction false} WithoutByLastUse<K>(s: seq<K>, history: seq<K>, x: K)
    requires ByLastUse(s, history)
    ensures ByLastUse(Without(s, x), history)
  {
    if s != [] {
      var rest := s[1..];
      assert forall j :: 0 <= j < |rest| ==> rest[j] == s[j + 1];
      WithoutByLastUse(rest, history, x);
      WithoutHas(rest, x);
      var less := Without(rest, x);
      forall j | 0 <= j < |less|
        ensures LastUse(history, s[0]) > LastUse(history, less[j])
      {
        WithoutMember(rest, x, less[j]);
        var i :| 0 <= i < |rest| && rest[i] == less[j];
        assert s[i + 1] == less[j];
      }
    }
  }

  /** The recent keys are the used ones, in the order of their last use. */
  lemma {:induction false} RecentByLastUse<K>(history: seq<K>)
    ensures ByLastUse(Recent(history), history)
    ensures forall k :: k in Recent(history) <==> k in history
  {
    if history != [] {
      var front, k := history[..|history| - 1], history[|history| - 1];
      var less := Without(Recent(front), k);
      RecentByLastUse(front);
      WithoutByLastUse(Recent(front), front, k);
      WithoutHas(Recent(front), k);
      assert history == front + [k];
      forall y | y in less
        ensures LastUse(history, y) == LastUse(front, y) < |front|
      {
      }
    }
  }

  /** Using a resident key. */
  lemma {:induction false} FirstOfHit<T>(n: nat, s: seq<T>, x: T)
    requires Distinct(s) && x in First(n, s)
    ensures First(n, [x] + Without(s, x)) == [x] + Without(First(n, s), x)
  {
    if n < |s| {
      var head, tail := s[..n], s[n..];
      assert s == head + tail;
      var j :| 0 <= j < |head| && head[j] == x;
      forall i | 0 <= i < |tail|
        ensures tail[i] != x
      {
        assert s[j] == x && s[n + i] == tail[i];
      }
      WithoutConcat(head, tail, x);
      WithoutHas(tail, x);
      WithoutHas(head, x);
      assert Distinct(head);
      WithoutLength(head, x);
      assert Without(s, x) == Without(head, x) + tail;
      assert ([x] + (Without(head, x) + tail))[..n] == [x] + Without(head, x);
    } else {
      WithoutLength(s, x);
    }
  }

  lemma {:induction false} WithoutConcat<T>(a: seq<T>, b: seq<T>, x: T)
    ensures Without(a + b, x) == Without(a, x) + Without(b, x)
  {
    if a == [] {
      assert a + b == b;
    } else {
      WithoutConcat(a[1..], b, x);
      assert (a + b)[0] == a[0] && (a + b)[1..] == a[1..] + b;
    }
  }

  /** Using a key that is not resident. */
  lemma FirstOfMiss<T>(n: nat, s: seq<T>, x: T)
    requires n > 0 && x !in First(n, s)
    ensures First(n, [x] + Without(s, x)) == First(n, [x] + First(n, s))
  {
    if n < |s| {
      var head, tail := s[..n], s[n..];
      assert s == head + tail;
      WithoutConcat(head, tail, x);
      WithoutHas(head, x);
    } else {
      WithoutHas(s, x);
    }
  }

  // ------------------------------------------------------------------ the cache

  /** The map and the list hold the same elements, one for each key. */
  ghost predicate Linked<K, V>(entries: map<K, Element<K, V>>, order: seq<Element<K, V>>) {
    && Distinct(Keys(order))
    && (forall i :: 0 <= i < |order| ==> order[i].key in entries && entries[order[i].key] == order[i])
    && (forall k :: k in entries ==> entries[k] in order && entries[k].key == k)
  }

  lemma WithoutElement<K, V>(order: seq<Element<K, V>>, e: Element<K, V>)
    requires e in order && Distinct(Keys(order))
    ensures Keys(Without(order, e)) == Without(Keys(order), e.key)
  {
    var n :| 0 <= n < |order| && order[n] == e;
    forall i | 0 <= i < |order| && order[i].key == e.key
      ensures order[i] == e
    {
      assert Keys(order)[i] == Keys(order)[n];
    }
    WithoutKeys(order, e);
  }

  lemma {:induction false} WithoutKeys<K, V>(order: seq<Element<K, V>>, e: Element<K, V>)
    requires Distinct(Keys(order)) && forall i :: 0 <= i < |order| && order[i].key == e.key ==> order[i] == e
    ensures Keys(Without(order, e)) == Without(Keys(order), e.key)
  {
    if order != [] {
      var rest := order[1..];
      assert Keys(order)[0] == order[0].key && Keys(order)[1..] == Keys(rest);
      assert forall i, j :: 0 <= i < j < |Keys(rest)| ==> Keys(rest)[i] == Keys(order)[i + 1] && Keys(rest)[j] == Keys(order)[j + 1];
      WithoutKeys(rest, e);
    }
  }

  class Cache<K(==), V(==)> {
    const capacity: nat
    var entries: map<K, Element<K, V>>
    var order: seq<Element<K, V>>
    ghost var history: seq<K>
    ghost var created: seq<Element<K, V>>
    ghost var evicted: seq<Element<K, V>>

    /** The residents are the most recently used keys, and what was created is resident or evicted. */
    ghost predicate Valid()
      reads this
    {
      && capacity >= 1 && Linked(entries, order)
      && Keys(order) == First(capacity, Recent(history))
      && multiset(created) == multiset(order) + multiset(evicted)
    }

    constructor (capacity: int)
      ensures Valid() && this.capacity == (if capacity < 1 then 1 else capacity) && history == [] && created == []
    {
      this.capacity := if capacity < 1 then 1 else capacity;
      entries, order, history, created, evicted := map[], [], [], [], [];
    }

    /** Moves a resident element to the front. */
    method MoveToFront(e: Element<K, V>)
      requires Valid() && e in order
      modifies this`order, this`history
      ensures Valid() && history == old(history) + [e.key] && order == [e] + Without(old(order), e)
    {
      HitKeeps(entries, order, e, capacity, history);
      order := [e] + Without(order, e);
      history := history + [e.key];
    }

    /** The value under a key, made by `create` if it is not resident. */
    method GetOrAdd(key: K, create: V) returns (value: V)
      requires Valid()
      modifies this
      ensures Valid() && history == old(history) + [key]
      ensures if key in old(entries) then value == old(entries)[key].value && created == old(created)
              else value == create && created == old(created) + [Element(key, create)]
    {
      if key in entries {
        var e := entries[key];
        MoveToFront(e);
        return e.value;
      }
      value := create;
      PushFront(Element(key, value));
    }

    /** Puts a new element in front, and drops the last one if there are too many. */
    method PushFront(e: Element<K, V>)
      requires Valid() && e.key !in entries
      modifies this
      ensures Valid() && history == old(history) + [e.key] && created == old(created) + [e]
    {
      MissKeeps(entries, order, e, capacity, history);
      order := [e] + order;
      entries := entries[e.key := e];
      created := created + [e];
      history := history + [e.key];
      if |order| > capacity {
        DropLast();
      }
    }

    method DropLast()
      requires Linked(entries, order) && order != []
      modifies this`entries, this`order, this`evicted
      ensures Linked(entries, order) && Keys(order) == Keys(old(order))[..|old(order)| - 1]
      ensures multiset(order) + multiset(evicted) == multiset(old(order)) + multiset(old(evicted))
    {
      var n := |order| - 1;
      var oldest := order[n];
      EvictKeeps(entries, order);
      entries := entries - {oldest.key};
      order := order[..n];
      evicted := evicted + [oldest];
    }

    method Get(key: K) returns (found: Option<V>)
      requires Valid()
      modifies this
      ensures Valid() && created == old(created) && evicted == old(evicted)
      ensures if key in old(entries) then found == Some(old(entries)[key].value) && history == old(history) + [key]
              else found == None && history == old(history)
    {
      if key in entries {
        var e := entries[key];
        MoveToFront(e);
        return Some(e.value);
      }
      return None;
    }

    method Len() returns (n: nat)
      requires Valid()
      ensures n == |First(capacity, Recent(history))| <= capacity
    {
      SizesAgree(entries, order);
      n := |entries|;
    }
  }

  lemma SizesAgree<K, V>(entries: map<K, Element<K, V>>, order: seq<Element<K, V>>)
    requires Linked(entries, order)
    ensures |entries| == |order|
  {
    KeySet(Keys(order));
    assert entries.Keys == set k | k in Keys(order) by {
      forall k | k in entries
        ensures k in Keys(order)
      {
        var i :| 0 <= i < |order| && order[i] == entries[k];
        assert Keys(order)[i] == k;
      }
    }
    assert |entries.Keys| == |entries|;
  }

  lemma {:induction false} KeySet<K>(keys: seq<K>)
    requires Distinct(keys)
    ensures |set k | k in keys| == |keys|
  {
    if keys != [] {
      var front, k := keys[..|keys| - 1], keys[|keys| - 1];
      KeySet(front);
      assert (set j | j in keys) == (set j | j in front) + {k};
      assert k !in front;
    }
  }

  lemma HitKeeps<K, V>(entries: map<K, Element<K, V>>, order: seq<Element<K, V>>, e: Element<K, V>, capacity: nat, history: seq<K>)
    requires Linked(entries, order) && e in order && Keys(order) == First(capacity, Recent(history))
    ensures var next := [e] + Without(order, e);
            Linked(entries, next) && Keys(next) == First(capacity, Recent(history + [e.key])) && multiset(next) == multiset(order)
  {
    FrontLinked(entries, order, e);
    WithoutElement(order, e);
    RecentIsDistinct(history);
    var n :| 0 <= n < |order| && order[n] == e;
    assert Keys(order)[n] == e.key;
    FirstOfHit(capacity, Recent(history), e.key);
    assert (history + [e.key])[..|history|] == history;
    assert Keys([e] + Without(order, e)) == [e.key] + Keys(Without(order, e));
    WithoutOnce(order, e);
  }

  lemma FrontLinked<K, V>(entries: map<K, Element<K, V>>, order: seq<Element<K, V>>, e: Element<K, V>)
    requires Linked(entries, order) && e in order
    ensures Linked(entries, [e] + Without(order, e))
  {
    var rest := Without(order, e);
    var next := [e] + rest;
    WithoutElement(order, e);
    WithoutMember(Keys(order), e.key, e.key);
    WithoutDistinct(Keys(order), e.key);
    assert Keys(next) == [e.key] + Keys(rest);
    assert e.key !in Keys(rest);
    forall i | 0 <= i < |next|
      ensures next[i].key in entries && entries[next[i].key] == next[i]
    {
      if i > 0 {
        WithoutMember(order, e, rest[i - 1]);
      }
      assert next[i] in order;
    }
    forall k | k in entries
      ensures entries[k] in next
    {
      WithoutMember(order, e, entries[k]);
    }
  }

  lemma EvictKeeps<K, V>(entries: map<K, Element<K, V>>, order: seq<Element<K, V>>)
    requires Linked(entries, order) && order != []
    ensures var n := |order| - 1;
            && Linked(entries - {order[n].key}, order[..n]) && Keys(order[..n]) == Keys(order)[..n]
            && multiset(order) == multiset(order[..n]) + multiset{order[n]}
  {
    var n := |order| - 1;
    var front, oldest := order[..n], order[n];
    assert order == front + [oldest];
    assert Keys(front) == Keys(order)[..n];
    forall i | 0 <= i < n
      ensures front[i].key != oldest.key
    {
      assert Keys(order)[i] != Keys(order)[n];
    }
    forall k | k in entries && k != oldest.key
      ensures entries[k] in front
    {
      assert entries[k] in order && entries[k] != oldest;
    }
  }

  lemma {:induction false} WithoutOnce<K, V>(order: seq<Element<K, V>>, e: Element<K, V>)
    requires e in order && Distinct(Keys(order))
    ensures multiset([e] + Without(order, e)) == multiset(order)
  {
    var rest := order[1..];
    assert order == [order[0]] + rest;
    assert forall i :: 0 <= i < |rest| ==> Keys(rest)[i] == Keys(order)[i + 1];
    if order[0] == e {
      forall i | 0 <= i < |rest|
        ensures rest[i] != e
      {
        assert Keys(order)[0] != Keys(order)[i + 1];
      }
      WithoutHas(rest, e);
    } else {
      WithoutOnce(rest, e);
    }
  }

  lemma MissKeeps<K, V>(entries: map<K, Element<K, V>>, order: seq<Element<K, V>>, e: Element<K, V>, capacity: nat, history: seq<K>)
    requires capacity >= 1 && Linked(entries, order) && e.key !in entries && Keys(order) == First(capacity, Recent(history))
    ensures Linked(entries[e.key := e], [e] + order)
    ensures First(capacity, Keys([e] + order)) == First(capacity, Recent(history + [e.key]))
    ensures |order| <= capacity
  {
    assert e.key !in Keys(order) by {
      forall i | 0 <= i < |order|
        ensures Keys(order)[i] != e.key
      {
        assert order[i].key in entries;
      }
    }
    assert Keys([e] + order) == [e.key] + Keys(order);
    FirstOfMiss(capacity, Recent(history), e.key);
    assert (history + [e.key])[..|history|] == history;
  }
}
