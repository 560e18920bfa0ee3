/** Python's OrderedDict, as the throttles, the replay memory and the audit sampler use
    it: pairs in insertion order, keys distinct. */
module OrderedDicts {
  import opened Common

  type Items<K, V> = seq<(K, V)>

  /** Where the key is, or the length when it is not there. */
  function Find<K(==), V>(items: Items<K, V>, key: K): (i: nat)
    ensures i <= |items|
    ensures i < |items| ==> items[i].0 == key
    ensures forall j :: 0 <= j < i ==> items[j].0 != key
  {
    if items == [] then 0
    else if items[0].0 == key then 0
    else 1 + Find(items[1..], key)
  }

  predicate Has<K(==), V>(items: Items<K, V>, key: K) {
    Find(items, key) < |items|
  }

  /** `d.get(key)`. */
  function Lookup<K(==), V>(items: Items<K, V>, key: K): Option<V> {
    var i := Find(items, key);
    if i < |items| then Some(items[i].1) else None
  }

  /** `d.pop(key, None)`. */
  function Without<K(==), V>(items: Items<K, V>, key: K): Items<K, V> {
    var i := Find(items, key);
    if i < |items| then items[..i] + items[i + 1..] else items
  }

  /** `d[key] = value; d.move_to_end(key)`. */
  function PutLast<K(==), V>(items: Items<K, V>, key: K, value: V): Items<K, V> {
    Without(items, key) + [(key, value)]
  }

  /** `d[key] = value`, which keeps the place of a key already there. */
  function Put<K(==), V>(items: Items<K, V>, key: K, value: V): Items<K, V> {
    var i := Find(items, key);
    if i < |items| then items[i := (key, value)] else items + [(key, value)]
  }

  ghost predicate Unique<K, V>(items: Items<K, V>) {
    forall i, j :: 0 <= i < j < |items| ==> items[i].0 != items[j].0
  }

  lemma FindIs<K, V>(items: Items<K, V>, key: K, i: nat)
    requires Unique(items) && i < |items| && items[i].0 == key
    ensures Find(items, key) == i
  {}

  lemma FindNone<K, V>(items: Items<K, V>, key: K)
    requires forall i :: 0 <= i < |items| ==> items[i].0 != key
    ensures Find(items, key) == |items|
  {}

  /** The items left when the one at place i, or none, was taken out. */
  ghost predicate Removed<K, V>(items: Items<K, V>, left: Items<K, V>, key: K, i: nat) {
    && i <= |items|
    && |left| == (if i < |items| then |items| - 1 else |items|)
    && (forall j :: 0 <= j < |left| ==> left[j] == items[if j < i then j else j + 1])
    && (forall j :: 0 <= j < |left| ==> left[j].0 != key)
    && Unique(left)
  }

  lemma WithoutRemoves<K, V>(items: Items<K, V>, key: K)
    requires Unique(items)
    ensures Removed(items, Without(items, key), key, Find(items, key))
  {
    var i, w := Find(items, key), Without(items, key);
    forall j | 0 <= j < |w|
      ensures w[j] == items[if j < i then j else j + 1] && w[j].0 != key
    {
    }
  }

  lemma WithoutKeeps<K, V>(items: Items<K, V>, key: K, other: K)
    requires Unique(items)
    ensures Unique(Without(items, key)) && Lookup(Without(items, key), key) == None
    ensures other != key ==> Lookup(Without(items, key), other) == Lookup(items, other)
  {
    var i, w := Find(items, key), Without(items, key);
    assert forall j :: 0 <= j < |w| ==> w[j] == if j < i then items[j] else items[j + 1];
    FindNone(w, key);
    if other != key {
      var o := Find(items, other);
      if o < |items| {
        FindIs(w, other, if o < i then o else o - 1);
      } else {
        FindNone(w, other);
      }
    }
  }

  lemma {:induction false} PutLastKeeps<K, V>(items: Items<K, V>, key: K, value: V, other: K)
    requires Unique(items)
    ensures Unique(PutLast(items, key, value))
    ensures Lookup(PutLast(items, key, value), other) == if other == key then Some(value) else Lookup(items, other)
  {
    var w, p := Without(items, key), PutLast(items, key, value);
    WithoutKeeps(items, key, other);
    if other == key {
      FindIs(p, key, |w|);
    } else {
      var o := Find(w, other);
      if o < |w| {
        assert p[o] == w[o];
        FindIs(p, other, o);
      } else {
        FindNone(p, other);
      }
    }
  }

  lemma DropFirstKeeps<K, V>(items: Items<K, V>, other: K)
    requires Unique(items) && items != []
    ensures Unique(items[1..])
    ensures Lookup(items[1..], other) == if other == items[0].0 then None else Lookup(items, other)
  {
    if other == items[0].0 {
      FindNone(items[1..], other);
    }
  }

  /** Python puts a new key last, so PutLast is what the two statements do. */
  lemma PutThenMove<K, V>(items: Items<K, V>, key: K, value: V)
    ensures Has(Put(items, key, value), key)
    ensures Without(Put(items, key, value), key) + [(key, value)] == PutLast(items, key, value)
    ensures Lookup(Put(items, key, value), key) == Some(value)
  {
    var i, p := Find(items, key), Put(items, key, value);
    FirstIs(p, key, i);
  }

  lemma {:induction false} FirstIs<K, V>(items: Items<K, V>, key: K, i: nat)
    requires i < |items| && items[i].0 == key
    requires forall j :: 0 <= j < i ==> items[j].0 != key
    ensures Find(items, key) == i
  {}

  class OrderedDict<K(==), V> {
    var items: Items<K, V>

    constructor ()
      ensures items == []
    {
      items := [];
    }

    method Pop(key: K)
      modifies this
      ensures items == Without(old(items), key)
    {
      items := Without(items, key);
    }

    method Set(key: K, value: V)
      modifies this
      ensures items == Put(old(items), key, value)
    {
      items := Put(items, key, value);
    }

    method MoveToEnd(key: K)
      requires Has(items, key)
      modifies this
      ensures items == Without(old(items), key) + [(key, Lookup(old(items), key).value)]
    {
      items := Without(items, key) + [(key, Lookup(items, key).value)];
    }

    /** `d.popitem(last=False)`. */
    method PopFirst()
      requires items != []
      modifies this
      ensures items == old(items)[1..]
    {
      items := items[1..];
    }

    /** `d[key] = value; d.move_to_end(key)`. */
    method SetLast(key: K, value: V)
      modifies this
      ensures items == PutLast(old(items), key, value)
    {
      PutThenMove(items, key, value);
      Set(key, value);
      MoveToEnd(key);
    }

    method Clear()
      modifies this
      ensures items == []
    {
      items := [];
    }
  }
}
