/** Lists without repetitions, as the kernel's linked lists and sorted trees hold them. */
module Lists {

  ghost predicate NoDup<T>(l: seq<T>) {
    forall i, j :: 0 <= i < j < |l| ==> l[i] != l[j]
  }

  /** The elements are in the order of their keys. */
  ghost predicate Ordered<T>(key: map<T, int>, l: seq<T>) {
    && (forall x :: x in l ==> x in key)
    && forall i, j :: 0 <= i < j < |l| ==> key[l[i]] <= key[l[j]]
  }

  function IndexOf<T(==)>(l: seq<T>, x: T): (k: nat)
    requires x in l
    ensures k < |l| && l[k] == x
    ensures forall i :: 0 <= i < k ==> l[i] != x
  {
    if l[0] == x then 0
    else
      var k := IndexOf(l[1..], x);
      assert forall i :: 0 < i < k + 1 ==> l[i] == l[1..][i - 1];
      k + 1
  }

  lemma IndexUnique<T>(l: seq<T>, x: T, k: nat)
    requires NoDup(l) && k < |l| && l[k] == x
    ensures IndexOf(l, x) == k
  {
  }

  function Without<T>(l: seq<T>, k: nat): (r: seq<T>)
    requires k < |l|
    ensures |r| == |l| - 1
    ensures forall i :: 0 <= i < |r| ==> r[i] == l[if i < k then i else i + 1]
  {
    l[..k] + l[k + 1..]
  }

  /** list_del and rb_erase */
  function Remove<T(==)>(l: seq<T>, x: T): (r: seq<T>) {
    if x in l then Without(l, IndexOf(l, x)) else l
  }

  /** Every occurrence of an element taken out. */
  function RemoveAll<T(==)>(l: seq<T>, x: T): seq<T> {
    if l == [] then []
    else if l[0] == x then RemoveAll(l[1..], x)
    else [l[0]] + RemoveAll(l[1..], x)
  }

  lemma WithoutMembers<T>(l: seq<T>, k: nat)
    requires NoDup(l) && k < |l|
    ensures NoDup(Without(l, k))
    ensures forall y :: y in Without(l, k) <==> y in l && y != l[k]
  {
    var r := Without(l, k);
    forall i, j | 0 <= i < j < |r| ensures r[i] != r[j] {
      assert r[i] == l[if i < k then i else i + 1] && r[j] == l[if j < k then j else j + 1];
    }
    forall y | y in l && y != l[k] ensures y in r {
      var i :| 0 <= i < |l| && l[i] == y;
      assert r[if i < k then i else i - 1] == y;
    }
  }

  lemma RemoveMembers<T>(l: seq<T>, x: T)
    requires NoDup(l)
    ensures NoDup(Remove(l, x))
    ensures forall y :: y in Remove(l, x) <==> y in l && y != x
  {
    if x in l {
      WithoutMembers(l, IndexOf(l, x));
    }
  }

  lemma RemoveOrdered<T>(key: map<T, int>, l: seq<T>, x: T)
    requires Ordered(key, l)
    ensures Ordered(key, Remove(l, x))
  {
    if x in l {
      var r := Remove(l, x);
      forall y | y in r ensures y in key {
        var i :| 0 <= i < |r| && r[i] == y;
        assert y in l;
      }
    }
  }

  /** What was ahead of an element stays ahead of it, and nothing else gets there. */
  lemma RemoveIndex<T>(l: seq<T>, x: T, y: T)
    requires NoDup(l) && y in l && x != y
    ensures y in Remove(l, x)
    ensures IndexOf(Remove(l, x), y) == IndexOf(l, y) - if x in l && IndexOf(l, x) < IndexOf(l, y) then 1 else 0
  {
    RemoveMembers(l, x);
    if x in l {
      var k, i := IndexOf(l, x), IndexOf(l, y);
      IndexUnique(Remove(l, x), y, if i < k then i else i - 1);
    }
  }

  function InsertAt<T>(l: seq<T>, k: nat, x: T): (r: seq<T>)
    requires k <= |l|
    ensures |r| == |l| + 1
    ensures forall i :: 0 <= i < |r| ==> r[i] == if i < k then l[i] else if i == k then x else l[i - 1]
  {
    l[..k] + [x] + l[k..]
  }

  lemma InsertMembers<T>(l: seq<T>, k: nat, x: T)
    requires NoDup(l) && k <= |l| && x !in l
    ensures NoDup(InsertAt(l, k, x))
    ensures forall y :: y in InsertAt(l, k, x) <==> y in l || y == x
  {
    var r := InsertAt(l, k, x);
    assert r[k] == x;
    forall y | y in l ensures y in r {
      var i :| 0 <= i < |l| && l[i] == y;
      assert r[if i < k then i else i + 1] == y;
    }
  }

  /** Where elv_rb_add puts an element: behind all whose key is not larger. */
  function Slot<T(==)>(key: map<T, int>, l: seq<T>, at: int): (k: nat)
    requires forall x :: x in l ==> x in key
    ensures k <= |l|
    ensures forall i :: 0 <= i < k ==> key[l[i]] <= at
    ensures k < |l| ==> at < key[l[k]]
  {
    if l == [] || at < key[l[0]] then 0
    else
      var k := Slot(key, l[1..], at);
      assert forall i :: 0 <= i < k ==> l[1..][i] == l[i + 1];
      k + 1
  }

  /** elv_rb_add */
  function SortIn<T(==)>(key: map<T, int>, l: seq<T>, x: T): seq<T>
    requires x in key && forall y :: y in l ==> y in key
  {
    InsertAt(l, Slot(key, l, key[x]), x)
  }

  lemma InsertOrdered<T>(key: map<T, int>, l: seq<T>, k: nat, x: T)
    requires x in key && Ordered(key, l) && k <= |l|
    requires (k > 0 ==> key[l[k - 1]] <= key[x]) && (k < |l| ==> key[x] <= key[l[k]])
    ensures Ordered(key, InsertAt(l, k, x))
  {
    var r := InsertAt(l, k, x);
    forall i | 0 <= i < |r| ensures r[i] in key {
      assert i != k ==> l[if i < k then i else i - 1] in l;
    }
    forall i, j | 0 <= i < j < |r| ensures key[r[i]] <= key[r[j]] {
      if i < k <= j {
        assert key[l[i]] <= key[l[k - 1]];
      }
      if i <= k < j {
        assert key[l[k]] <= key[l[j - 1]];
      }
    }
  }

  lemma SortInOrdered<T>(key: map<T, int>, l: seq<T>, x: T)
    requires x in key && Ordered(key, l)
    ensures Ordered(key, SortIn(key, l, x))
  {
    InsertOrdered(key, l, Slot(key, l, key[x]), x);
  }

  /** Put `y` where `x` is. */
  function Replace<T(==)>(l: seq<T>, x: T, y: T): (r: seq<T>)
    requires x in l
  {
    l[IndexOf(l, x) := y]
  }

  lemma ReplaceMembers<T>(l: seq<T>, x: T, y: T)
    requires NoDup(l) && x in l && y !in l
    ensures NoDup(Replace(l, x, y))
    ensures forall z :: z in Replace(l, x, y) <==> (z in l && z != x) || z == y
  {
    var r, k := Replace(l, x, y), IndexOf(l, x);
    assert r[k] == y;
    forall z | z in l && z != x ensures z in r {
      var i :| 0 <= i < |l| && l[i] == z;
      assert r[i] == z;
    }
  }

  lemma ReplaceIndex<T>(l: seq<T>, x: T, y: T, z: T)
    requires NoDup(l) && x in l && y !in l && z in l && z != x
    ensures z in Replace(l, x, y) && IndexOf(Replace(l, x, y), z) == IndexOf(l, z)
  {
    ReplaceMembers(l, x, y);
    IndexUnique(Replace(l, x, y), z, IndexOf(l, z));
  }

  lemma ReplaceIndexNew<T>(l: seq<T>, x: T, y: T)
    requires NoDup(l) && x in l && y !in l
    ensures y in Replace(l, x, y) && IndexOf(Replace(l, x, y), y) == IndexOf(l, x)
  {
    ReplaceMembers(l, x, y);
    IndexUnique(Replace(l, x, y), y, IndexOf(l, x));
  }

  lemma AppendMembers<T>(l: seq<T>, x: T)
    requires NoDup(l) && x !in l
    ensures NoDup(l + [x])
    ensures forall y :: y in l + [x] <==> y in l || y == x
  {
  }

  lemma AppendIndex<T>(l: seq<T>, x: T, y: T)
    requires NoDup(l) && x !in l && y in l
    ensures IndexOf(l + [x], y) == IndexOf(l, y)
  {
    IndexUnique(l + [x], y, IndexOf(l, y));
  }
}
