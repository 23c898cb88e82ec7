/**
  The value of an intrusive kernel list: its items in list order and the place
  of the walking index.  The heap-level list of module IntrusiveList is proved
  against these functions, and the scheduler model is written on top of them.
 */
module ListViews {

  /** Index 0 is the end marker; index k+1 is the item items[k]. */
  datatype View<T> = View(items: seq<T>, index: nat)

  ghost predicate NoDuplicates<T>(s: seq<T>) {
    forall i, j :: 0 <= i < j < |s| ==> s[i] != s[j]
  }

  ghost predicate WellFormed<T>(v: View<T>) {
    v.index <= |v.items| && NoDuplicates(v.items)
  }

  function Empty<T>(): View<T> {
    View([], 0)
  }

  /** s with x put in as element k. */
  function Put<T>(s: seq<T>, k: nat, x: T): (r: seq<T>)
    requires k <= |s|
  {
    seq(|s| + 1, i requires 0 <= i <= |s| => if i < k then s[i] else if i == k then x else s[i - 1])
  }

  /** s without its element k. */
  function Drop<T>(s: seq<T>, k: nat): (r: seq<T>)
    requires k < |s|
  {
    seq(|s| - 1, i requires 0 <= i < |s| - 1 => if i < k then s[i] else s[i + 1])
  }

  /** s without its first k elements. */
  function Tail<T>(s: seq<T>, k: nat): (r: seq<T>)
    requires k <= |s|
  {
    seq(|s| - k, i requires 0 <= i < |s| - k => s[k + i])
  }

  function Join<T>(a: seq<T>, b: seq<T>): (r: seq<T>) {
    seq(|a| + |b|, i requires 0 <= i < |a| + |b| => if i < |a| then a[i] else b[i - |a|])
  }

  function Without<T(==)>(s: seq<T>, x: T): seq<T> {
    if x in s then Drop(s, PositionOf(s, x)) else s
  }

  lemma SequenceForms<T>(s: seq<T>, k: nat, x: T, a: seq<T>)
    requires k <= |s|
    ensures Join(s, a) == s + a
    ensures Put(s, k, x) == s[..k] + [x] + s[k..] && Tail(s, k) == s[k..]
    ensures k < |s| ==> Drop(s, k) == s[..k] + s[k + 1..]
  {
  }

  /** A new item at position k; the index stays on the item it was on. */
  function InsertAt<T>(v: View<T>, k: nat, x: T): View<T>
    requires k <= |v.items|
  {
    View(Put(v.items, k, x), if k < v.index then v.index + 1 else v.index)
  }

  /** Where vListInsertEnd puts an item: just before the indexed one. */
  function EndPosition<T>(v: View<T>): (k: nat)
    ensures k <= |v.items|
  {
    if 1 <= v.index <= |v.items| then v.index - 1 else |v.items|
  }

  function InsertEnd<T>(v: View<T>, x: T): View<T> {
    InsertAt(v, EndPosition(v), x)
  }

  /** Item k leaves; an index on it falls back to its predecessor. */
  function RemoveAt<T>(v: View<T>, k: nat): View<T>
    requires k < |v.items|
  {
    View(Drop(v.items, k), if k < v.index then v.index - 1 else v.index)
  }

  /** Where x stands first in s. */
  function PositionOf<T(==)>(s: seq<T>, x: T): (k: nat)
    requires x in s
    ensures k < |s| && s[k] == x
    ensures forall i :: 0 <= i < k ==> s[i] != x
  {
    PositionFrom(s, x, 0)
  }

  function PositionFrom<T(==)>(s: seq<T>, x: T, from: nat): (k: nat)
    requires from <= |s| && x in s && forall i :: 0 <= i < from ==> s[i] != x
    ensures from <= k < |s| && s[k] == x
    ensures forall i :: 0 <= i < k ==> s[i] != x
    decreases |s| - from
  {
    if s[from] == x then from else PositionFrom(s, x, from + 1)
  }

  lemma PositionUnique<T>(s: seq<T>, k: nat)
    requires NoDuplicates(s) && k < |s|
    ensures PositionOf(s, s[k]) == k
  {
  }

  function Remove<T(==)>(v: View<T>, x: T): View<T>
    requires x in v.items
  {
    RemoveAt(v, PositionOf(v.items, x))
  }

  function RemoveIfIn<T(==)>(v: View<T>, x: T): View<T> {
    if x in v.items then Remove(v, x) else v
  }

  /** One step of listGET_OWNER_OF_NEXT_ENTRY, which skips the end marker. */
  function Next<T>(v: View<T>): (r: View<T>)
    requires v.items != [] && v.index <= |v.items|
    ensures 1 <= r.index <= |v.items|
  {
    v.(index := if v.index < |v.items| then v.index + 1 else 1)
  }

  function Indexed<T>(v: View<T>): T
    requires 1 <= v.index <= |v.items|
  {
    v.items[v.index - 1]
  }

  /** The order in which the coming calls of Next visit the items. */
  function Rotation<T>(v: View<T>): seq<T>
    requires v.index <= |v.items|
  {
    var n := |v.items|;
    seq(n, i requires 0 <= i < n => v.items[if v.index + i < n then v.index + i else v.index + i - n])
  }

  /** What n calls of Next return, one after the other. */
  function Visits<T>(v: View<T>, n: nat): seq<T>
    requires v.items != [] && v.index <= |v.items|
    decreases n
  {
    if n == 0 then [] else [Indexed(Next(v))] + Visits(Next(v), n - 1)
  }

  function NextN<T>(v: View<T>, n: nat): (r: View<T>)
    requires v.items != [] && v.index <= |v.items|
    ensures r.items == v.items && r.index <= |r.items|
    decreases n
  {
    if n == 0 then v else NextN(Next(v), n - 1)
  }

  lemma NextRotates<T>(v: View<T>)
    requires v.items != [] && v.index <= |v.items|
    ensures Indexed(Next(v)) == Rotation(v)[0]
    ensures Rotation(Next(v)) == Rotation(v)[1..] + [Rotation(v)[0]]
  {
  }

  lemma RotateFurther<T>(r: seq<T>, n: nat)
    requires 0 < n <= |r|
    ensures var s := r[1..] + [r[0]];
            [r[0]] + s[..n - 1] == r[..n] && s[n - 1..] + s[..n - 1] == r[n..] + r[..n]
  {
    var s := r[1..] + [r[0]];
    assert s[..n - 1] == r[1..n];
    assert s[n - 1..] == r[n..] + [r[0]];
  }

  lemma {:induction false} VisitsFollowRotation<T>(v: View<T>, n: nat)
    requires v.items != [] && v.index <= |v.items| && n <= |v.items|
    ensures Visits(v, n) == Rotation(v)[..n]
    ensures Rotation(NextN(v, n)) == Rotation(v)[n..] + Rotation(v)[..n]
    decreases n
  {
    if n == 0 {
    } else {
      NextRotates(v);
      VisitsFollowRotation(Next(v), n - 1);
      RotateFurther(Rotation(v), n);
    }
  }

  lemma RotationPermutes<T>(v: View<T>)
    requires v.index <= |v.items|
    ensures multiset(Rotation(v)) == multiset(v.items)
  {
    assert Rotation(v) == v.items[v.index..] + v.items[..v.index];
    assert v.items == v.items[..v.index] + v.items[v.index..];
  }

  lemma RotationNoDuplicates<T>(v: View<T>)
    requires WellFormed(v)
    ensures NoDuplicates(Rotation(v))
  {
  }

  /** A full turn returns every item exactly once and restores the order of visits. */
  lemma FullTurnVisitsAll<T>(v: View<T>)
    requires v.items != [] && WellFormed(v)
    ensures NoDuplicates(Visits(v, |v.items|))
    ensures multiset(Visits(v, |v.items|)) == multiset(v.items)
    ensures Rotation(NextN(v, |v.items|)) == Rotation(v)
  {
    var n, r := |v.items|, Rotation(v);
    VisitsFollowRotation(v, n);
    assert r[..n] == r && r[n..] == [];
    RotationPermutes(v);
    RotationNoDuplicates(v);
  }

  function RotationPosition<T>(v: View<T>, k: nat): nat
    requires k < |v.items| && v.index <= |v.items|
  {
    if v.index <= k then k - v.index else k + |v.items| - v.index
  }

  /** Removing an item, also the one under the index, only takes it out of the rotation. */
  lemma RemoveKeepsRotation<T>(v: View<T>, k: nat)
    requires k < |v.items| && v.index <= |v.items|
    ensures var j := RotationPosition(v, k);
            Rotation(v)[j] == v.items[k] && Rotation(RemoveAt(v, k)) == Drop(Rotation(v), j)
  {
  }

  /** With the index on the marker a new item is visited last, otherwise last but one. */
  lemma InsertEndRotation<T>(v: View<T>, x: T)
    requires v.index <= |v.items|
    ensures InsertEnd(v, x).index <= |InsertEnd(v, x).items|
    ensures v.index == 0 ==> Rotation(InsertEnd(v, x)) == Rotation(v) + [x]
    ensures v.index != 0 ==>
              var r := Rotation(v);
              Rotation(InsertEnd(v, x)) == r[..|r| - 1] + [x, Indexed(v)] && r[|r| - 1] == Indexed(v)
  {
  }

  /** The promise "the last item to be returned" holds exactly when the index is on the marker. */
  lemma InsertEndIsLastIff<T>(v: View<T>, x: T)
    requires WellFormed(v) && x !in v.items
    ensures InsertEnd(v, x).index <= |InsertEnd(v, x).items|
    ensures Rotation(InsertEnd(v, x))[|v.items|] == x <==> v.index == 0
  {
    InsertEndRotation(v, x);
    assert |Rotation(InsertEnd(v, x))| == |v.items| + 1;
    if v.index != 0 {
      assert Indexed(v) in v.items;
    }
  }

  /** With the index on the only item, the item stays the last one visited. */
  lemma InsertEndNotLast<T>(a: T, x: T)
    ensures Rotation(InsertEnd(View([a], 1), x)) == [x, a]
  {
    InsertEndRotation(View([a], 1), x);
    assert |InsertEnd(View([a], 1), x).items| == 2;
  }

  /** Inserting and taking the same item out again is no change at all. */
  lemma InsertThenRemove<T>(v: View<T>, k: nat, x: T)
    requires k <= |v.items| && v.index <= |v.items|
    ensures InsertAt(v, k, x).items[k] == x && RemoveAt(InsertAt(v, k, x), k) == v
  {
    assert Drop(Put(v.items, k, x), k) == v.items;
  }

  // ---------------------------------------------------------------- sorted insertion

  ghost predicate Sorted(keys: seq<nat>) {
    forall i, j :: 0 <= i < j < |keys| ==> keys[i] <= keys[j]
  }

  /** The first position whose key is greater than the new one. */
  function SortedPosition(keys: seq<nat>, key: nat): (k: nat)
    ensures k <= |keys|
    ensures forall i :: 0 <= i < k ==> keys[i] <= key
    ensures k < |keys| ==> key < keys[k]
  {
    SortedPositionFrom(keys, key, 0)
  }

  function SortedPositionFrom(keys: seq<nat>, key: nat, from: nat): (k: nat)
    requires from <= |keys| && forall i :: 0 <= i < from ==> keys[i] <= key
    ensures from <= k <= |keys|
    ensures forall i :: 0 <= i < k ==> keys[i] <= key
    ensures k < |keys| ==> key < keys[k]
    decreases |keys| - from
  {
    if from == |keys| || key < keys[from] then from else SortedPositionFrom(keys, key, from + 1)
  }

  lemma SortedPositionUnique(keys: seq<nat>, key: nat, k: nat)
    requires k <= |keys|
    requires forall i :: 0 <= i < k ==> keys[i] <= key
    requires k < |keys| ==> key < keys[k]
    ensures k == SortedPosition(keys, key)
  {
  }

  /** Cutting at lo first does not move the place where hi cuts. */
  lemma SortedPositionSuffix(keys: seq<nat>, lo: nat, hi: nat)
    requires Sorted(keys) && lo <= hi
    ensures var i, k := SortedPosition(keys, lo), SortedPosition(keys, hi);
            i <= k && SortedPosition(Tail(keys, i), hi) == k - i
  {
    var i, k := SortedPosition(keys, lo), SortedPosition(keys, hi);
    if k < i {
      assert false;
    }
    SortedPositionUnique(Tail(keys, i), hi, k - i);
  }

  /** Sorted insertion keeps a sorted list sorted and goes after every equal key. */
  lemma SortedInsertion(keys: seq<nat>, key: nat)
    requires Sorted(keys)
    ensures var k := SortedPosition(keys, key);
            && Sorted(Put(keys, k, key))
            && (forall i :: k <= i < |keys| ==> key < keys[i])
  {
    var k := SortedPosition(keys, key);
    forall i | k <= i < |keys|
      ensures key < keys[i]
    {
      assert keys[k] <= keys[i];
    }
  }

  // ---------------------------------------------------------------- duplicates

  lemma PutMembers<T>(s: seq<T>, k: nat, x: T)
    requires k <= |s|
    ensures forall y :: y in Put(s, k, x) <==> y == x || y in s
  {
    var r := Put(s, k, x);
    assert r[k] == x;
    forall y | y in s
      ensures y in r
    {
      var i :| 0 <= i < |s| && s[i] == y;
      assert r[if i < k then i else i + 1] == y;
    }
  }

  lemma PutNoDuplicates<T>(s: seq<T>, k: nat, x: T)
    requires NoDuplicates(s) && k <= |s| && x !in s
    ensures NoDuplicates(Put(s, k, x)) && x in Put(s, k, x)
    ensures forall y :: y in Put(s, k, x) ==> y == x || y in s
    ensures forall y :: y in s ==> y in Put(s, k, x)
  {
    PutMembers(s, k, x);
  }

  lemma DropNoDuplicates<T>(s: seq<T>, k: nat)
    requires NoDuplicates(s) && k < |s|
    ensures NoDuplicates(Drop(s, k))
    ensures forall y :: y in Drop(s, k) ==> y != s[k] && y in s
    ensures forall y :: y in s && y != s[k] ==> y in Drop(s, k)
  {
    var r := Drop(s, k);
    forall y | y in s && y != s[k]
      ensures y in r
    {
      var i :| 0 <= i < |s| && s[i] == y;
      assert r[if i < k then i else i - 1] == y;
    }
  }

  lemma TailTwice<T>(s: seq<T>, i: nat)
    requires i < |s|
    ensures Tail(Tail(s, i), 1) == Tail(s, i + 1) && Tail(s, i)[0] == s[i]
  {
  }
}
