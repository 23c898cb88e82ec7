/**
  The intrusive circular doubly linked list of list.c and list.h, on the heap:
  list items carry their own links, the list owns an end marker and a walking
  index.  The ghost field items is the list's value; Value() is what the rest of
  the model works with.
 */
module IntrusiveList {
  import opened KernelConfig
  import opened ListViews

  class ListItem {
    var value: TickType
    var next: ListItem?
    var previous: ListItem?
    var owner: object?
    var container: List?

    constructor (value: TickType, owner: object?)
      ensures this.value == value && this.owner == owner && container == null
    {
      this.value, this.owner := value, owner;
      container := null;
    }
  }

  class List {
    const end: ListItem
    var index: ListItem
    var numberOfItems: nat
    ghost var items: seq<ListItem>

    /** The node before position k: the marker, or the item before it. */
    ghost function Node(k: nat): ListItem
      requires k <= |items|
      reads this
    {
      if k == 0 then end else items[k - 1]
    }

    ghost predicate Linked()
      reads `items, end, items
    {
      && (if items == [] then end.next == end == end.previous else
            && end.next == items[0] && items[0].previous == end
            && end.previous == items[|items| - 1] && items[|items| - 1].next == end)
      && (forall i {:trigger items[i].next} :: 0 <= i < |items| - 1 ==> items[i].next == items[i + 1])
      && (forall i {:trigger items[i].previous} :: 1 <= i < |items| ==> items[i].previous == items[i - 1])
    }

    ghost predicate Valid()
      reads this, end, items
    {
      Chain() && (index == end || index in items)
    }

    /** The list without its walking index. */
    ghost predicate Chain()
      reads `items, `numberOfItems, end, items
    {
      && NoDuplicates(items) && end !in items
      && Linked()
      && numberOfItems == |items|
      && (forall x :: x in items ==> x.container == this)
      && end.value == PORT_MAX_DELAY && end.container == null
    }

    ghost function Value(): (v: View<ListItem>)
      requires Valid()
      reads this, end, items
      ensures v.items == items && WellFormed(v)
      ensures if v.index == 0 then index == end else index == items[v.index - 1]
    {
      View(items, if index == end then 0 else PositionOf(items, index) + 1)
    }

    ghost function Keys(): (k: seq<nat>)
      reads this, items
      ensures |k| == |items|
    {
      seq(|items|, i requires 0 <= i < |items| reads this, items => items[i].value)
    }

    constructor ()
      ensures Valid() && items == [] && fresh(this) && fresh(end) && index == end
    {
      var marker := new ListItem(PORT_MAX_DELAY, null);
      end, index, numberOfItems, items := marker, marker, 0, [];
      new;
      end.next, end.previous := end, end;
    }

    lemma ValueIs(v: View<ListItem>)
      requires Valid() && v.items == items && v.index <= |items|
      requires if v.index == 0 then index == end else index == items[v.index - 1]
      ensures Value() == v
    {
    }

    /** now is s with x put in as its element k, said without the function Put. */
    ghost predicate Inserted(s: seq<ListItem>, k: nat, x: ListItem, now: seq<ListItem>) {
      && k <= |s| && |now| == |s| + 1 && now[k] == x
      && (forall i {:trigger now[i]} :: 0 <= i < k ==> now[i] == s[i])
      && (forall i {:trigger now[i]} :: k < i < |now| ==> now[i] == s[i - 1])
    }

    /** now is s without its element k. */
    ghost predicate Removed(s: seq<ListItem>, k: nat, now: seq<ListItem>) {
      && k < |s| && |now| == |s| - 1
      && (forall i {:trigger now[i]} :: 0 <= i < k ==> now[i] == s[i])
      && (forall i {:trigger now[i]} :: k <= i < |now| ==> now[i] == s[i + 1])
    }

    /** The four link writes of vListInsert and vListInsertEnd: item goes in behind before. */
    method LinkBehind(before: ListItem, item: ListItem, ghost k: nat, ghost now: seq<ListItem>)
      requires Chain() && k <= |items| && Node(k) == before
      requires item.container == null && item != end
      requires Inserted(items, k, item, now) && NoDuplicates(now)
      modifies this`numberOfItems, this`items
      modifies end`next, end`previous, items`next, items`previous, item`next, item`previous, item`container
      ensures Chain() && items == now
    {
      var next := before.next;
      assert next == if k == |items| then end else items[k];
      item.next := next;
      next.previous := item;
      item.previous := before;
      before.next := item;
      item.container := this;
      numberOfItems := numberOfItems + 1;
      items := now;
    }

    method InsertBehind(before: ListItem, item: ListItem, ghost k: nat)
      requires Valid() && k <= |items| && Node(k) == before
      requires item.container == null && item != end
      modifies this`numberOfItems, this`items
      modifies end`next, end`previous, items`next, items`previous, item`next, item`previous, item`container
      ensures Valid() && Value() == InsertAt(old(Value()), k, item)
    {
      ghost var was := Value();
      PutNoDuplicates(items, k, item);
      LinkBehind(before, item, k, Put(items, k, item));
      ValueIs(InsertAt(was, k, item));
    }

    /** vListInsertEnd and listINSERT_END. */
    method InsertEnd(item: ListItem)
      requires Valid() && item.container == null && item != end
      modifies this`numberOfItems, this`items
      modifies end`next, end`previous, items`next, items`previous, item`next, item`previous, item`container
      ensures Valid() && Value() == ListViews.InsertEnd(old(Value()), item)
    {
      InsertBehind(index.previous, item, EndPosition(Value()));
    }

    /** The walk of vListInsert: the marker's value stops it, as no smaller value gets past. */
    method FindInsertionPoint(value: TickType) returns (before: ListItem, ghost k: nat)
      requires Valid()
      ensures k == SortedPosition(Keys(), value) && before == Node(k)
    {
      if value == PORT_MAX_DELAY {
        before, k := end.previous, |items|;
      } else {
        before, k := end, 0;
        while before.next.value <= value
          invariant k <= |items| && before == Node(k)
          invariant before.next == if k == |items| then end else items[k]
          invariant forall i :: 0 <= i < k ==> Keys()[i] <= value
          decreases |items| - k
        {
          before, k := before.next, k + 1;
        }
      }
      SortedPositionUnique(Keys(), value, k);
    }

    lemma KeysAfterInsert(was: seq<ListItem>, keys: seq<nat>, k: nat, item: ListItem)
      requires |keys| == |was| && (forall i :: 0 <= i < |was| ==> keys[i] == was[i].value)
      requires k == SortedPosition(keys, item.value) && items == Put(was, k, item)
      ensures Keys() == Put(keys, k, item.value)
      ensures Sorted(keys) ==> Sorted(Keys())
    {
      if Sorted(keys) {
        SortedInsertion(keys, item.value);
      }
    }

    /** vListInsert: behind every item whose value is not greater, for any value and any order. */
    method Insert(item: ListItem)
      requires Valid() && item.container == null && item != end
      modifies this`numberOfItems, this`items
      modifies end`next, end`previous, items`next, items`previous, item`next, item`previous, item`container
      ensures Valid() && Value() == InsertAt(old(Value()), SortedPosition(old(Keys()), item.value), item)
      ensures Sorted(old(Keys())) ==> Sorted(Keys())
    {
      ghost var was, keys := items, Keys();
      var before, k := FindInsertionPoint(item.value);
      InsertBehind(before, item, k);
      KeysAfterInsert(was, keys, k, item);
    }

    method Unlink(item: ListItem, ghost k: nat, ghost now: seq<ListItem>)
      requires Chain() && k < |items| && items[k] == item
      requires Removed(items, k, now) && NoDuplicates(now)
      modifies this`numberOfItems, this`items
      modifies end`next, end`previous, items`next, items`previous, item`container
      ensures Chain() && items == now && item.container == null && item.previous == old(item.previous)
    {
      assert item.next == if k == |items| - 1 then end else items[k + 1];
      assert item.previous == Node(k);
      item.next.previous := item.previous;
      item.previous.next := item.next;
      item.container := null;
      numberOfItems := numberOfItems - 1;
      items := now;
    }

    lemma Before(k: nat)
      requires Chain() && k < |items|
      ensures items[k].previous == Node(k)
    {
    }

    lemma Dropped(k: nat)
      requires Valid() && k < |items|
      ensures var now := Drop(items, k);
              && Removed(items, k, now) && NoDuplicates(now) && Node(k) != items[k]
              && (var p := RemoveAt(Value(), k).index;
                  && p <= |now|
                  && (if index == items[k] then Node(k) else index) == (if p == 0 then end else now[p - 1]))
    {
      DropNoDuplicates(items, k);
      assert k > 0 ==> Drop(items, k)[k - 1] == items[k - 1];
    }

    method Detach(item: ListItem) returns (remaining: nat)
      requires Valid() && item in items
      modifies this`index, this`numberOfItems, this`items
      modifies end`next, end`previous, items`next, items`previous, item`container
      ensures Valid() && Value() == ListViews.Remove(old(Value()), item)
      ensures item.container == null && remaining == |items|
    {
      hide Drop, Removed, NoDuplicates, Linked, Chain, WellFormed;
      ghost var was, k := Value(), PositionOf(items, item);
      Before(k);
      Dropped(k);
      Unlink(item, k, Drop(items, k));
      if index == item {
        index := item.previous;
      }
      ValueIs(RemoveAt(was, k));
      remaining := numberOfItems;
    }

    /** uxListRemove and listREMOVE_ITEM: the item itself knows the list it is on. */
    static method Remove(item: ListItem) returns (remaining: nat)
      requires item.container != null && item.container.Valid() && item in item.container.items
      modifies item.container`index, item.container`numberOfItems, item.container`items, item`container
      modifies item.container.end`next, item.container.end`previous
      modifies item.container.items`next, item.container.items`previous
      ensures item.container == null && old(item.container).Valid()
      ensures old(item.container).Value() == ListViews.Remove(old(item.container.Value()), item)
      ensures remaining == |old(item.container).items|
    {
      remaining := item.container.Detach(item);
    }

    /** listGET_OWNER_OF_NEXT_ENTRY: the index moves on, past the marker. */
    method GetOwnerOfNextEntry() returns (owner: object?)
      requires Valid() && items != []
      modifies this`index
      ensures Valid() && items == old(items)
      ensures Value() == Next(old(Value())) && owner == Indexed(Value()).owner
    {
      ghost var was := Value();
      index := index.next;
      if index == end {
        index := index.next;
      }
      owner := index.owner;
      ValueIs(Next(was));
    }

    /** listGET_HEAD_ENTRY, listLIST_IS_EMPTY and listCURRENT_LIST_LENGTH. */
    method Head() returns (head: ListItem, isEmpty: bool, length: nat)
      requires Valid()
      ensures isEmpty <==> items == []
      ensures length == |items|
      ensures head == if items == [] then end else items[0]
    {
      head, isEmpty, length := end.next, numberOfItems == 0, numberOfItems;
    }
  }
}
