/** The doubly linked deque of src/stack.c. A null `void *` argument or result
    is `None`. */
module Stack {
  import opened Common

  class Item<T> {
    var next: Item?<T>
    var prev: Item?<T>
    var data: T

    constructor (data: T)
      ensures next == null && prev == null && this.data == data
    {
      next, prev := null, null;
      this.data := data;
    }
  }

  class Deque<T> {
    var head: Item?<T>
    var tail: Item?<T>
    var size: nat
    ghost var items: seq<Item<T>>

    /** The pointers spell out `items`: `next` and `prev` mirror each other, no
        item occurs twice, and the ends are null. */
    ghost predicate Valid()
      reads this, items
    {
      && size == |items|
      && (items == [] ==> head == null && tail == null)
      && (items != [] ==>
            && head == items[0] && tail == items[|items| - 1]
            && items[0].prev == null && items[|items| - 1].next == null)
      && (forall i :: 0 <= i < |items| - 1 ==> items[i].next == items[i + 1])
      && (forall i :: 0 < i < |items| ==> items[i].prev == items[i - 1])
      && (forall i, j :: 0 <= i < j < |items| ==> items[i] != items[j])
    }

    /** The sequence that the deque stands for. */
    ghost function Contents(): (s: seq<T>)
      reads this, items
    {
      seq(|items|, i requires 0 <= i < |items| reads this, items => items[i].data)
    }

    constructor ()
      ensures Valid() && Contents() == [] && items == []
    {
      head, tail := null, null;
      size := 0;
      items := [];
    }

    method Push(data: Option<T>) returns (rc: int)
      requires Valid()
      modifies this, items
      ensures Valid()
      ensures rc == if data.None? then -1 else 0
      ensures Contents() == if data.None? then old(Contents()) else old(Contents()) + [data.value]
      ensures data.None? ==> items == old(items)
      ensures data.Some? ==> exists x :: fresh(x) && items == old(items) + [x]
    {
      if data.None? { return -1; }
      var item := new Item(data.value);
      if head == null { head := item; }
      if tail != null {
        tail.next := item;
        item.prev := tail;
      }
      tail := item;
      size := size + 1;
      items := items + [item];
      return 0;
    }

    method Unshift(data: Option<T>) returns (rc: int)
      requires Valid()
      modifies this, items
      ensures Valid()
      ensures rc == if data.None? then -1 else 0
      ensures Contents() == if data.None? then old(Contents()) else [data.value] + old(Contents())
      ensures data.None? ==> items == old(items)
      ensures data.Some? ==> exists x :: fresh(x) && items == [x] + old(items)
    {
      if data.None? { return -1; }
      var item := new Item(data.value);
      if tail == null { tail := item; }
      if head != null {
        head.prev := item;
        item.next := head;
      }
      head := item;
      size := size + 1;
      items := [item] + items;
      return 0;
    }

    method Shift() returns (data: Option<T>)
      requires Valid()
      modifies this, items
      ensures Valid()
      ensures old(Contents()) == [] ==> data == None && Contents() == []
      ensures old(Contents()) != [] ==> data == Some(old(Contents())[0]) && Contents() == old(Contents())[1..]
      ensures items == if old(items) == [] then [] else old(items)[1..]
    {
      var item := head;
      if item == null { return None; }
      data := Some(item.data);
      head := item.next;
      assert head != null ==> head == items[1];
      if head != null { head.prev := null; }
      size := size - 1;
      items := items[1..];
      if size <= 0 {
        head, tail := null, null;
        size := 0;
      }
    }

    method Pop() returns (data: Option<T>)
      requires Valid()
      modifies this, items
      ensures Valid()
      ensures old(Contents()) == [] ==> data == None && Contents() == []
      ensures old(Contents()) != [] ==>
                var n := |old(Contents())| - 1;
                data == Some(old(Contents())[n]) && Contents() == old(Contents())[..n]
      ensures items == if old(items) == [] then [] else old(items)[..|old(items)| - 1]
    {
      var item := tail;
      if item == null { return None; }
      data := Some(item.data);
      tail := item.prev;
      assert tail != null ==> tail == items[|items| - 2];
      if tail != null { tail.next := null; }
      size := size - 1;
      items := items[..|items| - 1];
      if size <= 0 {
        head, tail := null, null;
        size := 0;
      }
    }

    /** Walking from the first item along `next` meets the elements in the
        order in which repeated `Shift` would return them. */
    method Walk() returns (seen: seq<T>)
      requires Valid()
      ensures seen == Contents()
    {
      seen := [];
      var item := head;
      ghost var k := 0;
      while item != null
        invariant 0 <= k <= |items|
        invariant if k == |items| then item == null else item == items[k]
        invariant seen == Contents()[..k]
        decreases |items| - k
      {
        var next := item.next;
        seen := seen + [item.data];
        item := next;
        k := k + 1;
      }
    }

    /** Shifting until nothing is left. */
    method Drain() returns (taken: seq<T>)
      requires Valid()
      modifies this, items
      ensures Valid() && Contents() == []
      ensures taken == old(Contents())
    {
      taken := [];
      ghost var all, nodes, k := Contents(), items, 0;
      while size > 0
        invariant Valid()
        invariant 0 <= k <= |all|
        invariant items == nodes[k..]
        invariant Contents() == all[k..] && taken == all[..k]
        decreases size
      {
        var data := Shift();
        taken := taken + [data.value];
        k := k + 1;
      }
    }
  }

  /** What `Valid` gives a reader of the pointers alone. */
  lemma ValidShape<T>(d: Deque<T>)
    requires d.Valid()
    ensures d.head == null <==> d.Contents() == []
    ensures d.tail == null <==> d.Contents() == []
    ensures d.size == |d.Contents()|
    ensures forall x :: x in d.items && x.next != null ==> x.next in d.items && x.next.prev == x
    ensures forall x :: x in d.items && x.prev != null ==> x.prev in d.items && x.prev.next == x
  {
    forall x | x in d.items && x.next != null
      ensures x.next in d.items && x.next.prev == x
    {
      var i :| 0 <= i < |d.items| && d.items[i] == x;
      assert i < |d.items| - 1 && x.next == d.items[i + 1];
    }
    forall x | x in d.items && x.prev != null
      ensures x.prev in d.items && x.prev.next == x
    {
      var i :| 0 <= i < |d.items| && d.items[i] == x;
      assert i > 0 && x.prev == d.items[i - 1];
    }
  }
}
