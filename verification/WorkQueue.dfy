/** Intrusive work queues: doubly linked lists over link fields inside the queued objects themselves. */
module WorkQueues {

  /** The link fields of a chunk. They are left as they are when the chunk leaves its queue. */
  class Link {
    /** Index of the chunk in submission order. */
    const index: nat
    var prev: Link?
    var next: Link?

    constructor (index: nat)
      ensures this.index == index
    {
      this.index, prev, next := index, null, null;
    }
  }

  function Indices(items: seq<Link>): (q: seq<nat>)
    ensures |q| == |items| && forall i :: 0 <= i < |q| ==> q[i] == items[i].index
  {
    seq(|items|, i requires 0 <= i < |items| => items[i].index)
  }

  /** The item at a place, and nothing beyond the ends. */
  ghost function At(items: seq<Link>, i: int): Link? {
    if 0 <= i < |items| then items[i] else null
  }

  /** The items are linked up in order. */
  ghost predicate Linked(items: seq<Link>)
    reads items
  {
    && (forall i, j :: 0 <= i < j < |items| ==> items[i] != items[j])
    && (forall i :: 0 <= i < |items| ==> items[i].prev == At(items, i - 1) && items[i].next == At(items, i + 1))
  }

  class WorkQueue {
    var first: Link?
    var last: Link?
    /** The queued objects, in order. */
    ghost var items: seq<Link>

    ghost predicate Valid()
      reads this, items
    {
      && Linked(items)
      && first == At(items, 0)
      && last == At(items, |items| - 1)
    }

    constructor ()
      ensures Valid() && items == []
    {
      first, last, items := null, null, [];
    }

    method PushBack(link: Link)
      requires Valid() && link !in items
      modifies this, items, link
      ensures Valid() && items == old(items) + [link]
    {
      link.prev := last;
      link.next := null;
      if last != null { last.next := link; } else { first := link; }
      last := link;
      items := items + [link];
      forall i | 0 <= i < |items|
        ensures items[i].prev == At(items, i - 1) && items[i].next == At(items, i + 1)
      {
        assert i < |items| - 1 ==> items[i] == old(items)[i];
        assert i + 1 < |items| - 1 ==> items[i + 1] == old(items)[i + 1];
      }
    }

    method PushFront(link: Link)
      requires Valid() && link !in items
      modifies this, items, link
      ensures Valid() && items == [link] + old(items)
    {
      link.prev := null;
      link.next := first;
      if first != null { first.prev := link; } else { last := link; }
      first := link;
      items := [link] + items;
      forall i | 0 <= i < |items|
        ensures items[i].prev == At(items, i - 1) && items[i].next == At(items, i + 1)
      {
        assert i > 0 ==> items[i] == old(items)[i - 1];
        assert 0 <= i < |items| - 1 ==> items[i + 1] == old(items)[i];
      }
    }

    /** Takes the first object, if there is one. */
    method Pop() returns (link: Link?)
      requires Valid()
      modifies this, items
      ensures Valid()
      ensures old(items) == [] ==> link == null && items == []
      ensures old(items) != [] ==> link == old(items)[0] && items == old(items)[1..]
    {
      link := first;
      if link != null {
        if link.next != null { link.next.prev := null; } else { last := null; }
        first := link.next;
        items := items[1..];
        forall i | 0 <= i < |items|
          ensures items[i].prev == At(items, i - 1) && items[i].next == At(items, i + 1)
        {
          assert items[i] == old(items)[i + 1];
          assert i + 1 < |items| ==> items[i + 1] == old(items)[i + 2];
        }
      }
    }
  }
}
