/** One subscriber's queue: bounded for droppable events, unbounded for the others, filtered in place. */
module Queue {
  import opened Basics

  datatype Kind =
    | Claimed | Executing | ReasoningDelta | TextDelta | ToolStarted | ToolFinished | FinalizeStarted | Completed | Failed

  datatype RuntimeEvent = RuntimeEvent(kind: Kind, eventId: string, sequence: int, body: string)

  datatype Item = Item(event: RuntimeEvent, droppable: bool)

  /** A subscription: what is queued, the one-slot notify channel, and whether it is closed. */
  datatype Sub = Sub(pending: seq<Item>, token: bool, closed: bool)

  const NEW_SUB := Sub([], false, false)

  /** The items that must not be dropped, in order. */
  function Kept(items: seq<Item>): seq<Item> {
    if items == [] then []
    else Kept(items[..|items| - 1]) + if items[|items| - 1].droppable then [] else [items[|items| - 1]]
  }

  lemma {:induction false} KeptOfConcat(a: seq<Item>, b: seq<Item>)
    ensures Kept(a + b) == Kept(a) + Kept(b)
  {
    if b == [] {
      assert a + b == a;
    } else {
      KeptOfConcat(a, b[..|b| - 1]);
      assert (a + b)[..|a + b| - 1] == a + b[..|b| - 1];
    }
  }

  lemma {:induction false} KeptIsStable(items: seq<Item>)
    ensures Kept(Kept(items)) == Kept(items)
    ensures |Kept(items)| <= |items|
    ensures forall x :: x in Kept(items) <==> x in items && !x.droppable
  {
    if items != [] {
      KeptIsStable(items[..|items| - 1]);
      var last := items[|items| - 1];
      assert items == items[..|items| - 1] + [last];
      KeptOfConcat(Kept(items[..|items| - 1]), if last.droppable then [] else [last]);
    }
  }

  function Events(items: seq<Item>): (r: seq<RuntimeEvent>)
    ensures |r| == |items| && forall i :: 0 <= i < |r| ==> r[i] == items[i].event
  {
    if items == [] then [] else Events(items[..|items| - 1]) + [items[|items| - 1].event]
  }

  function Enqueued(s: Sub, max: nat, item: Item): Sub {
    if s.closed || (|s.pending| >= max && item.droppable) then s
    else Sub((if |s.pending| >= max then Kept(s.pending) else s.pending) + [item], true, false)
  }

  function Closed(s: Sub): Sub {
    if s.closed then s else s.(closed := true, token := true)
  }

  /** What the locked part of Next finds. */
  datatype Polled = Got(event: RuntimeEvent) | Ended | Nothing

  /** The queue never grows past its limit unless everything in it must be kept. */
  predicate Bounded(s: Sub, max: nat) {
    |s.pending| <= max || forall i :: 0 <= i < |s.pending| ==> !s.pending[i].droppable
  }

  lemma EnqueuedStaysBounded(s: Sub, max: nat, item: Item)
    requires Bounded(s, max)
    ensures Bounded(Enqueued(s, max, item), max)
  {
    KeptIsStable(s.pending);
    assert forall i :: 0 <= i < |Kept(s.pending)| ==> Kept(s.pending)[i] in Kept(s.pending);
  }

  /** Enqueueing loses no item that must be kept, whatever it drops. */
  lemma EnqueuedKeeps(s: Sub, max: nat, item: Item)
    ensures Kept(Enqueued(s, max, item).pending)
              == Kept(s.pending) + if s.closed || item.droppable then [] else [item]
  {
    KeptIsStable(s.pending);
    KeptOfConcat(s.pending, [item]);
    KeptOfConcat(Kept(s.pending), [item]);
    assert Kept([item]) == if item.droppable then [] else [item] by {
      assert [item][..0] == [];
    }
  }

  /** `filtered := s[:0]` and its loop: moves the items to keep to the front of the array itself. */
  method CompactInPlace(a: array<Item>, n: nat) returns (m: nat)
    requires n <= a.Length
    modifies a
    ensures m <= n && a[..m] == Kept(old(a[..n]))
  {
    m := 0;
    var i := 0;
    while i < n
      invariant 0 <= m <= i <= n
      invariant a[..m] == Kept(old(a[..i]))
      invariant a[i..n] == old(a[i..n])
    {
      assert old(a[..i + 1])[..i] == old(a[..i]);
      var item := a[i];
      assert item == a[i..n][0] == old(a[i..n])[0] == old(a[..i + 1])[i];
      if !item.droppable {
        a[m] := item;
        assert a[..m + 1] == a[..m] + [item];
        m := m + 1;
      }
      assert a[i + 1..n] == old(a[i..n])[1..];
      i := i + 1;
    }
  }

  class Subscription {
    const maxQueued: nat
    var buf: array<Item>
    var len: nat
    var token: bool
    var closed: bool

    ghost predicate Valid()
      reads this
    {
      len <= buf.Length
    }

    ghost function View(): Sub
      requires Valid()
      reads this, buf
    {
      Sub(buf[..len], token, closed)
    }

    constructor (maxQueued: nat)
      ensures Valid() && fresh(buf) && View() == NEW_SUB && this.maxQueued == maxQueued
    {
      this.maxQueued := maxQueued;
      buf := new Item[0];
      len, token, closed := 0, false, false;
    }

    /** append: writes into spare capacity, or moves to a larger array. */
    method Append(item: Item)
      requires Valid()
      modifies this`buf, this`len, buf
      ensures Valid() && (buf == old(buf) || fresh(buf))
      ensures buf[..len] == old(buf[..len]) + [item]
    {
      if len == buf.Length {
        var bigger := new Item[2 * len + 1](i requires 0 <= i reads this, buf => if i < len && i < buf.Length then buf[i] else item);
        assert bigger[..len] == buf[..len];
        buf := bigger;
      }
      buf[len] := item;
      len := len + 1;
    }

    method Enqueue(event: RuntimeEvent, droppable: bool) returns (accepted: bool)
      requires Valid()
      modifies this, buf
      ensures Valid() && (buf == old(buf) || fresh(buf))
      ensures View() == Enqueued(old(View()), maxQueued, Item(event, droppable))
      ensures !old(closed) && old(len) < maxQueued ==>
                View() == Sub(old(View()).pending + [Item(event, droppable)], true, false)
      ensures !old(closed) && old(len) >= maxQueued && !droppable ==>
                View() == Sub(Kept(old(View()).pending) + [Item(event, false)], true, false)
      ensures old(closed) || (old(len) >= maxQueued && droppable) ==> View() == old(View())
      ensures accepted <==> !old(closed) && !(droppable && old(len) >= maxQueued)
    {
      if closed {
        return false;
      }
      if len >= maxQueued {
        if droppable {
          return false;
        }
        len := CompactInPlace(buf, len);
      }
      Append(Item(event, droppable));
      token := true;
      accepted := true;
    }

    method Close()
      requires Valid()
      modifies this`closed, this`token
      ensures Valid() && View() == Closed(old(View()))
      ensures closed && View().pending == old(View()).pending && token == (old(token) || !old(closed))
    {
      if closed {
        return;
      }
      closed, token := true, true;
    }

    /** The locked part of Next: takes the first item by shifting the rest down. */
    method Poll() returns (r: Polled)
      requires Valid()
      modifies this`len, buf
      ensures Valid()
      ensures r.Got? <==> old(len) > 0
      ensures r.Got? ==> r.event == old(View()).pending[0].event
                         && View() == old(View()).(pending := old(View()).pending[1..])
      ensures !r.Got? ==> View() == old(View()) && (r.Ended? <==> closed)
    {
      if len > 0 {
        var item := buf[0];
        var i := 1;
        while i < len
          invariant 1 <= i <= len && len == old(len)
          invariant buf[..i - 1] == old(buf[1..i])
          invariant buf[i..len] == old(buf[i..len])
        {
          assert buf[i] == buf[i..len][0];
          buf[i - 1] := buf[i];
          assert buf[..i] == buf[..i - 1] + [buf[i - 1]];
          assert old(buf[1..i + 1]) == old(buf[1..i]) + [old(buf[i])];
          assert buf[i + 1..len] == old(buf[i..len])[1..];
          i := i + 1;
        }
        len := len - 1;
        return Got(item.event);
      }
      r := if closed then Ended else Nothing;
    }
  }
}
