/** src/core/bounded-queue.ts */
module BoundedQueues {
  datatype OverflowPolicy = DropOldest | DropNewest | Block | Reject

  /** The queue after a push. `Block` and `Reject` leave a full queue as it is. */
  function Pushed<T>(items: seq<T>, item: T, maxSize: int, policy: OverflowPolicy): seq<T> {
    if |items| < maxSize then items + [item]
    else if policy == DropOldest then (if items == [] then [] else items[1..]) + [item]
    else items
  }

  function PushAll<T>(items: seq<T>, more: seq<T>, maxSize: int, policy: OverflowPolicy): seq<T> {
    if more == [] then items
    else Pushed(PushAll(items, more[..|more| - 1], maxSize, policy), more[|more| - 1], maxSize, policy)
  }

  /** Without a reader, drop-oldest keeps the last `maxSize` items ... */
  lemma {:induction false} DropOldestKeepsLast<T>(more: seq<T>, maxSize: int)
    requires maxSize >= 1
    ensures PushAll([], more, maxSize, DropOldest) == if |more| <= maxSize then more else more[|more| - maxSize..]
  {
    if more != [] {
      var n := |more| - 1;
      DropOldestKeepsLast(more[..n], maxSize);
      assert more == more[..n] + [more[n]];
    }
  }

  /** ... and every other policy keeps the first `maxSize`. */
  lemma {:induction false} OthersKeepFirst<T>(more: seq<T>, maxSize: int, policy: OverflowPolicy)
    requires maxSize >= 0 && policy != DropOldest
    ensures PushAll([], more, maxSize, policy) == if |more| <= maxSize then more else more[..maxSize]
  {
    if more != [] {
      var n := |more| - 1;
      OthersKeepFirst(more[..n], maxSize, policy);
      assert more == more[..n] + [more[n]];
    }
  }

  class BoundedQueue<T> {
    var items: seq<T>
    const maxSize: int
    const policy: OverflowPolicy

    constructor (maxSize: int, policy: OverflowPolicy)
      ensures items == [] && this.maxSize == maxSize && this.policy == policy
    {
      items, this.maxSize, this.policy := [], maxSize, policy;
    }

    method Push(item: T) returns (threw: bool)
      modifies this
      ensures items == Pushed(old(items), item, maxSize, policy)
      ensures threw <==> |old(items)| >= maxSize && policy == Reject
    {
      threw := false;
      if |items| < maxSize {
        items := items + [item];
        return;
      }
      match policy
      case DropOldest =>
        if items != [] {
          items := items[1..];
        }
        items := items + [item];
      case DropNewest =>
      case Block =>
      case Reject =>
        threw := true;
    }

    method Shift()
      modifies this
      ensures items == if old(items) == [] then [] else old(items)[1..]
    {
      if items != [] {
        items := items[1..];
      }
    }

    method Clear()
      modifies this
      ensures items == []
    {
      items := [];
    }
  }
}
