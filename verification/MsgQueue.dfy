/** The kernel's bounded FIFO (`k_msgq`), trusted: first in, first out, never more
    than `depth` items. A put or get that may wait forever is modelled at the moment
    the wait is over. */
module MsgQueues {
  import opened CText

  class MsgQueue<T> {
    const depth: nat
    var items: seq<T>

    ghost predicate Valid()
      reads this
    {
      |items| <= depth
    }

    constructor (depth: nat)
      ensures Valid() && items == [] && this.depth == depth
    {
      this.depth := depth;
      items := [];
    }

    method PutNoWait(x: T) returns (rc: int)
      requires Valid()
      modifies this`items
      ensures Valid()
      ensures rc == 0 <==> |old(items)| < depth
      ensures items == if rc == 0 then old(items) + [x] else old(items)
    {
      if |items| < depth {
        items := items + [x];
        return 0;
      }
      return -1;
    }

    method GetNoWait() returns (x: Option<T>)
      requires Valid()
      modifies this`items
      ensures Valid()
      ensures old(items) == [] ==> x == None && items == []
      ensures old(items) != [] ==> x == Some(old(items)[0]) && items == old(items)[1..]
    {
      if items == [] {
        return None;
      }
      x := Some(items[0]);
      items := items[1..];
    }

    method Put(x: T)
      requires Valid() && |items| < depth
      modifies this`items
      ensures Valid() && items == old(items) + [x]
    {
      items := items + [x];
    }

    method Get() returns (x: T)
      requires Valid() && items != []
      modifies this`items
      ensures Valid() && x == old(items)[0] && items == old(items)[1..]
    {
      x := items[0];
      items := items[1..];
    }

    method Purge()
      modifies this`items
      ensures Valid() && items == []
    {
      items := [];
    }
  }
}
