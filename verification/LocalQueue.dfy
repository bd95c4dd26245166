/** The queue of messages a context sends to itself: a stack. */
module LocalQueue {
  import opened Options

  class LocalQueue<T> {
    var items: seq<T>

    constructor ()
      ensures items == []
    {
      items := [];
    }

    method Send(value: T)
      modifies this
      ensures items == old(items) + [value]
    {
      items := items + [value];
    }

    /** What was sent last comes out first; nothing comes out of an empty queue. */
    method Recv() returns (r: Option<T>)
      modifies this
      ensures old(items) == [] ==> r.None? && items == []
      ensures old(items) != [] ==> r.Some? && old(items) == items + [r.value]
    {
      if items == [] {
        return None;
      }
      r := Some(items[|items| - 1]);
      items := items[..|items| - 1];
    }
  }
}
