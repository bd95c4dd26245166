/** The block that holds the shared counter, and the operations on a counted pointer to it. */
module ControlBlock {

  class ControlBlock {
    var unhandledEvents: int
    var freed: bool

    /** One pointer exists. */
    constructor ()
      ensures unhandledEvents == 1 && !freed
    {
      unhandledEvents, freed := 1, false;
    }

    method Clone()
      requires !freed
      modifies this
      ensures unhandledEvents == old(unhandledEvents) + 1 && !freed
    {
      unhandledEvents := unhandledEvents + 1;
    }

    /** Gives up a pointer; giving up the last one frees the block, and nothing else does. */
    method Release() returns (last: bool)
      requires !freed
      modifies this
      ensures unhandledEvents == old(unhandledEvents) - 1
      ensures last <==> old(unhandledEvents) <= 1
      ensures freed <==> last
    {
      var before := unhandledEvents;
      unhandledEvents := unhandledEvents - 1;
      if before > 1 {
        return false;
      }
      freed := true;
      last := true;
    }
  }

  /** Setting up: one clone a context, and the creator's own pointer given up at the end. */
  method ShareAmong(contexts: nat) returns (block: ControlBlock)
    ensures fresh(block)
    ensures block.unhandledEvents == contexts
    ensures block.freed <==> contexts == 0
  {
    block := new ControlBlock();
    for i := 0 to contexts
      invariant fresh(block) && !block.freed && block.unhandledEvents == 1 + i
    {
      block.Clone();
    }
    var last := block.Release();
  }
}
