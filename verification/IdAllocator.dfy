/** Order ids are handed out in blocks from one shared counter (include/id_allocator.h). */
module IdAllocators {
  import opened Core

  /** The ids from `start` up to, not including, `end`. */
  datatype OrderIdBlock = OrderIdBlock(start: OrderId, end: OrderId)

  class IdAllocator {
    const blockSize: OrderId
    var globalCounter: OrderId

    constructor (blockSize: OrderId)
      ensures this.blockSize == blockSize && globalCounter == FIRST_ORDER_ID
    {
      this.blockSize := blockSize;
      globalCounter := FIRST_ORDER_ID;
    }

    /** One atomic fetch-and-add; both sums wrap at 2^64. */
    method GetNextIdBlock() returns (block: OrderIdBlock)
      modifies this
      ensures block == OrderIdBlock(old(globalCounter), Wrap(old(globalCounter) + blockSize))
      ensures globalCounter == block.end
    {
      var localStart := globalCounter;
      globalCounter := Wrap(globalCounter + blockSize);
      block := OrderIdBlock(localStart, Wrap(localStart + blockSize));
    }
  }
}
