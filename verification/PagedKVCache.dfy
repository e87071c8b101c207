/** The allocator object of src/core/page_table.hpp: the free stack and the tables change in place.
    Its mutex is not modelled; one call runs at a time. */
module PagedKVCache {
  import opened Wrappers
  import PageTable

  datatype InvalidArgument = InvalidArgument

  class PagedKVCacheAllocator {
    const blockSize: nat
    const numBlocks: nat
    var freeBlocks: seq<nat>
    var tables: map<nat, seq<nat>>

    ghost function View(): PageTable.Pool
      reads this
    {
      PageTable.Pool(freeBlocks, tables)
    }

    constructor (blockSizeTokens: nat, numPhysicalBlocks: nat)
      requires blockSizeTokens > 0 && numPhysicalBlocks > 0
      ensures blockSize == blockSizeTokens && numBlocks == numPhysicalBlocks
      ensures View() == PageTable.Pool(PageTable.InitialFree(numPhysicalBlocks), map[])
    {
      blockSize, numBlocks := blockSizeTokens, numPhysicalBlocks;
      freeBlocks, tables := [], map[];
      new;
      var i := numBlocks;
      while i > 0
        invariant 0 <= i <= numBlocks
        invariant |freeBlocks| == numBlocks - i && tables == map[]
        invariant forall j :: 0 <= j < |freeBlocks| ==> freeBlocks[j] == numBlocks - 1 - j
      {
        i := i - 1;
        freeBlocks := freeBlocks + [i];
      }
      PageTable.InitialFreeUnique(freeBlocks);
    }

    /** The constructor together with the exception it throws for an empty pool. */
    static method Create(blockSizeTokens: nat, numPhysicalBlocks: nat)
      returns (r: Result<PagedKVCacheAllocator, InvalidArgument>)
      ensures r.Ok? <==> blockSizeTokens > 0 && numPhysicalBlocks > 0
      ensures r.Ok? ==> fresh(r.value) && r.value.blockSize == blockSizeTokens
      ensures r.Ok? ==> r.value.View() == PageTable.Pool(PageTable.InitialFree(numPhysicalBlocks), map[])
    {
      if blockSizeTokens == 0 || numPhysicalBlocks == 0 {
        return Err(InvalidArgument);
      }
      var a := new PagedKVCacheAllocator(blockSizeTokens, numPhysicalBlocks);
      return Ok(a);
    }

    method FreeBlockCount() returns (n: nat)
      ensures n == |View().free|
    {
      n := |freeBlocks|;
    }

    method BlocksNeededFor(tokenCount: nat) returns (n: nat)
      requires blockSize > 0
      ensures n == PageTable.BlocksNeeded(tokenCount, blockSize)
    {
      PageTable.BlocksNeededIsRoundedUp(tokenCount, blockSize);
      n := (tokenCount + blockSize - 1) / blockSize;
    }

    /** The allocation loop: pops `k` blocks off the free stack. */
    method PopBlocks(k: nat) returns (taken: seq<nat>)
      requires k <= |freeBlocks|
      modifies this`freeBlocks
      ensures taken == PageTable.Popped(old(freeBlocks), k)
      ensures freeBlocks == old(freeBlocks)[..|old(freeBlocks)| - k]
    {
      taken := [];
      var i := 0;
      while i < k
        invariant i <= k <= |old(freeBlocks)|
        invariant freeBlocks == old(freeBlocks)[..|old(freeBlocks)| - i]
        invariant taken + PageTable.Popped(freeBlocks, k - i) == PageTable.Popped(old(freeBlocks), k)
      {
        var top := |freeBlocks| - 1;
        taken := taken + [freeBlocks[top]];
        freeBlocks := freeBlocks[..top];
        i := i + 1;
      }
    }

    method EnsureCapacity(seqId: nat, tokenCount: nat) returns (ok: bool)
      requires blockSize > 0
      modifies this
      ensures PageTable.Grant(ok, View()) == PageTable.EnsureCapacity(old(View()), seqId, tokenCount, blockSize)
    {
      var owned := if seqId in tables then tables[seqId] else [];
      tables := tables[seqId := owned];
      var needed := BlocksNeededFor(tokenCount);
      if needed <= |owned| { return true; }
      var toAllocate := needed - |owned|;
      if |freeBlocks| < toAllocate { return false; }
      var taken := PopBlocks(toAllocate);
      tables := tables[seqId := owned + taken];
      assert tables == old(tables)[seqId := owned + taken];
      return true;
    }

    method FreeSequence(seqId: nat)
      modifies this
      ensures View() == PageTable.FreeSequence(old(View()), seqId)
    {
      if seqId !in tables {
        assert tables - {seqId} == tables && freeBlocks + [] == freeBlocks;
        return;
      }
      var blocks := tables[seqId];
      var i := 0;
      while i < |blocks|
        invariant i <= |blocks|
        invariant freeBlocks == old(freeBlocks) + blocks[..i] && tables == old(tables)
      {
        freeBlocks := freeBlocks + [blocks[i]];
        i := i + 1;
      }
      assert blocks[..i] == blocks;
      tables := tables - {seqId};
    }
  }
}
