/** The paged KV-cache allocator of src/core/page_table.hpp on values: a stack of free physical
    blocks and, per sequence id, the blocks it owns. `PagedKVCache.dfy` holds the object that
    changes them in place. */
module PageTable {
  import opened Counting

  datatype Pool = Pool(free: seq<nat>, tables: map<nat, seq<nat>>)
  {
    function Owned(id: nat): seq<nat> {
      if id in tables then tables[id] else []
    }
  }

  /** How many blocks of `blockSize` tokens hold `tokens` tokens, one block at a time.
      `BlocksNeededIsRoundedUp` relates it to the division the allocator computes. */
  function BlocksNeeded(tokens: nat, blockSize: nat): (r: nat)
    requires blockSize > 0
  {
    if tokens == 0 then 0
    else if tokens <= blockSize then 1
    else 1 + BlocksNeeded(tokens - blockSize, blockSize)
  }

  /** The blocks popped off the free stack, in the order they are popped. */
  function Popped(free: seq<nat>, k: nat): (r: seq<nat>)
    requires k <= |free|
    ensures |r| == k && forall i :: 0 <= i < k ==> r[i] == free[|free| - 1 - i]
  {
    if k == 0 then [] else [free[|free| - 1]] + Popped(free[..|free| - 1], k - 1)
  }

  /** The free stack as the allocator's constructor fills it: block 0 on top. */
  function InitialFree(n: nat): (r: seq<nat>)
    ensures |r| == n && forall i :: 0 <= i < n ==> r[i] == n - 1 - i
  {
    if n == 0 then [] else [n - 1] + InitialFree(n - 1)
  }

  lemma {:induction false} InitialFreeUnique(s: seq<nat>)
    requires forall i :: 0 <= i < |s| ==> s[i] == |s| - 1 - i
    ensures s == InitialFree(|s|)
  {
    if s != [] { InitialFreeUnique(s[1..]); }
  }

  datatype Grant = Grant(ok: bool, pool: Pool)

  /** Grows the allocation of `id` to `needed` blocks, all or nothing. The table entry of `id`
      exists afterwards even when the request is refused. */
  function Grow(p: Pool, id: nat, needed: nat): Grant {
    var owned := p.Owned(id);
    if needed <= |owned| then Grant(true, p.(tables := p.tables[id := owned]))
    else
      var k := needed - |owned|;
      if |p.free| < k then Grant(false, p.(tables := p.tables[id := owned]))
      else Grant(true, Pool(p.free[..|p.free| - k], p.tables[id := owned + Popped(p.free, k)]))
  }

  /** Grows the allocation of `id` to cover `tokens` tokens. */
  function EnsureCapacity(p: Pool, id: nat, tokens: nat, blockSize: nat): Grant
    requires blockSize > 0
  {
    Grow(p, id, BlocksNeeded(tokens, blockSize))
  }

  /** Returns every block of `id` to the free stack. */
  function FreeSequence(p: Pool, id: nat): Pool {
    Pool(p.free + p.Owned(id), p.tables - {id})
  }

  // ---------------------------------------------------------------------------------------
  // Arithmetic of blocks
  // ---------------------------------------------------------------------------------------

  lemma {:induction false} BlocksNeededIsRoundedUp(tokens: nat, blockSize: nat)
    requires blockSize > 0
    ensures BlocksNeeded(tokens, blockSize) == (tokens + blockSize - 1) / blockSize
  {
    if tokens == 0 {
      QuotientIs(blockSize - 1, blockSize, 0);
    } else if tokens <= blockSize {
      QuotientIs(tokens + blockSize - 1, blockSize, 1);
    } else {
      BlocksNeededIsRoundedUp(tokens - blockSize, blockSize);
      var q := (tokens - 1) / blockSize;
      assert blockSize * q <= tokens - 1 < blockSize * q + blockSize;
      QuotientIs(tokens + blockSize - 1, blockSize, q + 1);
    }
  }

  lemma QuotientIs(x: int, d: int, q: int)
    requires d > 0 && d * q <= x < d * q + d
    ensures x / d == q
  {
    var k := x / d - q;
    assert d * k == x - x % d - d * q;
    assert k == 0 by {
      assert k >= 1 ==> d * k >= d;
      assert k <= -1 ==> d * k <= 0 - d;
    }
  }

  /** `BlocksNeeded` is the least number of blocks with room for `tokens` tokens, and the waste of
      an allocation of exactly that size is at most `blockSize - 1` slots. */
  lemma {:induction false} BlocksNeededIsCeiling(tokens: nat, blockSize: nat)
    requires blockSize > 0
    ensures tokens <= BlocksNeeded(tokens, blockSize) * blockSize <= tokens + blockSize - 1
    ensures forall k: nat :: tokens <= k * blockSize ==> BlocksNeeded(tokens, blockSize) <= k
  {
    if tokens > blockSize { BlocksNeededIsCeiling(tokens - blockSize, blockSize); }
    var n := BlocksNeeded(tokens, blockSize);
    assert tokens <= n * blockSize <= tokens + blockSize - 1;
    forall k: nat | tokens <= k * blockSize ensures n <= k {
      assert k + 1 <= n ==> (k + 1) * blockSize <= n * blockSize;
    }
  }

  lemma {:induction false} BlocksNeededMonotone(a: nat, b: nat, blockSize: nat)
    requires blockSize > 0 && a <= b
    ensures BlocksNeeded(a, blockSize) <= BlocksNeeded(b, blockSize)
  {
    if a > blockSize { BlocksNeededMonotone(a - blockSize, b - blockSize, blockSize); }
  }

  // ---------------------------------------------------------------------------------------
  // The ledger: free and owned blocks partition the pool
  // ---------------------------------------------------------------------------------------

  lemma DistinctAt(ids: seq<nat>, i: nat, j: nat)
    requires Distinct(ids) && i < |ids| && j < |ids| && i != j
    ensures ids[i] != ids[j]
  {
    DistinctIsNoRepeats(ids);
  }

  /** How often block `b` occurs. */
  ghost function Count(blocks: seq<nat>, b: nat): nat {
    if blocks == [] then 0 else (if blocks[0] == b then 1 else 0) + Count(blocks[1..], b)
  }

  /** How often block `b` occurs in the tables of `ids`. */
  ghost function OwnedAt(p: Pool, ids: seq<nat>, b: nat): nat {
    if ids == [] then 0 else Count(p.Owned(ids[0]), b) + OwnedAt(p, ids[1..], b)
  }

  /** In how many places block `b` is: on the free stack, or in the table of one of `ids`. */
  ghost function Places(p: Pool, ids: seq<nat>, b: nat): nat {
    Count(p.free, b) + OwnedAt(p, ids, b)
  }

  lemma {:induction false} CountSum(x: seq<nat>, y: seq<nat>, b: nat)
    ensures Count(x + y, b) == Count(x, b) + Count(y, b)
  {
    if x == [] {
      assert x + y == y;
    } else {
      assert (x + y)[1..] == x[1..] + y;
      CountSum(x[1..], y, b);
    }
  }

  lemma {:induction false} CountPositive(x: seq<nat>, b: nat)
    ensures Count(x, b) > 0 <==> b in x
  {
    if x != [] {
      CountPositive(x[1..], b);
      assert x == [x[0]] + x[1..];
    }
  }

  /** A table entry of a sequence that is not one of `ids`. */
  predicate Stray(p: Pool, ids: seq<nat>, id: nat) {
    id in p.tables && id !in ids
  }

  /** Every one of the `n` physical blocks is exactly once on the free stack or in the table of
      one of the sequences `ids`, and nobody else has a table. */
  ghost predicate Ledger(p: Pool, ids: seq<nat>, n: nat) {
    && Distinct(ids)
    && (forall id :: !Stray(p, ids, id))
    && (forall b: nat :: Places(p, ids, b) == if b < n then 1 else 0)
  }

  /** What the ledger means block by block: no block is free twice, owned twice by one sequence,
      owned by two sequences, both free and owned, or lost. */
  lemma {:induction false} LedgerPartitions(p: Pool, ids: seq<nat>, n: nat, b: nat)
    requires Ledger(p, ids, n)
    ensures b < n <==> b in p.free || exists id :: id in ids && b in p.Owned(id)
    ensures Count(p.free, b) <= 1
    ensures forall id :: id in ids ==> Count(p.Owned(id), b) <= 1
    ensures forall id :: id in ids && b in p.Owned(id) ==> b !in p.free
    ensures forall id, other :: id in ids && other in ids && id != other && b in p.Owned(id)
              ==> b !in p.Owned(other)
  {
    assert Places(p, ids, b) == if b < n then 1 else 0;
    CountPositive(p.free, b);
    OwnedSomewhere(p, ids, b);
    forall id | id in ids ensures Count(p.Owned(id), b) <= OwnedAt(p, ids, b) {
      OwnedPart(p, ids, id, b);
    }
    forall id, other | id in ids && other in ids && id != other && b in p.Owned(id)
      ensures b !in p.Owned(other)
    {
      OwnedTwice(p, ids, id, other, b);
      CountPositive(p.Owned(id), b);
      CountPositive(p.Owned(other), b);
    }
  }

  lemma {:induction false} OwnedSomewhere(p: Pool, ids: seq<nat>, b: nat)
    ensures OwnedAt(p, ids, b) > 0 <==> exists id :: id in ids && b in p.Owned(id)
  {
    if ids != [] {
      OwnedSomewhere(p, ids[1..], b);
      CountPositive(p.Owned(ids[0]), b);
      assert forall id :: id in ids <==> id == ids[0] || id in ids[1..];
    }
  }

  lemma {:induction false} OwnedPart(p: Pool, ids: seq<nat>, id: nat, b: nat)
    requires id in ids
    ensures Count(p.Owned(id), b) <= OwnedAt(p, ids, b)
  {
    if ids[0] != id { OwnedPart(p, ids[1..], id, b); }
  }

  lemma {:induction false} OwnedTwice(p: Pool, ids: seq<nat>, id: nat, other: nat, b: nat)
    requires Distinct(ids) && id in ids && other in ids && id != other
    ensures Count(p.Owned(id), b) + Count(p.Owned(other), b) <= OwnedAt(p, ids, b)
  {
    if ids[0] == id {
      OwnedPart(p, ids[1..], other, b);
    } else if ids[0] == other {
      OwnedPart(p, ids[1..], id, b);
    } else {
      OwnedTwice(p, ids[1..], id, other, b);
    }
  }

  /** The total owned by `ids` changes by what the one sequence `id` gains. */
  lemma {:induction false} OwnedGrows(p: Pool, q: Pool, ids: seq<nat>, id: nat, more: seq<nat>, b: nat)
    requires Distinct(ids) && id in ids
    requires q.Owned(id) == p.Owned(id) + more
    requires forall other :: other != id ==> q.Owned(other) == p.Owned(other)
    ensures OwnedAt(q, ids, b) == OwnedAt(p, ids, b) + Count(more, b)
  {
    if ids[0] == id {
      OwnedSame(p, q, ids[1..], id, b);
      CountSum(p.Owned(id), more, b);
    } else {
      OwnedGrows(p, q, ids[1..], id, more, b);
    }
  }

  lemma {:induction false} OwnedSame(p: Pool, q: Pool, ids: seq<nat>, id: nat, b: nat)
    requires id !in ids
    requires forall other :: other != id ==> q.Owned(other) == p.Owned(other)
    ensures OwnedAt(q, ids, b) == OwnedAt(p, ids, b)
  {
    if ids != [] { OwnedSame(p, q, ids[1..], id, b); }
  }

  /** A request succeeds exactly when the missing blocks are free; when it
      does, the sequence owns at least what it needs, and exactly that if it had to grow; nobody
      else is affected. */
  lemma GrowCorrect(p: Pool, id: nat, needed: nat)
    ensures var g := Grow(p, id, needed);
            && (g.ok <==> needed <= |p.Owned(id)| + |p.free|)
            && p.Owned(id) <= g.pool.Owned(id)
            && |g.pool.Owned(id)| == (if g.ok && needed > |p.Owned(id)| then needed else |p.Owned(id)|)
            && (forall other :: other != id ==> g.pool.Owned(other) == p.Owned(other))
            && (!g.ok ==> g.pool.free == p.free)
            && (forall i :: |p.Owned(id)| <= i < |g.pool.Owned(id)| ==>
                  g.pool.Owned(id)[i] == p.free[|p.free| - 1 - (i - |p.Owned(id)|)])
            && g.pool.free == p.free[..|p.free| - (|g.pool.Owned(id)| - |p.Owned(id)|)]
  {
  }

  lemma {:induction false} PoppedBlocks(free: seq<nat>, k: nat, b: nat)
    requires k <= |free|
    ensures Count(free, b) == Count(free[..|free| - k], b) + Count(Popped(free, k), b)
  {
    if k == 0 {
      assert free[..|free|] == free;
    } else {
      var top := |free| - 1;
      var rest := free[..top];
      PoppedBlocks(rest, k - 1, b);
      CountSum(rest, [free[top]], b);
      assert free == rest + [free[top]];
      assert rest[..top - (k - 1)] == free[..|free| - k];
      assert Popped(free, k)[1..] == Popped(rest, k - 1);
    }
  }

  lemma GrowKeepsLedger(p: Pool, id: nat, needed: nat, ids: seq<nat>, n: nat)
    requires Ledger(p, ids, n) && id in ids
    ensures Ledger(Grow(p, id, needed).pool, ids, n)
  {
    var owned, k := p.Owned(id), needed - |p.Owned(id)|;
    if 0 < k <= |p.free| {
      var more := Popped(p.free, k);
      forall b ensures Count(p.free, b) == Count(p.free[..|p.free| - k], b) + Count(more, b) {
        PoppedBlocks(p.free, k, b);
      }
      Transfer(p, Pool(p.free[..|p.free| - k], p.tables[id := owned + more]), id, more, ids, n);
    } else {
      assert owned + [] == owned;
      Transfer(p, Pool(p.free, p.tables[id := owned]), id, [], ids, n);
    }
  }

  /** Blocks `more` move from the free stack to sequence `id`. */
  lemma Transfer(p: Pool, q: Pool, id: nat, more: seq<nat>, ids: seq<nat>, n: nat)
    requires Ledger(p, ids, n) && id in ids
    requires forall b: nat :: Count(p.free, b) == Count(q.free, b) + Count(more, b)
    requires q.tables == p.tables[id := p.Owned(id) + more]
    ensures Ledger(q, ids, n)
  {
    forall b: nat ensures Places(q, ids, b) == Places(p, ids, b) { OwnedGrows(p, q, ids, id, more, b); }
    forall x ensures !Stray(q, ids, x) { assert !Stray(p, ids, x); }
  }

  lemma {:induction false} OwnedWithout(p: Pool, ids: seq<nat>, i: nat, b: nat)
    requires i < |ids|
    ensures OwnedAt(p, ids, b) == OwnedAt(p, ids[..i] + ids[i + 1..], b) + Count(p.Owned(ids[i]), b)
  {
    OwnedSplit(p, ids[..i], ids[i..], b);
    OwnedSplit(p, ids[..i], ids[i + 1..], b);
    assert ids == ids[..i] + ids[i..];
    assert ids[i..][1..] == ids[i + 1..];
  }

  lemma {:induction false} DistinctWithout(ids: seq<nat>, i: nat)
    requires Distinct(ids) && i < |ids|
    ensures var rest := ids[..i] + ids[i + 1..];
            Distinct(rest) && ids[i] !in rest && forall x :: x in ids && x != ids[i] ==> x in rest
  {
    var rest := ids[..i] + ids[i + 1..];
    if i == 0 {
      assert rest == ids[1..];
    } else {
      var tail := ids[1..];
      DistinctWithout(tail, i - 1);
      assert rest[1..] == tail[..i - 1] + tail[i..];
      assert forall x :: x in rest[1..] ==> x in tail;
      assert rest == [ids[0]] + rest[1..];
      assert tail[i - 1] == ids[i];
    }
  }

  /** Freeing a sequence returns exactly its blocks and affects nobody else. */
  lemma FreeSequenceCorrect(p: Pool, id: nat)
    ensures var q := FreeSequence(p, id);
            && q.free == p.free + p.Owned(id) && q.Owned(id) == []
            && (forall other :: other != id ==> q.Owned(other) == p.Owned(other))
  {
  }

  /** Freeing a sequence keeps the ledger without it. */
  lemma FreeKeepsLedger(p: Pool, ids: seq<nat>, n: nat, i: nat)
    requires Ledger(p, ids, n) && i < |ids|
    ensures Ledger(FreeSequence(p, ids[i]), ids[..i] + ids[i + 1..], n)
  {
    var id := ids[i];
    var q := FreeSequence(p, id);
    var rest := ids[..i] + ids[i + 1..];
    DistinctWithout(ids, i);
    forall x ensures !Stray(q, rest, x) { assert !Stray(p, ids, x); }
    forall b: nat ensures Places(q, rest, b) == Places(p, ids, b) {
      FreePlaces(p, ids, i, b);
    }
  }

  lemma FreePlaces(p: Pool, ids: seq<nat>, i: nat, b: nat)
    requires Distinct(ids) && i < |ids|
    ensures Places(FreeSequence(p, ids[i]), ids[..i] + ids[i + 1..], b) == Places(p, ids, b)
  {
    var q := FreeSequence(p, ids[i]);
    DistinctWithout(ids, i);
    OwnedWithout(p, ids, i, b);
    OwnedSame(p, q, ids[..i] + ids[i + 1..], ids[i], b);
    CountSum(p.free, p.Owned(ids[i]), b);
  }

  lemma {:induction false} OwnedSplit(p: Pool, x: seq<nat>, y: seq<nat>, b: nat)
    ensures OwnedAt(p, x + y, b) == OwnedAt(p, x, b) + OwnedAt(p, y, b)
  {
    if x == [] {
      assert x + y == y;
    } else {
      assert (x + y)[1..] == x[1..] + y;
      OwnedSplit(p, x[1..], y, b);
    }
  }

  /** The number of owned blocks, sequence by sequence. */
  ghost function OwnedCount(p: Pool, ids: seq<nat>): nat {
    if ids == [] then 0 else |p.Owned(ids[0])| + OwnedCount(p, ids[1..])
  }

  /** All blocks in sight: the free ones, then those of each sequence. */
  ghost function Listed(p: Pool, ids: seq<nat>): (r: seq<nat>)
    ensures |r| == |p.free| + OwnedCount(p, ids)
  {
    if ids == [] then p.free else p.Owned(ids[0]) + Listed(p, ids[1..])
  }

  lemma {:induction false} ListedAt(p: Pool, ids: seq<nat>, b: nat)
    ensures Count(Listed(p, ids), b) == Places(p, ids, b)
  {
    if ids != [] {
      ListedAt(p, ids[1..], b);
      CountSum(p.Owned(ids[0]), Listed(p, ids[1..]), b);
    }
  }

  /** A list with each of `0..n-1` once and nothing else has length `n`. */
  lemma {:induction false} EachOnce(s: seq<nat>, n: nat)
    requires forall b: nat :: Count(s, b) == if b < n then 1 else 0
    ensures |s| == n
  {
    HeadCounts(s);
    if n > 0 {
      CountPositive(s, n - 1);
      var i :| 0 <= i < |s| && s[i] == n - 1;
      var rest := s[..i] + s[i + 1..];
      forall b: nat ensures Count(rest, b) == if b < n - 1 then 1 else 0 { CountWithout(s, i, b); }
      EachOnce(rest, n - 1);
    }
  }

  lemma HeadCounts(s: seq<nat>)
    ensures s == [] || Count(s, s[0]) > 0
  {}

  lemma CountWithout(s: seq<nat>, i: nat, b: nat)
    requires i < |s|
    ensures Count(s, b) == Count(s[..i] + s[i + 1..], b) + if s[i] == b then 1 else 0
  {
    assert s == s[..i] + s[i..] && s[i..][1..] == s[i + 1..];
    CountSum(s[..i], s[i..], b);
    CountSum(s[..i], s[i + 1..], b);
  }

  /** Memory conservation: free plus owned is the size of the pool. */
  lemma Conservation(p: Pool, ids: seq<nat>, n: nat)
    requires Ledger(p, ids, n)
    ensures |p.free| + OwnedCount(p, ids) == n
  {
    forall b: nat ensures Count(Listed(p, ids), b) == if b < n then 1 else 0 { ListedAt(p, ids, b); }
    EachOnce(Listed(p, ids), n);
  }
}
