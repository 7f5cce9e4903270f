/** The allocator as it runs: sixteen list heads, a bump pointer, and the link words that the pool code
    writes inside the blocks it manages. Each method is proved against the functions of `MemoryPool`. */
module MemoryManager {
  import opened MemoryPool

  /** Element `k` of a free list, or the null that ends it. */
  function At(s: seq<int>, k: int): int {
    if 0 <= k < |s| then s[k] else 0
  }

  /** From `head`, the link words spell out `s` and then null. */
  predicate Chain(head: int, word: map<int, int>, s: seq<int>) {
    && head == At(s, 0)
    && (forall k :: 0 <= k < |s| ==> s[k] in word && word[s[k]] == At(s, k + 1))
  }

  predicate Linked(heads: seq<int>, word: map<int, int>, lists: seq<seq<int>>) {
    |heads| == |lists| && forall l :: 0 <= l < |lists| ==> Chain(heads[l], word, lists[l])
  }

  function Bases(cs: seq<Chunk>): seq<int> {
    seq(|cs|, i requires 0 <= i < |cs| => cs[i].base)
  }

  /** Blocks on free lists are not null, and a block that is not free is on no list. */
  lemma Unlisted(p: Pool, a: int)
    requires Inv(p) && |p.lists| == LIST_NUM && (a in p.owner ==> !p.owner[a].Free?)
    ensures forall l :: 0 <= l < LIST_NUM ==> a !in p.lists[l]
  {
  }

  lemma NotNull(p: Pool, a: int)
    requires Inv(p) && a in p.size
    ensures 0 < a
  {
  }

  /** Writing a word that is the link of no listed block leaves the lists alone. */
  lemma WriteElsewhere(heads: seq<int>, word: map<int, int>, lists: seq<seq<int>>, a: int, v: int)
    requires Linked(heads, word, lists) && forall l :: 0 <= l < |lists| ==> a !in lists[l]
    ensures Linked(heads, word[a := v], lists)
  {
  }

  lemma PushLinked(heads: seq<int>, word: map<int, int>, lists: seq<seq<int>>, a: int, l: int)
    requires Linked(heads, word, lists) && 0 <= l < |lists| && forall k :: 0 <= k < |lists| ==> a !in lists[k]
    ensures Linked(heads[l := a], word[a := heads[l]], lists[l := [a] + lists[l]])
  {
  }

  lemma PopLinked(heads: seq<int>, word: map<int, int>, lists: seq<seq<int>>, l: int)
    requires Linked(heads, word, lists) && 0 <= l < |lists| && lists[l] != []
    ensures heads[l] == lists[l][0] && heads[l] in word
    ensures Linked(heads[l := word[heads[l]]], word, lists[l := lists[l][1..]])
  {
  }

  class MemoryManager {
    var begin: int
    var end: int
    const freeList: array<int>
    var memoryPool: seq<int>
    var word: map<int, int>
    ghost var pool: Pool

    ghost predicate Valid()
      reads this, freeList
    {
      && Inv(pool)
      && begin == pool.begin && end == pool.end
      && memoryPool == Bases(pool.chunks)
      && freeList.Length == LIST_NUM
      && Linked(freeList[..], word, pool.lists)
    }

    constructor ()
      ensures Valid() && pool == EMPTY && fresh(freeList)
    {
      begin, end, memoryPool, word, pool := 0, 0, [], map[], EMPTY;
      freeList := new int[LIST_NUM](_ => 0);
      new;
      EmptyPool();
    }

    method AllocateNodes(s: int, num: nat, base: int) returns (head: int, nums: int)
      requires Valid() && 0 < s <= MAX_SIZE && Aligned(s)
      requires 0 < num && end - begin < s ==> Grantable(pool.chunks, base, s * num)
      requires pool.begin <= pool.end && |pool.lists| == LIST_NUM
      modifies this, freeList
      ensures Valid() && Grant(pool, head, nums) == Allocate(old(pool), s, num, base)
      ensures s <= old(end - begin) || num == 0 ==> word == old(word)
      decreases if end - begin < s then 1 else 0
    {
      hide Inv;
      var left := end - begin;
      if left >= s * num {
        CarveKeeps(pool, s, num);
        head, nums := begin, num;
        begin := begin + s * num;
        pool := Carve(pool, s, num);
        return;
      }
      if left >= s {
        SomeFit(s, num, left);
        CarveKeeps(pool, s, left / s);
        nums := left / s;
        head := begin;
        begin := begin + s * nums;
        pool := Carve(pool, s, nums);
        return;
      }
      WholeNodes(s, num);
      RefillKeeps(pool, s, base, s * num);
      if left > 0 {
        var l := Index(left);
        LeftOverClass(pool, s);
        FileTailKeeps(pool, l);
        BeginUnlisted(pool);
        PushLinked(freeList[..], word, pool.lists, begin, l);
        word := word[begin := freeList[l]];
        freeList[l] := begin;
        pool := FileTail(pool, l);
      }
      begin := base;
      end := begin + s * num;
      memoryPool := memoryPool + [begin];
      pool := Grow(pool, base, s * num);
      head, nums := AllocateNodes(s, num, base);
    }

    /** Refills with sixteen nodes, links them from the first on and ends the chain with a null. The
        last node is linked to the word behind it, and that word is where the null goes; a single node is
        not written to. Any `num` but 0 asks for no node at all and only clears the word at the tail. */
    method Fill(size: int, num: nat, base: int) returns (head: int)
      requires Valid() && 1 <= size <= MAX_SIZE
      requires num == 0 && end - begin < RoundUp(size) ==> Grantable(pool.chunks, base, RoundUp(size) * NODE_NUM)
      requires pool.begin <= pool.end && |pool.lists| == LIST_NUM
      modifies this, freeList
      ensures Valid()
      ensures var g := Allocate(old(pool), RoundUp(size), if num == 0 then NODE_NUM else 0, base);
              && pool == g.pool && head == g.head
              && (num != 0 ==> pool == old(pool) && head == old(begin) && word == old(word)[head := 0])
              && if g.num == 1 then word == old(word) else Chained(word, head, RoundUp(size), g.num)
    {
      hide Inv, Allocate;
      SizeClasses(size, Index(size));
      var s := RoundUp(size);
      var number := 0;
      if num == 0 {
        number := NODE_NUM;
        AllocateKeeps(pool, s, NODE_NUM, base);
        AllocateChunks(pool, s, NODE_NUM, base);
      }
      ghost var g := Allocate(pool, s, number, base);
      ghost var left := end - begin;
      AllocateNone(pool, s, base);
      head, number := AllocateNodes(s, number, base);
      if number == 1 {
        OneFits(s, left);
        return;
      }
      forall k | 0 <= k <= g.num
        ensures forall l :: 0 <= l < LIST_NUM ==> Node(head, s, k) !in pool.lists[l]
      {
        if k < g.num {
          assert Has(pool, Node(head, s, k), s, Carved);
          RunNode(pool, head, s, k);
        } else {
          BeginUnlisted(pool);
        }
      }
      ghost var was := word;
      Link(head, s, number);
      hide SameOutside, Linked;
      if number == 0 {
        OneWritten(was, word, head);
      }
    }

    /** The linking loop of `fill`. */
    method Link(head: int, s: int, num: nat)
      requires freeList.Length == |pool.lists| && Linked(freeList[..], word, pool.lists) && 0 < s
      requires forall k, l :: 0 <= k <= num && 0 <= l < |pool.lists| ==> Node(head, s, k) !in pool.lists[l]
      modifies this`word
      ensures Linked(freeList[..], word, pool.lists) && Chained(word, head, s, num)
      ensures SameOutside(old(word), word, head, Node(head, s, num))
    {
      hide Linked, SameOutside;
      var current, number := head, num;
      SameAll(word, head, current);
      ghost var i := 0;
      while number != 0
        invariant 0 <= i <= num && number == num - i
        invariant current == Node(head, s, i)
        invariant forall k :: 0 <= k < i ==>
                    Node(head, s, k) in word && word[Node(head, s, k)] == Node(head, s, k + 1)
        invariant Linked(freeList[..], word, pool.lists)
        invariant SameOutside(old(word), word, head, current)
      {
        forall k | 0 <= k < i ensures Node(head, s, k) != current { NodesDiffer(head, s, k, i); }
        NodesDiffer(head, s, i, i + 1);
        WriteElsewhere(freeList[..], word, pool.lists, current, current + s);
        SameInside(old(word), word, head, current, current, current + s);
        word := word[current := current + s];
        current := word[current];
        number := number - 1;
        i := i + 1;
      }
      forall k | 0 <= k < num ensures Node(head, s, k) != current { NodesDiffer(head, s, k, num); }
      WriteElsewhere(freeList[..], word, pool.lists, current, 0);
      SameInside(old(word), word, head, current, current, 0);
      word := word[current := 0];
    }

    /** `new_object`, up to the constructor call. */
    method NewObject(want: int, base: int) returns (block: int)
      requires Valid() && 1 <= want <= MAX_SIZE
      requires pool.begin <= pool.end && |pool.lists| == LIST_NUM && GrantableIfNeeded(pool, want, base)
      modifies this, freeList
      ensures Valid() && (pool, block) == New(old(pool), want, base)
    {
      hide Inv, Allocate;
      NewKeeps(pool, want, base);
      SizeClasses(want, Index(want));
      var l := Index(want);
      HeadIsNull(pool, l);
      if freeList[l] == 0 {
        block := Fill(want, 0, base);
        pool := pool.(owner := pool.owner[block := Live(want)]);
      } else {
        block := freeList[l];
        PopLinked(freeList[..], word, pool.lists, l);
        freeList[l] := word[block];
        pool := pool.(lists := pool.lists[l := pool.lists[l][1..]], owner := pool.owner[block := Live(want)]);
      }
    }

    /** `delete_object`: a null is ignored; any other block goes to the front of the list of the pointer's
        own size. */
    method DeleteObject(block: int)
      requires Valid() && (block != 0 ==> block in pool.owner && pool.owner[block].Live?)
      requires |pool.lists| == LIST_NUM
      modifies this, freeList
      ensures Valid() && pool == if block == 0 then old(pool) else Delete(old(pool), block)
    {
      hide Inv;
      if block == 0 {
        return;
      }
      DeleteKeeps(pool, block);
      Unlisted(pool, block);
      var l := Index(POINTER_SIZE);
      PushLinked(freeList[..], word, pool.lists, block, l);
      word := word[block := freeList[l]];
      freeList[l] := block;
      pool := Delete(pool, block);
    }

    /** A program may overwrite any word of an object it holds: the pool does not notice. */
    method Store(block: int, at: int, value: int)
      requires Valid() && block in pool.owner && pool.owner[block].Live? && block in pool.size
      requires block <= at && at + NODE_SIZE <= block + pool.size[block]
      modifies this`word
      ensures Valid() && word == old(word)[at := value]
    {
      hide Inv;
      InsideLive(pool, block, at);
      WriteElsewhere(freeList[..], word, pool.lists, at, value);
      word := word[at := value];
    }
  }

  /** Nothing on a list starts where the tail starts, even when the tail is empty. */
  lemma BeginUnlisted(p: Pool)
    requires Inv(p)
    ensures |p.lists| == LIST_NUM && forall l :: 0 <= l < LIST_NUM ==> p.begin !in p.lists[l]
  {
  }

  lemma AllocateNone(p: Pool, s: int, base: int)
    requires Inv(p) && 0 < s <= MAX_SIZE && p.begin <= p.end && |p.lists| == LIST_NUM
    ensures Allocate(p, s, 0, base) == Grant(p, p.begin, 0)
  {
  }

  lemma OneFits(s: int, left: int)
    requires 0 < s
    ensures left < s || 1 <= left / s
  {
  }

  /** `n` nodes of `s` bytes from `head` on, each linked to the next, the last to a null word behind it. */
  predicate Chained(word: map<int, int>, head: int, s: int, n: int) {
    && (forall k :: 0 <= k < n ==> Node(head, s, k) in word && word[Node(head, s, k)] == Node(head, s, k + 1))
    && Node(head, s, n) in word && word[Node(head, s, n)] == 0
  }

  /** No word was written below `lo` or above `hi`. */
  ghost predicate SameOutside(word: map<int, int>, word': map<int, int>, lo: int, hi: int) {
    forall a :: a in word || a in word' ==> lo <= a <= hi || (a in word && a in word' && word[a] == word'[a])
  }

  lemma SameInside(was: map<int, int>, word: map<int, int>, lo: int, hi: int, a: int, v: int)
    requires lo <= hi <= a && SameOutside(was, word, lo, hi)
    ensures SameOutside(was, word[a := v], lo, a)
    ensures v >= a ==> SameOutside(was, word[a := v], lo, v)
  {
  }

  lemma SameAll(word: map<int, int>, lo: int, hi: int)
    ensures SameOutside(word, word, lo, hi)
  {
  }

  lemma OneWritten(was: map<int, int>, word: map<int, int>, a: int)
    requires a in word && word[a] == 0 && SameOutside(was, word, a, a)
    ensures word == was[a := 0]
  {
    var expected := was[a := 0];
    forall x ensures x in word <==> x in expected {
      assert x in word || x in was ==> x == a || (x in word && x in was);
    }
    forall x | x in word ensures word[x] == expected[x] {
      assert x == a || word[x] == was[x];
    }
    assert word.Keys == expected.Keys;
  }

  /** A carved node is on no list, and nodes of a run are different places. */
  lemma RunNode(p: Pool, head: int, s: int, i: int)
    requires Inv(p) && 0 < s && 0 <= i && Has(p, Node(head, s, i), s, Carved)
    ensures |p.lists| == LIST_NUM && forall l :: 0 <= l < LIST_NUM ==> Node(head, s, i) !in p.lists[l]
  {
  }

  lemma NodesDiffer(head: int, s: int, k: int, i: int)
    requires 0 < s && k < i
    ensures Node(head, s, k) < Node(head, s, i) && Node(head, s, k + 1) == Node(head, s, k) + s
  {
  }

  lemma HeadIsNull(p: Pool, l: int)
    requires Inv(p) && 0 <= l < LIST_NUM && |p.lists| == LIST_NUM
    ensures At(p.lists[l], 0) == 0 <==> p.lists[l] == []
  {
    hide Layout, Owned;
    if p.lists[l] != [] {
      ListedBlock(p, l, 0);
      NotNull(p, p.lists[l][0]);
    }
  }

  lemma InsideLive(p: Pool, a: int, at: int)
    requires Inv(p) && a in p.owner && p.owner[a].Live? && a in p.size
    requires a <= at && at + NODE_SIZE <= a + p.size[a]
    ensures |p.lists| == LIST_NUM && forall l :: 0 <= l < LIST_NUM ==> at !in p.lists[l]
  {
    forall l, b | 0 <= l < LIST_NUM && b in p.lists[l] ensures b != at {
      assert p.owner[b] == Free(l);
      assert Apart(a, a + p.size[a], b, b + p.size[b]);
    }
  }
}
