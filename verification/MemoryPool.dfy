/** The small-object pool: size classes, the bump region and what every block is doing.

    A `Pool` records where every byte obtained from malloc is. `size` maps the address of each block
    that was ever cut out of a chunk to its length, `owner` says who has it now, `lists` are the sixteen
    free lists as sequences, and `[begin, end)` is the tail that has not been cut yet.
 */
module MemoryPool {
  const MAX_SIZE: int := 128
  const NODE_SIZE: int := 8
  const NODE_NUM: int := 16
  const LIST_NUM: int := 16
  const POINTER_SIZE: int := 8

  /* ---------- size classes ---------- */

  /** `(size + 7) & ~7`: the three low bits are cleared (`ClearsLowBits` ties this to the bit form). */
  function RoundUp(size: int): int {
    var s := size + NODE_SIZE - 1;
    s - s % NODE_SIZE
  }

  /** The smallest class whose nodes hold `size` bytes. */
  function Index(size: int): int {
    (size + NODE_SIZE - 1) / NODE_SIZE - 1
  }

  lemma ClearsLowBits(x: bv64)
    requires x < 0x1_0000_0000
    ensures x & (!(8 - 1) & 0xFFFF_FFFF) == x - x % 8
  {
  }

  /** A class is the least one that fits: index(size) <= k exactly when size <= 8 * (k + 1). */
  lemma SizeClasses(size: int, k: int)
    requires 1 <= size <= 128
    ensures RoundUp(size) == 8 * (Index(size) + 1)
    ensures size <= RoundUp(size) < size + 8
    ensures 0 <= Index(size) < 16
    ensures Index(size) <= k <==> size <= 8 * (k + 1)
  {
  }

  /* ---------- the state ---------- */

  datatype Chunk = Chunk(base: int, len: int)

  datatype Owner =
    | Live(want: int)   // holds an object of `want` bytes
    | Free(list: int)   // is on that free list
    | Carved            // was cut and linked by fill but put on no list

  datatype Pool = Pool(begin: int, end: int, lists: seq<seq<int>>, chunks: seq<Chunk>,
                       size: map<int, int>, owner: map<int, Owner>)

  const EMPTY: Pool := Pool(0, 0, seq(LIST_NUM, _ => []), [], map[], map[])

  ghost function Total(size: map<int, int>): int {
    if exists a :: a in size then
      var a :| a in size; size[a] + Total(size - {a})
    else 0
  }

  function ChunkBytes(cs: seq<Chunk>): int {
    if cs == [] then 0 else ChunkBytes(cs[..|cs| - 1]) + cs[|cs| - 1].len
  }

  /* ---------- the invariant ---------- */

  predicate Aligned(x: int) {
    x % NODE_SIZE == 0
  }

  /** The byte ranges [lo, hi) and [lo', hi') share nothing. */
  predicate Apart(lo: int, hi: int, lo': int, hi': int) {
    hi <= lo' || hi' <= lo
  }

  ghost predicate Inside(cs: seq<Chunk>, lo: int, hi: int) {
    exists c :: 0 <= c < |cs| && cs[c].base <= lo && hi <= cs[c].base + cs[c].len
  }

  /** Chunks are word aligned, not at null, and at least a word (malloc's own header) apart. */
  ghost predicate ChunksOk(cs: seq<Chunk>) {
    && (forall c :: 0 <= c < |cs| ==> 0 < cs[c].base && Aligned(cs[c].base))
    && (forall c, d :: 0 <= c < d < |cs| ==>
          Apart(cs[c].base, cs[c].base + cs[c].len + NODE_SIZE, cs[d].base, cs[d].base + cs[d].len + NODE_SIZE))
  }

  /** The tail is the end of the newest chunk and a whole number of nodes long. */
  ghost predicate TailOk(cs: seq<Chunk>, begin: int, end: int) {
    && begin <= end && Aligned(begin) && Aligned(end)
    && (cs == [] ==> begin == end == 0)
    && (cs != [] ==> end == cs[|cs| - 1].base + cs[|cs| - 1].len && cs[|cs| - 1].base <= begin)
  }

  /** Every block is word sized, word aligned and inside one chunk. */
  ghost predicate AllInside(cs: seq<Chunk>, size: map<int, int>) {
    forall a :: a in size ==> NODE_SIZE <= size[a] && Aligned(a) && Inside(cs, a, a + size[a])
  }

  /** No two blocks share a byte. */
  ghost predicate PairsApart(size: map<int, int>) {
    forall a, b :: a in size && b in size && a != b ==> Apart(a, a + size[a], b, b + size[b])
  }

  /** No block shares a byte with [lo, hi). */
  ghost predicate AllApart(size: map<int, int>, lo: int, hi: int) {
    forall a :: a in size ==> Apart(a, a + size[a], lo, hi)
  }

  predicate NoDup(s: seq<int>) {
    forall i, j :: 0 <= i < j < |s| ==> s[i] != s[j]
  }

  /** List `l` holds, once each, only blocks that are free on `l`. */
  ghost predicate ListsOk(lists: seq<seq<int>>, owner: map<int, Owner>) {
    && |lists| == LIST_NUM
    && (forall l :: 0 <= l < LIST_NUM ==> NoDup(lists[l]))
    && (forall l, a :: 0 <= l < LIST_NUM && a in lists[l] ==> a in owner && owner[a] == Free(l))
  }

  /** A block that is free on list `l` is there, and big enough for every request of class `l`; a live
      block is big enough for its object. */
  ghost predicate OwnersOk(lists: seq<seq<int>>, size: map<int, int>, owner: map<int, Owner>) {
    && |lists| == LIST_NUM
    && (forall a :: a in owner <==> a in size)
    && (forall a :: a in owner && owner[a].Live? ==> owner[a].want <= size[a])
    && (forall a :: a in owner && owner[a].Free? ==>
          && 0 <= owner[a].list < LIST_NUM
          && a in lists[owner[a].list]
          && NODE_SIZE * (owner[a].list + 1) <= size[a])
  }

  /** The blocks and the tail [begin, end) lie apart inside the chunks and use up all of their bytes. */
  ghost predicate Layout(cs: seq<Chunk>, size: map<int, int>, begin: int, end: int) {
    && ChunksOk(cs) && TailOk(cs, begin, end)
    && AllInside(cs, size) && PairsApart(size) && AllApart(size, begin, end)
    && Total(size) + (end - begin) == ChunkBytes(cs)
  }

  /** Owners and free lists agree. */
  ghost predicate Owned(lists: seq<seq<int>>, size: map<int, int>, owner: map<int, Owner>) {
    ListsOk(lists, owner) && OwnersOk(lists, size, owner)
  }

  ghost predicate Inv(p: Pool) {
    Layout(p.chunks, p.size, p.begin, p.end) && Owned(p.lists, p.size, p.owner)
  }

  /* ---------- the operations ---------- */

  /** Where malloc may place a chunk of `len` bytes. */
  ghost predicate Grantable(cs: seq<Chunk>, base: int, len: int) {
    && 0 < base && Aligned(base)
    && (forall c :: 0 <= c < |cs| ==>
          Apart(cs[c].base, cs[c].base + cs[c].len + NODE_SIZE, base, base + len + NODE_SIZE))
  }

  /** Cuts one node of `s` bytes off the tail. */
  function CarveOne(p: Pool, s: int): Pool {
    Pool(p.begin + s, p.end, p.lists, p.chunks, p.size[p.begin := s], p.owner[p.begin := Carved])
  }

  /** The address of node `k` of a run of nodes of `s` bytes. */
  function Node(head: int, s: int, k: int): int {
    head + s * k
  }

  /** Nodes follow each other without a gap. */
  lemma NextNode(head: int, s: int, k: int)
    requires 0 < k && 0 < s
    ensures Node(head, s, k) == Node(head + s, s, k - 1) == Node(head, s, k - 1) + s
    ensures Node(head + s, s, k - 1) >= head + s
  {
  }

  /** Cuts `n` nodes of `s` bytes off the tail. */
  function Carve(p: Pool, s: int, n: nat): Pool
    decreases n
  {
    if n == 0 then p else Carve(CarveOne(p, s), s, n - 1)
  }

  /** Puts what is left of the tail on list `l`. */
  function FileTail(p: Pool, l: int): Pool
    requires 0 <= l < |p.lists|
  {
    Pool(p.end, p.end, p.lists[l := [p.begin] + p.lists[l]], p.chunks,
         p.size[p.begin := p.end - p.begin], p.owner[p.begin := Free(l)])
  }

  function Grow(p: Pool, base: int, len: int): Pool {
    p.(begin := base, end := base + len, chunks := p.chunks + [Chunk(base, len)])
  }

  datatype Grant = Grant(pool: Pool, head: int, num: int)

  /** `allocate`: all `num` nodes from the tail, else as many as fit, else file the tail, ask malloc
      for a new chunk (which arrives at `base`) and start over. */
  function Allocate(p: Pool, s: int, num: nat, base: int): Grant
    requires 0 < s <= MAX_SIZE && p.begin <= p.end && |p.lists| == LIST_NUM
    decreases if p.end - p.begin < s then 1 else 0
  {
    var left := p.end - p.begin;
    if s * num <= left then Grant(Carve(p, s, num), p.begin, num)
    else if s <= left then Grant(Carve(p, s, left / s), p.begin, left / s)
    else
      assert num != 0 && s <= s * num;
      Allocate(Grow(if 0 < left then FileTail(p, Index(left)) else p, base, s * num), s, num, base)
  }

  /** `new_object`: pops the list of the class, or refills with sixteen nodes and takes the first. */
  function New(p: Pool, want: int, base: int): (Pool, int)
    requires 1 <= want <= MAX_SIZE && p.begin <= p.end && |p.lists| == LIST_NUM
  {
    var l := Index(want);
    if p.lists[l] == [] then
      var g := Allocate(p, RoundUp(want), NODE_NUM, base);
      (g.pool.(owner := g.pool.owner[g.head := Live(want)]), g.head)
    else
      var a := p.lists[l][0];
      (p.(lists := p.lists[l := p.lists[l][1..]], owner := p.owner[a := Live(want)]), a)
  }

  /** Pushes a block on list `l`. */
  function Recycle(p: Pool, a: int, l: int): Pool
    requires 0 <= l < |p.lists|
  {
    p.(lists := p.lists[l := [a] + p.lists[l]], owner := p.owner[a := Free(l)])
  }

  /** `delete_object` takes the list from the size of the pointer, whatever the object was. */
  function Delete(p: Pool, a: int): Pool
    requires |p.lists| == LIST_NUM
  {
    Recycle(p, a, Index(POINTER_SIZE))
  }

  /* ---------- byte counts ---------- */

  lemma TotalWithout(m: map<int, int>, k: int)
    requires k in m
    ensures Total(m) == m[k] + Total(m - {k})
    decreases |m|
  {
    var c :| c in m && Total(m) == m[c] + Total(m - {c});
    if c != k {
      TotalWithout(m - {c}, k);
      TotalWithout(m - {k}, c);
      assert m - {c} - {k} == m - {k} - {c};
    }
  }

  lemma TotalAdd(m: map<int, int>, k: int, v: int)
    requires k !in m
    ensures Total(m[k := v]) == Total(m) + v
  {
    TotalWithout(m[k := v], k);
    assert m[k := v] - {k} == m;
  }

  /* ---------- layout: cutting and growing ---------- */

  lemma CutApart(size: map<int, int>, lo: int, s: int, hi: int)
    requires PairsApart(size) && AllApart(size, lo, hi) && lo !in size && 0 <= s && lo + s <= hi
    ensures PairsApart(size[lo := s]) && AllApart(size[lo := s], lo + s, hi)
  {
  }

  lemma CutInside(cs: seq<Chunk>, size: map<int, int>, lo: int, s: int, hi: int)
    requires TailOk(cs, lo, hi) && AllInside(cs, size) && NODE_SIZE <= s && lo + s <= hi
    ensures AllInside(cs, size[lo := s])
  {
  }

  lemma TailIsNoBlock(cs: seq<Chunk>, size: map<int, int>, lo: int, hi: int)
    requires AllInside(cs, size) && AllApart(size, lo, hi) && lo < hi
    ensures lo !in size
  {
  }

  lemma GrowChunks(cs: seq<Chunk>, base: int, len: int)
    requires ChunksOk(cs) && Grantable(cs, base, len) && 0 <= len && Aligned(len)
    ensures ChunksOk(cs + [Chunk(base, len)])
    ensures TailOk(cs + [Chunk(base, len)], base, base + len)
    ensures ChunkBytes(cs + [Chunk(base, len)]) == ChunkBytes(cs) + len
  {
  }

  lemma GrowBlocks(cs: seq<Chunk>, size: map<int, int>, base: int, len: int)
    requires AllInside(cs, size) && Grantable(cs, base, len) && 0 <= len
    ensures AllInside(cs + [Chunk(base, len)], size) && AllApart(size, base, base + len)
  {
    forall a | a in size
      ensures Inside(cs + [Chunk(base, len)], a, a + size[a]) && Apart(a, a + size[a], base, base + len)
    {
      var c :| 0 <= c < |cs| && cs[c].base <= a && a + size[a] <= cs[c].base + cs[c].len;
      assert (cs + [Chunk(base, len)])[c] == cs[c];
    }
  }

  lemma GrowLayout(cs: seq<Chunk>, size: map<int, int>, at: int, base: int, len: int)
    requires Layout(cs, size, at, at) && Grantable(cs, base, len) && 0 <= len && Aligned(len)
    ensures Layout(cs + [Chunk(base, len)], size, base, base + len)
  {
    GrowChunks(cs, base, len);
    GrowBlocks(cs, size, base, len);
  }

  lemma AlignedSum(a: int, b: int)
    requires Aligned(a)
    ensures Aligned(a + b) == Aligned(b) && Aligned(b - a) == Aligned(b)
  {
  }

  /** Making a block of the first `s` bytes of the tail keeps the layout. */
  lemma CutLayout(cs: seq<Chunk>, size: map<int, int>, lo: int, s: int, hi: int)
    requires Layout(cs, size, lo, hi) && 0 < s && Aligned(s) && lo + s <= hi
    ensures lo !in size
    ensures Layout(cs, size[lo := s], lo + s, hi)
  {
    assert NODE_SIZE <= s;
    hide Aligned;
    AlignedSum(lo, s);
    TailIsNoBlock(cs, size, lo, hi);
    CutApart(size, lo, s, hi);
    CutInside(cs, size, lo, s, hi);
    TotalAdd(size, lo, s);
  }

  /* ---------- free lists and owners ---------- */

  lemma PushOwned(lists: seq<seq<int>>, size: map<int, int>, owner: map<int, Owner>, a: int, n: int, l: int)
    requires Owned(lists, size, owner) && 0 <= l < LIST_NUM && NODE_SIZE * (l + 1) <= n
    requires a in size ==> size[a] == n && a in owner && owner[a].Live?
    ensures Owned(lists[l := [a] + lists[l]], size[a := n], owner[a := Free(l)])
  {
  }

  lemma PopLists(lists: seq<seq<int>>, owner: map<int, Owner>, l: int, want: int)
    requires ListsOk(lists, owner) && 0 <= l < LIST_NUM && lists[l] != []
    ensures ListsOk(lists[l := lists[l][1..]], owner[lists[l][0] := Live(want)])
  {
    var a, lists' := lists[l][0], lists[l := lists[l][1..]];
    assert a in lists[l];
    forall k, b | 0 <= k < LIST_NUM && b in lists'[k]
      ensures b in lists[k] && b != a
    {
      if k == l {
        var i :| 0 <= i < |lists'[l]| && lists'[l][i] == b;
        assert lists[l][0] != lists[l][i + 1];
      } else {
        assert owner[b] == Free(k) && owner[a] == Free(l);
      }
    }
  }

  lemma PopOwned(lists: seq<seq<int>>, size: map<int, int>, owner: map<int, Owner>, l: int, want: int)
    requires Owned(lists, size, owner)
    requires 0 <= l < LIST_NUM && lists[l] != [] && want <= NODE_SIZE * (l + 1)
    ensures Owned(lists[l := lists[l][1..]], size, owner[lists[l][0] := Live(want)])
  {
    PopLists(lists, owner, l, want);
    var a := lists[l][0];
    assert a in lists[l];
    forall b | b in owner && b != a && owner[b] == Free(l) ensures b in lists[l][1..] {
      assert b in lists[l];
    }
  }

  lemma CarvedOwned(lists: seq<seq<int>>, size: map<int, int>, owner: map<int, Owner>, a: int, n: int)
    requires Owned(lists, size, owner) && a !in owner
    ensures Owned(lists, size[a := n], owner[a := Carved])
  {
  }

  /* ---------- every step keeps the invariant ---------- */

  /** A pool put together from a good layout and good owners is good. */
  lemma Assemble(q: Pool, cs: seq<Chunk>, size: map<int, int>, begin: int, end: int,
                 lists: seq<seq<int>>, owner: map<int, Owner>)
    requires q == Pool(begin, end, lists, cs, size, owner)
    requires Layout(cs, size, begin, end) && Owned(lists, size, owner)
    ensures Inv(q)
  {
  }

  lemma TailSize(p: Pool)
    requires Inv(p)
    ensures p.begin <= p.end && |p.lists| == LIST_NUM && Aligned(p.end - p.begin)
    ensures p.begin < p.end ==> p.chunks != []
  {
  }

  lemma FileTailKeeps(p: Pool, l: int)
    requires Inv(p) && 0 <= l < LIST_NUM && NODE_SIZE * (l + 1) <= p.end - p.begin
    ensures Inv(FileTail(p, l))
  {
    hide Layout, Owned, Aligned;
    var n := p.end - p.begin;
    TailSize(p);
    CutLayout(p.chunks, p.size, p.begin, n, p.end);
    PushOwned(p.lists, p.size, p.owner, p.begin, n, l);
    Assemble(FileTail(p, l), p.chunks, p.size[p.begin := n], p.end, p.end,
             p.lists[l := [p.begin] + p.lists[l]], p.owner[p.begin := Free(l)]);
  }

  lemma GrowKeeps(p: Pool, base: int, len: int)
    requires Inv(p) && p.begin == p.end && Grantable(p.chunks, base, len) && 0 <= len && Aligned(len)
    ensures Inv(Grow(p, base, len))
  {
    hide Layout, Owned, Grantable, Aligned;
    GrowLayout(p.chunks, p.size, p.begin, base, len);
    Assemble(Grow(p, base, len), p.chunks + [Chunk(base, len)], p.size, base, base + len, p.lists, p.owner);
  }

  /** Freeing a block on any list at or below its own class keeps the invariant. */
  lemma RecycleKeeps(p: Pool, a: int, l: int)
    requires Inv(p) && a in p.owner && p.owner[a].Live? && 0 <= l < LIST_NUM && NODE_SIZE * (l + 1) <= p.size[a]
    ensures Inv(Recycle(p, a, l))
  {
    PushOwned(p.lists, p.size, p.owner, a, p.size[a], l);
    assert p.size[a := p.size[a]] == p.size;
    Assemble(Recycle(p, a, l), p.chunks, p.size, p.begin, p.end,
             p.lists[l := [a] + p.lists[l]], p.owner[a := Free(l)]);
  }

  lemma LiveFits(p: Pool, a: int)
    requires Inv(p) && a in p.owner && p.owner[a].Live?
    ensures a in p.size && NODE_SIZE <= p.size[a] && p.owner[a].want <= p.size[a]
  {
  }

  /** Whatever the size of the object, `delete_object`'s list is at or below its class. */
  lemma DeleteKeeps(p: Pool, a: int)
    requires Inv(p) && a in p.owner && p.owner[a].Live?
    ensures Inv(Delete(p, a)) && Delete(p, a) == Recycle(p, a, 0)
  {
    LiveFits(p, a);
    hide Layout, Owned;
    RecycleKeeps(p, a, 0);
  }

  lemma PopKeeps(p: Pool, l: int, want: int)
    requires Inv(p) && 0 <= l < LIST_NUM && p.lists[l] != [] && want <= NODE_SIZE * (l + 1)
    ensures Inv(p.(lists := p.lists[l := p.lists[l][1..]], owner := p.owner[p.lists[l][0] := Live(want)]))
  {
    var q := p.(lists := p.lists[l := p.lists[l][1..]], owner := p.owner[p.lists[l][0] := Live(want)]);
    PopOwned(p.lists, p.size, p.owner, l, want);
    Assemble(q, p.chunks, p.size, p.begin, p.end, q.lists, q.owner);
  }

  lemma CarveOneKeeps(p: Pool, s: int)
    requires Inv(p) && 0 < s && Aligned(s) && p.begin + s <= p.end
    ensures Inv(CarveOne(p, s)) && p.begin !in p.size
  {
    hide Layout, Aligned;
    CutLayout(p.chunks, p.size, p.begin, s, p.end);
    CarvedOwned(p.lists, p.size, p.owner, p.begin, s);
    Assemble(CarveOne(p, s), p.chunks, p.size[p.begin := s], p.begin + s, p.end,
             p.lists, p.owner[p.begin := Carved]);
  }

  /** Block `a` has `n` bytes and owner `o`. */
  ghost predicate Has(p: Pool, a: int, n: int, o: Owner) {
    a in p.size && a in p.owner && p.size[a] == n && p.owner[a] == o
  }

  /** Carving `n` nodes cuts `n * s` bytes off the tail, moves nothing else and keeps the invariant. */
  lemma {:induction false} CarveKeeps(p: Pool, s: int, n: nat)
    requires Inv(p) && 0 < s && Aligned(s) && Node(p.begin, s, n) <= p.end
    ensures Inv(Carve(p, s, n))
    ensures Carve(p, s, n).begin == Node(p.begin, s, n) && Carve(p, s, n).end == p.end
    ensures Carve(p, s, n).lists == p.lists && Carve(p, s, n).chunks == p.chunks
    decreases n
  {
    hide Layout, Owned;
    if n != 0 {
      NextNode(p.begin, s, n);
      CarveOneKeeps(p, s);
      CarveKeeps(CarveOne(p, s), s, n - 1);
    }
  }

  /** Carving leaves the blocks that are already there alone. */
  lemma {:induction false} CarveLeaves(p: Pool, s: int, n: nat, a: int, m: int, o: Owner)
    requires Inv(p) && 0 < s && Aligned(s) && Node(p.begin, s, n) <= p.end && Has(p, a, m, o)
    ensures Has(Carve(p, s, n), a, m, o)
    decreases n
  {
    hide Layout, Owned;
    if n != 0 {
      NextNode(p.begin, s, n);
      CarveOneKeeps(p, s);
      CarveLeaves(CarveOne(p, s), s, n - 1, a, m, o);
    }
  }

  /** Node `k` of the run is a new carved block of `s` bytes. */
  lemma {:induction false} CarvedNode(p: Pool, s: int, n: nat, k: nat)
    requires Inv(p) && 0 < s && Aligned(s) && Node(p.begin, s, n) <= p.end && k < n
    ensures Has(Carve(p, s, n), Node(p.begin, s, k), s, Carved)
    ensures Node(p.begin, s, k) !in p.size
    decreases n
  {
    hide Layout, Owned;
    NextNode(p.begin, s, n);
    CarveOneKeeps(p, s);
    if k == 0 {
      CarveLeaves(CarveOne(p, s), s, n - 1, p.begin, s, Carved);
    } else {
      NextNode(p.begin, s, k);
      CarvedNode(CarveOne(p, s), s, n - 1, k - 1);
    }
  }

  /* ---------- allocate ---------- */

  /** Blocks of `p` are untouched in `q`. */
  ghost predicate Leaves(p: Pool, q: Pool) {
    forall a, m, o :: Has(p, a, m, o) ==> Has(q, a, m, o)
  }

  /** What `allocate` promises: between 1 and `num` fresh nodes in a row, everything else untouched. */
  ghost predicate Granted(p: Pool, s: int, num: int, g: Grant) {
    && Inv(g.pool) && Leaves(p, g.pool)
    && 1 <= g.num <= num
    && g.pool.begin == Node(g.head, s, g.num)
    && (forall k :: 0 <= k < g.num ==>
          Node(g.head, s, k) !in p.size && Has(g.pool, Node(g.head, s, k), s, Carved))
  }

  lemma CarveGrants(p: Pool, s: int, n: nat, num: int)
    requires Inv(p) && 0 < s && Aligned(s) && Node(p.begin, s, n) <= p.end && 1 <= n <= num
    ensures Granted(p, s, num, Grant(Carve(p, s, n), p.begin, n))
  {
    hide Layout, Owned;
    CarveKeeps(p, s, n);
    forall a, m, o | Has(p, a, m, o) ensures Has(Carve(p, s, n), a, m, o) {
      CarveLeaves(p, s, n, a, m, o);
    }
    forall k | 0 <= k < n
      ensures Node(p.begin, s, k) !in p.size && Has(Carve(p, s, n), Node(p.begin, s, k), s, Carved)
    {
      CarvedNode(p, s, n, k);
    }
  }

  /** The pool `allocate` starts over with: the left-over tail filed and a new chunk in its place. */
  function Refilled(p: Pool, base: int, len: int): Pool
    requires p.begin < p.end ==> 0 <= Index(p.end - p.begin) < |p.lists|
  {
    Grow(if p.begin < p.end then FileTail(p, Index(p.end - p.begin)) else p, base, len)
  }

  /** A left-over tail has exactly the size of the nodes of the list it is filed on, and that list is
      below the one being served. */
  lemma LeftOverClass(p: Pool, s: int)
    requires Inv(p) && s <= MAX_SIZE && Aligned(s) && p.begin < p.end && p.end - p.begin < s
    ensures 0 <= Index(p.end - p.begin) < Index(s) < LIST_NUM
    ensures p.end - p.begin == NODE_SIZE * (Index(p.end - p.begin) + 1)
  {
    AlignedSum(p.begin, p.end);
  }

  lemma FileTailLeaves(p: Pool, l: int)
    requires Inv(p) && 0 <= l < LIST_NUM && NODE_SIZE * (l + 1) <= p.end - p.begin
    ensures Leaves(p, FileTail(p, l))
  {
  }

  lemma RefillKeeps(p: Pool, s: int, base: int, len: int)
    requires Inv(p) && s <= MAX_SIZE && Aligned(s) && p.end - p.begin < s
    requires Grantable(p.chunks, base, len) && 0 <= len && Aligned(len)
    ensures p.begin < p.end ==> 0 <= Index(p.end - p.begin) < LIST_NUM
    ensures |p.lists| == LIST_NUM
    ensures Inv(Refilled(p, base, len)) && Leaves(p, Refilled(p, base, len))
  {
    hide Layout, Owned, Index;
    TailSize(p);
    if p.begin < p.end {
      var l := Index(p.end - p.begin);
      LeftOverClass(p, s);
      FileTailLeaves(p, l);
      FileTailKeeps(p, l);
      GrowKeeps(FileTail(p, l), base, len);
    } else {
      GrowKeeps(p, base, len);
    }
  }

  /** When not all `num` nodes fit but one does, between 1 and `num` do. */
  lemma SomeFit(s: int, num: int, left: int)
    requires 0 < s <= left < s * num
    ensures 1 <= left / s <= num && s * (left / s) <= left
  {
  }

  lemma MulLe(s: int, a: int, b: int)
    requires 0 < s
    ensures a <= b ==> s * a <= s * b
  {
  }

  lemma WholeNodes(s: int, num: int)
    requires 0 < s && 0 < num && Aligned(s)
    ensures s <= s * num && Aligned(s * num)
  {
    var w := s / NODE_SIZE;
    assert s * num == NODE_SIZE * (w * num);
    assert s * (num - 1) >= 0;
  }

  lemma {:induction false} AllocateKeeps(p: Pool, s: int, num: nat, base: int)
    requires Inv(p) && 0 < s <= MAX_SIZE && Aligned(s) && 0 < num
    requires p.end - p.begin < s ==> Grantable(p.chunks, base, s * num)
    ensures p.begin <= p.end && |p.lists| == LIST_NUM
    ensures Granted(p, s, num, Allocate(p, s, num, base))
  {
    hide Layout, Owned, Index;
    TailSize(p);
    var left := p.end - p.begin;
    if s * num <= left {
      CarveGrants(p, s, num, num);
    } else if s <= left {
      SomeFit(s, num, left);
      CarveGrants(p, s, left / s, num);
    } else {
      WholeNodes(s, num);
      RefillKeeps(p, s, base, s * num);
      CarveGrants(Refilled(p, base, s * num), s, num, num);
    }
  }

  /** `allocate` asks malloc at most once, for exactly `num` nodes, and only when not one node fits. */
  lemma AllocateChunks(p: Pool, s: int, num: nat, base: int)
    requires Inv(p) && 0 < s <= MAX_SIZE && Aligned(s) && 0 < num
    requires p.end - p.begin < s ==> Grantable(p.chunks, base, s * num)
    requires p.begin <= p.end && |p.lists| == LIST_NUM
    ensures Allocate(p, s, num, base).pool.chunks
            == if p.end - p.begin < s then p.chunks + [Chunk(base, s * num)] else p.chunks
    ensures Allocate(p, s, num, base).num == (
              var left := p.end - p.begin;
              if s <= left < s * num then left / s else num)
  {
    hide Layout, Owned, Index;
    WholeNodes(s, num);
    TailSize(p);
    var left := p.end - p.begin;
    if s * num <= left {
      CarveKeeps(p, s, num);
    } else if s <= left {
      SomeFit(s, num, left);
      CarveKeeps(p, s, left / s);
    } else {
      RefillKeeps(p, s, base, s * num);
      CarveKeeps(Refilled(p, base, s * num), s, num);
    }
  }

  lemma AllocateBuys(p: Pool, s: int, num: nat, base: int)
    requires Inv(p) && 0 < s <= MAX_SIZE && Aligned(s) && 0 < num
    requires p.end - p.begin < s && Grantable(p.chunks, base, s * num)
    ensures p.begin <= p.end && |p.lists| == LIST_NUM
    ensures p.begin < p.end ==> 0 <= Index(p.end - p.begin) < |p.lists|
    ensures var r := Refilled(p, base, s * num);
            && Allocate(p, s, num, base) == Grant(Carve(r, s, num), base, num)
            && Inv(r) && r.begin == base && r.end == Node(base, s, num)
  {
    hide Layout, Owned, Index;
    WholeNodes(s, num);
    TailSize(p);
    RefillKeeps(p, s, base, s * num);
    hide Inv, Carve, Aligned;
  }

  /** A tail too short for one node goes, whole, to the front of the list whose nodes have its size, and
      `allocate` touches no list otherwise. */
  lemma AllocateFiles(p: Pool, s: int, num: nat, base: int)
    requires Inv(p) && 0 < s <= MAX_SIZE && Aligned(s) && 0 < num
    requires p.end - p.begin < s ==> Grantable(p.chunks, base, s * num)
    requires p.begin <= p.end && |p.lists| == LIST_NUM
    ensures var q, left := Allocate(p, s, num, base).pool, p.end - p.begin;
            if 0 < left < s then
              var l := left / 8 - 1;
              && 0 <= l < |p.lists| && q.lists == p.lists[l := [p.begin] + p.lists[l]]
              && Has(q, p.begin, left, Free(l))
            else q.lists == p.lists
  {
    hide Layout, Owned, Index;
    WholeNodes(s, num);
    TailSize(p);
    var left := p.end - p.begin;
    if s <= left {
      hide FileTail, Grow;
      if s * num <= left {
        CarveKeeps(p, s, num);
      } else {
        SomeFit(s, num, left);
        CarveKeeps(p, s, left / s);
      }
    } else {
      AllocateBuys(p, s, num, base);
      hide Allocate, Inv;
      var r := Refilled(p, base, s * num);
      CarveKeeps(r, s, num);
      if 0 < left {
        LeftOverClass(p, s);
        CarveLeaves(r, s, num, p.begin, left, Free(Index(left)));
      }
    }
  }

  /* ---------- new and delete ---------- */

  /** `new_object` needs malloc only when the list of the class is empty and not one node fits the tail. */
  ghost predicate GrantableIfNeeded(p: Pool, want: int, base: int)
    requires 1 <= want <= MAX_SIZE && |p.lists| == LIST_NUM
  {
    p.lists[Index(want)] == [] && p.end - p.begin < RoundUp(want)
    ==> Grantable(p.chunks, base, RoundUp(want) * NODE_NUM)
  }

  lemma NewKeeps(p: Pool, want: int, base: int)
    requires Inv(p) && 1 <= want <= MAX_SIZE && |p.lists| == LIST_NUM && GrantableIfNeeded(p, want, base)
    ensures p.begin <= p.end
    ensures Inv(New(p, want, base).0)
    ensures var (q, a) := New(p, want, base);
            && a in q.size && want <= q.size[a] && a in q.owner && q.owner[a] == Live(want)
            && (a in p.owner ==> p.owner[a] == Free(Index(want)))
            && (forall b, m, o :: b != a && Has(p, b, m, o) ==> Has(q, b, m, o))
  {
    hide Layout, Owned;
    TailSize(p);
    SizeClasses(want, Index(want));
    var l, s := Index(want), RoundUp(want);
    if p.lists[l] == [] {
      AllocateKeeps(p, s, NODE_NUM, base);
      var g := Allocate(p, s, NODE_NUM, base);
      assert Node(g.head, s, 0) == g.head;
      assert Has(g.pool, g.head, s, Carved);
      TakeKeeps(g.pool, g.head, want);
      NoOwner(p, g.head);
    } else {
      PopKeeps(p, l, want);
      ListedBlock(p, l, 0);
    }
  }

  /** A block that is free on the list of the class is always used before the tail or malloc. */
  lemma NewPops(p: Pool, want: int, base: int)
    requires Inv(p) && 1 <= want <= MAX_SIZE && p.begin <= p.end && |p.lists| == LIST_NUM
    ensures var l, (q, a) := (want + 7) / 8 - 1, New(p, want, base);
            && 0 <= l < |p.lists|
            && (p.lists[l] != [] ==>
                  && [a] + q.lists[l] == p.lists[l] && q.lists == p.lists[l := q.lists[l]]
                  && q.chunks == p.chunks && q.size == p.size && q.begin == p.begin && q.end == p.end)
  {
    hide Allocate;
    SizeClasses(want, Index(want));
  }

  /** A refill in a state without a tail buys a chunk of sixteen nodes, uses it up at once and hands out the
      first. */
  lemma RefillBuys(p: Pool, want: int, base: int)
    requires Inv(p) && 1 <= want <= MAX_SIZE && |p.lists| == LIST_NUM && GrantableIfNeeded(p, want, base)
    requires p.begin == p.end && p.lists[Index(want)] == []
    ensures var (q, a), n := New(p, want, base), 16 * RoundUp(want);
            && a == base && q.begin == q.end == base + n
            && q.chunks == p.chunks + [Chunk(base, n)] && q.lists == p.lists
            && Allocate(p, RoundUp(want), NODE_NUM, base).num == 16
  {
    SizeClasses(want, Index(want));
    hide Inv, Allocate, Index, RoundUp, Grantable;
    BuysWhole(p, RoundUp(want), base);
  }

  lemma BuysWhole(p: Pool, s: int, base: int)
    requires Inv(p) && 0 < s <= MAX_SIZE && Aligned(s) && p.begin == p.end
    requires Grantable(p.chunks, base, s * 16)
    ensures |p.lists| == LIST_NUM
    ensures var g := Allocate(p, s, 16, base);
            && g.head == base && g.num == 16 && g.pool.begin == g.pool.end == base + 16 * s
            && g.pool.chunks == p.chunks + [Chunk(base, 16 * s)] && g.pool.lists == p.lists
  {
    hide Layout, Owned, Index, Aligned;
    AllocateBuys(p, s, 16, base);
    CarveKeeps(Refilled(p, base, s * 16), s, 16);
    hide Allocate, Inv, Carve;
  }

  /** Right after a delete, an object that fits a pointer gets the freed block. */
  lemma ReusedFirst(p: Pool, a: int, want: int, base: int)
    requires |p.lists| == LIST_NUM && p.begin <= p.end && 1 <= want <= 8
    ensures var (q, b) := New(Delete(p, a), want, base);
            && b == a && q.lists == p.lists && q.chunks == p.chunks && q.begin == p.begin && q.end == p.end
  {
    hide Allocate;
  }

  lemma OwnerHas(p: Pool, a: int)
    requires Inv(p) && a in p.owner
    ensures a in p.size
  {
  }

  lemma NoOwner(p: Pool, a: int)
    requires Inv(p) && a !in p.size
    ensures a !in p.owner
  {
  }

  lemma ListedBlock(p: Pool, l: int, k: int)
    requires Inv(p) && 0 <= l < LIST_NUM && |p.lists| == LIST_NUM && 0 <= k < |p.lists[l]|
    ensures Has(p, p.lists[l][k], p.size[p.lists[l][k]], Free(l)) && NODE_SIZE * (l + 1) <= p.size[p.lists[l][k]]
  {
  }

  lemma TakeKeeps(p: Pool, a: int, want: int)
    requires Inv(p) && a in p.size && Has(p, a, p.size[a], Carved) && want <= p.size[a]
    ensures Inv(p.(owner := p.owner[a := Live(want)]))
  {
  }

  /* ---------- whole runs ---------- */

  datatype Op =
    | NewObject(want: int, base: int)     // malloc would place a new chunk at `base`
    | DeleteObject(addr: int, list: int)  // the code passes list 0

  ghost predicate Legal(p: Pool, op: Op) {
    && p.begin <= p.end && |p.lists| == LIST_NUM
    && match op {
         case NewObject(want, base) =>
           1 <= want <= MAX_SIZE && GrantableIfNeeded(p, want, base)
         case DeleteObject(addr, list) =>
           && addr in p.owner && p.owner[addr].Live? && addr in p.size
           && 0 <= list < LIST_NUM && NODE_SIZE * (list + 1) <= p.size[addr]
       }
  }

  ghost function Step(p: Pool, op: Op): Pool
    requires Legal(p, op)
  {
    match op
    case NewObject(want, base) => New(p, want, base).0
    case DeleteObject(addr, list) => Recycle(p, addr, list)
  }

  ghost predicate LegalRun(p: Pool, ops: seq<Op>)
    decreases |ops|
  {
    ops == [] || (Legal(p, ops[0]) && LegalRun(Step(p, ops[0]), ops[1..]))
  }

  ghost function Run(p: Pool, ops: seq<Op>): Pool
    requires LegalRun(p, ops)
    decreases |ops|
  {
    if ops == [] then p else Run(Step(p, ops[0]), ops[1..])
  }

  /** Over every run of new and delete the invariant holds. */
  lemma {:induction false} RunKeeps(p: Pool, ops: seq<Op>)
    requires Inv(p) && LegalRun(p, ops)
    ensures Inv(Run(p, ops))
    decreases |ops|
  {
    hide Layout, Owned;
    if ops != [] {
      match ops[0] {
        case NewObject(want, base) => NewKeeps(p, want, base);
        case DeleteObject(addr, list) => RecycleKeeps(p, addr, list);
      }
      RunKeeps(Step(p, ops[0]), ops[1..]);
    }
  }

  /** The nodes of a refill that were put on no list stay there over every run: they are never handed
      out. */
  lemma {:induction false} CarvedStays(p: Pool, ops: seq<Op>, a: int)
    requires Inv(p) && LegalRun(p, ops) && a in p.owner && p.owner[a] == Carved
    ensures a in Run(p, ops).owner && Run(p, ops).owner[a] == Carved
    decreases |ops|
  {
    hide Layout, Owned, New, GrantableIfNeeded;
    if ops != [] {
      match ops[0] {
        case NewObject(want, base) =>
          NewKeeps(p, want, base);
          OwnerHas(p, a);
          assert Has(p, a, p.size[a], Carved);
        case DeleteObject(addr, list) => RecycleKeeps(p, addr, list);
      }
      CarvedStays(Step(p, ops[0]), ops[1..], a);
    }
  }

  /** Without a tail at the start there is none after any run, so no refill ever finds part of its nodes in
      the tail or a tail to file. */
  lemma {:induction false} NeverLeftOver(p: Pool, ops: seq<Op>)
    requires Inv(p) && p.begin == p.end && LegalRun(p, ops)
    ensures Run(p, ops).begin == Run(p, ops).end
    decreases |ops|
  {
    hide Layout, Owned, New;
    if ops != [] {
      match ops[0] {
        case NewObject(want, base) =>
          NewKeeps(p, want, base);
          NewPops(p, want, base);
          if p.lists[Index(want)] == [] { RefillBuys(p, want, base); }
        case DeleteObject(addr, list) => RecycleKeeps(p, addr, list);
      }
      NeverLeftOver(Step(p, ops[0]), ops[1..]);
    }
  }

  lemma EmptyPool()
    ensures Inv(EMPTY)
  {
  }

  /* ---------- conservation ---------- */

  ghost function LiveBlocks(p: Pool): map<int, int> {
    map a | a in p.size && a in p.owner && p.owner[a].Live? :: p.size[a]
  }

  ghost function FreeBlocks(p: Pool): map<int, int> {
    map a | a in p.size && a in p.owner && p.owner[a].Free? :: p.size[a]
  }

  ghost function CarvedBlocks(p: Pool): map<int, int> {
    map a | a in p.size && a in p.owner && p.owner[a].Carved? :: p.size[a]
  }

  lemma UnionWithout(m: map<int, int>, n: map<int, int>, k: int)
    requires m.Keys !! n.Keys && k in m
    ensures (m + n) - {k} == (m - {k}) + n && (m + n)[k] == m[k] && (m - {k}).Keys !! n.Keys
  {
  }

  lemma {:induction false} TotalUnion(m: map<int, int>, n: map<int, int>)
    requires m.Keys !! n.Keys
    ensures Total(m + n) == Total(m) + Total(n)
    decreases |m|
  {
    if exists k :: k in m {
      var k :| k in m;
      TotalWithout(m, k);
      TotalWithout(m + n, k);
      UnionWithout(m, n, k);
      TotalUnion(m - {k}, n);
    } else {
      assert m + n == n;
    }
  }

  /** Live, free and carved blocks and the tail share no byte, lie inside the chunks, and their bytes
      add up to exactly the bytes obtained from malloc. */
  ghost predicate Conserved(p: Pool) {
    && AllInside(p.chunks, p.size) && PairsApart(p.size) && AllApart(p.size, p.begin, p.end)
    && (forall a :: a in p.size <==> a in p.owner)
    && Total(LiveBlocks(p)) + Total(FreeBlocks(p)) + Total(CarvedBlocks(p)) + (p.end - p.begin)
       == ChunkBytes(p.chunks)
    && Aligned(p.end - p.begin)
  }

  lemma InvConserves(p: Pool)
    requires Inv(p)
    ensures Conserved(p)
  {
    TailSize(p);
    ThreeWays(p.size, p.owner, p);
  }

  lemma ThreeWays(size: map<int, int>, owner: map<int, Owner>, p: Pool)
    requires size == p.size && owner == p.owner && forall a :: a in size <==> a in owner
    ensures Total(size) == Total(LiveBlocks(p)) + Total(FreeBlocks(p)) + Total(CarvedBlocks(p))
  {
    var live, free, carved := LiveBlocks(p), FreeBlocks(p), CarvedBlocks(p);
    TotalUnion(live, free);
    TotalUnion(live + free, carved);
    assert live + free + carved == size by {
      forall a | a in size
        ensures a in live + free + carved && (live + free + carved)[a] == size[a]
      {
      }
    }
  }

  /** After every run of new and delete from the empty pool. */
  lemma Conservation(ops: seq<Op>)
    requires LegalRun(EMPTY, ops)
    ensures Conserved(Run(EMPTY, ops)) && Inv(Run(EMPTY, ops))
  {
    hide Conserved, Inv;
    EmptyPool();
    RunKeeps(EMPTY, ops);
    InvConserves(Run(EMPTY, ops));
  }

  /* ---------- the terminator of fill ---------- */

  /** `fill` links the nodes it cut, unless it got only one, and then writes a null at the address after
      the last one, which is the new start of the tail. That word lies outside the chunks exactly when the
      chunk was just bought, or when two to sixteen nodes were all that was left. */
  lemma TerminatorOutside(p: Pool, s: int, base: int)
    requires Inv(p) && 0 < s <= MAX_SIZE && Aligned(s)
    requires p.end - p.begin < s ==> Grantable(p.chunks, base, s * NODE_NUM)
    requires p.begin <= p.end && |p.lists| == LIST_NUM
    ensures var g := Allocate(p, s, NODE_NUM, base); var left := p.end - p.begin;
            && g.pool.begin == Node(g.head, s, g.num)
            && (g.num > 1 && !Inside(g.pool.chunks, g.pool.begin, g.pool.begin + NODE_SIZE)
                <==> left < s || (2 * s <= left <= s * NODE_NUM && left % s == 0))
  {
    hide Layout, Owned, Index;
    AllocateKeeps(p, s, NODE_NUM, base);
    AllocateChunks(p, s, NODE_NUM, base);
    TailUsedUp(p, s, base);
    EndOfTail(Allocate(p, s, NODE_NUM, base).pool);
    WholeMany(s, p.end - p.begin);
    hide Allocate, Inv;
  }

  lemma WholeMany(s: int, left: int)
    requires 0 < s
    ensures s <= left ==> (left / s > 1 <==> 2 * s <= left)
    ensures left == s * NODE_NUM ==> left % s == 0
  {
  }

  lemma EndOfTail(q: Pool)
    requires Inv(q) && q.chunks != []
    ensures Inside(q.chunks, q.begin, q.begin + NODE_SIZE) <==> q.begin < q.end
  {
  }

  lemma TailUsedUp(p: Pool, s: int, base: int)
    requires Inv(p) && 0 < s <= MAX_SIZE && Aligned(s)
    requires p.end - p.begin < s ==> Grantable(p.chunks, base, s * NODE_NUM)
    requires p.begin <= p.end && |p.lists| == LIST_NUM
    ensures var q := Allocate(p, s, NODE_NUM, base).pool; var left := p.end - p.begin;
            q.chunks != [] &&
            (q.begin < q.end <==> s <= left && (if s * NODE_NUM <= left then s * NODE_NUM < left else left % s != 0))
  {
    hide Layout, Owned, Index;
    WholeNodes(s, NODE_NUM);
    TailSize(p);
    var left := p.end - p.begin;
    if s * NODE_NUM <= left {
      CarveKeeps(p, s, NODE_NUM);
    } else if s <= left {
      SomeFit(s, NODE_NUM, left);
      CarveKeeps(p, s, left / s);
      LeftOver(s, left);
    } else {
      RefillKeeps(p, s, base, s * NODE_NUM);
      CarveKeeps(Refilled(p, base, s * NODE_NUM), s, NODE_NUM);
    }
  }

  lemma LeftOver(s: int, left: int)
    requires 0 < s
    ensures s * (left / s) < left <==> left % s != 0
  {
  }

  /** After every run from the empty pool, a refill buys its chunk, and so the terminator falls outside, for
      every size and wherever the chunk is. */
  lemma EveryFillEndsOutside(ops: seq<Op>, want: int, base: int)
    requires LegalRun(EMPTY, ops) && 1 <= want <= MAX_SIZE
    requires var p := Run(EMPTY, ops);
             && |p.lists| == LIST_NUM && p.lists[Index(want)] == []
             && Grantable(p.chunks, base, RoundUp(want) * NODE_NUM)
    ensures Run(EMPTY, ops).begin <= Run(EMPTY, ops).end
    ensures var g := Allocate(Run(EMPTY, ops), RoundUp(want), NODE_NUM, base);
            && g.num == 16 && g.pool.chunks == Run(EMPTY, ops).chunks + [Chunk(base, 16 * RoundUp(want))]
            && !Inside(g.pool.chunks, g.pool.begin, g.pool.begin + NODE_SIZE)
  {
    hide Layout, Owned, Index;
    var p := Run(EMPTY, ops);
    EmptyPool();
    RunKeeps(EMPTY, ops);
    NeverLeftOver(EMPTY, ops);
    SizeClasses(want, Index(want));
    RefillBuys(p, want, base);
    TerminatorOutside(p, RoundUp(want), base);
  }
}
