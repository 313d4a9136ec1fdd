/** The arena allocator (`core/core1.h:538-552, 597-666`), for sequences of allocations and
    reallocations without save, restore or reset.  Pages from the system are fresh memory, never
    adjacent to an earlier chunk: a chunk is a byte array of its own. */
module Arena {
  import opened Wrappers
  import opened Bytes

  const CHUNK_SIZE := 4096
  const HEADER := 24
  const WORD := 8

  /** A region handed out: its chunk, its first word and its size in bytes. */
  datatype Region = Region(chunk: nat, start: nat, size: nat)

  function Words(size: nat): nat
    requires size > 0
  {
    (size - 1) / WORD + 1
  }

  function End(r: Region): nat
    requires r.size > 0
  {
    r.start + Words(r.size)
  }

  /** The words of a chunk that can hold `size` bytes. */
  function ChunkWords(size: nat): nat {
    ((size + HEADER + CHUNK_SIZE - 1) / CHUNK_SIZE * CHUNK_SIZE - HEADER) / WORD
  }

  /** A chunk is the least number of pages that holds its header and `size` bytes. */
  lemma ChunkIsPages(size: nat)
    ensures var bytes := 8 * ChunkWords(size) + 24; bytes % 4096 == 0 && size + 24 <= bytes < size + 24 + 4096
  {
  }

  /** The last chunk has words left for `size` bytes. */
  predicate HasRoom(chunks: seq<Chunk>, size: nat)
    requires size > 0
  {
    chunks != [] && chunks[|chunks| - 1].used + Words(size) <= chunks[|chunks| - 1].Capacity()
  }

  /** The region is the last one of the last chunk and ends with a whole word. */
  predicate IsLast(chunks: seq<Chunk>, r: Region)
    requires r.size > 0 && chunks != []
  {
    r.chunk == |chunks| - 1 && r.size % WORD == 0 && End(r) == chunks[r.chunk].used
  }

  predicate Apart(a: Region, b: Region)
    requires a.size > 0 && b.size > 0
  {
    a.chunk != b.chunk || End(a) <= b.start || End(b) <= a.start
  }

  /** The bytes of a chunk and how many of its words are taken; reallocation may count a region twice
      and push `used` past the end. */
  datatype Chunk = Chunk(data: seq<Byte>, used: nat)
  {
    function Capacity(): nat { |data| / WORD }
  }

  /** The region lies in a chunk, below what is taken. */
  predicate Inside(chunks: seq<Chunk>, r: Region) {
    r.size > 0 && r.chunk < |chunks| && End(r) <= chunks[r.chunk].Capacity() && End(r) <= chunks[r.chunk].used
  }

  function Content(chunks: seq<Chunk>, r: Region): (s: seq<Byte>)
    requires Inside(chunks, r)
    ensures |s| == r.size
  {
    chunks[r.chunk].data[WORD * r.start..WORD * r.start + r.size]
  }

  /** Live regions are inside chunks and pairwise disjoint. */
  ghost predicate Sound(chunks: seq<Chunk>, live: set<Region>) {
    && (forall r :: r in live ==> Inside(chunks, r))
    && (forall a, b :: a in live && b in live && a != b ==> Apart(a, b))
  }

  lemma SizeFits(size: nat)
    requires size > 0
    ensures Words(size) <= ChunkWords(size)
  {
  }

  lemma WordsGrow(a: nat, b: nat)
    requires 0 < a <= b
    ensures Words(a) <= Words(b) && WORD * Words(b) >= b
  {
  }

  /** Behind whole words the words that are missing are those of the bytes that are missing. */
  lemma WordsBeyond(a: nat, b: nat)
    requires 0 < a < b && a % WORD == 0
    ensures Words(b - a) == Words(b) - Words(a)
  {
  }

  // ---- what the steps keep -------------------------------------------------------------------------

  /** `later` differs from `chunks` only in the first `n` bytes of the region `g` and by more words
      taken from its chunk. */
  predicate WrittenAt(chunks: seq<Chunk>, later: seq<Chunk>, g: Region, n: nat) {
    && g.chunk < |chunks| == |later|
    && (forall i :: 0 <= i < |chunks| && i != g.chunk ==> later[i] == chunks[i])
    && chunks[g.chunk].used <= later[g.chunk].used && |later[g.chunk].data| == |chunks[g.chunk].data|
    && (forall k :: 0 <= k < |chunks[g.chunk].data| && !(WORD * g.start <= k < WORD * g.start + n) ==>
          later[g.chunk].data[k] == chunks[g.chunk].data[k])
  }

  /** Writing to one region changes no other. */
  lemma WriteKeeps(chunks: seq<Chunk>, later: seq<Chunk>, g: Region, n: nat, x: Region)
    requires WrittenAt(chunks, later, g, n) && Inside(chunks, x) && 0 < g.size && n <= g.size && Apart(x, g)
    ensures Inside(later, x) && Content(later, x) == Content(chunks, x)
  {
    WordsCover(g.size);
    WordsCover(x.size);
    if x.chunk == g.chunk {
      forall k | WORD * x.start <= k < WORD * x.start + x.size
        ensures k < |chunks[x.chunk].data| && later[x.chunk].data[k] == chunks[x.chunk].data[k]
      {
      }
    }
  }

  lemma WordsCover(size: nat)
    requires size > 0
    ensures WORD * Words(size) >= size && Words(size) > 0
  {
  }

  /** A new region at the end of what is taken. */
  lemma AllocSound(chunks: seq<Chunk>, later: seq<Chunk>, live: set<Region>, g: Region, n: nat)
    requires Sound(chunks, live) && g.size > 0 && n <= g.size
    requires g.chunk == |chunks| - 1 && g.start == chunks[g.chunk].used && End(g) <= chunks[g.chunk].Capacity()
    requires WrittenAt(chunks, later, g, n) && End(g) <= later[g.chunk].used
    ensures g !in live && Sound(later, live + {g})
    ensures forall x :: x in live ==> Inside(later, x) && Content(later, x) == Content(chunks, x)
  {
    hide Content, WrittenAt;
    WordsCover(g.size);
    forall x | x in live
      ensures x != g && Apart(x, g) && Inside(later, x) && Content(later, x) == Content(chunks, x)
    {
      assert Inside(chunks, x);
      WordsCover(x.size);
      WriteKeeps(chunks, later, g, n, x);
    }
    assert Inside(later, g) by { SameCapacity(chunks, later, g, n); }
  }

  lemma SameCapacity(chunks: seq<Chunk>, later: seq<Chunk>, g: Region, n: nat)
    requires WrittenAt(chunks, later, g, n)
    ensures |later| == |chunks| && g.chunk < |later| && later[g.chunk].Capacity() == chunks[g.chunk].Capacity()
  {
  }

  lemma AppendSound(chunks: seq<Chunk>, c: Chunk, live: set<Region>)
    requires Sound(chunks, live)
    ensures Sound(chunks + [c], live)
    ensures forall x :: x in live ==> Content(chunks + [c], x) == Content(chunks, x)
  {
  }

  lemma FewerSound(chunks: seq<Chunk>, live: set<Region>, r: Region)
    requires Sound(chunks, live)
    ensures Sound(chunks, live - {r})
  {
  }

  /** The last region grows into free words. */
  lemma ExtendSound(chunks: seq<Chunk>, later: seq<Chunk>, live: set<Region>, r: Region, size: nat)
    requires Sound(chunks, live) && r in live && size > r.size && End(r) == chunks[r.chunk].used
    requires var g := r.(size := size); WrittenAt(chunks, later, g, 0) && End(g) <= chunks[r.chunk].Capacity() && End(g) <= later[r.chunk].used
    ensures var g := r.(size := size); Sound(later, live - {r} + {g}) && Content(later, g)[..r.size] == Content(chunks, r)
    ensures forall x :: x in live && x != r ==> Inside(later, x) && Content(later, x) == Content(chunks, x)
  {
    var g := r.(size := size);
    WordsCover(r.size);
    WordsCover(size);
    assert Inside(chunks, r);
    forall x | x in live && x != r
      ensures Apart(x, g) && Inside(later, x) && Content(later, x) == Content(chunks, x)
    {
      assert Inside(chunks, x) && Apart(x, r);
      WordsCover(x.size);
      WriteKeeps(chunks, later, g, 0, x);
    }
    SameCapacity(chunks, later, g, 0);
    assert later[r.chunk].data == chunks[r.chunk].data;
  }

  /** Writing to a live region and letting another one go. */
  lemma RecopySound(chunks: seq<Chunk>, later: seq<Chunk>, live: set<Region>, g: Region, n: nat)
    requires Sound(chunks, live) && g in live && n <= g.size && WrittenAt(chunks, later, g, n)
    ensures Sound(later, live)
    ensures forall x :: x in live && x != g ==> Inside(later, x) && Content(later, x) == Content(chunks, x)
  {
    hide Content, WrittenAt;
    assert Inside(chunks, g);
    forall x | x in live && x != g
      ensures Inside(later, x) && Content(later, x) == Content(chunks, x)
    {
      assert Inside(chunks, x) && Apart(x, g);
      WriteKeeps(chunks, later, g, n, x);
    }
    assert Inside(later, g) by {
      SameCapacity(chunks, later, g, n);
      MoreUsed(chunks, later, g, n);
    }
  }

  lemma MoreUsed(chunks: seq<Chunk>, later: seq<Chunk>, g: Region, n: nat)
    requires WrittenAt(chunks, later, g, n)
    ensures chunks[g.chunk].used <= later[g.chunk].used
  {
  }

  // ---- the allocator -------------------------------------------------------------------------------

  class Arena {
    var chunks: seq<Chunk>
    ghost var live: set<Region>

    ghost predicate Valid()
      reads this
    {
      Sound(chunks, live)
    }

    constructor ()
      ensures Valid() && live == {} && chunks == []
    {
      chunks, live := [], {};
    }

    method NewChunk(size: nat)
      modifies this`chunks
      ensures |chunks| == |old(chunks)| + 1 && chunks == old(chunks) + [chunks[|old(chunks)|]]
      ensures chunks[|old(chunks)|].used == 0 && chunks[|old(chunks)|].Capacity() == ChunkWords(size)
    {
      chunks := chunks + [Chunk(seq(WORD * ChunkWords(size), _ => 0), 0)];
    }

    /** Takes words at the end of the last chunk. */
    method Take(words: nat)
      requires chunks != []
      modifies this`chunks
      ensures |chunks| == |old(chunks)|
      ensures var i := |chunks| - 1; chunks == old(chunks)[i := old(chunks)[i].(used := old(chunks)[i].used + words)]
    {
      var last := |chunks| - 1;
      chunks := chunks[last := chunks[last].(used := chunks[last].used + words)];
    }

    /** A region for `size` bytes, disjoint from every live one; `None` is the null pointer. */
    method Alloc(size: nat) returns (r: Option<Region>)
      requires Valid()
      modifies this
      ensures Valid()
      ensures size == 0 ==> r.None? && live == old(live) && chunks == old(chunks)
      ensures size > 0 ==> r.Some? && r.value.size == size && r.value !in old(live) && live == old(live) + {r.value}
      ensures size > 0 ==> r.value.chunk == |chunks| - 1
      ensures size > 0 && old(HasRoom(chunks, size)) ==> |chunks| == |old(chunks)| && r.value.start == old(chunks)[|chunks| - 1].used
      ensures size > 0 && !old(HasRoom(chunks, size)) ==>
                |chunks| == |old(chunks)| + 1 && r.value.start == 0 && chunks[|chunks| - 1].Capacity() == ChunkWords(size)
      ensures size > 0 ==> var taken := chunks[|chunks| - 1].used - r.value.start; 8 * (taken - 1) < size <= 8 * taken
      ensures forall x :: x in old(live) ==> Inside(chunks, x) && Content(chunks, x) == old(Content(chunks, x))
    {
      hide Sound, Content;
      if size == 0 {
        AllInside(chunks, live);
        return None;
      }
      AllInside(chunks, live);
      if chunks == [] || chunks[|chunks| - 1].used + Words(size) > chunks[|chunks| - 1].Capacity() {
        SizeFits(size);
        NewChunk(size);
        AppendSound(old(chunks), chunks[|chunks| - 1], live);
      }
      ghost var before := chunks;
      var region := Region(|chunks| - 1, chunks[|chunks| - 1].used, size);
      Take(Words(size));
      AllocSound(before, chunks, live, region, 0);
      live := live + {region};
      r := Some(region);
    }

    /** What a reallocation leaves: the grown region in place of the old one, with its bytes, and every other
        region as it was. */
    twostate predicate Regrown(r: Region, size: nat, grown: Region)
      reads this
    {
      && Valid() && grown.size == size && live == old(live) - {r} + {grown}
      && Inside(chunks, grown) && old(Inside(chunks, r)) && r.size <= size
      && Content(chunks, grown)[..r.size] == old(Content(chunks, r))
      && forall x :: x in old(live) && x != r ==> Inside(chunks, x) && old(Inside(chunks, x)) && Content(chunks, x) == old(Content(chunks, x))
    }

    /** The last region takes words behind it. */
    method GrowInPlace(r: Region, size: nat) returns (grown: Region)
      requires Valid() && r in live && size > r.size && chunks != [] && r.size > 0 && r.chunk == |chunks| - 1
      requires End(r) == chunks[r.chunk].used && End(r) + (Words(size) - Words(r.size)) <= chunks[r.chunk].Capacity()
      modifies this
      ensures Regrown(r, size, grown) && grown == r.(size := size) && |chunks| == |old(chunks)|
    {
      hide Sound, Content;
      AllInside(chunks, live);
      WordsGrow(r.size, size);
      Take(Words(size) - Words(r.size));
      grown := r.(size := size);
      ExtendSound(old(chunks), chunks, live, r, size);
      live := live - {r} + {grown};
      AllInside(chunks, live);
    }

    /** A copy behind the last region. */
    method CopyToEnd(r: Region, size: nat) returns (grown: Region)
      requires Valid() && r in live && size > r.size && HasRoom(chunks, size)
      modifies this
      ensures Regrown(r, size, grown) && |chunks| == |old(chunks)| && grown.start == old(chunks)[|chunks| - 1].used
    {
      hide Sound, Content;
      AllInside(chunks, live);
      grown := Region(|chunks| - 1, chunks[|chunks| - 1].used, size);
      Copy(r, grown);
      Take(Words(size));
      AllocSound(old(chunks), chunks, live, grown, r.size);
      FewerSound(chunks, live + {grown}, r);
      live := live - {r} + {grown};
      assert live == old(live) + {grown} - {r};
      AllInside(chunks, live);
      CopiedContent(chunks, grown, old(Content(chunks, r)));
    }

    /** A copy in a newly allocated region, whose words are counted twice. */
    method CopyToNew(r: Region, size: nat) returns (grown: Region)
      requires Valid() && r in live && size > r.size
      modifies this
      ensures Regrown(r, size, grown)
    {
      hide Sound, Content;
      AllInside(chunks, live);
      var more := Alloc(size);
      grown := more.value;
      AllInside(chunks, live);
      ghost var before := chunks;
      Copy(r, grown);
      Take(Words(size));
      RecopySound(before, chunks, live, grown, r.size);
      FewerSound(chunks, live, r);
      live := live - {r};
      AllInside(chunks, live);
      CopiedContent(chunks, grown, old(Content(chunks, r)));
    }

    /** Grows a region to `size` bytes: in place when it is the last one and there is room, otherwise
        as a copy.  The old bytes are kept and no other live region changes. */
    method Realloc(r: Region, size: nat) returns (grown: Region)
      requires Valid() && r in live
      modifies this
      ensures Valid()
      ensures size <= r.size ==> grown == r && live == old(live) && chunks == old(chunks)
      ensures size > r.size ==> grown.size == size && live == old(live) - {r} + {grown}
      ensures size > r.size && old(IsLast(chunks, r)) && old(HasRoom(chunks, size - r.size)) ==>
                grown == r.(size := size) && |chunks| == |old(chunks)|
      ensures size > r.size && old(!IsLast(chunks, r) && HasRoom(chunks, size)) ==>
                |chunks| == |old(chunks)| && grown.start == old(chunks)[|chunks| - 1].used
      ensures grown in live && Inside(chunks, grown) && old(Inside(chunks, r)) && r.size <= |Content(chunks, grown)|
      ensures Content(chunks, grown)[..r.size] == old(Content(chunks, r))
      ensures forall x :: x in old(live) && x != r ==> Inside(chunks, x) && Content(chunks, x) == old(Content(chunks, x))
    {
      hide Sound, Content;
      AllInside(chunks, live);
      if size <= r.size {
        WholeContent(chunks, r);
        return r;
      }
      WordsGrow(r.size, size);
      var oldWords, newWords := Words(r.size), Words(size);
      var last := |chunks| - 1;
      var current := chunks[last];
      var atEnd := r.chunk == last && r.size % WORD == 0 && End(r) == current.used;
      if r.size % WORD == 0 {
        WordsBeyond(r.size, size);
      }
      if atEnd && current.used + (newWords - oldWords) <= current.Capacity() {
        grown := GrowInPlace(r, size);
      } else if !atEnd && current.used + newWords <= current.Capacity() {
        grown := CopyToEnd(r, size);
      } else {
        grown := CopyToNew(r, size);
      }
    }

    /** `memcpy` of the bytes of one region to the start of another. */
    method Copy(from: Region, to: Region)
      requires Inside(chunks, from) && to.size >= from.size && to.chunk < |chunks| && End(to) <= chunks[to.chunk].Capacity()
      modifies this`chunks
      ensures |chunks| == |old(chunks)|
      ensures chunks == old(chunks)[to.chunk := old(chunks)[to.chunk].(data := chunks[to.chunk].data)]
      ensures |chunks[to.chunk].data| == |old(chunks)[to.chunk].data|
      ensures forall k :: 0 <= k < |chunks[to.chunk].data| && !(WORD * to.start <= k < WORD * to.start + from.size) ==>
                chunks[to.chunk].data[k] == old(chunks)[to.chunk].data[k]
      ensures WORD * to.start + from.size <= |chunks[to.chunk].data|
      ensures forall k :: 0 <= k < from.size ==> chunks[to.chunk].data[WORD * to.start + k] == old(Content(chunks, from))[k]
    {
      var bytes := Content(chunks, from);
      var data := chunks[to.chunk].data;
      var at := WORD * to.start;
      WordsGrow(to.size, to.size);
      chunks := chunks[to.chunk := chunks[to.chunk].(data := data[..at] + bytes + data[at + |bytes|..])];
    }
  }

  lemma AllInside(chunks: seq<Chunk>, live: set<Region>)
    requires Sound(chunks, live)
    ensures forall r :: r in live ==> Inside(chunks, r)
  {
  }

  lemma WholeContent(chunks: seq<Chunk>, r: Region)
    requires Inside(chunks, r)
    ensures Content(chunks, r)[..r.size] == Content(chunks, r)
  {
  }

  /** The copied bytes are the first bytes of the region they were copied to. */
  lemma CopiedContent(chunks: seq<Chunk>, g: Region, bytes: seq<Byte>)
    requires Inside(chunks, g) && |bytes| <= g.size
    requires forall k :: 0 <= k < |bytes| ==> WORD * g.start + k < |chunks[g.chunk].data| && chunks[g.chunk].data[WORD * g.start + k] == bytes[k]
    ensures Content(chunks, g)[..|bytes|] == bytes
  {
  }
}
