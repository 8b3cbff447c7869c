/**
 `vk_stack.c`: a page-granular stack. Each allocation's length is kept in the last word of the
 allocation itself, and that word is the only record a pop has of where the allocation began.
 Addresses are offsets from `addr_start`.
 */
module Stack {
  import opened Machine
  import opened Memory
  import opened WrapGuard

  /** A live allocation: where it starts, its aligned length, and how many bytes were asked for. */
  datatype Block = Block(at: nat, len: nat, want: nat) {
    function End(): nat { at + len }

    /** Where the length is kept, when it lies inside the block. */
    function Link(): int { at + len - WORD }
  }

  /**
   Blocks follow one another from the bottom of the stack up to `top`, in whole pages, and in
   memory `b` each block's last word holds its length.
   */
  ghost predicate Linked(b: bytes, blocks: seq<Block>, top: nat, page: nat)
    requires page > 0 && top <= |b|
    decreases |blocks|
  {
    if blocks == [] then top == 0
    else
      var last := blocks[|blocks| - 1];
      && last.End() == top
      && 0 < last.want <= last.len
      && WORD <= last.len && last.len % page == 0 && last.at % page == 0
      && LoadWord(b, last.Link()) == last.len
      && Linked(b, blocks[..|blocks| - 1], last.at, page)
  }

  /** Live allocations are page-aligned, inside the used part, and pairwise disjoint. */
  lemma {:induction false} LinkedApart(b: bytes, blocks: seq<Block>, top: nat, page: nat, i: nat, j: nat)
    requires page > 0 && top <= |b| && Linked(b, blocks, top, page) && i <= j < |blocks|
    ensures WORD <= blocks[j].len && blocks[j].want <= blocks[j].len && blocks[j].End() <= top
    ensures blocks[j].at % page == 0 && LoadWord(b, blocks[j].Link()) == blocks[j].len
    ensures i < j ==> blocks[i].End() <= blocks[j].at
    decreases |blocks|
  {
    var last := |blocks| - 1;
    var rest := blocks[..last];
    if j < last {
      assert rest[i] == blocks[i] && rest[j] == blocks[j];
      LinkedApart(b, rest, blocks[last].at, page, i, j);
    } else if i < last {
      assert rest[i] == blocks[i];
      LinkedApart(b, rest, blocks[last].at, page, i, i);
    }
  }

  lemma TopAligned(b: bytes, blocks: seq<Block>, top: nat, page: nat)
    requires page > 0 && top <= |b| && Linked(b, blocks, top, page)
    ensures top % page == 0
  {
    if blocks != [] {
      var last := blocks[|blocks| - 1];
      SumMod(last.at, last.len, page);
    }
  }

  lemma SumMod(a: nat, b: nat, page: nat)
    requires page > 0 && a % page == 0 && b % page == 0
    ensures (a + b) % page == 0
  {
    var p, q := a / page, b / page;
    assert a == page * p && b == page * q;
    assert a + b == (p + q) * page;
    MultipleMod(p + q, page);
  }

  /**
   Writes that stay inside the requested bytes can never damage the link exactly when the request
   leaves a word free at the end of its last page; `vk_safe_alignedlen` does not reserve one.
   */
  ghost predicate LinkSurvivesWrites(b: bytes, block: Block)
    requires 0 <= block.Link() && block.End() <= |b| && block.want <= block.len
  {
    forall at: nat, data: bytes :: block.at <= at && at + |data| <= block.at + block.want ==>
      LoadWord(Store(b, at, data), block.Link()) == LoadWord(b, block.Link())
  }

  lemma LinkSurvivesIff(b: bytes, block: Block)
    requires WORD <= block.len && block.End() <= |b| && block.want <= block.len
    ensures LinkSurvivesWrites(b, block) <==> block.want + WORD <= block.len
  {
    if block.want + WORD <= block.len {
      forall at: nat, data: bytes | block.at <= at && at + |data| <= block.at + block.want
        ensures LoadWord(Store(b, at, data), block.Link()) == LoadWord(b, block.Link())
      {
        LoadElsewhere(b, at, data, block.Link());
      }
    } else {
      FirstByteMatters(b, block.Link());
    }
  }

  /** Some one-byte store at a word changes the word. */
  lemma FirstByteMatters(b: bytes, word: nat)
    requires word + WORD <= |b|
    ensures exists data: bytes :: |data| == 1 && LoadWord(Store(b, word, data), word) != LoadWord(b, word)
  {
    var data: bytes := [if b[word] == 0 then 1 else 0];
    var was, now := b[word..word + WORD], Store(b, word, data)[word..word + WORD];
    assert now[0] == data[0] && was[0] == b[word] && now[1..] == was[1..];
    assert Decode(now) != Decode(was);
    assert LoadWord(Store(b, word, data), word) != LoadWord(b, word);
  }

  /** A store away from every link keeps the links. */
  lemma {:induction false} LinksKept(b: bytes, blocks: seq<Block>, top: nat, page: nat, at: nat, data: bytes)
    requires page > 0 && top <= |b| && Linked(b, blocks, top, page) && at + |data| <= |b|
    requires forall i :: 0 <= i < |blocks| ==> at + |data| <= blocks[i].Link() || blocks[i].End() <= at
    ensures Linked(Store(b, at, data), blocks, top, page)
    decreases |blocks|
  {
    if blocks != [] {
      var last := blocks[|blocks| - 1];
      var rest := blocks[..|blocks| - 1];
      LinksKept(b, rest, last.at, page, at, data);
      LoadElsewhere(b, at, data, last.Link());
    }
  }

  function AfterPush(blocks: seq<Block>, at: nat, len: nat, want: nat): seq<Block> {
    if 0 < want then blocks + [Block(at, len, want)] else blocks
  }

  /** A nonempty push keeps every link and adds its own. */
  lemma LinkedPush(b: bytes, blocks: seq<Block>, top: nat, page: nat, len: size_t, want: nat)
    requires WORD <= page && top + len <= |b| && Linked(b, blocks, top, page)
    requires 0 < want && len == RoundUp(want, page)
    ensures WORD <= len
    ensures Linked(Store(b, top + len - WORD, Encode(len, WORD)), AfterPush(blocks, top, len, want), top + len, page)
  {
    RoundUpIsLeast(want, page, 0);
    RoundUpIsPages(want, page);
    MultipleMod(Pages(want, page), page);
    ProductGrows(1, page, Pages(want, page), page);
    TopAligned(b, blocks, top, page);
    forall i | 0 <= i < |blocks|
      ensures blocks[i].End() <= top
    {
      LinkedApart(b, blocks, top, page, i, i);
    }
    LinksKept(b, blocks, top, page, top + len - WORD, Encode(len, WORD));
    LoadStored(b, top + len - WORD, len);
    assert AfterPush(blocks, top, len, want)[..|blocks|] == blocks;
  }

  /** An empty push zeroes the link of the block underneath. */
  lemma LinkLost(b: bytes, blocks: seq<Block>, top: nat, page: nat)
    requires WORD <= page && top <= |b| && Linked(b, blocks, top, page) && blocks != []
    ensures RoundUp(0, page) == 0 && WORD <= top
    ensures !Linked(Store(b, top - WORD, Encode(0, WORD)), blocks, top, page)
  {
    LoadStored(b, top - WORD, 0);
    assert blocks[|blocks| - 1].Link() == top - WORD;
  }

  /** So a push keeps every link exactly if it is not empty. */
  lemma LinkedIff(b: bytes, blocks: seq<Block>, top: nat, page: nat, len: size_t, want: nat)
    requires WORD <= page && top + len <= |b| && Linked(b, blocks, top, page)
    requires (0 < want || blocks != []) && len == RoundUp(want, page)
    ensures WORD <= top + len
    ensures Linked(Store(b, top + len - WORD, Encode(len, WORD)), AfterPush(blocks, top, len, want), top + len, page)
            <==> 0 < want
  {
    if 0 < want {
      LinkedPush(b, blocks, top, page, len, want);
    } else {
      LinkLost(b, blocks, top, page);
    }
  }

  class Stack {
    const mem: array<byte>
    /** The word in front of `addr_start`, which is not the stack's. */
    const below: array<byte>
    const page: size_t
    var cursor: nat
    ghost var blocks: seq<Block>

    /** `vk_stack_init` */
    constructor (mem: array<byte>, below: array<byte>, page: size_t)
      requires WORD <= page && below != mem && below.Length == WORD
      ensures Valid() && this.mem == mem && this.below == below && this.page == page && blocks == []
    {
      this.mem := mem;
      this.below := below;
      this.page := page;
      cursor := 0;
      blocks := [];
    }

    /** The bounds hold, blocks are stacked, and every link holds its block's length. */
    ghost predicate Valid()
      reads this, mem
    {
      && WORD <= page && cursor <= mem.Length && below != mem && below.Length == WORD
      && Linked(mem[..], blocks, cursor, page)
    }

    /**
     `vk_stack_push`. The address is the old cursor. An empty request stores its link below the
     cursor: over the link of the block underneath or, on an empty stack, in front of the memory.
     */
    method Push(nmemb: size_t, count: size_t) returns (r: Result<nat>)
      requires Valid()
      modifies this, mem, below
      ensures r.Ok? <==> AlignedLen(nmemb, count, page).Some?
                         && old(cursor) + AlignedLen(nmemb, count, page).value <= mem.Length
      ensures r.Ok? ==> r.value == old(cursor)
      ensures r.Ok? && (0 < nmemb * count || old(blocks) != []) ==>
                && Pushed(old(cursor), old(mem[..]), old(blocks), AlignedLen(nmemb, count, page).value, nmemb * count)
                && below[..] == old(below[..])
      ensures r.Ok? && 0 == nmemb * count && old(blocks) == [] ==> below[..] == Encode(0, WORD)
      ensures r.Err? || (0 == nmemb * count && old(blocks) == []) ==>
                cursor == old(cursor) && blocks == old(blocks) && mem[..] == old(mem[..])
      ensures r.Err? ==> below[..] == old(below[..])
      ensures Valid() <==> 0 < nmemb * count || r.Err? || old(blocks) == []
    {
      var len := SafeAlignedLen(nmemb, count, page);
      if len.None? {
        return Err(ERANGE);
      }
      if cursor + len.value <= mem.Length {
        r := Ok(cursor);
        RoundUpIsLeast(nmemb * count, page, 0);
        if cursor + len.value == 0 {
          MemPut(below, 0, Encode(0, WORD));
        } else {
          PushLink(len.value, nmemb * count);
        }
        return;
      }
      return Err(ENOMEM);
    }

    /** The cursor moved past a block of `len` bytes whose last word holds `len`. */
    ghost predicate Pushed(at: nat, before: bytes, below: seq<Block>, len: size_t, want: nat)
      reads this, mem
    {
      && cursor == at + len && WORD <= cursor <= |before|
      && mem[..] == Store(before, cursor - WORD, Encode(len, WORD))
      && blocks == AfterPush(below, at, len, want)
    }

    method StoreLink(len: size_t)
      requires WORD <= cursor + len <= mem.Length
      modifies this`cursor, mem
      ensures cursor == old(cursor) + len
      ensures mem[..] == Store(old(mem[..]), cursor - WORD, Encode(len, WORD))
    {
      cursor := cursor + len;
      MemPut(mem, cursor - WORD, Encode(len, WORD));
    }

    /** Move the cursor past the block and store its length in the block's last word. */
    method PushLink(len: size_t, ghost want: nat)
      requires Valid() && (0 < want || blocks != []) && cursor + len <= mem.Length
      requires len == RoundUp(want, page)
      modifies this, mem
      ensures Pushed(old(cursor), old(mem[..]), old(blocks), len, want)
      ensures Valid() <==> 0 < want
    {
      LinkedIff(mem[..], blocks, cursor, page, len, want);
      ghost var after := AfterPush(blocks, cursor, len, want);
      StoreLink(len);
      blocks := after;
    }

    /** A client fills part of the bytes it asked for. */
    method Write(at: nat, data: bytes, ghost i: nat)
      requires Valid() && i < |blocks| && blocks[i].End() <= mem.Length
      requires blocks[i].at <= at && at + |data| <= blocks[i].at + blocks[i].want
      requires blocks[i].want + WORD <= blocks[i].len
      modifies mem
      ensures Valid() && mem[..] == Store(old(mem[..]), at, data)
    {
      forall j | 0 <= j < |blocks|
        ensures at + |data| <= blocks[j].Link() || blocks[j].End() <= at
      {
        LinkedApart(mem[..], blocks, cursor, page, j, j);
        if i <= j {
          LinkedApart(mem[..], blocks, cursor, page, i, j);
        } else {
          LinkedApart(mem[..], blocks, cursor, page, j, i);
        }
      }
      LinksKept(mem[..], blocks, cursor, page, at, data);
      MemPut(mem, at, data);
    }

    /** `vk_stack_pop`: the in-band link takes the cursor back to where its push found it. */
    method Pop() returns (r: Result<nat>)
      requires Valid()
      modifies this`cursor, this`blocks
      ensures Valid()
      ensures old(blocks) == [] ==> r == Err(ERANGE) && cursor == old(cursor) && blocks == []
      ensures old(blocks) != [] ==>
                && r == Ok(0)
                && cursor == old(blocks[|blocks| - 1].at)
                && blocks == old(blocks[..|blocks| - 1])
    {
      if cursor <= 0 {
        return Err(ERANGE);
      }
      assert blocks[|blocks| - 1].Link() == cursor - WORD;
      var link: int := cursor - WORD;
      if link < 0 {
        return Err(ENOENT);
      } else if link >= mem.Length {
        return Err(EINVAL);
      }
      var len := LoadWord(mem[..], link);
      cursor := cursor - len;
      blocks := blocks[..|blocks| - 1];
      return Ok(0);
    }
  }
}
