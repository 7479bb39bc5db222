/** ram_save_block, ram_save_remaining, is_dup_page and the stages of ram_save_live (arch_init.c), each
    proved to be a run of the protocol in RamMigration that writes exactly the bytes of RamWire. */
module RamMigrationCode {
  import B = Bitops
  import opened RamWire
  import opened RamMigration

  // ---------------------------------------------------------------- runs

  ghost predicate Leads(s: State, run: seq<Step>, r: State) { Legal(s, run) && Exec(s, run) == r }

  lemma LeadsNothing(s: State)
    ensures Leads(s, [], s)
  {
  }

  lemma One(s: State, t: Step)
    requires Enabled(s, t)
    ensures Leads(s, [t], Apply(s, t))
  {
    assert [t][1..] == [];
  }

  lemma {:induction false} Then(s: State, x: seq<Step>, m: State, y: seq<Step>, r: State)
    requires Leads(s, x, m) && Leads(m, y, r)
    ensures Leads(s, x + y, r)
    decreases |x|
  {
    if x == [] {
      assert x + y == y;
    } else {
      Then(Apply(s, x[0]), x[1..], m, y, r);
      assert (x + y)[1..] == x[1..] + y;
    }
  }

  // ---------------------------------------------------------------- bytes of an open section

  function OpenBytes(blocks: seq<Block>, last: Option<Name>, items: seq<Item>): Bytes
    requires (forall b :: b in blocks ==> |b.name| < 256) && ShortNames(items)
    decreases |items|
  {
    if items == [] then []
    else ItemBytes(blocks, last, items[0]) + OpenBytes(blocks, LastAfter(last, items[0]), items[1..])
  }

  lemma {:induction false} OpenAppend(blocks: seq<Block>, last: Option<Name>, items: seq<Item>, i: Item)
    requires (forall b :: b in blocks ==> |b.name| < 256) && ShortNames(items + [i])
    ensures ShortNames(items) && (i.Page? ==> |i.w.block| < 256)
    ensures OpenBytes(blocks, last, items + [i]) ==
            OpenBytes(blocks, last, items) + ItemBytes(blocks, LastAfterAll(last, items), i)
    decreases |items|
  {
    ShortAppend(items, i);
    if items == [] {
      assert items + [i] == [i];
      assert [i][1..] == [];
    } else {
      var next := LastAfter(last, items[0]);
      OpenAppend(blocks, next, items[1..], i);
      OpenHead(blocks, last, items, i);
      Assoc(ItemBytes(blocks, last, items[0]), OpenBytes(blocks, next, items[1..]),
            ItemBytes(blocks, LastAfterAll(next, items[1..]), i));
    }
  }

  lemma ShortAppend(items: seq<Item>, i: Item)
    requires ShortNames(items + [i])
    ensures ShortNames(items) && (i.Page? ==> |i.w.block| < 256)
    ensures items != [] ==> (items + [i])[1..] == items[1..] + [i] && ShortNames(items[1..] + [i])
  {
    assert forall j :: j in items || j == i ==> j in items + [i];
    assert items != [] ==> (items + [i])[1..] == items[1..] + [i];
  }

  lemma OpenHead(blocks: seq<Block>, last: Option<Name>, items: seq<Item>, i: Item)
    requires (forall b :: b in blocks ==> |b.name| < 256) && ShortNames(items + [i]) && items != []
    requires ShortNames(items[1..] + [i]) && (items[0].Page? ==> |items[0].w.block| < 256)
    ensures OpenBytes(blocks, last, items + [i]) ==
            ItemBytes(blocks, last, items[0]) + OpenBytes(blocks, LastAfter(last, items[0]), items[1..] + [i])
  {
    assert (items + [i])[1..] == items[1..] + [i];
  }

  lemma {:induction false} OpenThenEnd(blocks: seq<Block>, last: Option<Name>, items: seq<Item>)
    requires (forall b :: b in blocks ==> |b.name| < 256) && ShortNames(items)
    ensures SectionBytes(blocks, last, items) == OpenBytes(blocks, last, items) + Be64(EOS)
    decreases |items|
  {
    if items != [] { OpenThenEnd(blocks, LastAfter(last, items[0]), items[1..]); }
  }

  lemma {:induction false} LastConcat(last: Option<Name>, x: seq<Item>, y: seq<Item>)
    ensures LastAfterAll(last, x + y) == LastAfterAll(LastAfterAll(last, x), y)
    decreases |x|
  {
    if x == [] {
      assert x + y == y;
    } else {
      assert (x + y)[1..] == x[1..] + y;
      LastConcat(LastAfter(last, x[0]), x[1..], y);
    }
  }

  lemma ShortParts(sections: seq<seq<Item>>, x: seq<Item>)
    requires ShortNames(Flat(sections + [x]))
    ensures ShortNames(Flat(sections)) && ShortNames(x)
  {
    FlatConcat(sections, [x]);
    assert Flat([x]) == x + Flat([]);
    assert forall i :: i in Flat(sections) || i in x ==> i in Flat(sections + [x]);
  }

  lemma StreamOne(blocks: seq<Block>, last: Option<Name>, x: seq<Item>)
    requires (forall b :: b in blocks ==> |b.name| < 256) && ShortNames(x) && ShortNames(Flat([x]))
    ensures StreamBytes(blocks, last, [x]) == SectionBytes(blocks, last, x)
  {
    StreamUnrolls(blocks, last, [x]);
    assert [x][1..] == [];
  }

  lemma ShortTail(y: seq<Item>, more: seq<seq<Item>>)
    requires ShortNames(Flat([y] + more))
    ensures ShortNames(y) && ShortNames(Flat(more))
  {
    FlatConcat([y], more);
    assert Flat([y]) == y + Flat([]);
    assert forall i :: i in y || i in Flat(more) ==> i in Flat([y] + more);
  }

  lemma StreamCons(blocks: seq<Block>, last: Option<Name>, y: seq<Item>, more: seq<seq<Item>>)
    requires (forall b :: b in blocks ==> |b.name| < 256) && ShortNames(Flat([y] + more))
    ensures ShortNames(y) && ShortNames(Flat(more))
    ensures StreamBytes(blocks, last, [y] + more) ==
            SectionBytes(blocks, last, y) + StreamBytes(blocks, LastAfterAll(last, y), more)
    ensures LastAfterAll(last, Flat([y] + more)) == LastAfterAll(LastAfterAll(last, y), Flat(more))
  {
    ShortTail(y, more);
    StreamUnrolls(blocks, last, [y] + more);
    assert ([y] + more)[1..] == more;
    LastConcat(last, y, Flat(more));
  }

  lemma StreamAppendStep(blocks: seq<Block>, last: Option<Name>, y: seq<Item>, more: seq<seq<Item>>, x: seq<Item>)
    requires (forall b :: b in blocks ==> |b.name| < 256) && ShortNames(Flat([y] + (more + [x])))
    requires ShortNames(Flat([y] + more)) && ShortNames(Flat(more + [x])) && ShortNames(Flat(more)) && ShortNames(x)
    requires StreamBytes(blocks, LastAfterAll(last, y), more + [x]) ==
             StreamBytes(blocks, LastAfterAll(last, y), more) +
             SectionBytes(blocks, LastAfterAll(LastAfterAll(last, y), Flat(more)), x)
    ensures StreamBytes(blocks, last, [y] + (more + [x])) ==
            StreamBytes(blocks, last, [y] + more) + SectionBytes(blocks, LastAfterAll(last, Flat([y] + more)), x)
  {
    StreamCons(blocks, last, y, more);
    StreamCons(blocks, last, y, more + [x]);
    Assoc(SectionBytes(blocks, last, y), StreamBytes(blocks, LastAfterAll(last, y), more),
          SectionBytes(blocks, LastAfterAll(last, Flat([y] + more)), x));
  }

  lemma {:induction false} StreamAppend(blocks: seq<Block>, last: Option<Name>, sections: seq<seq<Item>>, x: seq<Item>)
    requires (forall b :: b in blocks ==> |b.name| < 256) && ShortNames(Flat(sections + [x]))
    ensures ShortNames(Flat(sections)) && ShortNames(x)
    ensures StreamBytes(blocks, last, sections + [x]) ==
            StreamBytes(blocks, last, sections) + SectionBytes(blocks, LastAfterAll(last, Flat(sections)), x)
    decreases |sections|
  {
    ShortParts(sections, x);
    if sections == [] {
      assert sections + [x] == [x];
      StreamOne(blocks, last, x);
    } else {
      var y, more := sections[0], sections[1..];
      assert sections == [y] + more && sections + [x] == [y] + (more + [x]);
      ShortTail(y, more + [x]);
      StreamAppend(blocks, LastAfterAll(last, y), more, x);
      StreamAppendStep(blocks, last, y, more, x);
    }
  }

  /** The bytes that a state stands for. */
  function Emitted(s: State): Bytes
    requires (forall b :: b in s.blocks ==> |b.name| < 256) && ShortNames(Flat(s.sections)) && ShortNames(s.open)
  {
    StreamBytes(s.blocks, None, s.sections) + OpenBytes(s.blocks, LastAfterAll(None, Flat(s.sections)), s.open)
  }

  // ---------------------------------------------------------------- is_dup_page

  /** is_dup_page compares the page word by word with four copies of ch. */
  method IsDupPage(page: Bytes, ch: Byte) returns (r: bool)
    requires |page| == PAGE
    ensures r <==> page == Filled(ch)
  {
    var i := 0;
    while i < PAGE / 4
      invariant 0 <= i <= PAGE / 4 && forall k :: 0 <= k < 4 * i ==> page[k] == ch
    {
      if page[4 * i] != ch || page[4 * i + 1] != ch || page[4 * i + 2] != ch || page[4 * i + 3] != ch {
        return false;
      }
      i := i + 1;
    }
    assert page == Filled(ch);
    r := true;
  }

  /** One byte stands for a page of equal bytes, and only for such a page. */
  function Packed(page: Bytes): (c: Content)
    requires |page| == PAGE
    ensures Expand(c) == page && (c.Dup? <==> forall i :: 0 <= i < PAGE ==> page[i] == page[0])
  {
    if page == Filled(page[0]) then Dup(page[0]) else Data(page)
  }

  // ---------------------------------------------------------------- the stream follows the protocol

  /** out holds the bytes of the state, and `last` is the block of the last page sent. */
  ghost predicate Tracks(s: State, out: Bytes, last: Option<Name>) {
    && (forall b :: b in s.blocks ==> |b.name| < 256) && ShortNames(Flat(s.sections)) && ShortNames(s.open)
    && out == Emitted(s) && last == LastAfterAll(None, Sent(s))
  }

  lemma SilentTracks(s: State, t: Step, out: Bytes, last: Option<Name>)
    requires Enabled(s, t) && !t.Copy? && !t.EndSection? && Tracks(s, out, last)
    ensures Tracks(Apply(s, t), out, last)
  {
    assert Apply(s, t).blocks == s.blocks && Apply(s, t).sections == s.sections && Apply(s, t).open == s.open;
  }

  lemma CopyTracks(s: State, c: Content, out: Bytes, last: Option<Name>)
    requires Enabled(s, Copy(c)) && Tracks(s, out, last) && |s.busy.value.block| < 256
    ensures Tracks(Apply(s, Copy(c)), out + PageBytes(last, s.busy.value, c), Some(s.busy.value.block))
  {
    var r, i := Apply(s, Copy(c)), Page(s.busy.value, c);
    var before := LastAfterAll(None, Flat(s.sections));
    assert ShortNames(r.open);
    OpenAppend(s.blocks, before, s.open, i);
    LastConcat(None, Flat(s.sections), s.open);
    Assoc(StreamBytes(s.blocks, None, s.sections), OpenBytes(s.blocks, before, s.open), PageBytes(last, i.w, c));
    SentStep(s, Copy(c));
    LastConcat(None, Sent(s), [i]);
    LastOfOne(LastAfterAll(None, Sent(s)), i);
  }

  lemma LastOfOne(last: Option<Name>, i: Item)
    ensures LastAfterAll(last, [i]) == LastAfter(last, i)
  {
    assert [i][1..] == [];
  }

  lemma EndTracks(s: State, out: Bytes, last: Option<Name>)
    requires Enabled(s, EndSection) && Tracks(s, out, last)
    ensures Tracks(Apply(s, EndSection), out + Be64(EOS), last)
  {
    var r := Apply(s, EndSection);
    var before := LastAfterAll(None, Flat(s.sections));
    SentStep(s, EndSection);
    FlatConcat(s.sections, [s.open]);
    assert Flat([s.open]) == s.open + Flat([]);
    assert Flat(r.sections) == Flat(s.sections) + s.open;
    StreamAppend(s.blocks, None, s.sections, s.open);
    OpenThenEnd(s.blocks, before, s.open);
    Assoc(StreamBytes(s.blocks, None, s.sections), OpenBytes(s.blocks, before, s.open), Be64(EOS));
  }

  // ---------------------------------------------------------------- positions

  /** Block a, page p comes before block b, page q in the list. */
  predicate Before(a: int, p: int, b: int, q: int) { a < b || (a == b && p < q) }

  predicate IsPage(blocks: seq<Block>, b: int, p: int) { 0 <= b < |blocks| && 0 <= p < blocks[b].pages }

  function At(blocks: seq<Block>, b: int, p: int): Where
    requires IsPage(blocks, b, p)
  {
    Where(blocks[b].name, p)
  }

  /** Going round from (a, p), the page (c, r) is met before (b, q). */
  predicate Between(a: int, p: int, b: int, q: int, c: int, r: int) {
    if Before(b, q, a, p) then !Before(c, r, a, p) || Before(c, r, b, q) else !Before(c, r, a, p) && Before(c, r, b, q)
  }

  ghost predicate UniqueNames(blocks: seq<Block>) {
    forall i, j :: 0 <= i < j < |blocks| ==> blocks[i].name != blocks[j].name
  }

  lemma PageIsKnown(s: State, w: Where) returns (b: int)
    requires Shape(s) && w in s.mem
    ensures IsPage(s.blocks, b, w.page) && At(s.blocks, b, w.page) == w
  {
    var x :| x in s.blocks && x.name == w.block && w.page < x.pages;
    b :| 0 <= b < |s.blocks| && s.blocks[b] == x;
  }

  /** The page after block b, page q, going round. */
  function Next(blocks: seq<Block>, b: int, q: int): (int, int)
    requires IsPage(blocks, b, q)
  {
    if q + 1 < blocks[b].pages then (b, q + 1) else (if b + 1 < |blocks| then b + 1 else 0, 0)
  }

  /** The pages from (a, p) up to (b, q), going round, are clean. */
  ghost predicate CleanRound(blocks: seq<Block>, dirty: set<Where>, a: int, p: int, b: int, q: int) {
    forall c, r :: IsPage(blocks, c, r) && Between(a, p, b, q, c, r) ==> At(blocks, c, r) !in dirty
  }

  lemma NoPageBetween(blocks: seq<Block>, a: int, p: int, b: int, q: int, c: int, r: int)
    requires IsPage(blocks, a, p) && IsPage(blocks, b, q) && IsPage(blocks, c, r)
    requires forall x :: x in blocks ==> x.pages > 0
    ensures var n := Next(blocks, b, q);
            && IsPage(blocks, n.0, n.1)
            && (n == (a, p) ==> (c, r) == (b, q) || Between(a, p, b, q, c, r))
            && (n != (a, p) && Between(a, p, n.0, n.1, c, r) ==> (c, r) == (b, q) || Between(a, p, b, q, c, r))
  {
    var n := Next(blocks, b, q);
    assert blocks[n.0] in blocks;
  }

  /** One more clean page: the round is complete, or it reaches one page further. */
  lemma CleanFurther(blocks: seq<Block>, dirty: set<Where>, a: int, p: int, b: int, q: int)
    requires IsPage(blocks, a, p) && IsPage(blocks, b, q) && (forall x :: x in blocks ==> x.pages > 0)
    requires CleanRound(blocks, dirty, a, p, b, q) && At(blocks, b, q) !in dirty
    ensures var n := Next(blocks, b, q);
            && IsPage(blocks, n.0, n.1)
            && (n == (a, p) ==> forall c, r :: IsPage(blocks, c, r) ==> At(blocks, c, r) !in dirty)
            && (n != (a, p) ==> CleanRound(blocks, dirty, a, p, n.0, n.1))
  {
    var n := Next(blocks, b, q);
    NoPageBetween(blocks, a, p, b, q, a, p);
    forall c, r | IsPage(blocks, c, r) && (n == (a, p) || Between(a, p, n.0, n.1, c, r))
      ensures At(blocks, c, r) !in dirty
    {
      NoPageBetween(blocks, a, p, b, q, c, r);
    }
  }

  /** A walk over pages: each is the one after its predecessor, and none comes twice. */
  ghost predicate Walk(blocks: seq<Block>, looked: seq<(int, int)>) {
    && (forall i :: 0 <= i < |looked| ==> IsPage(blocks, looked[i].0, looked[i].1))
    && (forall i :: 0 < i < |looked| ==> looked[i] == Next(blocks, looked[i - 1].0, looked[i - 1].1))
    && (forall i, j :: 0 <= i < j < |looked| ==> looked[i] != looked[j])
  }

  /** The walk has met exactly the pages from (a, p) up to (b, q), going round, and (b, q) comes next. */
  ghost predicate Met(blocks: seq<Block>, looked: seq<(int, int)>, a: int, p: int, b: int, q: int) {
    && Walk(blocks, looked) && IsPage(blocks, b, q)
    && (looked != [] ==> (b, q) == Next(blocks, looked[|looked| - 1].0, looked[|looked| - 1].1))
    && (looked == [] ==> (b, q) == (a, p))
    && (forall c, r :: (c, r) in looked <==> IsPage(blocks, c, r) && Between(a, p, b, q, c, r))
  }

  lemma MetOne(blocks: seq<Block>, looked: seq<(int, int)>, a: int, p: int, b: int, q: int)
    requires Met(blocks, looked, a, p, b, q)
    ensures Walk(blocks, looked + [(b, q)])
  {
    assert (b, q) !in looked;
    var now := looked + [(b, q)];
    forall i | 0 < i < |now| ensures now[i] == Next(blocks, now[i - 1].0, now[i - 1].1) {
      if i < |looked| { assert looked[i] == Next(blocks, looked[i - 1].0, looked[i - 1].1); }
    }
  }

  /** One page further: the walk has met every page, or goes on. */
  lemma MetFurther(blocks: seq<Block>, looked: seq<(int, int)>, a: int, p: int, b: int, q: int)
    requires IsPage(blocks, a, p) && (forall x :: x in blocks ==> x.pages > 0) && Met(blocks, looked, a, p, b, q)
    ensures var n := Next(blocks, b, q);
            && (n == (a, p) ==> forall c, r :: IsPage(blocks, c, r) ==> (c, r) in looked + [(b, q)])
            && (n != (a, p) ==> Met(blocks, looked + [(b, q)], a, p, n.0, n.1))
  {
    var n, now := Next(blocks, b, q), looked + [(b, q)];
    MetOne(blocks, looked, a, p, b, q);
    NoPageBetween(blocks, a, p, b, q, a, p);
    forall c, r | IsPage(blocks, c, r)
      ensures n == (a, p) ==> (c, r) in now
      ensures n != (a, p) ==> ((c, r) in now <==> Between(a, p, n.0, n.1, c, r))
    {
      NoPageBetween(blocks, a, p, b, q, c, r);
      BetweenGrows(blocks, a, p, b, q, c, r);
      assert (c, r) in now <==> (c, r) in looked || (c, r) == (b, q);
    }
    forall c, r | (c, r) in now ensures IsPage(blocks, c, r) {
      assert (c, r) in looked || (c, r) == (b, q);
    }
  }

  lemma BetweenGrows(blocks: seq<Block>, a: int, p: int, b: int, q: int, c: int, r: int)
    requires IsPage(blocks, a, p) && IsPage(blocks, b, q) && IsPage(blocks, c, r)
    ensures var n := Next(blocks, b, q);
            n != (a, p) && (Between(a, p, b, q, c, r) || (c, r) == (b, q)) ==> Between(a, p, n.0, n.1, c, r)
  {
  }

  /** The scan has met the pages from (a, p) up to (b, q), and none of them is dirty. */
  ghost predicate Scanned(s: State, looked: seq<(int, int)>, a: int, p: int, b: int, q: int) {
    && IsPage(s.blocks, a, p) && Met(s.blocks, looked, a, p, b, q) && CleanRound(s.blocks, s.dirty, a, p, b, q)
    && (looked != [] ==> looked[0] == (a, p))
  }

  lemma ScanBegins(s: State, a: int, p: int)
    requires IsPage(s.blocks, a, p)
    ensures Scanned(s, [], a, p, a, p)
  {
  }

  lemma ScanFurther(s: State, looked: seq<(int, int)>, a: int, p: int, b: int, q: int)
    requires Shape(s) && Scanned(s, looked, a, p, b, q) && At(s.blocks, b, q) !in s.dirty
    ensures var n, now := Next(s.blocks, b, q), looked + [(b, q)];
            && Walk(s.blocks, now) && now[0] == (a, p)
            && (n != (a, p) ==> Scanned(s, now, a, p, n.0, n.1))
            && (n == (a, p) ==> s.dirty == {} && forall c, r :: IsPage(s.blocks, c, r) ==> (c, r) in now)
  {
    CleanFurther(s.blocks, s.dirty, a, p, b, q);
    MetOne(s.blocks, looked, a, p, b, q);
    MetFurther(s.blocks, looked, a, p, b, q);
    if Next(s.blocks, b, q) == (a, p) { NothingDirty(s); }
  }

  class Sender {
    var st: State
    var lastBlock: int   // index of last_block, or -1 for NULL
    var lastPage: nat    // last_offset
    var out: Bytes

    ghost function LastName(): Option<Name>
      reads this
    {
      if 0 <= lastBlock < |st.blocks| then Some(st.blocks[lastBlock].name) else None
    }

    /** While last_block is NULL every page is dirty, so the scan stops before it looks at last_block. */
    ghost predicate Valid()
      reads this
    {
      && Shape(st) && st.blocks != [] && UniqueNames(st.blocks) && st.busy == None
      && -1 <= lastBlock < |st.blocks|
      && (lastBlock >= 0 ==> IsPage(st.blocks, lastBlock, lastPage))
      && (lastBlock == -1 ==> lastPage == 0 && st.dirty == st.mem.Keys)
      && Tracks(st, out, LastName())
    }

    /** The scan of ram_save_block: the first dirty page from the last position on, going round once. `looked` are the
        pages it looks at, in order: none twice, and all of them when none is dirty. */
    method FindDirty() returns (found: bool, block: int, page: nat, ghost looked: seq<(int, int)>)
      requires Valid()
      ensures Walk(st.blocks, looked) && looked != []
      ensures looked[0] == (if lastBlock == -1 then 0 else lastBlock, lastPage)
      ensures found ==> looked[|looked| - 1] == (block, page)
      ensures !found ==> forall c, r :: IsPage(st.blocks, c, r) ==> (c, r) in looked
      ensures IsPage(st.blocks, block, page)
      ensures found <==> st.dirty != {}
      ensures found ==> At(st.blocks, block, page) in st.dirty
      ensures found ==> CleanRound(st.blocks, st.dirty, if lastBlock == -1 then 0 else lastBlock, lastPage, block, page)
      ensures !found ==> block == lastBlock && page == lastPage
    {
      FirstPage(st);
      found, block, page, looked := Scan(if lastBlock == -1 then 0 else lastBlock);
    }

    method Scan(a: int) returns (found: bool, block: int, page: nat, ghost looked: seq<(int, int)>)
      requires Shape(st) && IsPage(st.blocks, a, lastPage) && (lastBlock != -1 ==> a == lastBlock)
      requires lastBlock == -1 ==> At(st.blocks, a, lastPage) in st.dirty
      ensures Walk(st.blocks, looked) && looked != [] && looked[0] == (a, lastPage)
      ensures found ==> looked[|looked| - 1] == (block, page)
      ensures !found ==> forall c, r :: IsPage(st.blocks, c, r) ==> (c, r) in looked
      ensures IsPage(st.blocks, block, page)
      ensures found <==> st.dirty != {}
      ensures found ==> At(st.blocks, block, page) in st.dirty
      ensures found ==> CleanRound(st.blocks, st.dirty, a, lastPage, block, page)
      ensures !found ==> block == lastBlock && page == lastPage
    {
      block, page := a, lastPage;
      ghost var wrapped := false;
      looked := [];
      ScanBegins(st, a, lastPage);
      while true
        invariant Scanned(st, looked, a, lastPage, block, page) && (lastBlock != -1 ==> a == lastBlock)
        invariant lastBlock == -1 ==> At(st.blocks, block, page) in st.dirty
        invariant wrapped <==> Before(block, page, a, lastPage)
        decreases !wrapped, |st.blocks| - block, st.blocks[block].pages - page
      {
        if At(st.blocks, block, page) in st.dirty {
          MetOne(st.blocks, looked, a, lastPage, block, page);
          return true, block, page, looked + [(block, page)];
        }
        ScanFurther(st, looked, a, lastPage, block, page);
        looked := looked + [(block, page)];
        block, page := GoOn(block, page);
        assert lastBlock != -1;
        if block == lastBlock && page == lastPage { break; }
        wrapped := Before(block, page, a, lastPage);
      }
      found := false;
    }

    /** The page after this one; behind the last block comes the first. */
    method GoOn(block: int, page: nat) returns (b: int, p: nat)
      requires Shape(st) && IsPage(st.blocks, block, page)
      ensures (b, p) == Next(st.blocks, block, page) && IsPage(st.blocks, b, p)
    {
      b, p := block, page + 1;
      if p >= st.blocks[b].pages {
        p := 0;
        b := b + 1;
        if b == |st.blocks| { b := 0; }
        assert st.blocks[b] in st.blocks;
      }
    }

    /** The assignments of a step that writes nothing to the stream. */
    method Take(t: Step, ghost start: State, ghost run: seq<Step>)
      requires Enabled(st, t) && Shape(st) && !t.Copy? && !t.EndSection? && Leads(start, run, st)
      requires Tracks(st, out, LastName())
      modifies this`st
      ensures st == Apply(old(st), t) && Shape(st) && Leads(start, run + [t], st) && Tracks(st, out, LastName())
    {
      ShapeKept(st, t);
      SilentTracks(st, t, out, LastName());
      One(st, t);
      Then(start, run, st, [t], Apply(st, t));
      st := Apply(st, t);
    }

    /** The guest runs for a while: any number of writes, each logged or marked dirty at once. */
    method GuestRuns(ghost start: State, ghost run0: seq<Step>) returns (ghost run: seq<Step>)
      requires Shape(st) && Tracks(st, out, LastName()) && Leads(start, run0, st)
      modifies this`st
      ensures Shape(st) && Tracks(st, out, LastName()) && Leads(start, run, st) && OnlyWritten(old(st), st)
    {
      run := run0;
      var n: nat := *;
      while n > 0
        invariant Shape(st) && Tracks(st, out, LastName()) && Leads(start, run, st) && OnlyWritten(old(st), st)
      {
        var w: Where := *;
        var logged: bool := *;
        var data: Bytes := *;
        if !st.stopped && w in st.mem && |data| == PAGE {
          Take(Write(w, data, logged), start, run);
          run := run + [Write(w, data, logged)];
        }
        n := n - 1;
      }
    }

    /** The bytes of one page record, as ram_save_block puts them. */
    method PutPage(block: int, page: nat, c: Content)
      requires IsPage(st.blocks, block, page) && |st.blocks[block].name| < 256 && UniqueNames(st.blocks)
      requires -1 <= lastBlock < |st.blocks|
      modifies this`out
      ensures out == old(out) + PageBytes(LastName(), At(st.blocks, block, page), c)
    {
      var name := st.blocks[block].name;
      var cont := block == lastBlock;
      SameName(block);
      ghost var before := out;
      var header := Header(page, cont, c.Dup?);
      out := out + Be64(header);
      if !cont {
        out := out + NameBytes(name);
      }
      ghost var named := if cont then [] else NameBytes(name);
      assert out == before + Be64(header) + named;
      var data := if c.Dup? then [c.ch] else c.data;
      out := out + data;
      Regroup(before, Be64(header), named, data);
      Assoc(Be64(header), named, data);
    }

    /** `offset | cont | flag`. */
    static method Header(page: nat, cont: bool, dup: bool) returns (h: nat)
      ensures h == PAGE * page + (if cont then CONTINUE else 0) + (if dup then COMPRESS else FULL_PAGE)
    {
      var c, f := if cont then CONTINUE else 0, if dup then COMPRESS else FULL_PAGE;
      PageHeaderIsOr(page, c, f);
      h := B.Or(B.Or(PAGE * page, c), f);
    }

    /** The name is left out exactly when it is that of the last page. */
    lemma SameName(block: int)
      requires UniqueNames(st.blocks) && 0 <= block < |st.blocks| && -1 <= lastBlock < |st.blocks|
      ensures block == lastBlock <==> LastName() == Some(st.blocks[block].name)
    {
    }

    /** Reads the page, tests it for equal bytes and decides how to send it; the guest may write meanwhile. */
    method ReadPage(w: Where, ghost start: State, ghost run0: seq<Step>) returns (c: Content, ghost run: seq<Step>)
      requires Shape(st) && Tracks(st, out, LastName()) && Leads(start, run0, st) && w in st.mem
      modifies this`st
      ensures Shape(st) && Tracks(st, out, LastName()) && Leads(start, run, st) && OnlyWritten(old(st), st)
      ensures c.Data? ==> |c.data| == PAGE
      ensures w in st.mem && (old(st).stopped || (w !in st.log && w !in st.dirty) ==> c == Packed(st.mem[w]))
    {
      run := GuestRuns(start, run0);
      var dup := IsDupPage(st.mem[w], st.mem[w][0]);
      ghost var tested := st;
      run := GuestRuns(start, run);
      OnlyWrittenTwice(old(st), tested, st);
      c := if dup then Dup(st.mem[w][0]) else Data(st.mem[w]);
    }

    /** Sends the page at (block, page): the flag is reset before the page is read. */
    method SendPage(block: int, page: nat, ghost start: State, ghost run0: seq<Step>)
      returns (c: Content, ghost run: seq<Step>)
      requires Valid() && IsPage(st.blocks, block, page) && At(st.blocks, block, page) in st.dirty &&
               Leads(start, run0, st)
      modifies this
      ensures Valid() && Leads(start, run, st) && lastBlock == block && lastPage == page
      ensures var w := At(old(st).blocks, block, page);
              && st.open == old(st).open + [Page(w, c)] && st.blocks == old(st).blocks &&
                 st.sections == old(st).sections
              && old(st).dirty - {w} <= st.dirty && st.stopped == old(st).stopped
              && (old(st).stopped ==> st.dirty == old(st).dirty - {w} && st.mem == old(st).mem && st.log == old(st).log)
              && w in st.mem && (old(st).stopped || (w !in st.log && w !in st.dirty) ==> c == Packed(st.mem[w]))
    {
      var w := At(st.blocks, block, page);
      Take(Reset(w), start, run0);
      run := run0 + [Reset(w)];
      c, run := ReadPage(w, start, run);
      assert st.blocks[block] in st.blocks;
      PutCopy(block, page, c, start, run);
      run := run + [Copy(c)];
    }

    /** The record of the page is written, and last_block and last_offset are set. */
    method PutCopy(block: int, page: nat, c: Content, ghost start: State, ghost run: seq<Step>)
      requires Shape(st) && Tracks(st, out, LastName()) && Leads(start, run, st) && Enabled(st, Copy(c))
      requires IsPage(st.blocks, block, page) && |st.blocks[block].name| < 256 && UniqueNames(st.blocks)
      requires -1 <= lastBlock < |st.blocks| && st.busy == Some(At(st.blocks, block, page))
      modifies this
      ensures st == Apply(old(st), Copy(c)) && lastBlock == block && lastPage == page
      ensures Shape(st) && Tracks(st, out, LastName()) && Leads(start, run + [Copy(c)], st)
    {
      PutPage(block, page, c);
      CopyTracks(st, c, old(out), LastName());
      ShapeKept(st, Copy(c));
      One(st, Copy(c));
      Then(start, run, st, [Copy(c)], Apply(st, Copy(c)));
      st := Apply(st, Copy(c));
      lastBlock, lastPage := block, page;
    }

    /** ram_save_block: 0 exactly when no page is dirty; otherwise the first dirty page in cyclic order is
        cleaned and sent. */
    method SaveBlock(ghost start: State, ghost run0: seq<Step>) returns (bytesSent: nat, ghost run: seq<Step>)
      requires Valid() && Leads(start, run0, st)
      modifies this
      ensures Valid() && Leads(start, run, st)
      ensures bytesSent == 0 <==> old(st).dirty == {}
      ensures bytesSent == 0 ==>
              st == old(st) && out == old(out) && lastBlock == old(lastBlock) && lastPage == old(lastPage)
      ensures bytesSent != 0 ==> SentOne(old(st), st, lastBlock, lastPage)
                                 && CleanRound(st.blocks, old(st).dirty,
                                               if old(lastBlock) == -1 then 0 else old(lastBlock),
                                               old(lastPage), lastBlock, lastPage)
      ensures bytesSent != 0 ==>
                var i := st.open[|old(st).open|];
                && bytesSent == (if i.content.Dup? then 1 else PAGE) && i.w in st.mem
                && (old(st).stopped || (i.w !in st.log && i.w !in st.dirty) ==> i.content == Packed(st.mem[i.w]))
    {
      var found, block, page;
      ghost var looked;
      found, block, page, looked := FindDirty();
      if found {
        var c;
        c, run := SendPage(block, page, start, run0);
        bytesSent := if c.Dup? then 1 else PAGE;
      } else {
        lastBlock, lastPage := block, page;
        run, bytesSent := run0, 0;
      }
    }

    /** Stage 1 of ram_save_live, up to its first page: every page is marked dirty, last_block is NULL, and
        the sizes are sent. */
    constructor (blocks: seq<Block>, mem: map<Where, Bytes>)
      requires GoodBlocks(blocks) && blocks != [] && UniqueNames(blocks)
      requires forall w :: (w in mem <==> Belongs(blocks, w)) && (w in mem ==> |mem[w]| == PAGE)
      ensures Valid() && st.blocks == blocks && st.mem == mem && st.log == {}
      ensures forall rx :: SameBlocks(blocks, rx) ==> Init(st, rx)
    {
      var s := State(blocks, mem, {}, mem.Keys, None, false, [], [Sizes]);
      st := s;
      lastBlock, lastPage := -1, 0;
      HeaderIsOr(Total(blocks), MEM_SIZE);
      out := Be64(B.Or(PAGE * Total(blocks), MEM_SIZE)) + ListBytes(blocks);
      new;
      StartTracks(s, out);
    }

    /** ram_save_remaining. */
    method Remaining() returns (n: nat)
      requires Valid()
      ensures n == |st.dirty|
    {
      n := 0;
      ghost var seen: set<Where> := {};
      var b := 0;
      while b < |st.blocks|
        invariant 0 <= b <= |st.blocks| && n == |seen| && Counted(st, b, 0, seen)
      {
        var p := 0;
        while p < st.blocks[b].pages
          invariant 0 <= p <= st.blocks[b].pages && n == |seen| && Counted(st, b, p, seen)
        {
          CountedNext(st, b, p, seen);
          if At(st.blocks, b, p) in st.dirty {
            seen := seen + {At(st.blocks, b, p)};
            n := n + 1;
          }
          p := p + 1;
        }
        CountedNextBlock(st, b, seen);
        b := b + 1;
      }
      CountedAll(st, seen);
    }

    /** The rate-limited loop of ram_save_live, which qemu_file_rate_limit lets go on `budget` times: so many pages are
        sent, or as many as are dirty. */
    method SaveSome(budget: nat, ghost start: State, ghost run0: seq<Step>) returns (ghost run: seq<Step>)
      requires Valid() && Leads(start, run0, st)
      modifies this
      ensures Valid() && Leads(start, run, st) && SentUpTo(old(st), st, budget)
      ensures |st.open| < |old(st).open| + budget ==> st.dirty == {}
    {
      run := run0;
      var left := budget;
      while left > 0
        invariant Valid() && Leads(start, run, st) && SentUpTo(old(st), st, budget)
        invariant left <= budget && |st.open| == |old(st).open| + (budget - left)
      {
        var sent;
        sent, run := SaveBlock(start, run);
        if sent == 0 { break; }
        left := left - 1;
      }
    }

    /** cpu_physical_sync_dirty_bitmap. */
    method SyncDirty(ghost start: State, ghost run: seq<Step>)
      requires Valid() && Leads(start, run, st)
      modifies this`st
      ensures Valid() && Leads(start, run + [Sync], st) &&
              st == old(st).(dirty := old(st).dirty + old(st).log, log := {})
    {
      Take(Sync, start, run);
    }

    /** The EOS record. */
    method PutEos(ghost start: State, ghost run: seq<Step>)
      requires Valid() && Leads(start, run, st)
      modifies this`st, this`out
      ensures Valid() && Leads(start, run + [EndSection], st)
      ensures st == old(st).(sections := old(st).sections + [old(st).open], open := [])
    {
      ShapeKept(st, EndSection);
      EndTracks(st, out, LastName());
      One(st, EndSection);
      Then(start, run, st, [EndSection], Apply(st, EndSection));
      st := Apply(st, EndSection);
      out := out + Be64(EOS);
    }

    /** Stage 2 of ram_save_live, and stage 1 after its header: it synchronises, sends what the limit allows, and closes
        the section. */
    method Iterate(syncs: bool, budget: nat) returns (ghost run: seq<Step>)
      requires Valid()
      modifies this
      ensures Valid() && Leads(old(st), run, st) && st.open == [] && st.blocks == old(st).blocks
      ensures syncs ==> [Sync] <= run
      ensures |st.sections| == |old(st).sections| + 1 && old(st).sections <= st.sections
      ensures var section := st.sections[|old(st).sections|];
              && old(st).open <= section && |section| <= |old(st).open| + budget
              && (|section| < |old(st).open| + budget ==> st.dirty == {})
    {
      ghost var first, mid := [], st;
      LeadsNothing(st);
      if syncs {
        SyncDirty(st, []);
        first, mid := [] + [Sync], st;
      }
      LeadsNothing(st);
      run := SaveSome(budget, mid, []);
      PutEos(mid, run);
      Then(old(st), first, mid, run + [EndSection], st);
      run := first + (run + [EndSection]);
    }

    /** The final flush: with the guest stopped it runs exactly ram_save_remaining times. */
    method Flush(ghost start: State, ghost run0: seq<Step>) returns (n: nat, ghost run: seq<Step>)
      requires Valid() && st.stopped && Leads(start, run0, st)
      modifies this
      ensures Valid() && Leads(start, run, st) && st.dirty == {} && n == |old(st).dirty|
      ensures st.stopped && st.mem == old(st).mem && st.log == old(st).log && st.blocks == old(st).blocks
    {
      run, n := run0, 0;
      var more := true;
      while more
        invariant Valid() && Leads(start, run, st) && n + |st.dirty| == |old(st).dirty| && (!more ==> st.dirty == {})
        invariant st.stopped && st.mem == old(st).mem && st.log == old(st).log && st.blocks == old(st).blocks
        decreases |st.dirty|, more
      {
        var sent;
        sent, run := SaveBlock(start, run);
        more := sent != 0;
        if more { n := n + 1; }
      }
    }

    /** Stage 3 of ram_save_live. */
    method SendRest() returns (ghost run: seq<Step>)
      requires Valid() && st.stopped
      modifies this
      ensures Valid() && Leads(old(st), run, st) && Finished(st) && st.mem == old(st).mem && st.blocks == old(st).blocks
    {
      run := [];
      LeadsNothing(st);
      SyncDirty(st, run);
      var budget: nat := *;
      run := SaveSome(budget, old(st), run + [Sync]);
      var n;
      n, run := Flush(old(st), run);
      PutEos(old(st), run);
      run := run + [EndSection];
    }

    /** After stage 3 the stream loads, without error, to the memory of the source. */
    method Complete(ghost rx: Receiver)
      requires Valid() && st.stopped && Converging(st, rx) && SameBlocks(st.blocks, rx)
      modifies this
      ensures Valid() && Finished(st) && st.mem == old(st).mem
      ensures Loads(rx, st, out)
    {
      ghost var run := SendRest();
      InvariantHolds(old(st), run, rx);
      FinishedLoads(st, rx);
      FinishedEmits(st, out, LastName());
    }
  }

  lemma StartTracks(s: State, out: Bytes)
    requires Shape(s) && s.sections == [] && s.open == [Sizes]
    requires (forall b :: b in s.blocks ==> |b.name| < 256) &&
             out == Be64(PAGE * Total(s.blocks) + MEM_SIZE) + ListBytes(s.blocks)
    ensures Tracks(s, out, None)
  {
    assert [Sizes][1..] == [];
    assert OpenBytes(s.blocks, None, [Sizes]) == out + OpenBytes(s.blocks, None, []);
    assert Sent(s) == [Sizes];
    LastOfOne(None, Sizes);
    assert out + [] == out;
  }

  lemma FinishedEmits(r: State, out: Bytes, last: Option<Name>)
    requires Tracks(r, out, last) && r.open == []
    ensures out == StreamBytes(r.blocks, None, r.sections)
  {
  }

  // ---------------------------------------------------------------- counting

  /** seen holds the dirty pages before (b, p). */
  ghost predicate Counted(s: State, b: int, p: int, seen: set<Where>) {
    && seen <= s.dirty
    && forall c, r :: IsPage(s.blocks, c, r) ==>
       (At(s.blocks, c, r) in seen <==> At(s.blocks, c, r) in s.dirty && Before(c, r, b, p))
  }

  lemma CountedNext(s: State, b: int, p: int, seen: set<Where>)
    requires UniqueNames(s.blocks) && IsPage(s.blocks, b, p) && Counted(s, b, p, seen)
    ensures At(s.blocks, b, p) !in seen
    ensures Counted(s, b, p + 1, if At(s.blocks, b, p) in s.dirty then seen + {At(s.blocks, b, p)} else seen)
  {
  }

  lemma CountedNextBlock(s: State, b: int, seen: set<Where>)
    requires 0 <= b < |s.blocks| && Counted(s, b, s.blocks[b].pages, seen)
    ensures Counted(s, b + 1, 0, seen)
  {
  }

  lemma CountedAll(s: State, seen: set<Where>)
    requires Shape(s) && Counted(s, |s.blocks|, 0, seen)
    ensures seen == s.dirty
  {
    forall w | w in s.dirty ensures w in seen {
      var b := PageIsKnown(s, w);
      assert Before(b, w.page, |s.blocks|, 0);
    }
  }

  /** Exactly the page (block, page) was cleaned and sent; with the guest stopped, nothing else changed. */
  ghost predicate SentOne(s: State, r: State, block: int, page: int) {
    && IsPage(s.blocks, block, page) && At(s.blocks, block, page) in s.dirty
    && r.blocks == s.blocks && r.sections == s.sections && r.stopped == s.stopped
    && s.dirty - {At(s.blocks, block, page)} <= r.dirty
    && |r.open| == |s.open| + 1 && s.open <= r.open && r.open[|s.open|].Page? &&
       r.open[|s.open|].w == At(s.blocks, block, page)
    && (s.stopped ==> r.dirty == s.dirty - {At(s.blocks, block, page)} && r.mem == s.mem && r.log == s.log)
  }

  /** At most n pages have been sent; with the guest stopped, memory and log are as before. */
  ghost predicate SentUpTo(s: State, r: State, n: nat) {
    && r.blocks == s.blocks && r.sections == s.sections && r.stopped == s.stopped
    && s.open <= r.open && |r.open| <= |s.open| + n
    && (s.stopped ==> r.mem == s.mem && r.log == s.log)
  }

  lemma OnlyWrittenTwice(s: State, m: State, r: State)
    requires OnlyWritten(s, m) && OnlyWritten(m, r)
    ensures OnlyWritten(s, r)
  {
  }

  /** Only guest writes have happened, and a page that is neither logged nor dirty is untouched. */
  ghost predicate OnlyWritten(s: State, r: State) {
    && r == s.(mem := r.mem, log := r.log, dirty := r.dirty)
    && s.log <= r.log && s.dirty <= r.dirty && (s.stopped ==> r == s)
    && forall w :: w in s.mem && w !in r.log && w !in r.dirty ==> w in r.mem && r.mem[w] == s.mem[w]
  }

  lemma NothingDirty(s: State)
    requires Shape(s) && forall c, r :: IsPage(s.blocks, c, r) ==> At(s.blocks, c, r) !in s.dirty
    ensures s.dirty == {}
  {
    if w :| w in s.dirty {
      var b := PageIsKnown(s, w);
    }
  }

  lemma FirstPage(s: State)
    requires Shape(s) && s.blocks != []
    ensures IsPage(s.blocks, 0, 0) && At(s.blocks, 0, 0) in s.mem
  {
    assert s.blocks[0] in s.blocks;
  }
}
