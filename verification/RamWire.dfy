/** The wire format of RAM migration (arch_init.c): what the sender writes into the stream, byte by byte,
    and ram_load, version 4, which reads it. The receiver remembers the block of the last page, so that
    the sender may leave out its name. */
module RamWire {
  import B = Bitops

  type Byte = x: int | 0 <= x < 256

  type Bytes = seq<Byte>

  /** TARGET_PAGE_SIZE. */
  const PAGE: nat := 4096

  const COMPRESS: nat := 0x02
  const MEM_SIZE: nat := 0x04
  const FULL_PAGE: nat := 0x08
  const EOS: nat := 0x10
  const CONTINUE: nat := 0x20

  predicate Has(flags: nat, flag: nat)
    requires flag > 0
  {
    flags / flag % 2 == 1
  }

  /** The header `offset | flags` is a sum, because the offset is page aligned. */
  lemma HeaderIsOr(page: nat, flags: nat)
    requires flags < PAGE
    ensures B.Or(PAGE * page, flags) == PAGE * page + flags
  {
    PageIsPower();
    OrDisjoint(page, flags, 12);
  }

  /** So is `offset | cont | flag`, the header of a page. */
  lemma PageHeaderIsOr(page: nat, c: nat, f: nat)
    requires (c == 0 || c == CONTINUE) && f < CONTINUE
    ensures B.Or(B.Or(PAGE * page, c), f) == PAGE * page + c + f
  {
    HeaderIsOr(page, c);
    assert B.Pow2(5) == CONTINUE;
    OrDisjoint(128 * page + if c == 0 then 0 else 1, f, 5);
  }

  lemma PageIsPower()
    ensures B.Pow2(12) == PAGE
  {
    assert B.Pow2(4) == 16;
    B.PowAdd(4, 4);
    B.PowAdd(4, 8);
  }

  lemma {:induction false} OrDisjoint(page: nat, flags: nat, n: nat)
    requires flags < B.Pow2(n)
    ensures B.Or(B.Pow2(n) * page, flags) == B.Pow2(n) * page + flags
  {
    if n == 0 {
      OrZero(page);
    } else {
      var q := B.Pow2(n - 1) * page;
      assert B.Pow2(n) * page == 2 * q;
      OrDisjoint(page, flags / 2, n - 1);
      OrDoubled(q, flags);
    }
  }

  lemma OrDoubled(q: nat, flags: nat)
    ensures B.Or(2 * q, flags) == 2 * B.Or(q, flags / 2) + flags % 2
  {
    assert (2 * q) / 2 == q && (2 * q) % 2 == 0;
  }

  lemma {:induction false} OrZero(a: nat)
    ensures B.Or(a, 0) == a
  {
    if a > 0 { OrZero(a / 2); }
  }

  // ---------------------------------------------------------------- big-endian numbers

  function Pow256(n: nat): nat { if n == 0 then 1 else 256 * Pow256(n - 1) }

  /** qemu_put_be64 and its parts. */
  function ToBe(v: nat, n: nat): (s: Bytes)
    ensures |s| == n
  {
    if n == 0 then [] else ToBe(v / 256, n - 1) + [v % 256]
  }

  function FromBe(s: Bytes): nat { if s == [] then 0 else 256 * FromBe(s[..|s| - 1]) + s[|s| - 1] }

  lemma {:induction false} FromToBe(v: nat, n: nat)
    requires v < Pow256(n)
    ensures FromBe(ToBe(v, n)) == v
  {
    if n > 0 {
      var s := ToBe(v, n);
      assert s[..|s| - 1] == ToBe(v / 256, n - 1);
      FromToBe(v / 256, n - 1);
    }
  }

  /** v >> 8 * k. */
  function Shifted(v: nat, k: nat): nat { if k == 0 then v else Shifted(v / 256, k - 1) }

  /** The most significant byte comes first. */
  lemma {:induction false} ByteOfBe(v: nat, n: nat, i: nat)
    requires i < n
    ensures ToBe(v, n)[i] == Shifted(v, n - 1 - i) % 256
  {
    if i < n - 1 { ByteOfBe(v / 256, n - 1, i); }
  }

  const LIMIT: nat := 0x1_0000_0000_0000_0000

  lemma Pow256Of8()
    ensures Pow256(8) == LIMIT
  {
    assert Pow256(4) == 0x1_0000_0000;
    assert Pow256(6) == 0x1_0000_0000_0000;
  }

  function Be64(v: nat): Bytes { ToBe(v, 8) }

  lemma Read64(v: nat, rest: Bytes)
    requires v < LIMIT
    ensures FromBe((Be64(v) + rest)[..8]) == v && (Be64(v) + rest)[8..] == rest
  {
    Pow256Of8();
    FromToBe(v, 8);
    assert (Be64(v) + rest)[..8] == Be64(v);
  }

  // ---------------------------------------------------------------- receiver

  type Name = Bytes

  /** A C string ends at its first zero byte. */
  function CStr(s: Bytes): Name { if s == [] || s[0] == 0 then [] else [s[0]] + CStr(s[1..]) }

  predicate IsCStr(s: Bytes) { |s| < 256 && forall i :: 0 <= i < |s| ==> s[i] != 0 }

  lemma {:induction false} CStrOfCStr(s: Bytes)
    requires forall i :: 0 <= i < |s| ==> s[i] != 0
    ensures CStr(s) == s
  {
    if s != [] { CStrOfCStr(s[1..]); }
  }

  datatype Option<T> = None | Some(value: T)

  /** A page of a block. */
  datatype Where = Where(block: Name, page: nat)

  /** ram_list of the destination, in pages per block, with its memory and the remembered block. */
  datatype Receiver = Receiver(lens: map<Name, nat>, cur: Option<Name>, mem: map<Where, Bytes>)

  /** Stray: the source does not check, and writes outside of the block or through a null pointer. */
  datatype Result = Fail | Stray | Ok(rx: Receiver, rest: Bytes)

  /** The length byte of a name. */
  function Len(s: Bytes): nat
    requires s != []
  {
    s[0]
  }

  /** host_from_stream_offset: the block that the page belongs to. An unknown name clears the memory of
      it; the caller then fails. */
  datatype Host = NoHost | Host(block: Name, rest: Bytes)

  function HostFromStream(rx: Receiver, flags: nat, s: Bytes): Host {
    if Has(flags, CONTINUE) then
      (if rx.cur == None then NoHost else Host(rx.cur.value, s))
    else if s == [] || |s| < 1 + Len(s) then NoHost
    else
      var id := CStr(s[1..1 + Len(s)]);
      if id in rx.lens then Host(id, s[1 + Len(s)..]) else NoHost
  }

  /** The loop that checks the sender's block list. */
  function CheckBlocks(rx: Receiver, total: nat, s: Bytes): Result
    decreases |s|
  {
    if total == 0 then Ok(rx, s)
    else if s == [] || |s| < 9 + Len(s) then Fail
    else
      var id := CStr(s[1..1 + Len(s)]);
      var length := FromBe(s[1 + Len(s)..9 + Len(s)]);
      if id !in rx.lens || PAGE * rx.lens[id] != length then Fail
      else CheckBlocks(rx, (total - length) % LIMIT, s[9 + Len(s)..])
  }

  /** A page whose bytes are all equal. */
  function Filled(ch: Byte): Bytes { seq(PAGE, _ => ch) }

  function Store(rx: Receiver, block: Name, page: nat, data: Bytes): Receiver {
    rx.(cur := Some(block), mem := rx.mem[Where(block, page) := data])
  }

  /** The page that follows a header, if any. Only a compressed page is refused when its block is not found. */
  function LoadPage(rx: Receiver, flags: nat, page: nat, s: Bytes): Result {
    if Has(flags, COMPRESS) then
      var h := HostFromStream(rx, flags, s);
      if h == NoHost then Fail
      else if Where(h.block, page) !in rx.mem then Stray
      else if h.rest == [] then Fail
      else Ok(Store(rx, h.block, page, Filled(h.rest[0])), h.rest[1..])
    else if Has(flags, FULL_PAGE) then
      var h := HostFromStream(rx, flags, s);
      if h == NoHost || Where(h.block, page) !in rx.mem then Stray
      else if |h.rest| < PAGE then Fail
      else Ok(Store(rx, h.block, page, h.rest[..PAGE]), h.rest[PAGE..])
    else Ok(rx, s)
  }

  lemma {:induction false} CheckBlocksShrinks(rx: Receiver, total: nat, s: Bytes)
    ensures CheckBlocks(rx, total, s).Ok? ==> |CheckBlocks(rx, total, s).rest| <= |s|
    decreases |s|
  {
    if total != 0 && s != [] && |s| >= 9 + Len(s) {
      CheckBlocksShrinks(rx, (total - FromBe(s[1 + Len(s)..9 + Len(s)])) % LIMIT, s[9 + Len(s)..]);
    }
  }

  /** One turn of the loop in ram_load, up to the test for the end of the section. */
  function LoadRecord(rx: Receiver, s: Bytes): (r: Result)
    requires |s| >= 8
    ensures r.Ok? ==> |r.rest| < |s|
  {
    var h := FromBe(s[..8]);
    LoadBody(rx, h % PAGE, h / PAGE, s[8..])
  }

  /** What follows the header of a record. */
  function LoadBody(rx: Receiver, flags: nat, page: nat, s: Bytes): (r: Result)
    ensures r.Ok? ==> |r.rest| <= |s|
  {
    var sized := if Has(flags, MEM_SIZE) then CheckBlocks(rx, PAGE * page, s) else Ok(rx, s);
    CheckBlocksShrinks(rx, PAGE * page, s);
    if !sized.Ok? then sized else LoadPage(sized.rx, flags, page, sized.rest)
  }

  /** ram_load: one section, up to and including its EOS record. */
  function Load(rx: Receiver, s: Bytes): Result
    decreases |s|
  {
    if |s| < 8 then Fail
    else
      var r := LoadRecord(rx, s);
      if !r.Ok? then r
      else if Has(FromBe(s[..8]) % PAGE, EOS) then r
      else Load(r.rx, r.rest)
  }

  // ---------------------------------------------------------------- sender

  /** A RAMBlock of the source: its idstr and its length in pages. */
  datatype Block = Block(name: Name, pages: nat)

  /** The payload of a page: one byte for a page whose bytes are equal, else the bytes. */
  datatype Content = Dup(ch: Byte) | Data(data: Bytes)

  function Expand(c: Content): Bytes { if c.Dup? then Filled(c.ch) else c.data }

  function NameBytes(name: Name): Bytes
    requires |name| < 256
  {
    [|name|] + name
  }

  /** What ram_save_block writes for one page; `last` is the block of the page before. */
  function PageBytes(last: Option<Name>, w: Where, c: Content): Bytes
    requires |w.block| < 256
  {
    var cont := last == Some(w.block);
    Be64(PAGE * w.page + (if cont then CONTINUE else 0) + (if c.Dup? then COMPRESS else FULL_PAGE))
    + (if cont then [] else NameBytes(w.block))
    + (if c.Dup? then [c.ch] else c.data)
  }

  /** The block list that stage 1 writes. */
  function ListBytes(blocks: seq<Block>): Bytes
    requires forall b :: b in blocks ==> |b.name| < 256
  {
    if blocks == [] then [] else NameBytes(blocks[0].name) + Be64(PAGE * blocks[0].pages) + ListBytes(blocks[1..])
  }

  /** ram_bytes_total, in pages. */
  function Total(blocks: seq<Block>): nat { if blocks == [] then 0 else blocks[0].pages + Total(blocks[1..]) }

  datatype Item = Sizes | Page(w: Where, content: Content)

  function ItemBytes(blocks: seq<Block>, last: Option<Name>, i: Item): Bytes
    requires forall b :: b in blocks ==> |b.name| < 256
    requires i.Page? ==> |i.w.block| < 256
  {
    if i.Sizes? then Be64(PAGE * Total(blocks) + MEM_SIZE) + ListBytes(blocks) else PageBytes(last, i.w, i.content)
  }

  function LastAfter(last: Option<Name>, i: Item): Option<Name> { if i.Page? then Some(i.w.block) else last }

  predicate ShortNames(items: seq<Item>) { forall i :: i in items && i.Page? ==> |i.w.block| < 256 }

  /** A section of the stream: its items and the end mark. */
  function SectionBytes(blocks: seq<Block>, last: Option<Name>, items: seq<Item>): Bytes
    requires forall b :: b in blocks ==> |b.name| < 256
    requires ShortNames(items)
    decreases |items|
  {
    if items == [] then Be64(EOS)
    else ItemBytes(blocks, last, items[0]) + SectionBytes(blocks, LastAfter(last, items[0]), items[1..])
  }

  /** What the items mean: each page is stored in its place. */
  function Replay(rx: Receiver, items: seq<Item>): Receiver
    decreases |items|
  {
    if items == [] then rx
    else
      Replay(if items[0].Page? then Store(rx, items[0].w.block, items[0].w.page, Expand(items[0].content))
             else rx,
             items[1..])
  }

  // ---------------------------------------------------------------- the format

  /** The name is sent only with the first of several pages of one block, and one byte stands for a page of equal
      bytes. */
  lemma PageLength(last: Option<Name>, w: Where, c: Content)
    requires |w.block| < 256 && (c.Data? ==> |c.data| == PAGE)
    ensures |PageBytes(last, w, c)| ==
            8 + (if last == Some(w.block) then 0 else 1 + |w.block|) + (if c.Dup? then 1 else PAGE)
  {
  }

  /** The records byte by byte, for a block "a" of two pages and its second page. */
  lemma Records(d: Bytes)
    ensures Be64(EOS) == [0, 0, 0, 0, 0, 0, 0, 0x10]
    ensures ItemBytes([Block([97], 2)], None, Sizes) ==
            [0, 0, 0, 0, 0, 0, 0x20, 0x04] + ([1, 97] + [0, 0, 0, 0, 0, 0, 0x20, 0])
    ensures PageBytes(None, Where([97], 1), Dup(7)) == [0, 0, 0, 0, 0, 0, 0x10, 0x02] + [1, 97] + [7]
    ensures PageBytes(Some([97]), Where([97], 1), Dup(7)) == [0, 0, 0, 0, 0, 0, 0x10, 0x22] + [7]
    ensures PageBytes(None, Where([97], 1), Data(d)) == [0, 0, 0, 0, 0, 0, 0x10, 0x08] + [1, 97] + d
    ensures PageBytes(Some([97]), Where([97], 1), Data(d)) == [0, 0, 0, 0, 0, 0, 0x10, 0x28] + d
  {
    Small(0x10);
    Small(0x2004);
    Small(0x2000);
    Small(0x1002);
    Small(0x1022);
    Small(0x1008);
    Small(0x1028);
    OneEntry(Block([97], 2));
  }

  lemma Small(v: nat)
    requires v < 0x10000
    ensures Be64(v) == [0, 0, 0, 0, 0, 0, v / 256, v % 256]
  {
    Zeros(v / 256 / 256, 6);
    assert ToBe(v, 8) == ToBe(v / 256 / 256, 6) + [v / 256 % 256] + [v % 256];
  }

  lemma {:induction false} Zeros(v: nat, n: nat)
    requires v == 0
    ensures ToBe(v, n) == seq(n, _ => 0)
  {
    if n > 0 { Zeros(v / 256, n - 1); }
  }

  lemma OneEntry(b: Block)
    requires |b.name| < 256
    ensures ListBytes([b]) == NameBytes(b.name) + Be64(PAGE * b.pages) && Total([b]) == b.pages
  {
    assert [b][1..] == [];
    assert ListBytes([b]) == NameBytes(b.name) + Be64(PAGE * b.pages) + ListBytes([b][1..]);
    assert Total([b]) == b.pages + Total([b][1..]);
  }

  // ---------------------------------------------------------------- the stream parses back

  /** Blocks as RAM migration has them: named by C strings, not empty, and addressable. */
  ghost predicate GoodBlocks(blocks: seq<Block>) {
    && (forall b :: b in blocks ==> IsCStr(b.name) && b.pages > 0)
    && PAGE * Total(blocks) < LIMIT
  }

  /** The destination has the same blocks, in any order, and memory for all their pages. */
  ghost predicate SameBlocks(blocks: seq<Block>, rx: Receiver) {
    && (forall b :: b in blocks ==> b.name in rx.lens && rx.lens[b.name] == b.pages)
    && (forall b, p :: b in blocks && 0 <= p < b.pages ==> Where(b.name, p) in rx.mem)
  }

  ghost predicate Belongs(blocks: seq<Block>, w: Where) {
    exists b :: b in blocks && b.name == w.block && w.page < b.pages
  }

  ghost predicate GoodItem(blocks: seq<Block>, i: Item) {
    i.Page? ==> Belongs(blocks, i.w) && (i.content.Data? ==> |i.content.data| == PAGE)
  }

  lemma ReadName(name: Name, rest: Bytes)
    requires IsCStr(name)
    ensures var s := NameBytes(name) + rest;
            Len(s) == |name| && CStr(s[1..1 + Len(s)]) == name && s[1 + Len(s)..] == rest
  {
    var s := NameBytes(name) + rest;
    assert s[1..1 + |name|] == name;
    CStrOfCStr(name);
  }

  lemma {:induction false} TotalAtLeast(blocks: seq<Block>, b: Block)
    requires b in blocks
    ensures b.pages <= Total(blocks)
  {
    if b != blocks[0] { TotalAtLeast(blocks[1..], b); }
  }

  lemma ReadEntry(b: Block, tail: Bytes)
    requires IsCStr(b.name) && PAGE * b.pages < LIMIT
    ensures var s := NameBytes(b.name) + (Be64(PAGE * b.pages) + tail);
            && |s| >= 9 + Len(s) && CStr(s[1..1 + Len(s)]) == b.name
            && FromBe(s[1 + Len(s)..9 + Len(s)]) == PAGE * b.pages && s[9 + Len(s)..] == tail
  {
    var s := NameBytes(b.name) + (Be64(PAGE * b.pages) + tail);
    ReadName(b.name, Be64(PAGE * b.pages) + tail);
    Read64(PAGE * b.pages, tail);
    assert s[1 + Len(s)..9 + Len(s)] == s[1 + Len(s)..][..8];
    assert s[9 + Len(s)..] == s[1 + Len(s)..][8..];
  }

  /** The receiver has a block of this name and length. */
  predicate Agrees(rx: Receiver, b: Block) { b.name in rx.lens && rx.lens[b.name] == b.pages }

  /** The check of one entry: what follows decides, if the receiver agrees with it. */
  lemma EntryExact(rx: Receiver, b: Block, left: nat, tail: Bytes, total: nat, all: Bytes, r: Result)
    requires IsCStr(b.name) && b.pages > 0 && CheckBlocks(rx, left, tail) == r
    requires total == PAGE * b.pages + left < LIMIT && all == NameBytes(b.name) + (Be64(PAGE * b.pages) + tail)
    ensures CheckBlocks(rx, total, all) == if Agrees(rx, b) then r else Fail
  {
    ReadEntry(b, tail);
    CheckOne(rx, total, all, b, left, tail, r);
  }

  lemma CheckOne(rx: Receiver, total: nat, s: Bytes, b: Block, left: nat, tail: Bytes, r: Result)
    requires 0 < total == PAGE * b.pages + left < LIMIT && left < total && CheckBlocks(rx, left, tail) == r
    requires s != [] && |s| >= 9 + Len(s) && CStr(s[1..1 + Len(s)]) == b.name && s[9 + Len(s)..] == tail
    requires FromBe(s[1 + Len(s)..9 + Len(s)]) == PAGE * b.pages
    ensures CheckBlocks(rx, total, s) == if Agrees(rx, b) then r else Fail
  {
  }

  /** The receiver accepts the sender's list if and only if it has a block of each name and length in it. */
  lemma {:induction false} ListExact(rx: Receiver, blocks: seq<Block>, rest: Bytes)
    requires GoodBlocks(blocks)
    ensures CheckBlocks(rx, PAGE * Total(blocks), ListBytes(blocks) + rest) ==
            if forall b :: b in blocks ==> Agrees(rx, b) then Ok(rx, rest) else Fail
    decreases |blocks|
  {
    if blocks == [] {
      assert ListBytes(blocks) + rest == rest;
    } else {
      FewerBlocks(blocks);
      ShortBlockNames(blocks);
      ListExact(rx, blocks[1..], rest);
      ListHead(blocks, rest);
      EntryExact(rx, blocks[0], PAGE * Total(blocks[1..]), ListBytes(blocks[1..]) + rest,
                 PAGE * Total(blocks), ListBytes(blocks) + rest,
                 if forall b :: b in blocks[1..] ==> Agrees(rx, b) then Ok(rx, rest) else Fail);
    }
  }

  lemma FewerBlocks(blocks: seq<Block>)
    requires GoodBlocks(blocks) && blocks != []
    ensures GoodBlocks(blocks[1..]) && IsCStr(blocks[0].name) && blocks[0].pages > 0
    ensures forall b :: b in blocks <==> b == blocks[0] || b in blocks[1..]
  {
    assert blocks == [blocks[0]] + blocks[1..];
  }

  /** The sender's list passes the check of a destination with the same blocks. */
  lemma ListPasses(rx: Receiver, blocks: seq<Block>, rest: Bytes)
    requires GoodBlocks(blocks) && SameBlocks(blocks, rx)
    ensures CheckBlocks(rx, PAGE * Total(blocks), ListBytes(blocks) + rest) == Ok(rx, rest)
  {
    ListExact(rx, blocks, rest);
  }

  lemma ListHead(blocks: seq<Block>, rest: Bytes)
    requires blocks != [] && forall b :: b in blocks ==> |b.name| < 256
    ensures blocks[0] in blocks && forall b :: b in blocks[1..] ==> b in blocks
    ensures ListBytes(blocks) + rest ==
            NameBytes(blocks[0].name) + (Be64(PAGE * blocks[0].pages) + (ListBytes(blocks[1..]) + rest))
  {
    var b := blocks[0];
    assert b in blocks;
    Regroup(NameBytes(b.name), Be64(PAGE * b.pages), ListBytes(blocks[1..]), rest);
  }

  lemma Regroup(a: Bytes, b: Bytes, c: Bytes, d: Bytes)
    ensures a + b + c + d == a + (b + (c + d))
  {
  }

  /** A header splits into the page and its flags. */
  lemma HeaderSplits(page: nat, f: nat)
    requires f < PAGE
    ensures (PAGE * page + f) % PAGE == f && (PAGE * page + f) / PAGE == page
  {
  }

  lemma FlagsDecode(cont: bool, dup: bool)
    ensures var f := (if cont then CONTINUE else 0) + (if dup then COMPRESS else FULL_PAGE);
            && Has(f, CONTINUE) == cont && Has(f, COMPRESS) == dup && Has(f, FULL_PAGE) == !dup
            && !Has(f, MEM_SIZE) && !Has(f, EOS)
  {
  }

  /** The header of a page, decoded. */
  lemma HeaderDecodes(page: nat, cont: bool, dup: bool)
    ensures var f := (if cont then CONTINUE else 0) + (if dup then COMPRESS else FULL_PAGE);
            && (PAGE * page + f) % PAGE == f && (PAGE * page + f) / PAGE == page
            && Has(f, CONTINUE) == cont && Has(f, COMPRESS) == dup && Has(f, FULL_PAGE) == !dup
            && !Has(f, MEM_SIZE) && !Has(f, EOS)
  {
    HeaderSplits(page, (if cont then CONTINUE else 0) + (if dup then COMPRESS else FULL_PAGE));
    FlagsDecode(cont, dup);
  }

  /** The block in which the receiver puts a page: the one named, if it has it, or without a name the one before. */
  function HostOf(rx: Receiver, cont: bool, block: Name): Option<Name> {
    if cont then rx.cur else if block in rx.lens then Some(block) else None
  }

  lemma HostFound(rx: Receiver, block: Name, flags: nat, payload: Bytes)
    requires IsCStr(block)
    ensures var cont := Has(flags, CONTINUE);
            HostFromStream(rx, flags, (if cont then [] else NameBytes(block)) + payload) ==
              match HostOf(rx, cont, block) case None => NoHost case Some(b) => Host(b, payload)
  {
    if Has(flags, CONTINUE) {
      assert [] + payload == payload;
    } else {
      ReadName(block, payload);
    }
  }

  /** The first record of s is not an end record and gives r. */
  ghost predicate Reads(rx: Receiver, s: Bytes, r: Result) {
    |s| >= 8 && !Has(FromBe(s[..8]) % PAGE, EOS) && LoadRecord(rx, s) == r
  }

  /** It takes rx to rx1, leaving rest. */
  ghost predicate ReadsAs(rx: Receiver, s: Bytes, rx1: Receiver, rest: Bytes) { Reads(rx, s, Ok(rx1, rest)) }

  lemma RecordIs(rx: Receiver, h: nat, body: Bytes)
    requires h < LIMIT
    ensures var s := Be64(h) + body; FromBe(s[..8]) == h && LoadRecord(rx, s) == LoadBody(rx, h % PAGE, h / PAGE, body)
  {
    Read64(h, body);
  }

  lemma RecordWithoutSizes(rx: Receiver, h: nat, body: Bytes)
    requires h < LIMIT && !Has(h % PAGE, MEM_SIZE)
    ensures var s := Be64(h) + body; FromBe(s[..8]) == h && LoadRecord(rx, s) == LoadPage(rx, h % PAGE, h / PAGE, body)
  {
    RecordIs(rx, h, body);
  }

  /** The parts of a page record: its flags, and what follows the header. */
  function FlagsOf(cont: bool, c: Content): nat {
    (if cont then CONTINUE else 0) + (if c.Dup? then COMPRESS else FULL_PAGE)
  }

  function BodyOf(cont: bool, block: Name, c: Content, rest: Bytes): Bytes
    requires |block| < 256
  {
    (if cont then [] else NameBytes(block)) + ((if c.Dup? then [c.ch] else c.data) + rest)
  }

  /** What becomes of a page record at the receiver. */
  function Arrival(rx: Receiver, cont: bool, w: Where, c: Content, rest: Bytes): Result {
    match HostOf(rx, cont, w.block)
    case None => if c.Dup? then Fail else Stray
    case Some(b) =>
      if Where(b, w.page) in rx.mem then Ok(Store(rx, b, w.page, Expand(c)), rest) else Stray
  }

  lemma PayloadExact(rx: Receiver, w: Where, cont: bool, c: Content, rest: Bytes)
    requires IsCStr(w.block) && (c.Data? ==> |c.data| == PAGE)
    ensures FlagsOf(cont, c) < PAGE && !Has(FlagsOf(cont, c), MEM_SIZE) && !Has(FlagsOf(cont, c), EOS)
    ensures LoadPage(rx, FlagsOf(cont, c), w.page, BodyOf(cont, w.block, c, rest)) == Arrival(rx, cont, w, c, rest)
  {
    var data := if c.Dup? then [c.ch] else c.data;
    HeaderDecodes(w.page, cont, c.Dup?);
    HostFound(rx, w.block, FlagsOf(cont, c), data + rest);
    assert (data + rest)[..|data|] == data && (data + rest)[|data|..] == rest;
  }

  lemma PageBytesAre(last: Option<Name>, w: Where, c: Content, rest: Bytes)
    requires |w.block| < 256
    ensures var cont := last == Some(w.block);
            PageBytes(last, w, c) + rest == Be64(PAGE * w.page + FlagsOf(cont, c)) + BodyOf(cont, w.block, c, rest)
  {
    var cont := last == Some(w.block);
    var head, name := Be64(PAGE * w.page + FlagsOf(cont, c)), if cont then [] else NameBytes(w.block);
    var data := if c.Dup? then [c.ch] else c.data;
    PageParts(last, w, c, head, name, data);
    Regroup(head, name, data, rest);
  }

  lemma PageParts(last: Option<Name>, w: Where, c: Content, head: Bytes, name: Bytes, data: Bytes)
    requires |w.block| < 256
    requires head == Be64(PAGE * w.page + FlagsOf(last == Some(w.block), c))
    requires name == (if last == Some(w.block) then [] else NameBytes(w.block))
    requires data == if c.Dup? then [c.ch] else c.data
    ensures PageBytes(last, w, c) == head + name + data
  {
  }

  lemma PageReads(rx: Receiver, w: Where, cont: bool, c: Content, rest: Bytes, s: Bytes)
    requires IsCStr(w.block) && PAGE * w.page + PAGE < LIMIT && (c.Data? ==> |c.data| == PAGE)
    requires s == Be64(PAGE * w.page + FlagsOf(cont, c)) + BodyOf(cont, w.block, c, rest)
    ensures Reads(rx, s, Arrival(rx, cont, w, c, rest))
  {
    PayloadExact(rx, w, cont, c, rest);
    RecordReads(rx, w.page, FlagsOf(cont, c), BodyOf(cont, w.block, c, rest), Arrival(rx, cont, w, c, rest), s);
  }

  lemma RecordReads(rx: Receiver, page: nat, f: nat, body: Bytes, r: Result, s: Bytes)
    requires PAGE * page + PAGE < LIMIT && f < PAGE && !Has(f, MEM_SIZE) && !Has(f, EOS)
    requires LoadPage(rx, f, page, body) == r && s == Be64(PAGE * page + f) + body
    ensures Reads(rx, s, r)
  {
    HeaderSplits(page, f);
    RecordWithoutSizes(rx, PAGE * page + f, body);
  }

  /** A page record, at any receiver: it is stored if and only if its block is known, or is remembered when the name is
      left out, and has the page; a compressed one whose block is not found is refused. */
  lemma PageExact(rx: Receiver, last: Option<Name>, w: Where, c: Content, rest: Bytes)
    requires IsCStr(w.block) && PAGE * w.page + PAGE < LIMIT && (c.Data? ==> |c.data| == PAGE)
    ensures Reads(rx, PageBytes(last, w, c) + rest, Arrival(rx, last == Some(w.block), w, c, rest))
  {
    PageBytesAre(last, w, c, rest);
    PageReads(rx, w, last == Some(w.block), c, rest, PageBytes(last, w, c) + rest);
  }

  /** One page record is read back as the page that was sent. */
  lemma PageParses(rx: Receiver, last: Option<Name>, w: Where, c: Content, rest: Bytes)
    requires IsCStr(w.block) && w.block in rx.lens && w in rx.mem && PAGE * w.page + PAGE < LIMIT
    requires c.Data? ==> |c.data| == PAGE
    requires last == Some(w.block) ==> rx.cur == last
    ensures var s := PageBytes(last, w, c) + rest;
            ReadsAs(rx, s, Store(rx, w.block, w.page, Expand(c)), rest)
  {
    PageExact(rx, last, w, c, rest);
  }

  /** ram_load stops at the first record that it does not accept. */
  lemma LoadStops(rx: Receiver, s: Bytes, r: Result)
    requires Reads(rx, s, r) && !r.Ok?
    ensures Load(rx, s) == r
  {
  }

  /** So it refuses a stream whose block list does not agree with its own blocks. */
  lemma SizesRefused(rx: Receiver, blocks: seq<Block>, rest: Bytes)
    requires GoodBlocks(blocks) && exists b :: b in blocks && !Agrees(rx, b)
    ensures (forall b :: b in blocks ==> |b.name| < 256) && Load(rx, ItemBytes(blocks, None, Sizes) + rest) == Fail
  {
    ShortBlockNames(blocks);
    ListExact(rx, blocks, rest);
    SizeHeaderFits(Total(blocks));
    RefusedSizes(rx, Total(blocks), ListBytes(blocks) + rest);
    assert ItemBytes(blocks, None, Sizes) + rest ==
           Be64(PAGE * Total(blocks) + MEM_SIZE) + (ListBytes(blocks) + rest);
  }

  lemma RefusedSizes(rx: Receiver, n: nat, body: Bytes)
    requires PAGE * n + MEM_SIZE < LIMIT && CheckBlocks(rx, PAGE * n, body) == Fail
    ensures Load(rx, Be64(PAGE * n + MEM_SIZE) + body) == Fail
  {
    HeaderSplits(n, MEM_SIZE);
    RecordIs(rx, PAGE * n + MEM_SIZE, body);
    assert Has(MEM_SIZE, MEM_SIZE);
  }

  lemma RecordWithSizes(rx: Receiver, n: nat, body: Bytes, rest: Bytes)
    requires PAGE * n < LIMIT && CheckBlocks(rx, PAGE * n, body) == Ok(rx, rest)
    ensures var s := Be64(PAGE * n + MEM_SIZE) + body;
            ReadsAs(rx, s, rx, rest)
  {
    SizeHeaderFits(n);
    RecordIs(rx, PAGE * n + MEM_SIZE, body);
    SizesBody(rx, n, body, rest);
  }

  lemma SizesBody(rx: Receiver, n: nat, body: Bytes, rest: Bytes)
    requires CheckBlocks(rx, PAGE * n, body) == Ok(rx, rest)
    ensures !Has(MEM_SIZE, EOS) && LoadBody(rx, MEM_SIZE, n, body) == Ok(rx, rest)
  {
  }

  lemma SizesParse(rx: Receiver, blocks: seq<Block>, rest: Bytes, n: nat, list: Bytes)
    requires GoodBlocks(blocks) && SameBlocks(blocks, rx) && n == Total(blocks) && list == ListBytes(blocks)
    ensures ReadsAs(rx, Be64(PAGE * n + MEM_SIZE) + list + rest, rx, rest)
  {
    ListPasses(rx, blocks, rest);
    SizesRecord(rx, n, list, rest);
  }

  lemma ShortBlockNames(blocks: seq<Block>)
    requires GoodBlocks(blocks)
    ensures PAGE * Total(blocks) < LIMIT && forall b :: b in blocks ==> |b.name| < 256
  {
  }

  lemma SizesRecord(rx: Receiver, n: nat, list: Bytes, rest: Bytes)
    requires PAGE * n < LIMIT && CheckBlocks(rx, PAGE * n, list + rest) == Ok(rx, rest)
    ensures var s := Be64(PAGE * n + MEM_SIZE) + list + rest;
            ReadsAs(rx, s, rx, rest)
  {
    var head := Be64(PAGE * n + MEM_SIZE);
    assert head + list + rest == head + (list + rest);
    RecordWithSizes(rx, n, list + rest, rest);
  }

  lemma SizeHeaderFits(n: nat)
    requires PAGE * n < LIMIT
    ensures PAGE * n + MEM_SIZE < LIMIT && (PAGE * n + MEM_SIZE) % PAGE == MEM_SIZE && (PAGE * n + MEM_SIZE) / PAGE == n
  {
  }

  lemma EndParses(rx: Receiver, rest: Bytes)
    ensures Load(rx, Be64(EOS) + rest) == Ok(rx, rest)
  {
    RecordWithoutSizes(rx, EOS, rest);
  }

  /** A receiver stays a match for the sender's blocks. */
  lemma StoreKeeps(blocks: seq<Block>, rx: Receiver, w: Where, data: Bytes)
    requires SameBlocks(blocks, rx)
    ensures SameBlocks(blocks, Store(rx, w.block, w.page, data))
  {
  }

  lemma PageFits(blocks: seq<Block>, w: Where)
    requires GoodBlocks(blocks) && Belongs(blocks, w)
    ensures PAGE * w.page + PAGE < LIMIT && IsCStr(w.block)
  {
    var b :| b in blocks && b.name == w.block && w.page < b.pages;
    TotalAtLeast(blocks, b);
  }

  /** The receiver remembers the block of the last page sent, so a name may be left out whenever the
      sender leaves it out. */
  ghost predicate InStep(last: Option<Name>, rx: Receiver) { last != None ==> rx.cur == last }

  lemma ItemParses(blocks: seq<Block>, rx: Receiver, last: Option<Name>, i: Item, rest: Bytes)
    requires GoodBlocks(blocks) && SameBlocks(blocks, rx) && InStep(last, rx) && GoodItem(blocks, i)
    ensures i.Page? ==> |i.w.block| < 256
    ensures var s := ItemBytes(blocks, last, i) + rest;
            ReadsAs(rx, s, Replay(rx, [i]), rest)
    ensures SameBlocks(blocks, Replay(rx, [i])) && InStep(LastAfter(last, i), Replay(rx, [i]))
  {
    if i.Sizes? {
      ShortBlockNames(blocks);
      SizesParse(rx, blocks, rest, Total(blocks), ListBytes(blocks));
    } else {
      PageFits(blocks, i.w);
      PageParses(rx, last, i.w, i.content, rest);
      StoreKeeps(blocks, rx, i.w, Expand(i.content));
    }
  }

  lemma {:induction false} ReplayConcat(rx: Receiver, x: seq<Item>, y: seq<Item>)
    ensures Replay(rx, x + y) == Replay(Replay(rx, x), y)
    decreases |x|
  {
    if x == [] {
      assert x + y == y;
    } else {
      assert (x + y)[1..] == x[1..] + y;
      ReplayConcat(if x[0].Page? then Store(rx, x[0].w.block, x[0].w.page, Expand(x[0].content)) else rx, x[1..], y);
    }
  }

  function LastAfterAll(last: Option<Name>, items: seq<Item>): Option<Name>
    decreases |items|
  {
    if items == [] then last else LastAfterAll(LastAfter(last, items[0]), items[1..])
  }

  ghost predicate GoodItems(blocks: seq<Block>, items: seq<Item>) { forall i :: i in items ==> GoodItem(blocks, i) }

  lemma GoodItemsShort(blocks: seq<Block>, items: seq<Item>)
    requires GoodBlocks(blocks) && GoodItems(blocks, items)
    ensures ShortNames(items) && forall b :: b in blocks ==> |b.name| < 256
  {
    forall i | i in items && i.Page? ensures |i.w.block| < 256 { PageFits(blocks, i.w); }
  }

  lemma LoadOneMore(rx: Receiver, s: Bytes, rx': Receiver, rest: Bytes)
    requires ReadsAs(rx, s, rx', rest)
    ensures Load(rx, s) == Load(rx', rest)
  {
  }

  lemma SectionStep(blocks: seq<Block>, rx: Receiver, last: Option<Name>, i: Item, tail: Bytes)
    requires GoodBlocks(blocks) && SameBlocks(blocks, rx) && InStep(last, rx) && GoodItem(blocks, i)
    ensures i.Page? ==> |i.w.block| < 256
    ensures Load(rx, ItemBytes(blocks, last, i) + tail) == Load(Replay(rx, [i]), tail)
    ensures SameBlocks(blocks, Replay(rx, [i])) && InStep(LastAfter(last, i), Replay(rx, [i]))
  {
    ItemParses(blocks, rx, last, i, tail);
    LoadOneMore(rx, ItemBytes(blocks, last, i) + tail, Replay(rx, [i]), tail);
  }

  lemma SectionUnrolls(blocks: seq<Block>, last: Option<Name>, items: seq<Item>, rest: Bytes)
    requires items != [] && ShortNames(items) && (forall b :: b in blocks ==> |b.name| < 256)
    ensures items[0].Page? ==> |items[0].w.block| < 256
    ensures ShortNames(items[1..])
    ensures SectionBytes(blocks, last, items) + rest ==
            ItemBytes(blocks, last, items[0]) + (SectionBytes(blocks, LastAfter(last, items[0]), items[1..]) + rest)
  {
    assert items[0] in items;
    assert ShortNames(items[1..]);
    Assoc(ItemBytes(blocks, last, items[0]), SectionBytes(blocks, LastAfter(last, items[0]), items[1..]), rest);
  }

  lemma Assoc(a: Bytes, b: Bytes, c: Bytes)
    ensures (a + b) + c == a + (b + c)
  {
  }

  lemma ReplayUnrolls(rx: Receiver, items: seq<Item>)
    requires items != []
    ensures Replay(rx, items) == Replay(Replay(rx, [items[0]]), items[1..])
  {
    assert items == [items[0]] + items[1..];
    ReplayConcat(rx, [items[0]], items[1..]);
  }

  /** ram_load reads any section back as exactly the pages that were sent, without error, and leaves the
      receiver in step for the next one. */
  lemma {:induction false} SectionParses(blocks: seq<Block>, rx: Receiver, last: Option<Name>, items: seq<Item>,
                                         rest: Bytes)
    requires GoodBlocks(blocks) && SameBlocks(blocks, rx) && InStep(last, rx) && GoodItems(blocks, items)
    ensures ShortNames(items) && forall b :: b in blocks ==> |b.name| < 256
    ensures Load(rx, SectionBytes(blocks, last, items) + rest) == Ok(Replay(rx, items), rest)
    ensures SameBlocks(blocks, Replay(rx, items)) && InStep(LastAfterAll(last, items), Replay(rx, items))
    decreases |items|
  {
    GoodItemsShort(blocks, items);
    if items == [] {
      EndParses(rx, rest);
    } else {
      SectionUnrolls(blocks, last, items, rest);
      ReplayUnrolls(rx, items);
      assert items[0] in items;
      SectionStep(blocks, rx, last, items[0], SectionBytes(blocks, LastAfter(last, items[0]), items[1..]) + rest);
      SectionParses(blocks, Replay(rx, [items[0]]), LastAfter(last, items[0]), items[1..], rest);
    }
  }
}
