/** Live RAM migration as a protocol: the guest writes while pages are copied. A write reaches the
    migration either through the hardware log, which a later synchronisation turns into dirty flags, or
    as a dirty flag at once (device and emulated accesses). A page is copied only after its flag has been
    reset, and the copy may be torn by writes that arrive meanwhile. */
module RamMigration {
  import opened RamWire

  datatype State = State(
    blocks: seq<Block>,
    mem: map<Where, Bytes>,
    log: set<Where>,          // written since the last synchronisation
    dirty: set<Where>,        // MIGRATION_DIRTY_FLAG in phys_dirty
    busy: Option<Where>,      // flag reset, page not copied yet
    stopped: bool,            // the guest no longer runs
    sections: seq<seq<Item>>, // sections of the stream that are finished
    open: seq<Item>)          // and the one being written

  datatype Step =
    | Write(w: Where, data: Bytes, logged: bool)
    | Sync
    | Reset(w: Where)
    | Copy(content: Content)
    | EndSection
    | Stop

  predicate Enabled(s: State, t: Step) {
    match t
    case Write(w, data, _) => !s.stopped && w in s.mem && |data| == PAGE
    case Sync => s.busy == None
    case Reset(w) => s.busy == None && w in s.dirty
    case Copy(c) =>
      // whatever a torn read gives, unless the page is untouched since its flag was reset
      && s.busy != None && (c.Data? ==> |c.data| == PAGE)
      && (s.busy.value in s.mem && s.busy.value !in s.log && s.busy.value !in s.dirty ==>
          Expand(c) == s.mem[s.busy.value])
    case EndSection => s.busy == None
    case Stop => true
  }

  function Apply(s: State, t: Step): State
    requires Enabled(s, t)
  {
    match t
    case Write(w, data, logged) =>
      if logged then s.(mem := s.mem[w := data], log := s.log + {w})
      else s.(mem := s.mem[w := data], dirty := s.dirty + {w})
    case Sync => s.(dirty := s.dirty + s.log, log := {})
    case Reset(w) => s.(dirty := s.dirty - {w}, busy := Some(w))
    case Copy(c) => s.(busy := None, open := s.open + [Page(s.busy.value, c)])
    case EndSection => s.(sections := s.sections + [s.open], open := [])
    case Stop => s.(stopped := true)
  }

  predicate Legal(s: State, run: seq<Step>)
    decreases |run|
  {
    run == [] || (Enabled(s, run[0]) && Legal(Apply(s, run[0]), run[1..]))
  }

  function Exec(s: State, run: seq<Step>): State
    requires Legal(s, run)
    decreases |run|
  {
    if run == [] then s else Exec(Apply(s, run[0]), run[1..])
  }

  // ---------------------------------------------------------------- the stream

  function Flat(sections: seq<seq<Item>>): seq<Item> {
    if sections == [] then [] else sections[0] + Flat(sections[1..])
  }

  /** Everything sent so far, in order. */
  function Sent(s: State): seq<Item> { Flat(s.sections) + s.open }

  lemma {:induction false} FlatConcat(x: seq<seq<Item>>, y: seq<seq<Item>>)
    ensures Flat(x + y) == Flat(x) + Flat(y)
    decreases |x|
  {
    if x == [] {
      assert x + y == y;
    } else {
      assert (x + y)[1..] == x[1..] + y;
      FlatConcat(x[1..], y);
    }
  }

  lemma SentStep(s: State, t: Step)
    requires Enabled(s, t)
    ensures Sent(Apply(s, t)) == if t.Copy? then Sent(s) + [Page(s.busy.value, t.content)] else Sent(s)
  {
    if t.EndSection? {
      FlatConcat(s.sections, [s.open]);
      assert Flat([s.open]) == s.open + Flat([]);
    }
  }

  // ---------------------------------------------------------------- the invariant

  /** Every page is logged, or dirty, or about to be copied, or the destination has its content. */
  ghost predicate Converging(s: State, rx: Receiver) {
    forall w :: w in s.mem ==>
      w in s.log || w in s.dirty || s.busy == Some(w) ||
      (w in Replay(rx, Sent(s)).mem && Replay(rx, Sent(s)).mem[w] == s.mem[w])
  }

  ghost predicate Shape(s: State) {
    && GoodBlocks(s.blocks) && GoodItems(s.blocks, Sent(s))
    && (forall w :: w in s.mem <==> Belongs(s.blocks, w)) && (forall w :: w in s.mem ==> |s.mem[w]| == PAGE)
    && s.log <= s.mem.Keys && s.dirty <= s.mem.Keys
    && (s.busy != None ==> s.busy.value in s.mem)
  }

  lemma ShapeKept(s: State, t: Step)
    requires Shape(s) && Enabled(s, t)
    ensures Shape(Apply(s, t))
  {
    SentStep(s, t);
  }

  lemma ConvergingKept(s: State, t: Step, rx: Receiver)
    requires Shape(s) && Converging(s, rx) && Enabled(s, t)
    ensures Converging(Apply(s, t), rx)
  {
    SentStep(s, t);
    if t.Copy? {
      ReplayConcat(rx, Sent(s), [Page(s.busy.value, t.content)]);
    }
  }

  lemma {:induction false} InvariantHolds(s: State, run: seq<Step>, rx: Receiver)
    requires Shape(s) && Converging(s, rx) && Legal(s, run)
    ensures Shape(Exec(s, run)) && Converging(Exec(s, run), rx)
    decreases |run|
  {
    if run != [] {
      ShapeKept(s, run[0]);
      ConvergingKept(s, run[0], rx);
      InvariantHolds(Apply(s, run[0]), run[1..], rx);
    }
  }

  // ---------------------------------------------------------------- all sections together

  /** The bytes of several sections; the last block carries over from each to the next. */
  function StreamBytes(blocks: seq<Block>, last: Option<Name>, sections: seq<seq<Item>>): Bytes
    requires forall b :: b in blocks ==> |b.name| < 256
    requires ShortNames(Flat(sections))
    decreases |sections|
  {
    if sections == [] then []
    else
      assert forall i :: i in sections[0] || i in Flat(sections[1..]) ==> i in Flat(sections);
      SectionBytes(blocks, last, sections[0]) + StreamBytes(blocks, LastAfterAll(last, sections[0]), sections[1..])
  }

  /** ram_load, once per section. */
  function LoadAll(rx: Receiver, n: nat, s: Bytes): Result
    decreases n
  {
    if n == 0 then Ok(rx, s)
    else
      var r := Load(rx, s);
      if !r.Ok? then r else LoadAll(r.rx, n - 1, r.rest)
  }

  lemma FlatUnrolls(blocks: seq<Block>, sections: seq<seq<Item>>)
    requires sections != [] && GoodItems(blocks, Flat(sections))
    ensures GoodItems(blocks, sections[0]) && GoodItems(blocks, Flat(sections[1..]))
  {
    forall i | i in sections[0] || i in Flat(sections[1..]) ensures GoodItem(blocks, i) {
      assert i in Flat(sections);
    }
  }

  lemma LoadAllStep(rx: Receiver, n: nat, s: Bytes, rx': Receiver, rest: Bytes)
    requires n > 0 && Load(rx, s) == Ok(rx', rest)
    ensures LoadAll(rx, n, s) == LoadAll(rx', n - 1, rest)
  {
  }

  lemma StreamUnrolls(blocks: seq<Block>, last: Option<Name>, sections: seq<seq<Item>>)
    requires sections != [] && ShortNames(Flat(sections)) && (forall b :: b in blocks ==> |b.name| < 256)
    ensures ShortNames(sections[0]) && ShortNames(Flat(sections[1..]))
    ensures StreamBytes(blocks, last, sections) ==
            SectionBytes(blocks, last, sections[0]) +
            StreamBytes(blocks, LastAfterAll(last, sections[0]), sections[1..])
  {
    assert forall i :: i in sections[0] || i in Flat(sections[1..]) ==> i in Flat(sections);
  }

  /** The first section, and what it leaves to be read. */
  lemma StreamFirst(blocks: seq<Block>, rx: Receiver, last: Option<Name>, sections: seq<seq<Item>>)
    requires GoodBlocks(blocks) && SameBlocks(blocks, rx) && InStep(last, rx) && GoodItems(blocks, Flat(sections)) &&
             sections != []
    ensures ShortNames(Flat(sections)) && ShortNames(Flat(sections[1..])) && forall b :: b in blocks ==> |b.name| < 256
    ensures var x, more := sections[0], sections[1..];
            && GoodItems(blocks, Flat(more)) && SameBlocks(blocks, Replay(rx, x)) &&
               InStep(LastAfterAll(last, x), Replay(rx, x))
            && LoadAll(rx, |sections|, StreamBytes(blocks, last, sections)) ==
               LoadAll(Replay(rx, x), |sections| - 1, StreamBytes(blocks, LastAfterAll(last, x), more))
  {
    GoodItemsShort(blocks, Flat(sections));
    FlatUnrolls(blocks, sections);
    var x, more := sections[0], sections[1..];
    StreamUnrolls(blocks, last, sections);
    var tail := StreamBytes(blocks, LastAfterAll(last, x), more);
    SectionParses(blocks, rx, last, x, tail);
    LoadAllStep(rx, |sections|, SectionBytes(blocks, last, x) + tail, Replay(rx, x), tail);
  }

  /** The whole stream, over any number of sections, is read back as the pages that were sent. */
  lemma {:induction false} StreamParses(blocks: seq<Block>, rx: Receiver, last: Option<Name>, sections: seq<seq<Item>>)
    requires GoodBlocks(blocks) && SameBlocks(blocks, rx) && InStep(last, rx) && GoodItems(blocks, Flat(sections))
    ensures ShortNames(Flat(sections)) && forall b :: b in blocks ==> |b.name| < 256
    ensures LoadAll(rx, |sections|, StreamBytes(blocks, last, sections)) == Ok(Replay(rx, Flat(sections)), [])
    decreases |sections|
  {
    GoodItemsShort(blocks, Flat(sections));
    if sections != [] {
      var x, more := sections[0], sections[1..];
      StreamFirst(blocks, rx, last, sections);
      StreamParses(blocks, Replay(rx, x), LastAfterAll(last, x), more);
      ReplayConcat(rx, x, Flat(more));
    }
  }

  // ---------------------------------------------------------------- convergence

  /** The state that stage 1 sets up: the sizes are sent and every page is dirty. */
  ghost predicate Init(s: State, rx: Receiver) {
    && Shape(s) && s.dirty == s.mem.Keys && s.busy == None && !s.stopped
    && s.sections == [] && s.open == [Sizes] && SameBlocks(s.blocks, rx)
  }

  /** Nothing is left to send. */
  ghost predicate Finished(s: State) { s.log == {} && s.dirty == {} && s.busy == None && s.open == [] }

  /** The stream loads, without error and to its end, and every page arrives. */
  ghost predicate Loads(rx: Receiver, r: State, stream: Bytes) {
    var l := LoadAll(rx, |r.sections|, stream);
    l.Ok? && l.rest == [] && forall w :: w in r.mem ==> w in l.rx.mem && l.rx.mem[w] == r.mem[w]
  }

  lemma FinishedLoads(r: State, rx: Receiver)
    requires Shape(r) && Converging(r, rx) && SameBlocks(r.blocks, rx) && Finished(r)
    ensures ShortNames(Flat(r.sections)) && forall b :: b in r.blocks ==> |b.name| < 256
    ensures Loads(rx, r, StreamBytes(r.blocks, None, r.sections))
  {
    assert Sent(r) == Flat(r.sections);
    StreamParses(r.blocks, rx, None, r.sections);
  }

  /** For every interleaving of guest writes, synchronisations, saves and sections: once nothing is left
      to send, the bytes of the stream load without error and the destination's memory is the source's. */
  lemma MigrationConverges(s: State, run: seq<Step>, rx: Receiver)
    requires Init(s, rx) && Legal(s, run) && Finished(Exec(s, run))
    ensures var r := Exec(s, run);
            && ShortNames(Flat(r.sections)) && (forall b :: b in r.blocks ==> |b.name| < 256)
            && Loads(rx, r, StreamBytes(r.blocks, None, r.sections))
  {
    InvariantHolds(s, run, rx);
    BlocksKept(s, run);
    FinishedLoads(Exec(s, run), rx);
  }

  lemma {:induction false} BlocksKept(s: State, run: seq<Step>)
    requires Legal(s, run)
    ensures Exec(s, run).blocks == s.blocks
    decreases |run|
  {
    if run != [] { BlocksKept(Apply(s, run[0]), run[1..]); }
  }
}
