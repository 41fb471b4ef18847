/** The record log of log_writer.cc and log_reader.cc: fragmentation into 32KB blocks, and
    reading back, whole or cut off at any byte. */
module LogFormat {
  import opened Coding

  const BLOCK := 32768
  const HEADER := 7

  /** The offset in its block of a file offset. */
  function InBlock(p: int): nat {
    p % 32768
  }

  const ZERO_TYPE: Byte := 0
  const FULL: Byte := 1
  const FIRST: Byte := 2
  const MIDDLE: Byte := 3
  const LAST: Byte := 4

  // Stored types that coincide with the reader's kEof and kBadRecord are taken for them.
  const EOF_TYPE: Byte := 5
  const BAD_TYPE: Byte := 6

  /** The four stored bytes of a checksum. */
  type Stored = s: seq<Byte> | |s| == 4 witness [0, 0, 0, 0]

  /** The stored checksum is any function of the type byte and the payload. */
  type Checksum = seq<Byte> -> Stored

  // ---------------------------------------------------------------- what is written

  /** EmitPhysicalRecord: checksum, length, type, payload. */
  function Emit(crc: Checksum, t: Byte, payload: seq<Byte>): (r: seq<Byte>)
    requires |payload| <= BLOCK - HEADER
    ensures |r| == HEADER + |payload|
  {
    crc([t] + payload) + [|payload| % 256, |payload| / 256, t] + payload
  }

  /** Zero bytes that fill a block too full for a header. */
  function Pad(offset: nat): nat
    requires offset <= BLOCK
  {
    if BLOCK - offset < HEADER then BLOCK - offset else 0
  }

  /** Where the next header goes. */
  function Start(offset: nat): nat
    requires offset <= BLOCK
  {
    if BLOCK - offset < HEADER then 0 else offset
  }

  function Avail(offset: nat): nat
    requires offset <= BLOCK
  {
    BLOCK - Start(offset) - HEADER
  }

  function TypeOf(begin: bool, end: bool): Byte {
    if begin && end then FULL else if begin then FIRST else if end then LAST else MIDDLE
  }

  function Zeros(n: nat): (r: seq<Byte>)
    ensures |r| == n
  {
    seq(n, _ => 0)
  }

  function Min(a: nat, b: nat): nat {
    if a < b then a else b
  }

  /** The bytes of one fragment, with the padding before it. */
  function Fragment(crc: Checksum, offset: nat, d: seq<Byte>, begin: bool): (r: seq<Byte>)
    requires offset <= BLOCK
    ensures |r| == Pad(offset) + HEADER + Min(|d|, Avail(offset))
  {
    var n := Min(|d|, Avail(offset));
    Zeros(Pad(offset)) + Emit(crc, TypeOf(begin, |d| == n), d[..n])
  }

  /** The bytes AddRecord appends at a block offset, from some fragment on. */
  function Fragments(crc: Checksum, offset: nat, d: seq<Byte>, begin: bool): seq<Byte>
    requires offset <= BLOCK
    decreases |d|, if Avail(offset) == 0 then 1 else 0
  {
    var n := Min(|d|, Avail(offset));
    var f := Fragment(crc, offset, d, begin);
    if |d| == n then f else f + Fragments(crc, Start(offset) + HEADER + n, d[n..], false)
  }

  class Writer {
    const crc: Checksum
    var dest: seq<Byte>
    var blockOffset: nat

    ghost predicate Valid()
      reads this
    {
      blockOffset <= BLOCK && InBlock(|dest| - blockOffset) == 0
    }

    constructor (crc: Checksum)
      ensures Valid() && dest == [] && this.crc == crc
    {
      this.crc := crc;
      dest, blockOffset := [], 0;
    }

    /** One turn of AddRecord's loop: padding if needed, then as much as fits. */
    method AddFragment(left: seq<Byte>, begin: bool) returns (n: nat)
      requires Valid()
      modifies this
      ensures Valid()
      ensures n == Min(|left|, Avail(old(blockOffset))) && blockOffset == Start(old(blockOffset)) + HEADER + n
      ensures dest == old(dest) + Fragment(crc, old(blockOffset), left, begin)
    {
      ghost var p, offset := |dest|, blockOffset;
      var leftover := BLOCK - blockOffset;
      if leftover < HEADER {
        dest := dest + Zeros(leftover);
        blockOffset := 0;
      }
      var avail := BLOCK - blockOffset - HEADER;
      n := if |left| < avail then |left| else avail;
      var end := |left| == n;
      dest := dest + Emit(crc, TypeOf(begin, end), left[..n]);
      blockOffset := blockOffset + HEADER + n;
      StaysAligned(p, offset, n);
    }

    /** AddRecord: one or more fragments, at least one even for an empty record. */
    method AddRecord(d: seq<Byte>)
      requires Valid()
      modifies this
      ensures Valid()
      ensures dest == old(dest) + Fragments(crc, old(blockOffset), d, true)
    {
      ghost var all := dest + Fragments(crc, blockOffset, d, true);
      ghost var was, at := dest, blockOffset;
      var n := AddFragment(d, true);
      AfterFragment(crc, was, at, d, true, dest, blockOffset);
      var left := d[n..];
      while |left| > 0
        invariant Valid()
        invariant dest + Rest(crc, blockOffset, left) == all
        decreases |left|, if Avail(blockOffset) == 0 then 1 else 0
      {
        was, at := dest, blockOffset;
        n := AddFragment(left, false);
        AfterFragment(crc, was, at, left, false, dest, blockOffset);
        left := left[n..];
      }
    }
  }

  /** The block offset keeps standing for the file offset. */
  lemma StaysAligned(p: nat, offset: nat, n: nat)
    requires offset <= BLOCK && InBlock(p - offset) == 0
    ensures InBlock(p + (Pad(offset) + HEADER + n) - (Start(offset) + HEADER + n)) == 0
  {
  }

  /** What is still to be written after a fragment. */
  function Rest(crc: Checksum, offset: nat, left: seq<Byte>): seq<Byte>
    requires offset <= BLOCK
  {
    if left == [] then [] else Fragments(crc, offset, left, false)
  }

  lemma AfterFragment(crc: Checksum, was: seq<Byte>, at: nat, d: seq<Byte>, begin: bool, now: seq<Byte>, offset: nat)
    requires at <= BLOCK && now == was + Fragment(crc, at, d, begin)
    requires offset == Start(at) + HEADER + Min(|d|, Avail(at))
    ensures was + Fragments(crc, at, d, begin) == now + Rest(crc, offset, d[Min(|d|, Avail(at))..])
  {
  }

  // ---------------------------------------------------------------- what a reader makes of any file

  datatype Physical =
    | Eof
    | Bad(next: nat, reported: bool)
    | Record(kind: Byte, payload: seq<Byte>, next: nat)

  function BlockStart(p: nat): nat {
    p - InBlock(p)
  }

  /** Where the reader's buffer ends when it has read up to offset `p` of the file. */
  function BufferEnd(file: seq<Byte>, p: nat): nat {
    Min(BlockStart(p) + BLOCK, |file|)
  }

  /** ReadPhysicalRecord with a header at hand: the bytes of `b` up to the end of the block,
      or of the file when `eof`. */
  function ParseHeader(crc: Checksum, b: seq<Byte>, eof: bool, p: nat): (r: Physical)
    requires |b| >= HEADER
    ensures r.Bad? ==> r.next == p + |b|
    ensures r.Record? ==> p + HEADER <= r.next <= p + |b|
  {
    var length := b[4] as int + 256 * (b[5] as int);
    var kind := b[6];
    if HEADER + length > |b| then (if eof then Eof else Bad(p + |b|, true))
    else if kind == ZERO_TYPE && length == 0 then Bad(p + |b|, false)
    else if crc([kind] + b[HEADER..HEADER + length]) != b[..4] then Bad(p + |b|, true)
    else Record(kind, b[HEADER..HEADER + length], p + HEADER + length)
  }

  /** The first offset at or after `p` where a header can start. */
  function SkipTrailer(p: nat): nat {
    p + Pad(InBlock(p))
  }

  /** ReadPhysicalRecord at file offset `p`. */
  function ReadPhysical(crc: Checksum, file: seq<Byte>, p: nat): (r: Physical)
    ensures r.Bad? || r.Record? ==> p + HEADER <= r.next <= |file|
  {
    var q := SkipTrailer(p);
    var e := BufferEnd(file, q);
    if e < q + HEADER then Eof
    else ParseHeader(crc, file[q..e], e < BlockStart(q) + BLOCK, q)
  }

  /** What ReadRecord returns: a record if any, where it left off, and how many corruptions it
      reported on the way. */
  datatype Logical = Logical(found: bool, data: seq<Byte>, next: nat, reports: nat)

  function Count(b: bool): nat {
    if b then 1 else 0
  }

  /** One turn of ReadRecord's loop. */
  datatype Turn = Done(found: bool, data: seq<Byte>, reports: nat) | More(inFragment: bool, scratch: seq<Byte>, reports: nat)

  function Absorb(r: Physical, inFragment: bool, scratch: seq<Byte>): Turn {
    match r
    case Eof => Done(false, [], 0)
    case Bad(_, _) => More(false, [], Count(inFragment))
    case Record(kind, payload, _) =>
      if kind == FULL then Done(true, payload, Count(inFragment && scratch != []))
      else if kind == FIRST then More(true, payload, Count(inFragment && scratch != []))
      else if kind == MIDDLE then
        (if inFragment then More(true, scratch + payload, 0) else More(false, scratch, 1))
      else if kind == LAST then
        (if inFragment then Done(true, scratch + payload, 0) else More(false, scratch, 1))
      else if kind == EOF_TYPE then Done(false, [], 0)
      else if kind == BAD_TYPE then More(false, [], Count(inFragment))
      else More(false, [], 1)
  }

  /** What ReadPhysicalRecord returns at each offset; only its progress matters to ReadRecord. */
  type Layer = nat -> Physical

  ghost predicate Progress(phys: Layer, size: nat) {
    forall p: nat :: !phys(p).Eof? ==> p < phys(p).next <= size
  }

  /** The layer the bytes of a file make. */
  ghost predicate Decodes(phys: Layer, crc: Checksum, file: seq<Byte>) {
    && Progress(phys, |file|)
    && forall p: nat {:trigger Ix(p)} :: Ix(p) ==> phys(p) == ReadPhysical(crc, file, p)
  }

  function NextOffset(size: nat, r: Physical): nat {
    if r.Eof? then size else r.next
  }

  /** ReadRecord from offset `p`, possibly in the middle of a fragmented record, after `n`
      corruptions. */
  ghost function ReadLogical(phys: Layer, size: nat, p: nat, inFragment: bool, scratch: seq<Byte>, n: nat): (l: Logical)
    requires Progress(phys, size)
    ensures l.found ==> p < l.next <= size
    decreases size - p
  {
    var r := phys(p);
    var t := Absorb(r, inFragment, scratch);
    var n' := n + Count(r.Bad? && r.reported) + t.reports;
    if t.Done? then Logical(t.found, t.data, NextOffset(size, r), n')
    else ReadLogical(phys, size, NextOffset(size, r), t.inFragment, t.scratch, n')
  }

  /** What ReadRecord makes of a file offset, after some number of reports. */
  type Decoder = (nat, nat) -> Logical

  ghost predicate Moves(rd: Decoder, size: nat) {
    forall p: nat, n: nat :: rd(p, n).found ==> p < rd(p, n).next <= size
  }

  /** A mark. */
  predicate From(p: nat, n: nat) {
    p + n >= 0
  }

  ghost predicate IsDecoder(rd: Decoder, phys: Layer, size: nat) {
    && Progress(phys, size) && Moves(rd, size)
    && forall p: nat, n: nat {:trigger From(p, n)} :: From(p, n) ==> rd(p, n) == ReadLogical(phys, size, p, false, [], n)
  }

  ghost function DecoderOf(phys: Layer, size: nat): Decoder
    requires Progress(phys, size)
  {
    (p: nat, n: nat) => ReadLogical(phys, size, p, false, [], n)
  }

  /** The layer of a file's bytes. */
  ghost function LayerOf(crc: Checksum, file: seq<Byte>): Layer {
    (p: nat) => ReadPhysical(crc, file, p)
  }

  lemma FileHasLayers(crc: Checksum, file: seq<Byte>)
    ensures Progress(LayerOf(crc, file), |file|)
    ensures Layers(DecoderOf(LayerOf(crc, file), |file|), LayerOf(crc, file), crc, file)
  {
  }

  /** The layers of a file: what each offset holds, and what reading a record from it gives. */
  ghost predicate Layers(rd: Decoder, phys: Layer, crc: Checksum, file: seq<Byte>) {
    Decodes(phys, crc, file) && IsDecoder(rd, phys, |file|)
  }

  /** What a reader's buffer covers: `held` bytes up to offset `end` of the file. */
  datatype Window = Window(held: nat, end: nat, eof: bool)

  ghost predicate WindowOk(file: seq<Byte>, w: Window) {
    && w.held <= w.end <= |file| && w.held < BLOCK
    && (w.eof ==> w.end == |file| && BlockStart(w.end) <= w.end - w.held)
    && (!w.eof ==> InBlock(w.end) == 0)
  }

  /** Drop a trailer too short for a header and read the next block. */
  function Refill(file: seq<Byte>, w: Window): Window
    requires w.end <= |file|
  {
    if w.held < HEADER && !w.eof then
      var n := Min(|file| - w.end, BLOCK);
      Window(n, w.end + n, n < BLOCK)
    else w
  }

  /** A window that ends at the end of a block or of the file, and is short only at the latter. */
  ghost predicate EndsBlock(file: seq<Byte>, w: Window) {
    (if w.eof then w.end == |file| else InBlock(w.end) == 0) && (w.held < HEADER ==> w.eof)
  }

  class Reader {
    const crc: Checksum
    const file: seq<Byte>
    var buffer: seq<Byte>
    var end: nat           // end_of_buffer_offset_
    var eof: bool
    var reports: nat       // corruptions reported

    ghost predicate Valid()
      reads this`buffer, this`end, this`eof
    {
      && WindowOk(file, Window(|buffer|, end, eof))
      && buffer == file[end - |buffer|..end]
    }

    ghost function Offset(): nat
      reads this`buffer, this`end
      requires |buffer| <= end
    {
      end - |buffer|
    }

    constructor (crc: Checksum, file: seq<Byte>)
      ensures Valid() && Offset() == 0 && reports == 0 && this.crc == crc && this.file == file
    {
      this.crc, this.file := crc, file;
      buffer, end, eof, reports := [], 0, false, 0;
    }

    /** The refill half of ReadPhysicalRecord: get a header's worth of the current block. */
    method Fill()
      requires Valid()
      modifies this`buffer, this`end, this`eof
      ensures Refilled(file, old(Window(|buffer|, end, eof)), Window(|buffer|, end, eof), buffer)
      ensures EndsBlock(file, Window(|buffer|, end, eof))
    {
      RefillEnds(file, Window(|buffer|, end, eof));
      if |buffer| < HEADER && !eof {
        var n := if |file| - end < BLOCK then |file| - end else BLOCK;
        buffer := file[end..end + n];
        end := end + n;
        eof := n < BLOCK;
      }
    }

    method FillAndParse(ghost phys: Layer) returns (r: Physical, left: nat)
      requires Valid() && Decodes(phys, crc, file)
      modifies this`buffer, this`end, this`eof
      ensures HasRead(phys, file, old(Window(|buffer|, end, eof)), Window(|buffer|, end, eof), buffer, r, left)
    {
      ghost var w := Window(|buffer|, end, eof);
      Fill();
      r, left := ParseBuffer(crc, Window(|buffer|, end, eof), buffer, file, phys, w);
    }

    /** ReadPhysicalRecord, with checksums on and no initial offset. */
    method ReadPhysicalRecord(ghost phys: Layer) returns (r: Physical)
      requires Valid() && Decodes(phys, crc, file)
      modifies this
      ensures Valid()
      ensures r == phys(old(Offset())) && Offset() == NextOffset(|file|, r)
      ensures reports == old(reports) + Count(r.Bad? && r.reported)
    {
      var left;
      r, left := FillAndParse(phys);
      buffer := buffer[|buffer| - left..];
      reports := reports + Count(r.Bad? && r.reported);
    }

    /** One turn of ReadRecord's loop. */
    method ReadTurn(inFragment: bool, scratch: seq<Byte>, ghost phys: Layer) returns (t: Turn)
      requires Valid() && Decodes(phys, crc, file)
      modifies this
      ensures Valid()
      ensures var r := phys(old(Offset()));
              && t == Absorb(r, inFragment, scratch)
              && Offset() == NextOffset(|file|, r)
              && reports == old(reports) + Count(r.Bad? && r.reported) + t.reports
    {
      var r := ReadPhysicalRecord(phys);
      t := Absorb(r, inFragment, scratch);
      reports := reports + t.reports;
    }

    /** A turn leaves the rest of the reading for later, or ends it. */
    method Advance(inFragment: bool, scratch: seq<Byte>, ghost phys: Layer) returns (t: Turn)
      requires Valid() && Decodes(phys, crc, file)
      modifies this
      ensures Valid()
      ensures var l := ReadLogical(phys, |file|, old(Offset()), inFragment, scratch, old(reports));
              if t.Done? then l == Logical(t.found, t.data, Offset(), reports)
              else l == ReadLogical(phys, |file|, Offset(), t.inFragment, t.scratch, reports) && old(Offset()) < Offset() <= |file|
    {
      LogicalStep(phys, |file|, Offset(), inFragment, scratch, reports);
      t := ReadTurn(inFragment, scratch, phys);
    }

    /** ReadRecord: reassemble fragments until a whole record, or the end of the file. */
    method ReadRecord(ghost phys: Layer) returns (found: bool, record: seq<Byte>)
      requires Valid() && Decodes(phys, crc, file)
      modifies this
      ensures Valid()
      ensures Logical(found, record, Offset(), reports) == ReadLogical(phys, |file|, old(Offset()), false, [], old(reports))
    {
      var scratch: seq<Byte> := [];
      var inFragment := false;
      ghost var goal := ReadLogical(phys, |file|, Offset(), false, [], reports);
      while true
        invariant Valid()
        invariant ReadLogical(phys, |file|, Offset(), inFragment, scratch, reports) == goal
        decreases |file| - Offset()
      {
        var t := Advance(inFragment, scratch, phys);
        if t.Done? { return t.found, t.data; }
        inFragment, scratch := t.inFragment, t.scratch;
      }
    }

    /** ReadRecord, as the next step of a decoder. */
    method ReadNext(ghost phys: Layer, ghost rd: Decoder) returns (found: bool, record: seq<Byte>)
      requires Valid() && Layers(rd, phys, crc, file)
      modifies this
      ensures Valid() && Logical(found, record, Offset(), reports) == rd(old(Offset()), old(reports))
    {
      assert From(Offset(), reports);
      found, record := ReadRecord(phys);
    }
  }

  lemma LogicalStep(phys: Layer, size: nat, p: nat, inFragment: bool, scratch: seq<Byte>, n: nat)
    requires Progress(phys, size)
    ensures var r := phys(p);
            var t := Absorb(r, inFragment, scratch);
            var n' := n + Count(r.Bad? && r.reported) + t.reports;
            ReadLogical(phys, size, p, inFragment, scratch, n) ==
            if t.Done? then Logical(t.found, t.data, NextOffset(size, r), n')
            else ReadLogical(phys, size, NextOffset(size, r), t.inFragment, t.scratch, n')
  {
  }

  lemma BeforeBlock(e: nat, h: nat)
    requires InBlock(e) == 0 && 0 < h < BLOCK && h <= e
    ensures InBlock(e - h) == BLOCK - h
  {
  }

  lemma WithinBlock(e: nat, h: nat)
    requires h <= InBlock(e)
    ensures InBlock(e - h) == InBlock(e) - h
  {
  }

  lemma NewBlockSpans(file: seq<Byte>, w: Window)
    requires WindowOk(file, w) && w.held < HEADER && !w.eof
    ensures SkipTrailer(w.end - w.held) == w.end && BlockStart(w.end) == w.end
  {
    if w.held > 0 { BeforeBlock(w.end, w.held); }
  }

  lemma OldBlockSpans(file: seq<Byte>, w: Window)
    requires WindowOk(file, w) && w.held >= HEADER
    ensures var p := w.end - w.held;
            && SkipTrailer(p) == p && BlockStart(p) <= p
            && (if w.eof then w.end < BlockStart(p) + BLOCK else w.end == BlockStart(p) + BLOCK)
  {
    if w.eof { WithinBlock(w.end, w.held); } else { BeforeBlock(w.end, w.held); }
  }

  /** A refilled window with a header's worth covers the rest of the block after the trailer. */
  lemma RefillSpans(file: seq<Byte>, w: Window)
    requires WindowOk(file, w)
    ensures var r, q := Refill(file, w), SkipTrailer(w.end - w.held);
            && (r.held >= HEADER ==> r.held <= r.end <= |file| && r.end - r.held == q && r.end == BufferEnd(file, q)
                                     && (r.eof <==> r.end < BlockStart(q) + BLOCK))
            && (r.held < HEADER ==> r.eof && BufferEnd(file, q) < q + HEADER)
  {
    if w.held >= HEADER {
      OldBlockSpans(file, w);
    } else if !w.eof {
      NewBlockSpans(file, w);
    }
  }

  lemma SliceTail(file: seq<Byte>, from: nat, end: nat, left: nat)
    requires from <= end <= |file| && left <= end - from
    ensures file[from..end][end - from - left..] == file[end - left..end]
  {
  }

  /** The buffer `b` of window `v`, read as `r` with `left` bytes remaining, is what the layer
      has at the offset of window `w`. */
  ghost predicate HasRead(phys: Layer, file: seq<Byte>, w: Window, v: Window, b: seq<Byte>, r: Physical, left: nat) {
    && w.held <= w.end && r == phys(w.end - w.held) && left <= |b|
    && left <= v.end && v.end - left == NextOffset(|file|, r) && WindowOk(file, Window(left, v.end, v.eof))
    && b[|b| - left..] == file[v.end - left..v.end]
  }

  ghost predicate Refilled(file: seq<Byte>, w: Window, v: Window, b: seq<Byte>) {
    && WindowOk(file, w) && v == Refill(file, w)
    && |b| == v.held <= v.end <= |file| && b == file[v.end - |b|..v.end]
  }

  lemma BufferIs(phys: Layer, crc: Checksum, file: seq<Byte>, w: Window, v: Window, b: seq<Byte>, r: Physical)
    requires Decodes(phys, crc, file) && Refilled(file, w, v, b)
    requires r == (if |b| < HEADER then Eof else ParseHeader(crc, b, v.eof, v.end - |b|))
    ensures r == phys(w.end - w.held) && (r.Eof? ==> v.end == |file|) && (!r.Eof? ==> v.end - v.held + HEADER <= r.next <= v.end)
  {
    PhysicalIs(crc, file, w, r);
    assert Ix(w.end - w.held);
  }

  lemma LeftIs(file: seq<Byte>, w: Window, v: Window, b: seq<Byte>, left: nat)
    requires Refilled(file, w, v, b) && (left == 0 || left + HEADER <= v.held)
    ensures left <= |b| && WindowOk(file, Window(left, v.end, v.eof)) && b[|b| - left..] == file[v.end - left..v.end]
  {
    WindowShrinks(file, w, left);
    SliceTail(file, v.end - |b|, v.end, left);
  }

  lemma PhysicalAt(phys: Layer, crc: Checksum, file: seq<Byte>, w: Window, v: Window, b: seq<Byte>, r: Physical, left: nat)
    requires Decodes(phys, crc, file) && Refilled(file, w, v, b)
    requires r == (if |b| < HEADER then Eof else ParseHeader(crc, b, v.eof, v.end - |b|))
    requires left == (if r.Eof? then 0 else v.end - r.next)
    ensures HasRead(phys, file, w, v, b, r, left)
  {
    BufferIs(phys, crc, file, w, v, b, r);
    LeftIs(file, w, v, b, left);
  }

  /** The parsing half of ReadPhysicalRecord: the record at the front of the buffer, and how much
      of the buffer remains after it. */
  method ParseBuffer(crc: Checksum, v: Window, b: seq<Byte>, ghost file: seq<Byte>, ghost phys: Layer, ghost w: Window)
    returns (r: Physical, left: nat)
    requires Decodes(phys, crc, file) && Refilled(file, w, v, b)
    ensures HasRead(phys, file, w, v, b, r, left)
  {
    r := if |b| < HEADER then Eof else ParseHeader(crc, b, v.eof, v.end - |b|);
    left := if r.Eof? then 0 else v.end - r.next;
    PhysicalAt(phys, crc, file, w, v, b, r, left);
  }

  lemma PhysicalIs(crc: Checksum, file: seq<Byte>, w: Window, r: Physical)
    requires WindowOk(file, w)
    requires var v := Refill(file, w);
             && v.held <= v.end <= |file|
             && r == (if v.held < HEADER then Eof else ParseHeader(crc, file[v.end - v.held..v.end], v.eof, v.end - v.held))
    ensures var v := Refill(file, w);
            r == ReadPhysical(crc, file, w.end - w.held) && (r.Eof? ==> v.end == |file|) && (!r.Eof? ==> v.end - v.held + HEADER <= r.next <= v.end)
  {
    RefillSpans(file, w);
  }

  lemma InNextBlock(p: nat, n: nat)
    requires InBlock(p) == 0 && n <= BLOCK
    ensures InBlock(p + n) == if n == BLOCK then 0 else n
  {
  }

  lemma RefillEnds(file: seq<Byte>, w: Window)
    requires WindowOk(file, w)
    ensures EndsBlock(file, Refill(file, w))
  {
    if w.held < HEADER && !w.eof { InNextBlock(w.end, Min(|file| - w.end, BLOCK)); }
  }

  lemma WindowShrinks(file: seq<Byte>, w: Window, left: nat)
    requires WindowOk(file, w)
    requires var v := Refill(file, w); v.held <= v.end <= |file| && (left == 0 || left + HEADER <= v.held)
    ensures var v := Refill(file, w); WindowOk(file, Window(left, v.end, v.eof))
  {
    if w.held < HEADER && !w.eof { InNextBlock(w.end, Min(|file| - w.end, BLOCK)); }
  }

  // ---------------------------------------------------------------- reading back what was written

  lemma EmitParts(crc: Checksum, t: Byte, payload: seq<Byte>)
    requires |payload| <= BLOCK - HEADER
    ensures var b := Emit(crc, t, payload);
            && b[4] as int + 256 * (b[5] as int) == |payload| && b[6] == t && b[HEADER..] == payload
            && b[..4] == crc([t] + payload)
  {
  }

  /** A header parses as soon as it is there, and the record as soon as it is whole. */
  lemma ParseEmitted(crc: Checksum, t: Byte, payload: seq<Byte>, b: seq<Byte>, eof: bool, q: nat)
    requires |payload| <= BLOCK - HEADER && t != ZERO_TYPE && |b| >= HEADER
    requires var e := Emit(crc, t, payload); if |e| <= |b| then b[..|e|] == e else b == e[..|b|]
    requires |b| < HEADER + |payload| ==> eof
    ensures ParseHeader(crc, b, eof, q) ==
            if HEADER + |payload| <= |b| then Record(t, payload, q + HEADER + |payload|) else Eof
  {
    EmitParts(crc, t, payload);
    var e := Emit(crc, t, payload);
    assert forall i :: 0 <= i < HEADER ==> b[i] == e[i];
    if |e| <= |b| {
      assert b[..4] == e[..4];
      assert b[HEADER..HEADER + |payload|] == e[HEADER..];
    }
  }

  lemma TrailerFacts(file: seq<Byte>, p: nat, n: nat)
    requires n <= Avail(InBlock(p))
    ensures var q := SkipTrailer(p);
            && BlockStart(q) == q - Start(InBlock(p)) && q + HEADER + n <= BlockStart(q) + BLOCK
            && (|file| < q + HEADER + n ==> BufferEnd(file, q) == |file| < BlockStart(q) + BLOCK)
            && (q + HEADER + n <= |file| ==> q + HEADER + n <= BufferEnd(file, q))
  {
  }

  lemma HeldInBuffer(file: seq<Byte>, q: nat, e: nat, em: seq<Byte>)
    requires Holds(file, q, em) && q <= e <= |file|
    requires if q + |em| <= |file| then q + |em| <= e else e == |file|
    ensures var b := file[q..e]; if |em| <= |b| then b[..|em|] == em else b == em[..|b|]
  {
    if q + |em| <= |file| {
      assert file[q..e][..|em|] == file[q..q + |em|];
    }
  }

  /** Reading at a fragment returns it if it is whole, and reports the end if it is cut off. */
  lemma ReadsFragment(crc: Checksum, file: seq<Byte>, p: nat, d: seq<Byte>, begin: bool, f: seq<Byte>)
    requires Holds(file, p, f) && f == Fragment(crc, InBlock(p), d, begin)
    ensures var n := Min(|d|, Avail(InBlock(p)));
            ReadPhysical(crc, file, p) ==
            if p + |f| <= |file| then Record(TypeOf(begin, |d| == n), d[..n], p + |f|) else Eof
  {
    var off := InBlock(p);
    var n := Min(|d|, Avail(off));
    var t := TypeOf(begin, |d| == n);
    var em := Emit(crc, t, d[..n]);
    var q, e := SkipTrailer(p), BufferEnd(file, SkipTrailer(p));
    TrailerFacts(file, p, n);
    HoldsBoth(file, p, Zeros(Pad(off)), em, f);
    if e >= q + HEADER {
      HeldInBuffer(file, q, e, em);
      ParseEmitted(crc, t, d[..n], file[q..e], e < BlockStart(q) + BLOCK, q);
    }
  }

  /** A block offset of BLOCK and of 0 mean the same. */
  lemma WrapAround(crc: Checksum, d: seq<Byte>, begin: bool)
    ensures Fragments(crc, BLOCK, d, begin) == Fragments(crc, 0, d, begin)
  {
  }

  /** Where the writer's next fragment goes is where the reader's offset falls. */
  lemma NextBlockOffset(p: nat, n: nat)
    requires n <= Avail(InBlock(p))
    ensures var next := Start(InBlock(p)) + HEADER + n;
            InBlock(p + Pad(InBlock(p)) + HEADER + n) == if next == BLOCK then 0 else next
  {
  }

  ghost predicate Holds(file: seq<Byte>, p: nat, s: seq<Byte>) {
    p <= |file| && if p + |s| <= |file| then file[p..p + |s|] == s else file[p..] == s[..|file| - p]
  }

  /** A file that holds two strings in a row, or the beginning of them. */
  lemma HoldsBoth(file: seq<Byte>, p: nat, a: seq<Byte>, b: seq<Byte>, s: seq<Byte>)
    requires Holds(file, p, s) && s == a + b
    ensures Holds(file, p, a)
    ensures p + |a| <= |file| ==> Holds(file, p + |a|, b)
  {
    assert s[..|a|] == a && s[|a|..] == b;
    if p + |s| <= |file| {
      assert file[p..p + |a|] == file[p..p + |s|][..|a|];
      assert file[p + |a|..p + |s|] == file[p..p + |s|][|a|..];
    } else if p + |a| <= |file| {
      assert file[p..p + |a|] == file[p..][..|a|];
      assert file[p + |a|..] == file[p..][|a|..];
      assert s[..|file| - p][..|a|] == a;
      assert s[..|file| - p][|a|..] == b[..|file| - p - |a|];
    } else {
      assert s[..|file| - p] == a[..|file| - p];
    }
  }

  lemma LogicalEnd(phys: Layer, size: nat, p: nat, inFragment: bool, scratch: seq<Byte>, k: nat)
    requires Progress(phys, size) && phys(p).Eof?
    ensures ReadLogical(phys, size, p, inFragment, scratch, k) == Logical(false, [], size, k)
  {
  }

  lemma LogicalLast(phys: Layer, size: nat, p: nat, begin: bool, scratch: seq<Byte>, k: nat, payload: seq<Byte>, next: nat)
    requires Progress(phys, size) && phys(p) == Record(TypeOf(begin, true), payload, next) && (begin ==> scratch == [])
    ensures ReadLogical(phys, size, p, !begin, scratch, k) == Logical(true, scratch + payload, next, k)
  {
  }

  lemma LogicalMore(phys: Layer, size: nat, p: nat, begin: bool, scratch: seq<Byte>, k: nat, payload: seq<Byte>, next: nat)
    requires Progress(phys, size) && phys(p) == Record(TypeOf(begin, false), payload, next) && (begin ==> scratch == [])
    ensures ReadLogical(phys, size, p, !begin, scratch, k) == ReadLogical(phys, size, next, true, scratch + payload, k)
  {
    assert begin ==> scratch + payload == payload;
  }

  lemma FragmentsSplit(crc: Checksum, offset: nat, d: seq<Byte>, begin: bool)
    requires offset <= BLOCK
    ensures var n := Min(|d|, Avail(offset));
            var f := Fragment(crc, offset, d, begin);
            && (|d| == n ==> Fragments(crc, offset, d, begin) == f)
            && (|d| != n ==> Fragments(crc, offset, d, begin) == f + Fragments(crc, Start(offset) + HEADER + n, d[n..], false))
  {
  }

  /** What follows a fragment that leaves some of the record is the record's rest, at its place. */
  lemma FragmentsContinue(crc: Checksum, p: nat, d: seq<Byte>, begin: bool)
    requires |d| > Avail(InBlock(p))
    ensures var f := Fragment(crc, InBlock(p), d, begin);
            Fragments(crc, InBlock(p), d, begin) == f + Fragments(crc, InBlock(p + |f|), d[Avail(InBlock(p))..], false)
  {
    var off := InBlock(p);
    var n := Avail(off);
    FragmentsSplit(crc, off, d, begin);
    NextBlockOffset(p, n);
    if Start(off) + HEADER + n == BLOCK { WrapAround(crc, d[n..], false); }
  }

  /** A file that holds a record, or the beginning of it, holds its first fragment so, and the
      others where the next one goes. */
  lemma HoldsFragments(crc: Checksum, file: seq<Byte>, p: nat, d: seq<Byte>, begin: bool, s: seq<Byte>)
    requires Holds(file, p, s) && s == Fragments(crc, InBlock(p), d, begin)
    ensures var n := Min(|d|, Avail(InBlock(p)));
            var f := Fragment(crc, InBlock(p), d, begin);
            var q := p + |f|;
            && Holds(file, p, f)
            && (|d| == n ==> s == f)
            && (|d| != n ==> p + |s| == q + |Fragments(crc, InBlock(q), d[n..], false)|)
            && (|d| != n && q <= |file| ==> Holds(file, q, Fragments(crc, InBlock(q), d[n..], false)))
  {
    var f, n := Fragment(crc, InBlock(p), d, begin), Min(|d|, Avail(InBlock(p)));
    if |d| == n {
      FragmentsSplit(crc, InBlock(p), d, begin);
    } else {
      FragmentsContinue(crc, p, d, begin);
      HoldsBoth(file, p, f, Fragments(crc, InBlock(p + |f|), d[n..], false), s);
    }
  }

  /** The offset after the fragment of `d` written at `p`. */
  function After(p: nat, d: seq<Byte>): nat {
    p + Pad(InBlock(p)) + HEADER + Min(|d|, Avail(InBlock(p)))
  }

  /** What is left of `d` after the fragment written at `p`. */
  function Left(p: nat, d: seq<Byte>): seq<Byte> {
    d[Min(|d|, Avail(InBlock(p)))..]
  }

  /** From `p` on the layer yields the fragments of `d` in order, or the end of the file where
      one is cut off. */
  ghost predicate Yields(phys: Layer, size: nat, p: nat, d: seq<Byte>, begin: bool, end: nat)
    decreases |d|, if Avail(InBlock(p)) == 0 then 1 else 0
  {
    var q, left := After(p, d), Left(p, d);
    if left != [] then
      NextHasRoom(p, d);
      if q > size then phys(p).Eof? && end > size
      else phys(p) == Record(TypeOf(begin, false), d[..|d| - |left|], q) && Yields(phys, size, q, left, false, end)
    else
      if q > size then phys(p).Eof? && end > size
      else phys(p) == Record(TypeOf(begin, true), d, q) && end == q
  }

  /** After a fragment with no room for payload comes one with room. */
  lemma NextHasRoom(p: nat, d: seq<Byte>)
    requires Left(p, d) != []
    ensures Avail(InBlock(After(p, d))) != 0
  {
    NextBlockOffset(p, Avail(InBlock(p)));
  }

  /** What the layer yields at a fragment the file holds. */
  lemma HeldFirst(phys: Layer, crc: Checksum, file: seq<Byte>, p: nat, d: seq<Byte>, begin: bool, f: seq<Byte>)
    requires Decodes(phys, crc, file) && Holds(file, p, f) && f == Fragment(crc, InBlock(p), d, begin)
    ensures var q, left := After(p, d), Left(p, d);
            q == p + |f| && phys(p) == if q <= |file| then Record(TypeOf(begin, left == []), d[..|d| - |left|], q) else Eof
  {
    DecodesFragment(phys, crc, file, p, d, begin, f);
  }

  /** What the file holds after it. */
  lemma HeldRest(crc: Checksum, file: seq<Byte>, p: nat, d: seq<Byte>, begin: bool, s: seq<Byte>) returns (f: seq<Byte>, rest: seq<Byte>)
    requires Holds(file, p, s) && s == Fragments(crc, InBlock(p), d, begin)
    ensures Holds(file, p, f) && f == Fragment(crc, InBlock(p), d, begin)
    ensures var q, left := p + |f|, Left(p, d);
            && (left == [] ==> q == p + |s|)
            && (left != [] ==> q + |rest| == p + |s| && rest == Fragments(crc, InBlock(q), left, false))
            && (left != [] && q <= |file| ==> Holds(file, q, rest))
  {
    f := Fragment(crc, InBlock(p), d, begin);
    HoldsFragments(crc, file, p, d, begin, s);
    rest := Fragments(crc, InBlock(p + |f|), Left(p, d), false);
  }

  /** A step of the layer: what it yields, and what the file holds after it. */
  /** The first fragment of what is left is read, or cut off. */
  ghost predicate FirstYields(phys: Layer, size: nat, p: nat, d: seq<Byte>, begin: bool, end: nat) {
    var q, left := After(p, d), Left(p, d);
    if q > size then phys(p).Eof? && end > size
    else phys(p) == Record(TypeOf(begin, left == []), d[..|d| - |left|], q) && (left == [] ==> end == q)
  }

  /** The file holds the fragments of `d` from `p` on, or as many of their bytes as it has. */
  ghost predicate HoldsPieces(crc: Checksum, file: seq<Byte>, p: nat, d: seq<Byte>, begin: bool, s: seq<Byte>) {
    Holds(file, p, s) && s == Fragments(crc, InBlock(p), d, begin)
  }

  lemma HeldStep(phys: Layer, crc: Checksum, file: seq<Byte>, p: nat, d: seq<Byte>, begin: bool, s: seq<Byte>) returns (rest: seq<Byte>)
    requires Decodes(phys, crc, file) && HoldsPieces(crc, file, p, d, begin, s)
    ensures FirstYields(phys, |file|, p, d, begin, p + |s|)
    ensures Left(p, d) != [] && After(p, d) <= |file| ==>
              HoldsPieces(crc, file, After(p, d), Left(p, d), false, rest) && After(p, d) + |rest| == p + |s|
  {
    var f;
    f, rest := HeldRest(crc, file, p, d, begin, s);
    HeldFirst(phys, crc, file, p, d, begin, f);
  }

  /** What is left after a fragment is less, or as much but with room for some of it. */
  lemma LeftIsLess(p: nat, d: seq<Byte>)
    requires Left(p, d) != []
    ensures |Left(p, d)| < |d| || (|Left(p, d)| == |d| && Avail(InBlock(p)) == 0 && Avail(InBlock(After(p, d))) != 0)
  {
    NextHasRoom(p, d);
  }

  lemma {:induction false} RecordYields(phys: Layer, crc: Checksum, file: seq<Byte>, p: nat, d: seq<Byte>, begin: bool, s: seq<Byte>, end: nat)
    requires Decodes(phys, crc, file) && HoldsPieces(crc, file, p, d, begin, s) && end == p + |s|
    ensures Yields(phys, |file|, p, d, begin, end)
    decreases |d|, if Avail(InBlock(p)) == 0 then 1 else 0
  {
    var rest := HeldStep(phys, crc, file, p, d, begin, s);
    if Left(p, d) != [] && After(p, d) <= |file| {
      LeftIsLess(p, d);
      RecordYields(phys, crc, file, After(p, d), Left(p, d), false, rest, end);
    }
    YieldsBy(phys, |file|, p, d, begin, end);
  }

  lemma YieldsBy(phys: Layer, size: nat, p: nat, d: seq<Byte>, begin: bool, end: nat)
    requires FirstYields(phys, size, p, d, begin, end)
    requires Left(p, d) != [] && After(p, d) <= size ==> Yields(phys, size, After(p, d), Left(p, d), false, end)
    ensures Yields(phys, size, p, d, begin, end)
  {
    assert d[..|d|] == d;
  }

  /** Reading a record, from any of its fragments on: whole if it is wholly there, and nothing
      at all, without complaint, if the file ends inside it. */
  lemma {:induction false} YieldedReads(phys: Layer, size: nat, p: nat, d: seq<Byte>, begin: bool, end: nat, scratch: seq<Byte>, whole: seq<Byte>)
    requires Progress(phys, size) && Yields(phys, size, p, d, begin, end) && (begin ==> scratch == []) && whole == scratch + d
    ensures ReadLogical(phys, size, p, !begin, scratch, 0) == WholeOrEnd(whole, end, size)
    decreases |d|, if Avail(InBlock(p)) == 0 then 1 else 0
  {
    var q, left := After(p, d), Left(p, d);
    if q > size {
      LogicalEnd(phys, size, p, !begin, scratch, 0);
    } else if left == [] {
      LogicalLast(phys, size, p, begin, scratch, 0, d, q);
    } else {
      var piece := d[..|d| - |left|];
      NextHasRoom(p, d);
      LogicalMore(phys, size, p, begin, scratch, 0, piece, q);
      assert scratch + piece + left == scratch + d;
      YieldedReads(phys, size, q, left, false, end, scratch + piece, whole);
    }
  }

  /** What reading makes of a record that ends at offset `end`. */
  function WholeOrEnd(d: seq<Byte>, end: nat, size: nat): Logical {
    if end <= size then Logical(true, d, end, 0) else Logical(false, [], size, 0)
  }

  lemma DecodesFragment(phys: Layer, crc: Checksum, file: seq<Byte>, p: nat, d: seq<Byte>, begin: bool, f: seq<Byte>)
    requires Decodes(phys, crc, file) && Holds(file, p, f) && f == Fragment(crc, InBlock(p), d, begin)
    ensures var n := Min(|d|, Avail(InBlock(p)));
            phys(p) == if p + |f| <= |file| then Record(TypeOf(begin, |d| == n), d[..n], p + |f|) else Eof
  {
    ReadsFragment(crc, file, p, d, begin, f);
    assert Ix(p);
  }

  // ---------------------------------------------------------------- whole logs

  /** The bytes of a record written at a file offset. */
  type Encoder = (nat, seq<Byte>) -> seq<Byte>

  /** The bytes of a log: the records one after the other, each at the offset reached. */
  ghost function Stream(enc: Encoder, rs: seq<seq<Byte>>): seq<Byte> {
    if rs == [] then []
    else
      var s := Stream(enc, rs[..|rs| - 1]);
      s + enc(|s|, rs[|rs| - 1])
  }

  /** Reading to the end: the records, and how many corruptions were reported. */
  ghost function ReadMany(rd: Decoder, size: nat, p: nat, n: nat): (seq<seq<Byte>>, nat)
    requires Moves(rd, size)
    decreases size - p
  {
    var r := rd(p, n);
    if !r.found then ([], r.reports)
    else
      var rest := ReadMany(rd, size, r.next, r.reports);
      ([r.data] + rest.0, rest.1)
  }

  /** Where the file holds a record it is read back, and where the file is cut off inside a
      record, or between two, nothing is. */
  ghost predicate ReadsBack(enc: Encoder, rd: Decoder, file: seq<Byte>) {
    && Moves(rd, |file|)
    && rd(|file|, 0) == Logical(false, [], |file|, 0)
    && forall p: nat, d {:trigger enc(p, d)} :: Holds(file, p, enc(p, d)) ==>
         rd(p, 0) == WholeOrEnd(d, p + |enc(p, d)|, |file|)
  }

  lemma {:induction false} StreamGrows(enc: Encoder, rs: seq<seq<Byte>>, i: nat)
    requires i <= |rs|
    ensures Stream(enc, rs[..i]) <= Stream(enc, rs)
    decreases |rs|
  {
    if i == |rs| {
      assert rs[..i] == rs;
    } else {
      StreamGrows(enc, rs[..|rs| - 1], i);
      assert rs[..|rs| - 1][..i] == rs[..i];
    }
  }

  lemma StreamOrder(enc: Encoder, rs: seq<seq<Byte>>, i: nat, k: nat)
    requires i <= k <= |rs|
    ensures |Stream(enc, rs[..i])| <= |Stream(enc, rs[..k])|
  {
    StreamGrows(enc, rs[..k], i);
    assert rs[..k][..i] == rs[..i];
  }

  lemma StreamStep(enc: Encoder, rs: seq<seq<Byte>>, i: nat)
    requires i < |rs|
    ensures var s := Stream(enc, rs[..i]); Stream(enc, rs[..i + 1]) == s + enc(|s|, rs[i])
  {
    assert rs[..i + 1][..i] == rs[..i];
  }

  /** A log cut anywhere holds each record, or the beginning of it, at its place. */
  lemma HoldsRecord(enc: Encoder, rs: seq<seq<Byte>>, cut: nat, i: nat)
    requires cut <= |Stream(enc, rs)| && i < |rs| && |Stream(enc, rs[..i])| <= cut
    ensures var p := |Stream(enc, rs[..i])|; Holds(Stream(enc, rs)[..cut], p, enc(p, rs[i]))
  {
    var s, all := Stream(enc, rs[..i]), Stream(enc, rs);
    var f := enc(|s|, rs[i]);
    StreamStep(enc, rs, i);
    StreamGrows(enc, rs, i + 1);
    assert all[|s|..|s| + |f|] == f;
    if |s| + |f| > cut {
      assert all[..cut][|s|..] == f[..cut - |s|];
    }
  }

  /** How many of the records end at or before the cut. */
  ghost predicate WholeBefore(enc: Encoder, rs: seq<seq<Byte>>, cut: nat, k: nat) {
    && k <= |rs| && |Stream(enc, rs[..k])| <= cut
    && (k < |rs| ==> cut < |Stream(enc, rs[..k + 1])|)
  }

  lemma ReadsNth(enc: Encoder, rd: Decoder, rs: seq<seq<Byte>>, cut: nat, i: nat)
    requires cut <= |Stream(enc, rs)| && ReadsBack(enc, rd, Stream(enc, rs)[..cut])
    requires i < |rs| && |Stream(enc, rs[..i])| <= cut
    ensures rd(|Stream(enc, rs[..i])|, 0) == WholeOrEnd(rs[i], |Stream(enc, rs[..i + 1])|, cut)
  {
    HoldsRecord(enc, rs, cut, i);
    StreamStep(enc, rs, i);
  }

  ghost predicate ReadsAt(rd: Decoder, rs: seq<seq<Byte>>, ends: seq<nat>, cut: nat, i: nat) {
    && i < |rs| < |ends|
    && rd(ends[i], 0) == WholeOrEnd(rs[i], ends[i + 1], cut)
  }

  /** Records ending at offsets `ends`, read in order up to a cut. */
  lemma {:induction false} ReadsUpTo(rd: Decoder, rs: seq<seq<Byte>>, ends: seq<nat>, cut: nat, k: nat, i: nat)
    requires Moves(rd, cut) && i <= k <= |rs| < |ends|
    requires forall j: nat :: j < |rs| && j <= k ==> ReadsAt(rd, rs, ends, cut, j)
    requires forall j :: 0 <= j <= k ==> ends[j] <= cut
    requires if k < |rs| then cut < ends[k + 1] else ends[k] == cut && rd(cut, 0) == Logical(false, [], cut, 0)
    ensures ReadMany(rd, cut, ends[i], 0) == (rs[i..k], 0)
    decreases k - i
  {
    assert i < |rs| ==> ReadsAt(rd, rs, ends, cut, i);
    if i < k {
      ReadsUpTo(rd, rs, ends, cut, k, i + 1);
      ManyMore(rd, cut, ends[i], 0, ends[i + 1], rs[i + 1..k]);
      assert rs[i..k] == [rs[i]] + rs[i + 1..k];
    } else {
      ManyEnd(rd, cut, ends[i], 0);
      assert rs[i..k] == [];
    }
  }

  ghost function Ends(enc: Encoder, rs: seq<seq<Byte>>): (r: seq<nat>)
    ensures |r| == |rs| + 1 && forall i :: 0 <= i <= |rs| ==> r[i] == |Stream(enc, rs[..i])|
  {
    seq(|rs| + 1, i requires 0 <= i <= |rs| => |Stream(enc, rs[..i])|)
  }

  /** A log cut at any byte reads back as exactly the records wholly before the cut, with no
      corruption reported. */
  lemma CutLogReads(enc: Encoder, rd: Decoder, rs: seq<seq<Byte>>, cut: nat, k: nat)
    requires cut <= |Stream(enc, rs)| && ReadsBack(enc, rd, Stream(enc, rs)[..cut])
    requires WholeBefore(enc, rs, cut, k)
    ensures ReadMany(rd, cut, 0, 0) == (rs[..k], 0)
  {
    var ends := Ends(enc, rs);
    forall j: nat | j <= k
      ensures ends[j] <= cut && (j < |rs| ==> ReadsAt(rd, rs, ends, cut, j))
    {
      StreamOrder(enc, rs, j, k);
      if j < |rs| { ReadsNth(enc, rd, rs, cut, j); }
    }
    assert rs[..|rs|] == rs && rs[..0] == [] && rs[0..k] == rs[..k];
    ReadsUpTo(rd, rs, ends, cut, k, 0);
  }

  lemma ManyMore(rd: Decoder, size: nat, p: nat, n: nat, next: nat, rest: seq<seq<Byte>>)
    requires Moves(rd, size) && rd(p, n).found && rd(p, n).next == next && ReadMany(rd, size, next, rd(p, n).reports).0 == rest
    ensures ReadMany(rd, size, p, n) == ([rd(p, n).data] + rest, ReadMany(rd, size, next, rd(p, n).reports).1)
  {
  }

  lemma ManyEnd(rd: Decoder, size: nat, p: nat, n: nat)
    requires Moves(rd, size) && !rd(p, n).found
    ensures ReadMany(rd, size, p, n) == ([], rd(p, n).reports)
  {
  }

  lemma {:induction false} SomeWholeBefore(enc: Encoder, rs: seq<seq<Byte>>, cut: nat, i: nat) returns (k: nat)
    requires i <= |rs| && |Stream(enc, rs[..i])| <= cut
    ensures WholeBefore(enc, rs, cut, k)
    decreases |rs| - i
  {
    if i == |rs| || cut < |Stream(enc, rs[..i + 1])| {
      k := i;
    } else {
      k := SomeWholeBefore(enc, rs, cut, i + 1);
    }
  }

  // ---------------------------------------------------------------- LevelDB's encoder and decoder

  /** A mark. */
  predicate Written(p: nat, d: seq<Byte>) {
    p >= 0
  }

  ghost predicate IsEncoder(enc: Encoder, crc: Checksum) {
    forall p: nat, d {:trigger Written(p, d)} :: Written(p, d) ==> enc(p, d) == Fragments(crc, InBlock(p), d, true)
  }

  lemma SameOffset(p: nat, offset: nat)
    requires offset <= BLOCK && InBlock(p - offset) == 0
    ensures InBlock(p) == if offset == BLOCK then 0 else offset
  {
  }

  /** A writer's block offset stands for its file offset. */
  lemma EncodesAt(enc: Encoder, crc: Checksum, p: nat, offset: nat, d: seq<Byte>)
    requires IsEncoder(enc, crc) && offset <= BLOCK && InBlock(p - offset) == 0
    ensures enc(p, d) == Fragments(crc, offset, d, true)
  {
    assert Written(p, d);
    SameOffset(p, offset);
    if offset == BLOCK { WrapAround(crc, d, true); }
  }

  lemma ReadsRecord(rd: Decoder, phys: Layer, crc: Checksum, file: seq<Byte>, p: nat, d: seq<Byte>, s: seq<Byte>)
    requires Layers(rd, phys, crc, file) && Holds(file, p, s) && s == Fragments(crc, InBlock(p), d, true)
    ensures rd(p, 0) == WholeOrEnd(d, p + |s|, |file|)
  {
    RecordYields(phys, crc, file, p, d, true, s, p + |s|);
    YieldedRecord(rd, phys, |file|, p, d, p + |s|);
  }

  lemma YieldedRecord(rd: Decoder, phys: Layer, size: nat, p: nat, d: seq<Byte>, end: nat)
    requires IsDecoder(rd, phys, size) && Yields(phys, size, p, d, true, end)
    ensures rd(p, 0) == WholeOrEnd(d, end, size)
  {
    assert d == [] + d;
    assert From(p, 0);
    YieldedReads(phys, size, p, d, true, end, [], d);
  }

  lemma ReadsEnd(phys: Layer, crc: Checksum, file: seq<Byte>)
    requires Decodes(phys, crc, file)
    ensures ReadLogical(phys, |file|, |file|, false, [], 0) == Logical(false, [], |file|, 0)
  {
    assert Ix(|file|);
    LogicalEnd(phys, |file|, |file|, false, [], 0);
  }

  /** What the writer writes the reader reads back. */
  lemma LogReadsBack(enc: Encoder, rd: Decoder, phys: Layer, crc: Checksum, file: seq<Byte>)
    requires IsEncoder(enc, crc) && Layers(rd, phys, crc, file)
    ensures ReadsBack(enc, rd, file)
  {
    ReadsEnd(phys, crc, file);
    assert From(|file|, 0);
    forall p: nat, d | Holds(file, p, enc(p, d))
      ensures rd(p, 0) == WholeOrEnd(d, p + |enc(p, d)|, |file|)
    {
      assert Written(p, d);
      ReadsRecord(rd, phys, crc, file, p, d, enc(p, d));
    }
  }

  method WriteAll(crc: Checksum, rs: seq<seq<Byte>>, ghost enc: Encoder) returns (file: seq<Byte>)
    requires IsEncoder(enc, crc)
    ensures file == Stream(enc, rs)
  {
    var w := new Writer(crc);
    for i := 0 to |rs|
      invariant w.Valid() && fresh(w) && w.crc == crc && w.dest == Stream(enc, rs[..i])
    {
      StreamStep(enc, rs, i);
      EncodesAt(enc, crc, |w.dest|, w.blockOffset, rs[i]);
      w.AddRecord(rs[i]);
    }
    assert rs[..|rs|] == rs;
    file := w.dest;
  }

  method ReadAll(crc: Checksum, file: seq<Byte>) returns (rs: seq<seq<Byte>>, reports: nat, ghost phys: Layer, ghost rd: Decoder)
    ensures Layers(rd, phys, crc, file) && (rs, reports) == ReadMany(rd, |file|, 0, 0)
  {
    FileHasLayers(crc, file);
    phys := LayerOf(crc, file);
    rd := DecoderOf(phys, |file|);
    rs, reports := ReadRest(crc, file, phys, rd);
  }

  method ReadRest(crc: Checksum, file: seq<Byte>, ghost phys: Layer, ghost rd: Decoder) returns (rs: seq<seq<Byte>>, reports: nat)
    requires Layers(rd, phys, crc, file)
    ensures (rs, reports) == ReadMany(rd, |file|, 0, 0)
  {
    var reader := new Reader(crc, file);
    rs := [];
    ghost var goal := ReadMany(rd, |file|, 0, 0);
    assert [] + goal.0 == goal.0;
    while true
      invariant reader.Valid() && fresh(reader)
      invariant reader.file == file && reader.crc == crc
      invariant var rest := ReadMany(rd, |file|, reader.Offset(), reader.reports); (rs + rest.0, rest.1) == goal
      decreases |file| - reader.Offset()
    {
      ghost var p, n := reader.Offset(), reader.reports;
      var found, record := reader.ReadNext(phys, rd);
      if !found {
        ManyEnd(rd, |file|, p, n);
        assert rs + [] == rs;
        return rs, reader.reports;
      }
      ghost var rest := ReadMany(rd, |file|, reader.Offset(), reader.reports).0;
      ManyMore(rd, |file|, p, n, reader.Offset(), rest);
      assert rs + ([record] + rest) == rs + [record] + rest;
      rs := rs + [record];
    }
  }

  /** The writer's bytes, cut anywhere, through the reader. */
  method WriteCutRead(crc: Checksum, rs: seq<seq<Byte>>, cut: nat, ghost enc: Encoder) returns (got: seq<seq<Byte>>, reports: nat)
    requires IsEncoder(enc, crc) && cut <= |Stream(enc, rs)|
    ensures reports == 0 && got <= rs && WholeBefore(enc, rs, cut, |got|)
  {
    var file := WriteAll(crc, rs, enc);
    ghost var phys, rd;
    got, reports, phys, rd := ReadAll(crc, file[..cut]);
    LogReadsBack(enc, rd, phys, crc, file[..cut]);
    assert rs[..0] == [];
    ghost var k := SomeWholeBefore(enc, rs, cut, 0);
    CutLogReads(enc, rd, rs, cut, k);
  }

  // ---------------------------------------------------------------- any bytes at all

  predicate HasRoom(x: nat) {
    x % 32768 + HEADER <= BLOCK
  }

  /** `q` is the first offset from `p` on with room for a header before the end of its block. */
  ghost predicate HeaderAt(p: nat, q: nat) {
    p <= q && HasRoom(q) && forall x: nat :: p <= x < q ==> !HasRoom(x)
  }

  /** The length a header stores, low byte first. */
  function LengthAt(file: seq<Byte>, q: nat): nat
    requires q + HEADER <= |file|
  {
    file[q + 4] as int + 256 * (file[q + 5] as int)
  }

  /** At `q` the file has a header, inside one block, for these bytes after it: their length, their type,
      and in the first four bytes their checksum. */
  ghost predicate IsChecked(crc: Checksum, file: seq<Byte>, q: nat, kind: Byte, payload: seq<Byte>) {
    && q + HEADER + |payload| <= |file| && q % 32768 + HEADER + |payload| <= BLOCK
    && payload == file[q + HEADER..q + HEADER + |payload|] && LengthAt(file, q) == |payload|
    && file[q + 6] == kind && file[q..q + 4] == crc([kind] + payload)
  }

  lemma HeaderIs(p: nat, q: nat)
    requires HeaderAt(p, q)
    ensures q == SkipTrailer(p)
  {
    HeaderFits(p);
    assert HasRoom(SkipTrailer(p)) && HasRoom(q);
  }

  lemma HeaderFits(p: nat)
    ensures HeaderAt(p, SkipTrailer(p))
  {
  }

  lemma SameSlice(file: seq<Byte>, q: nat, e: nat, length: nat)
    requires q + HEADER + length <= e <= |file|
    ensures file[q..e][..4] == file[q..q + 4] && file[q..e][HEADER..HEADER + length] == file[q + HEADER..q + HEADER + length]
  {
  }

  /** What a reader makes of the bytes at its offset, whatever they are. A header that ends past the
      file is the end; one whose length runs out of the block is reported, unless the file ends in
      it; zeros are skipped without a report; a wrong checksum is reported; and the rest of the
      block goes with each. Only bytes that match their checksum come back. */
  lemma PhysicalCases(crc: Checksum, file: seq<Byte>, p: nat, q: nat)
    requires HeaderAt(p, q)
    ensures var r, blockEnd := ReadPhysical(crc, file, p), q - q % 32768 + BLOCK;
            var end := Min(blockEnd, |file|);
            if q + HEADER > end then r == Eof
            else
              var length, kind := LengthAt(file, q), file[q + 6];
              if q + HEADER + length > end then r == (if |file| < blockEnd then Eof else Bad(end, true))
              else if kind == 0 && length == 0 then r == Bad(end, false)
              else if file[q..q + 4] != crc([kind] + file[q + HEADER..q + HEADER + length]) then r == Bad(end, true)
              else r == Record(kind, file[q + HEADER..q + HEADER + length], q + HEADER + length)
  {
    HeaderIs(p, q);
    var end := BufferEnd(file, q);
    if q + HEADER <= end && q + HEADER + LengthAt(file, q) <= end { SameSlice(file, q, end, LengthAt(file, q)); }
  }

  /** A record that comes back is the file's own bytes, and their checksum is stored before them. */
  lemma RecordIsChecked(crc: Checksum, file: seq<Byte>, p: nat) returns (q: nat)
    requires ReadPhysical(crc, file, p).Record?
    ensures var r := ReadPhysical(crc, file, p);
            HeaderAt(p, q) && IsChecked(crc, file, q, r.kind, r.payload) && r.next == q + HEADER + |r.payload|
  {
    q := SkipTrailer(p);
    HeaderFits(p);
    PhysicalCases(crc, file, p, q);
  }

  /** The payloads of some physical records, joined. */
  ghost function Join(phys: Layer, ps: seq<nat>): seq<Byte>
    requires forall i :: 0 <= i < |ps| ==> phys(ps[i]).Record?
  {
    if ps == [] then [] else Join(phys, ps[..|ps| - 1]) + phys(ps[|ps| - 1]).payload
  }

  ghost predicate IsPiece(phys: Layer, ps: seq<nat>, i: nat, end: nat, whole: bool)
    requires i < |ps|
  {
    var r := phys(ps[i]);
    r.Record? && r.next == (if i == |ps| - 1 then end else ps[i + 1]) && r.kind == TypeOf(i == 0, whole && i == |ps| - 1)
  }

  /** The records at `ps` follow on each other up to `end`; the types are those of the beginning of a
      record, of all of it if `whole`, and its bytes are `data`. */
  ghost predicate Pieces(phys: Layer, ps: seq<nat>, data: seq<Byte>, end: nat, whole: bool) {
    && ps != [] && (forall i :: 0 <= i < |ps| ==> phys(ps[i]).Record?)
    && (forall i: nat :: i < |ps| ==> IsPiece(phys, ps, i, end, whole))
    && data == Join(phys, ps)
  }

  lemma OnePiece(phys: Layer, p: nat, whole: bool)
    requires phys(p).Record? && phys(p).kind == TypeOf(true, whole)
    ensures Pieces(phys, [p], phys(p).payload, phys(p).next, whole)
  {
    assert [p][..0] == [];
  }

  lemma MorePieces(phys: Layer, ps: seq<nat>, data: seq<Byte>, p: nat, whole: bool)
    requires Pieces(phys, ps, data, p, false) && phys(p).Record? && phys(p).kind == TypeOf(false, whole)
    ensures Pieces(phys, ps + [p], data + phys(p).payload, phys(p).next, whole)
  {
    var qs := ps + [p];
    assert qs[..|ps|] == ps;
    forall i: nat | i < |qs| ensures IsPiece(phys, qs, i, phys(p).next, whole) {
      if i < |ps| { assert IsPiece(phys, ps, i, p, false); }
    }
    assert forall i :: 0 <= i < |qs| ==> phys(qs[i]).Record?;
  }

  /** A record is returned only if it is all of some physical records in a row, first to last. */
  lemma {:induction false} FoundIsAssembled(phys: Layer, size: nat, p: nat, inFragment: bool, scratch: seq<Byte>, n: nat, ps: seq<nat>)
    returns (qs: seq<nat>)
    requires Progress(phys, size) && (inFragment ==> Pieces(phys, ps, scratch, p, false))
    ensures var l := ReadLogical(phys, size, p, inFragment, scratch, n); l.found ==> Pieces(phys, qs, l.data, l.next, true)
    decreases size - p
  {
    LogicalStep(phys, size, p, inFragment, scratch, n);
    var r := phys(p);
    var t := Absorb(r, inFragment, scratch);
    var n' := n + Count(r.Bad? && r.reported) + t.reports;
    qs := TurnPieces(phys, p, inFragment, scratch, ps);
    if t.More? { qs := FoundIsAssembled(phys, size, NextOffset(size, r), t.inFragment, t.scratch, n', qs); }
  }

  lemma TurnPieces(phys: Layer, p: nat, inFragment: bool, scratch: seq<Byte>, ps: seq<nat>) returns (qs: seq<nat>)
    requires inFragment ==> Pieces(phys, ps, scratch, p, false)
    ensures var t := Absorb(phys(p), inFragment, scratch);
            if t.Done? then t.found ==> Pieces(phys, qs, t.data, phys(p).next, true)
            else t.inFragment ==> Pieces(phys, qs, t.scratch, phys(p).next, false)
  {
    qs := [p];
    var r := phys(p);
    if r.Record? {
      if r.kind == FULL || r.kind == FIRST {
        OnePiece(phys, p, r.kind == FULL);
      } else if inFragment && (r.kind == MIDDLE || r.kind == LAST) {
        qs := ps + [p];
        MorePieces(phys, ps, scratch, p, r.kind == LAST);
      }
    }
  }

  /** All bytes of a record that is returned match a checksum stored in the file. */
  ghost predicate IsVouched(crc: Checksum, file: seq<Byte>, p: nat, r: Physical) {
    r.Record? && exists q: nat :: HeaderAt(p, q) && IsChecked(crc, file, q, r.kind, r.payload) && r.next == q + HEADER + |r.payload|
  }

  /** Reading any file to its end: each record returned is physical records in a row, first to last, and
      every one of them matches the checksum the file stores for it. */
  lemma {:induction false} RecordsAreVouched(rd: Decoder, phys: Layer, crc: Checksum, file: seq<Byte>, p: nat, n: nat, i: nat)
    returns (ps: seq<nat>, end: nat)
    requires Layers(rd, phys, crc, file) && i < |ReadMany(rd, |file|, p, n).0|
    ensures Pieces(phys, ps, ReadMany(rd, |file|, p, n).0[i], end, true)
    ensures forall k :: 0 <= k < |ps| ==> IsVouched(crc, file, ps[k], phys(ps[k]))
    decreases |file| - p
  {
    assert From(p, n);
    var r := rd(p, n);
    if i == 0 {
      ps := FoundIsAssembled(phys, |file|, p, false, [], n, []);
      end := r.next;
      forall k | 0 <= k < |ps| ensures IsVouched(crc, file, ps[k], phys(ps[k])) {
        assert Ix(ps[k]);
        var q := RecordIsChecked(crc, file, ps[k]);
      }
    } else {
      ps, end := RecordsAreVouched(rd, phys, crc, file, r.next, r.reports, i - 1);
    }
  }

  // ---------------------------------------------------------------- damage loses no more than it hits

  /** Reading from the offset `p` in the middle of things, to the end of the file. */
  ghost function ReadOn(rd: Decoder, phys: Layer, size: nat, p: nat, inFragment: bool, scratch: seq<Byte>, n: nat): seq<seq<Byte>>
    requires IsDecoder(rd, phys, size)
  {
    var l := ReadLogical(phys, size, p, inFragment, scratch, n);
    if l.found then [l.data] + ReadMany(rd, size, l.next, l.reports).0 else []
  }

  lemma ReadOnFresh(rd: Decoder, phys: Layer, size: nat, p: nat, n: nat)
    requires IsDecoder(rd, phys, size)
    ensures ReadOn(rd, phys, size, p, false, [], n) == ReadMany(rd, size, p, n).0
  {
    assert From(p, n);
  }

  /** Something other than the end is at `p`, and the reader goes on from `p'` after it. */
  ghost predicate GoesOn(phys: Layer, p: nat, p': nat) {
    !phys(p).Eof? && (phys(p).Record? ==> phys(p).kind != EOF_TYPE) && phys(p).next == p'
  }

  lemma TurnReadsOn(rd: Decoder, phys: Layer, size: nat, p: nat, p': nat, inFragment: bool, scratch: seq<Byte>, n: nat)
    returns (inFragment': bool, scratch': seq<Byte>, n': nat)
    requires IsDecoder(rd, phys, size) && GoesOn(phys, p, p')
    ensures forall r :: r in ReadOn(rd, phys, size, p', inFragment', scratch', n') ==> r in ReadOn(rd, phys, size, p, inFragment, scratch, n)
  {
    LogicalStep(phys, size, p, inFragment, scratch, n);
    var t := Absorb(phys(p), inFragment, scratch);
    n' := n + Count(phys(p).Bad? && phys(p).reported) + t.reports;
    if t.Done? {
      inFragment', scratch' := false, [];
      ReadOnFresh(rd, phys, size, p', n');
    } else {
      inFragment', scratch' := t.inFragment, t.scratch;
    }
  }

  /** From the first piece of a record on, the reader collects the others and returns the record. */
  lemma {:induction false} PiecesAreRead(phys: Layer, size: nat, ps: seq<nat>, data: seq<Byte>, end: nat, k: nat, inFragment: bool, scratch: seq<Byte>, n: nat)
    requires Progress(phys, size) && Pieces(phys, ps, data, end, true) && k < |ps|
    requires k > 0 ==> inFragment && scratch == Join(phys, ps[..k])
    ensures var l := ReadLogical(phys, size, ps[k], inFragment, scratch, n); l.found && l.data == data && l.next == end
    decreases |ps| - k
  {
    LogicalStep(phys, size, ps[k], inFragment, scratch, n);
    assert IsPiece(phys, ps, k, end, true);
    assert ps[..k + 1][..k] == ps[..k] && ps[..|ps|] == ps && ps[..0] == [];
    if k < |ps| - 1 {
      var t := Absorb(phys(ps[k]), inFragment, scratch);
      PiecesAreRead(phys, size, ps, data, end, k + 1, t.inFragment, t.scratch, n + t.reports);
    }
  }

  /** The reader goes from each of these offsets to the next. */
  ghost predicate IsScan(phys: Layer, os: seq<nat>) {
    os != [] && forall i: nat :: i < |os| - 1 ==> StepsOn(phys, os, i)
  }

  ghost predicate StepsOn(phys: Layer, os: seq<nat>, i: nat)
    requires i + 1 < |os|
  {
    GoesOn(phys, os[i], os[i + 1])
  }

  lemma {:induction false} ScanReads(rd: Decoder, phys: Layer, size: nat, os: seq<nat>, ps: seq<nat>, data: seq<Byte>, end: nat,
                                     inFragment: bool, scratch: seq<Byte>, n: nat)
    requires IsDecoder(rd, phys, size) && IsScan(phys, os) && Pieces(phys, ps, data, end, true) && os[|os| - 1] == ps[0]
    ensures data in ReadOn(rd, phys, size, os[0], inFragment, scratch, n)
    decreases |os|
  {
    if |os| == 1 {
      PiecesAreRead(phys, size, ps, data, end, 0, inFragment, scratch, n);
    } else {
      assert StepsOn(phys, os, 0);
      var inFragment', scratch', n' := TurnReadsOn(rd, phys, size, os[0], os[1], inFragment, scratch, n);
      var rest := os[1..];
      forall i: nat | i < |rest| - 1 ensures StepsOn(phys, rest, i) { assert StepsOn(phys, os, i + 1); }
      ScanReads(rd, phys, size, rest, ps, data, end, inFragment', scratch', n');
    }
  }

  /** Whatever else the file holds, damaged or out of place: a record whose pieces the reader meets in a
      row, first to last, is returned. */
  lemma MetIsReturned(rd: Decoder, phys: Layer, size: nat, os: seq<nat>, ps: seq<nat>, data: seq<Byte>, end: nat, n: nat)
    requires IsDecoder(rd, phys, size) && IsScan(phys, os) && Pieces(phys, ps, data, end, true) && os[|os| - 1] == ps[0]
    ensures data in ReadMany(rd, size, os[0], n).0
  {
    ScanReads(rd, phys, size, os, ps, data, end, false, [], n);
    ReadOnFresh(rd, phys, size, os[0], n);
  }

  /** Bytes of a record begun that do not make it into what is returned or kept are reported. */
  lemma LossIsReported(r: Physical, scratch: seq<Byte>)
    requires scratch != [] && !r.Eof? && (r.Record? ==> r.kind != EOF_TYPE)
    ensures var t := Absorb(r, true, scratch);
            t.reports == 1 || (if t.Done? then t.found && scratch <= t.data else t.inFragment && scratch <= t.scratch)
  {
  }

  /** And so is a piece in the middle or at the end of a record never begun, whose bytes go nowhere. */
  lemma OrphanIsReported(r: Physical, scratch: seq<Byte>)
    requires r.Record? && (r.kind == MIDDLE || r.kind == LAST)
    ensures Absorb(r, false, scratch) == More(false, scratch, 1)
  {
  }
}
