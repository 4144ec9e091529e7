/** The DMA buffer of the raw I/O driver seen through its two interfaces (rawrabbit.c):
    read and write at a file position, and ioctls that move one word. Addresses combine a
    4-bit area number and a 28-bit offset; areas other than the buffer are board memory and
    are not part of this model. */
module RawBuffer {
  import opened Words

  const BUFFER := 0xc000_0000
  const AREA := 0x1000_0000
  const PAGE := 4096
  const MAX_BUFSIZE := PAGE * 512

  /** What an access is about. */
  datatype Target = Invalid | Board | Buffer(off: nat)

  /** __RR_GET_BAR as the driver keeps it, in an int. */
  function Bar(pos: nat): nat { pos / AREA % 0x1_0000_0000 }

  predicate ValidBar(bar: nat) { bar == 0 || bar == 2 || bar == 4 || bar == 12 }

  /** Where read and write go. The area number is cut to 32 bits, so that positions from 2^60
      on may be taken for the buffer, too. */
  function FileTarget(pos: nat): (t: Target)
    ensures pos < 0xC000_0000 ==> t == if pos / 0x1000_0000 in {0, 2, 4} then Board else Invalid
    ensures 0xC000_0000 <= pos < 0xD000_0000 ==> t == Buffer(pos - 0xC000_0000)
    ensures 0xD000_0000 <= pos < 0x1000_0000_0000_0000 ==> t == Invalid
  {
    if !ValidBar(Bar(pos)) then Invalid
    else if pos >= BUFFER then Buffer(pos % AREA)
    else Board
  }

  const WRAP := 0x1000_0000_0000_0000    // 2^60

  /** From 2^60 on, the position is that of the buffer if the position modulo 2^60 is one of
      any area, and invalid otherwise. */
  lemma FarPosition(q: nat, r: nat)
    requires q > 0 && r < WRAP
    ensures FileTarget(q * WRAP + r) == if FileTarget(r) == Invalid then Invalid else Buffer(r % AREA)
  {
    hide FileTarget, Bar;
    FarBar(q, r);
    FileTargetIs(r);
    FileTargetIs(q * WRAP + r);
  }

  lemma FarBar(q: nat, r: nat)
    requires r < WRAP
    ensures Bar(q * WRAP + r) == Bar(r) && (q * WRAP + r) % AREA == r % AREA
  {
    assert q * WRAP + r == (q * 0x1_0000_0000) * AREA + r;
    assert (q * WRAP + r) / AREA == q * 0x1_0000_0000 + r / AREA;
  }

  lemma FileTargetIs(pos: nat)
    ensures FileTarget(pos) == if !ValidBar(Bar(pos)) then Invalid
                               else if pos >= BUFFER then Buffer(pos % AREA) else Board
  {
  }

  /** Where an ioctl goes; its address has 32 bits. */
  function IoctlTarget(address: Word): (t: Target)
    ensures 0xC000_0000 <= address < 0xD000_0000 ==> t == Buffer(address - 0xC000_0000)
    ensures !(0xC000_0000 <= address < 0xD000_0000) ==>
              t == if (address as int) / 0x1000_0000 in {0, 2, 4} then Board else Invalid
  {
    if !ValidBar(Bar(address)) then Invalid
    else if Bar(address) == 12 then Buffer((address as int) % AREA)
    else Board
  }

  datatype Answer =
    | Count(n: nat)
    | EndOfMedium    // ENOMEDIUM
    | NoSpace        // ENOSPC
    | BadAddress     // EINVAL
    | Misaligned     // EIO
    | BadSize        // EINVAL
    | OnBoard        // not part of this model

  function Min(a: int, b: int): int { if a < b then a else b }

  /** Bytes that a transfer of `count` bytes at `off` moves. */
  function Clipped(off: nat, count: nat, size: nat): nat {
    if off >= size then 0 else Min(count, size - off)
  }

  /** The data union of an ioctl: a word of n bytes is its first n bytes. */
  type Union = u: seq<Byte> | |u| == 8 witness [0, 0, 0, 0, 0, 0, 0, 0]

  predicate WordSize(n: nat) { n == 1 || n == 2 || n == 4 || n == 8 }

  /** The low bits of the offset that a word of n bytes needs to be zero are. */
  predicate OnWord(off: nat, n: nat) {
    (n == 2 ==> off % 2 == 0) && (n == 4 ==> off % 4 == 0) && (n == 8 ==> off % 8 == 0)
  }

  /** The answer to an ioctl on the buffer, before any data moves. */
  function IoctlAnswer(off: nat, n: nat, size: nat): Answer {
    if off >= size then EndOfMedium
    else if !WordSize(n) then BadSize
    else if !OnWord(off, n) then Misaligned
    else Count(0)
  }

  /** Which requests are answered how. */
  lemma AnswerMeans(off: nat, n: nat, size: nat)
    ensures var r := IoctlAnswer(off, n, size);
            && (r == EndOfMedium <==> off >= size)
            && (r == BadSize <==> off < size && n !in {1, 2, 4, 8})
            && (r == Misaligned <==> off < size && n in {1, 2, 4, 8} && off % n != 0)
            && (r == Count(0) <==> off < size && n in {1, 2, 4, 8} && off % n == 0)
            && r in {EndOfMedium, BadSize, Misaligned, Count(0)}
  {
    assert off % 1 == 0;
    if n == 2 { assert off % n == off % 2; }
    if n == 4 { assert off % n == off % 4; }
    if n == 8 { assert off % n == off % 8; }
  }

  class Device {
    const size: nat             // rr_bufsize
    const dmabuf: array<Byte>   // whole pages

    predicate Valid() {
      0 < size <= MAX_BUFSIZE && dmabuf.Length == (size + PAGE - 1) / PAGE * PAGE
    }

    /** A zeroed buffer of whole pages. */
    constructor (bufsize: nat)
      requires 0 < bufsize <= MAX_BUFSIZE
      ensures Valid() && fresh(dmabuf) && size == bufsize
      ensures forall i | 0 <= i < dmabuf.Length :: dmabuf[i] == 0
    {
      size := bufsize;
      dmabuf := new Byte[(bufsize + PAGE - 1) / PAGE * PAGE](_ => 0);
    }

    /** rr_read. */
    method Read(pos: nat, count: nat) returns (r: Answer, bytes: seq<Byte>, pos': nat)
      requires Valid()
      ensures FileTarget(pos).Buffer? ==>
                var off := FileTarget(pos).off;
                r == Count(|bytes|) && pos' == pos + |bytes| && bytes == Part(dmabuf[..size], off, count)
      ensures !FileTarget(pos).Buffer? ==>
                r == (if FileTarget(pos).Invalid? then BadAddress else OnBoard) && bytes == [] && pos' == pos
    {
      bytes, pos' := [], pos;
      var t := FileTarget(pos);
      if t.Invalid? { return BadAddress, bytes, pos'; }
      if t.Board? { return OnBoard, bytes, pos'; }
      if t.off >= size { return Count(0), bytes, pos'; }
      var n := count;
      if t.off + n > size { n := size - t.off; }
      bytes := dmabuf[t.off..t.off + n];
      return Count(n), bytes, pos + n;
    }

    /** rr_write: what does not fit is cut off. */
    method Write(pos: nat, data: seq<Byte>) returns (r: Answer, pos': nat)
      requires Valid()
      modifies dmabuf
      ensures FileTarget(pos).Buffer? ==>
                var off := FileTarget(pos).off; var n := Clipped(off, |data|, size);
                && (r == if off >= size then NoSpace else Count(n)) && pos' == pos + n
                && dmabuf[..] == Put(old(dmabuf[..]), off, data[..n])
      ensures FileTarget(pos).Buffer? && FileTarget(pos).off + |data| <= size && data != [] ==>
                && r == Count(|data|) && pos' == pos + |data|
                && Part(dmabuf[..size], FileTarget(pos).off, |data|) == data
      ensures FileTarget(pos).Buffer? && FileTarget(pos).off < size < FileTarget(pos).off + |data| ==>
                var n := size - FileTarget(pos).off;
                r == Count(n) && pos' == pos + n && Part(dmabuf[..size], FileTarget(pos).off, |data|) == data[..n]
      ensures !FileTarget(pos).Buffer? ==>
                r == (if FileTarget(pos).Invalid? then BadAddress else OnBoard) && pos' == pos
                && dmabuf[..] == old(dmabuf[..])
    {
      pos' := pos;
      var t := FileTarget(pos);
      if t.Invalid? { return BadAddress, pos'; }
      if t.Board? { return OnBoard, pos'; }
      if t.off >= size { return NoSpace, pos'; }
      var n := |data|;
      if t.off + n > size { n := size - t.off; }
      ghost var was := dmabuf[..];
      Copy(t.off, data[..n]);
      PutVisible(was, t.off, data[..n], size, |data|);
      return Count(n), pos + n;
    }

    /** Moving bytes into the buffer. */
    method Copy(off: nat, data: seq<Byte>)
      requires off + |data| <= dmabuf.Length
      modifies dmabuf
      ensures dmabuf[..] == Put(old(dmabuf[..]), off, data)
    {
      forall i | 0 <= i < |data| {
        dmabuf[off + i] := data[i];
      }
    }

    /** RR_READ and RR_WRITE on the buffer, rr_do_iocmd_dmabuf. */
    method Ioctl(write: bool, address: Word, n: nat, data: Union) returns (r: Answer, data': Union)
      requires Valid()
      modifies dmabuf
      ensures var t := IoctlTarget(address);
              match t
              case Invalid => r == BadAddress
              case Board => r == OnBoard
              case Buffer(off) =>
                && (r == EndOfMedium <==> off >= size)
                && (r == BadSize <==> off < size && n !in {1, 2, 4, 8})
                && (r == Misaligned <==> off < size && n in {1, 2, 4, 8} && off % n != 0)
                && (r == Count(0) <==> off < size && n in {1, 2, 4, 8} && off % n == 0)
                && r in {EndOfMedium, BadSize, Misaligned, Count(0)}
      ensures r != Count(0) || !write ==> dmabuf[..] == old(dmabuf[..])
      ensures r != Count(0) || write ==> data' == data
      ensures r == Count(0) ==>
                var off := IoctlTarget(address).off;
                && n in {1, 2, 4, 8} && off + n <= dmabuf.Length
                && (write ==> dmabuf[..] == Put(old(dmabuf[..]), off, data[..n]))
                && (!write ==> data' == dmabuf[off..off + n] + data[n..])
    {
      data' := data;
      var t := IoctlTarget(address);
      if t.Invalid? { return BadAddress, data'; }
      if t.Board? { return OnBoard, data'; }
      r := IoctlAnswer(t.off, n, size);
      AnswerMeans(t.off, n, size);
      if r == Count(0) {
        WordInPages(t.off, n, size);
        if write {
          Copy(t.off, data[..n]);
        } else {
          var word := dmabuf[t.off..t.off + n];
          assert |word| == n <= 8 && |word + data[n..]| == 8;
          data' := word + data[n..];
        }
      }
    }
  }

  /** The buffer part of rr_init: `bufsize` is the module parameter, an int; `memory` tells
      whether the pages are granted. RR_MAX_BUFSIZE is unsigned, so that a negative parameter
      compares as a large one. Without a buffer the module is not loaded. */
  method Init(bufsize: int, memory: bool) returns (d: Device?)
    requires -INT_LIMIT <= bufsize < INT_LIMIT
    ensures d != null <==> bufsize != 0 && memory
    ensures d != null ==> d.Valid() && fresh(d) && fresh(d.dmabuf)
    ensures d != null ==> d.size == if bufsize < 0 || bufsize > 0x20_0000 then 0x20_0000 else bufsize
    ensures d != null ==> forall i | 0 <= i < d.dmabuf.Length :: d.dmabuf[i] == 0
  {
    var unsigned := if bufsize < 0 then bufsize + LONG_LIMIT else bufsize;
    var size := bufsize;
    if unsigned > MAX_BUFSIZE {
      size := MAX_BUFSIZE;
    }
    if size == 0 || !memory {
      return null;
    }
    d := new Device(size);
  }

  /** An aligned word that begins in the buffer ends in its last page. */
  lemma WordInPages(off: nat, n: nat, size: nat)
    requires WordSize(n) && OnWord(off, n) && off < size
    ensures off + n <= (size + PAGE - 1) / PAGE * PAGE
  {
    assert size <= (size + PAGE - 1) / PAGE * PAGE;
  }

  /** `data` put into a buffer at `off`. */
  function Put(buf: seq<Byte>, off: nat, data: seq<Byte>): (r: seq<Byte>)
    ensures |r| == |buf|
  {
    seq(|buf|, i requires 0 <= i < |buf| => if off <= i < off + |data| then data[i - off] else buf[i])
  }

  /** The bytes of a buffer from `off` on, at most `count`. */
  function Part(buf: seq<Byte>, off: nat, count: nat): seq<Byte> {
    var lo := Min(off, |buf|);
    buf[lo..Min(lo + count, |buf|)]
  }

  // ---- Successive reads ----

  function Sum(sizes: seq<nat>): nat {
    if sizes == [] then 0 else Sum(sizes[..|sizes| - 1]) + sizes[|sizes| - 1]
  }

  datatype Reader = Reader(bytes: seq<Byte>, pos: nat, counts: seq<nat>)

  /** Reads of the given sizes, one after the other, as rr_read answers them. */
  function Reads(buf: seq<Byte>, pos: nat, sizes: seq<nat>): (r: Reader)
    ensures |r.counts| == |sizes|
  {
    if sizes == [] then Reader([], pos, [])
    else
      var r := Reads(buf, pos, sizes[..|sizes| - 1]);
      var t := FileTarget(r.pos);
      var b := if t.Buffer? then Part(buf, t.off, sizes[|sizes| - 1]) else [];
      Reader(r.bytes + b, r.pos + |b|, r.counts + [|b|])
  }

  /** Successive reads of any sizes join to one slice of the buffer, cut at its end. */
  lemma {:induction false} SlicesFollow(buf: seq<Byte>, pos: nat, sizes: seq<nat>)
    requires |buf| <= MAX_BUFSIZE && BUFFER <= pos < BUFFER + AREA
    ensures var r := Reads(buf, pos, sizes);
            && r.bytes == Part(buf, pos - BUFFER, Sum(sizes))
            && r.pos == pos + |r.bytes| < BUFFER + AREA
  {
    hide FileTarget, Part;
    var off := pos - BUFFER;
    if sizes == [] {
      PartJoins(buf, off, 0, 0);
    } else {
      var n := |sizes| - 1;
      SlicesFollow(buf, pos, sizes[..n]);
      PartJoins(buf, off, Sum(sizes[..n]), sizes[n]);
      PartJoins(buf, off, Sum(sizes), 0);
    }
  }

  lemma PartJoins(buf: seq<Byte>, off: nat, a: nat, b: nat)
    ensures Part(buf, off, 0) == []
    ensures var n := |Part(buf, off, a)|;
            Part(buf, off, a) + Part(buf, off + n, b) == Part(buf, off, a + b)
    ensures |Part(buf, off, a)| <= if off < |buf| then |buf| - off else 0
  {
  }

  /** Read `k` of positive size returns 0 exactly when the reads before it have asked for
      everything up to the end of the buffer. */
  lemma {:induction false} ZeroIsEnd(buf: seq<Byte>, pos: nat, sizes: seq<nat>, k: nat)
    requires |buf| <= MAX_BUFSIZE && BUFFER <= pos < BUFFER + AREA
    requires k < |sizes| && sizes[k] > 0
    ensures Reads(buf, pos, sizes).counts[k] == 0 <==> pos - BUFFER + Sum(sizes[..k]) >= |buf|
    decreases |sizes|
  {
    hide FileTarget, Part;
    var n := |sizes| - 1;
    if k < n {
      assert sizes[..n][..k] == sizes[..k];
      ZeroIsEnd(buf, pos, sizes[..n], k);
    } else {
      SlicesFollow(buf, pos, sizes[..n]);
      PartLength(buf, pos - BUFFER, Sum(sizes[..n]), sizes[n]);
    }
  }

  lemma PartLength(buf: seq<Byte>, off: nat, a: nat, b: nat)
    ensures var end := off + |Part(buf, off, a)|;
            && (end >= |buf| <==> off + a >= |buf|)
            && (|Part(buf, end, b)| == 0 <==> end >= |buf| || b == 0)
  {
  }

  // ---- Words seen as bytes ----

  /** A value of n bytes on a little-endian host. */
  function Little(v: nat, n: nat): (r: seq<Byte>)
    ensures |r| == n
  {
    if n == 0 then [] else [v % 0x100] + Little(v / 0x100, n - 1)
  }

  function Number(bytes: seq<Byte>): nat {
    if bytes == [] then 0 else (bytes[0] as int) + 0x100 * Number(bytes[1..])
  }

  lemma {:induction false} LittleNumber(v: nat, n: nat)
    requires v < Pow256(n)
    ensures Number(Little(v, n)) == v
  {
    if n > 0 {
      LittleNumber(v / 0x100, n - 1);
      assert Little(v, n)[1..] == Little(v / 0x100, n - 1);
    }
  }

  function Pow256(n: nat): nat { if n == 0 then 1 else 0x100 * Pow256(n - 1) }

  lemma PutSeen(buf: seq<Byte>, off: nat, data: seq<Byte>)
    requires off + |data| <= |buf|
    ensures var buf' := Put(buf, off, data);
            buf'[off..off + |data|] == data && Part(buf', off, |data|) == data
    ensures forall p: nat, c: nat :: p + c <= off || off + |data| <= p ==>
                Part(Put(buf, off, data), p, c) == Part(buf, p, c)
  {
    var buf' := Put(buf, off, data);
    assert buf'[off..off + |data|] == data;
    assert buf'[..off] == buf[..off] && buf'[off + |data|..] == buf[off + |data|..];
    forall p: nat, c: nat | p + c <= off || off + |data| <= p ensures Part(buf', p, c) == Part(buf, p, c) {
      PutElsewhere(buf, off, data, p, c);
    }
  }

  /** What was put is what a read of the first `size` bytes finds. */
  lemma PutVisible(buf: seq<Byte>, off: nat, data: seq<Byte>, size: nat, count: nat)
    requires off + |data| <= size <= |buf| && |data| <= count && (|data| == count || off + |data| == size)
    ensures Part(Put(buf, off, data)[..size], off, count) == data
    ensures data == [] || off < size
  {
    var seen := Put(buf, off, data)[..size];
    assert seen[off..off + |data|] == data;
  }

  lemma PutElsewhere(buf: seq<Byte>, off: nat, data: seq<Byte>, p: nat, c: nat)
    requires p + c <= off || off + |data| <= p
    ensures Part(Put(buf, off, data), p, c) == Part(buf, p, c)
  {
  }

  /** A word stored by RR_WRITE inside the buffer is seen by read as its bytes, with all other
      bytes as they were, and read back by RR_READ as the same value. */
  lemma WordSeen(buf: seq<Byte>, off: nat, v: nat, n: nat, data: Union)
    requires WordSize(n) && off + n <= |buf| && v < Pow256(n) && data[..n] == Little(v, n)
    ensures var buf' := Put(buf, off, data[..n]);
            && Part(buf', off, n) == Little(v, n)
            && Number(buf'[off..off + n]) == v
            && (forall p: nat, c: nat :: p + c <= off || off + n <= p ==> Part(buf', p, c) == Part(buf, p, c))
  {
    hide Little, Number, Put, Part;
    LittleNumber(v, n);
    PutSeen(buf, off, data[..n]);
  }

  /** Every word that the ioctls accept lies in what read and write can reach exactly when the
      size of the buffer is a multiple of 8. */
  lemma WordsReachable(size: nat)
    requires size > 0
    ensures (forall off: nat, n: nat :: IoctlAnswer(off, n, size) == Count(0) ==> off + n <= size) <==> size % 8 == 0
  {
    if size % 8 == 0 {
      forall off: nat, n: nat | IoctlAnswer(off, n, size) == Count(0) ensures off + n <= size {
        Aligned(off, n, size);
      }
    } else {
      assert IoctlAnswer(size / 8 * 8, 8, size) == Count(0);
    }
  }

  lemma Aligned(off: nat, n: nat, size: nat)
    requires WordSize(n) && OnWord(off, n) && off < size && size % 8 == 0
    ensures off + n <= size
  {
  }
}
