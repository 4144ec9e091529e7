/** EEPROM transfers through the bridge's I2C controller (eeprom_utils.py). The device is a
    256-byte EEPROM whose page writes wrap inside an 8-byte page and whose sequential reads
    wrap at the end of the memory. Polling for completion is abstracted to its outcome. */
module Eeprom {
  import opened Words

  const SIZE := 256
  const PAGE := 8
  const FIFO := 8

  /** How a started transfer ends for the polling loop: completed, refused or timed out on
      the bus, or with no status before polling gives up. In the last case the device may
      or may not have stored the data. */
  datatype Outcome = Completed | Nacked | Silent(stored: bool)

  type Memory = m: seq<Byte> | |m| == 256 witness seq(256, _ => 0)

  function NextInPage(a: nat): nat { a / PAGE * PAGE + (a + 1) % PAGE }

  /** A page write as the device performs it. */
  function PageWrite(mem: Memory, a: nat, data: seq<Byte>): Memory
    requires a < SIZE
    decreases |data|
  {
    if data == [] then mem else PageWrite(mem[a := data[0]], NextInPage(a), data[1..])
  }

  /** A sequential read as the device performs it. */
  function Fetch(mem: Memory, a: nat, n: nat): (data: seq<Byte>)
    requires a < SIZE
    ensures |data| == n
    decreases n
  {
    if n == 0 then [] else [mem[a]] + Fetch(mem, (a + 1) % SIZE, n - 1)
  }

  /** What a failed read transfer number `k` leaves in the FIFO. */
  function Garbage(noise: (nat, nat) -> Byte, k: nat, n: nat): (data: seq<Byte>)
    ensures |data| == n
  {
    seq(n, i requires 0 <= i < n => noise(k, i))
  }

  /** The controller and the device behind it. */
  class Twi {
    const outcome: nat -> Outcome      // of transfer number n
    const noise: (nat, nat) -> Byte    // what the FIFO holds after a failed read transfer
    var mem: Memory
    var ptr: nat
    var fifo: seq<Byte>
    var reading: bool
    var size: nat
    var transfers: nat
    var sent: seq<seq<Byte>>           // what the write transfers carried

    predicate Valid()
      reads this
    {
      ptr < SIZE && |fifo| <= FIFO
    }

    /** Register 0x900: the direction; the FIFO is cleared. */
    method Control(read: bool)
      requires Valid()
      modifies this`fifo, this`reading
      ensures Valid() && fifo == [] && reading == read
    {
      fifo, reading := [], read;
    }

    /** Register 0x90C, write. */
    method Push(b: Byte)
      requires Valid() && |fifo| < FIFO
      modifies this`fifo
      ensures Valid() && fifo == old(fifo) + [b]
    {
      fifo := fifo + [b];
    }

    /** Register 0x90C, read. */
    method Pop() returns (b: Byte)
      requires Valid() && fifo != []
      modifies this`fifo
      ensures Valid() && old(fifo) == [b] + fifo
    {
      b, fifo := fifo[0], fifo[1..];
    }

    /** Register 0x908: start a transfer, and poll until it ends. A write transfer carries
        the word offset and the data in the FIFO. */
    method Launch() returns (o: Outcome)
      requires Valid()
      requires if reading then fifo == [] && size <= FIFO else fifo != []
      modifies this
      ensures Valid() && o == outcome(old(transfers)) && transfers == old(transfers) + 1
      ensures reading == old(reading) && size == old(size)
      ensures reading ==> mem == old(mem) && sent == old(sent)
      ensures reading ==> fifo == if o == Completed then Fetch(old(mem), old(ptr), size)
                                  else Garbage(noise, old(transfers), size)
      ensures reading && o == Completed ==> ptr == (old(ptr) + size) % SIZE
      ensures !reading ==> fifo == [] && sent == old(sent) + [old(fifo)]
      ensures !reading ==> mem == if o == Completed || o == Silent(true)
                                  then PageWrite(old(mem), old(fifo)[0], old(fifo)[1..]) else old(mem)
      ensures !reading && o == Completed && |old(fifo)| == 1 ==> ptr == old(fifo)[0]
    {
      o := outcome(transfers);
      if reading {
        if o == Completed {
          fifo, ptr := Fetch(mem, ptr, size), (ptr + size) % SIZE;
        } else {
          fifo := Garbage(noise, transfers, size);
        }
      } else {
        sent := sent + [fifo];
        if o == Completed || o == Silent(true) {
          mem := PageWrite(mem, fifo[0], fifo[1..]);
          ptr := fifo[0] / PAGE * PAGE + (fifo[0] + |fifo| - 1) % PAGE;
        }
        fifo := [];
      }
      transfers := transfers + 1;
    }
  }

  // ---- Writing ----

  /** Data bytes of the next chunk: what the FIFO takes, up to the end of the page. */
  function Chunk(offset: nat, n: nat): nat {
    var room := PAGE - offset % PAGE;
    var c := if room < 6 then room else 6;
    if n < c then n else c
  }

  datatype Written = Written(mem: Memory, total: nat, sent: seq<seq<Byte>>, raised: bool)

  /** What i2c_write of `n` bytes leaves behind and returns, chunk by chunk. If the data runs
      out, an exception is raised before the chunk that lacks data is launched. */
  function WriteSpec(mem: Memory, offset: nat, n: nat, data: seq<Byte>, outcome: nat -> Outcome, k: nat): Written
    decreases n
  {
    if n == 0 then Written(mem, 0, [], false)
    else
      var c := Chunk(offset, n);
      if c > |data| then Written(mem, 0, [], true)
      else
        var packet: seq<Byte> := [offset % SIZE] + data[..c];
        if outcome(k) == Nacked then Written(mem, c, [packet], false)
        else
          var mem' := if outcome(k) == Silent(false) then mem else PageWrite(mem, offset % SIZE, data[..c]);
          var rest := WriteSpec(mem', offset + c, n - c, data[c..], outcome, k + 1);
          Written(rest.mem, c + rest.total, [packet] + rest.sent, rest.raised)
  }

  /** 0xFF & x, element by element. */
  function LowBytes(data: seq<int>): (r: seq<Byte>)
    ensures |r| == |data|
    ensures forall i | 0 <= i < |data| && 0 <= data[i] < 0x100 :: r[i] == data[i]
    ensures forall i | 0 <= i < |data| :: (data[i] - r[i]) % 0x100 == 0
  {
    seq(|data|, i requires 0 <= i < |data| => data[i] % 0x100)
  }

  /** The inner loop of i2c_write: fill the FIFO with one chunk, unless the data runs out. */
  method FillFifo(g: Twi, offset: nat, length: nat, data: seq<int>, total: nat) returns (raised: bool, c: nat)
    requires g.Valid() && |g.fifo| == 1 && 0 < length && total <= |data|
    modifies g`fifo
    ensures g.Valid() && (raised <==> total + Chunk(offset, length) > |data|)
    ensures !raised ==> c == Chunk(offset, length) && g.fifo == old(g.fifo) + LowBytes(data)[total..total + c]
  {
    raised, c := false, 0;
    while c < 6 && c < length
      invariant g.Valid() && c <= 6 && c <= length && c < PAGE - offset % PAGE && total + c <= |data|
      invariant g.fifo == old(g.fifo) + LowBytes(data)[total..total + c]
    {
      if total + c >= |data| {
        return true, c;
      }
      g.Push(data[total + c] % 0x100);
      OneMore(old(g.fifo), LowBytes(data), total, total + c);
      c := c + 1;
      if (offset + c) % PAGE == 0 {
        break;
      }
    }
  }

  lemma OneMore(a: seq<Byte>, b: seq<Byte>, i: nat, j: nat)
    requires i <= j < |b|
    ensures a + b[i..j] + [b[j]] == a + b[i..j + 1]
  {
  }

  lemma WriteStep(mem: Memory, offset: nat, n: nat, data: seq<Byte>, outcome: nat -> Outcome, k: nat, c: nat,
                  packet: seq<Byte>)
    requires n > 0 && c == Chunk(offset, n) <= |data| && packet == [offset % SIZE] + data[..c]
    ensures var w := WriteSpec(mem, offset, n, data, outcome, k);
            if outcome(k) == Nacked then w == Written(mem, c, [packet], false)
            else
              var mem' := if outcome(k) == Silent(false) then mem else PageWrite(mem, packet[0], packet[1..]);
              var rest := WriteSpec(mem', offset + c, n - c, data[c..], outcome, k + 1);
              w == Written(rest.mem, c + rest.total, [packet] + rest.sent, rest.raised)
  {
    assert packet[1..] == data[..c];
  }

  /** The next chunk, after `total` bytes. */
  lemma WriteNext(mem: Memory, offset: nat, n: nat, total: nat, bytes: seq<Byte>, outcome: nat -> Outcome, k: nat,
                  c: nat, packet: seq<Byte>)
    requires total < n && c == Chunk(offset + total, n - total) && total + c <= |bytes|
    requires packet == [(offset + total) % SIZE] + bytes[total..total + c]
    ensures var w := WriteSpec(mem, offset + total, n - total, bytes[total..], outcome, k);
            if outcome(k) == Nacked then w == Written(mem, c, [packet], false)
            else
              var mem' := if outcome(k) == Silent(false) then mem else PageWrite(mem, packet[0], packet[1..]);
              var rest := WriteSpec(mem', offset + (total + c), n - (total + c), bytes[total + c..], outcome, k + 1);
              w == Written(rest.mem, c + rest.total, [packet] + rest.sent, rest.raised)
  {
    hide WriteSpec, PageWrite, Chunk;
    Cut(bytes, total, c);
    WriteStep(mem, offset + total, n - total, bytes[total..], outcome, k, c, packet);
  }

  lemma DataRunsOut(mem: Memory, offset: nat, n: nat, data: seq<Byte>, outcome: nat -> Outcome, k: nat)
    requires n > 0 && Chunk(offset, n) > |data|
    ensures WriteSpec(mem, offset, n, data, outcome, k) == Written(mem, 0, [], true)
  {
  }

  /** i2c_write. */
  method I2cWrite(g: Twi, offset: nat, length: int, data: seq<int>) returns (raised: bool, total: nat)
    requires g.Valid()
    modifies g
    ensures g.Valid()
    ensures var n := if length < 0 then 0 else length;
            var w := WriteSpec(old(g.mem), offset, n, LowBytes(data), g.outcome, old(g.transfers));
            && g.mem == w.mem && g.sent == old(g.sent) + w.sent
            && raised == w.raised && (!raised ==> total == w.total)
    ensures 0 <= length <= |data| && length <= 256 && (forall i | i >= old(g.transfers) :: Stored(g.outcome(i))) ==>
              !raised && total == length && Carries(old(g.mem), g.mem, offset, length, data)
  {
    hide WriteSpec, PageWrite, LowBytes, Chunk, Stored, Carries;
    if 0 <= length <= |data| && length <= 256 { StoresData(g.mem, offset, length, data, g.outcome, g.transfers); }
    g.Control(false);
    var left := length;
    total := 0;
    ghost var (n, bytes) := (if length < 0 then 0 else length, LowBytes(data));
    ghost var spec := WriteSpec(g.mem, offset, n, bytes, g.outcome, g.transfers);
    ghost var sent := g.sent;
    Cut(bytes, 0, 0);
    while left > 0
      invariant g.Valid() && g.fifo == [] && !g.reading && total <= |data|
      invariant total <= n && (if length < 0 then left == length && total == 0 else left == n - total)
      invariant var w := WriteSpec(g.mem, offset + total, n - total, bytes[total..], g.outcome, g.transfers);
                && spec.mem == w.mem && (!spec.raised ==> spec.total == total + w.total)
                && sent + spec.sent == g.sent + w.sent && spec.raised == w.raised
      decreases left
    {
      g.Push((offset + total) % SIZE);
      var c;
      raised, c := FillFifo(g, offset + total, left, data, total);
      if raised {
        DataRunsOut(g.mem, offset + total, left, bytes[total..], g.outcome, g.transfers);
        return;
      }
      ChunkSize(offset + total, left);
      WriteNext(g.mem, offset, n, total, bytes, g.outcome, g.transfers, c, g.fifo);
      var o := g.Launch();
      total, left := total + c, left - c;
      if o == Nacked {
        return false, total;
      }
    }
    raised := false;
    NothingLeft(g.mem, offset + total, bytes[total..], g.outcome, g.transfers);
  }

  lemma ChunkSize(offset: nat, n: nat)
    requires n > 0
    ensures 1 <= Chunk(offset, n) <= n && Chunk(offset, n) <= 6
  {
  }

  /** A chunk is as long as it can be: it stays in its page, and one shorter than 6 bytes and
      shorter than what is left ends at a page boundary. */
  lemma ChunkEnds(offset: nat, n: nat)
    ensures Chunk(offset, n) <= 8 - offset % 8
    ensures Chunk(offset, n) < 6 && Chunk(offset, n) < n ==> (offset + Chunk(offset, n)) % 8 == 0
  {
    assert offset == 8 * (offset / 8) + offset % 8;
    if Chunk(offset, n) < 6 && Chunk(offset, n) < n {
      assert offset + Chunk(offset, n) == 8 * (offset / 8 + 1);
    }
  }

  /** `after` is `before` with the first `length` numbers of `data` put at `offset`, around the
      end of the memory: a number from 0 to 255 as it is, any other by its low 8 bits. */
  predicate Carries(before: Memory, after: Memory, offset: nat, length: nat, data: seq<int>)
    requires length <= |data|
  {
    forall x | 0 <= x < 256 ::
      var j := (x - offset) % 256;
      if j >= length then after[x] == before[x]
      else (data[j] - after[x]) % 0x100 == 0 && (0 <= data[j] < 0x100 ==> after[x] == data[j])
  }

  /** What a write does in terms of the numbers it is given, if every chunk is stored. */
  lemma StoresData(mem: Memory, offset: nat, length: nat, data: seq<int>, outcome: nat -> Outcome, k: nat)
    requires length <= |data| && length <= 256
    ensures (forall i | i >= k :: Stored(outcome(i))) ==>
              var w := WriteSpec(mem, offset, length, LowBytes(data), outcome, k);
              !w.raised && w.total == length && Carries(mem, w.mem, offset, length, data)
  {
    hide WriteSpec, LowBytes, Replace, Stored;
    if forall i | i >= k :: Stored(outcome(i)) {
      var bytes := LowBytes(data)[..length];
      OnlyLength(mem, offset, length, LowBytes(data), outcome, k);
      WriteStores(mem, offset, bytes, outcome, k);
      forall x | 0 <= x < 256
        ensures Replace(mem, offset, bytes)[x] ==
                if (x - offset) % 256 < length then bytes[(x - offset) % 256] else mem[x]
      {
        ReplaceAt(mem, offset, bytes, x);
      }
    }
  }

  lemma Cut(bytes: seq<Byte>, a: nat, c: nat)
    requires a + c <= |bytes|
    ensures bytes[0..] == bytes
    ensures bytes[a..][..c] == bytes[a..a + c] && bytes[a..][c..] == bytes[a + c..]
  {
  }

  lemma NothingLeft(mem: Memory, offset: nat, data: seq<Byte>, outcome: nat -> Outcome, k: nat)
    ensures WriteSpec(mem, offset, 0, data, outcome, k) == Written(mem, 0, [], false)
  {
  }

  /** Data beyond the length is ignored, and data enough raises nothing. */
  lemma {:induction false} OnlyLength(mem: Memory, offset: nat, n: nat, data: seq<Byte>, outcome: nat -> Outcome,
                                      k: nat)
    requires n <= |data|
    ensures WriteSpec(mem, offset, n, data, outcome, k) == WriteSpec(mem, offset, n, data[..n], outcome, k)
    ensures !WriteSpec(mem, offset, n, data, outcome, k).raised
    decreases n
  {
    hide PageWrite, Chunk;
    if n > 0 {
      ChunkSize(offset, n);
      var c := Chunk(offset, n);
      assert data[..n][..c] == data[..c] && data[..n][c..] == data[c..][..n - c];
      var mem' := if outcome(k) == Silent(false) then mem else PageWrite(mem, offset % SIZE, data[..c]);
      OnlyLength(mem', offset + c, n - c, data[c..], outcome, k + 1);
    }
  }

  /** Too little data raises an exception exactly if no chunk the data suffices for is
      refused. */
  lemma {:induction false} Raises(mem: Memory, offset: nat, n: nat, data: seq<Byte>, outcome: nat -> Outcome, k: nat)
    requires n > |data|
    ensures WriteSpec(mem, offset, n, data, outcome, k).raised <==> NoneRefused(offset, n, |data|, outcome, k)
    decreases n
  {
    hide PageWrite, Chunk;
    ChunkSize(offset, n);
    var c := Chunk(offset, n);
    if c <= |data| {
      var mem' := if outcome(k) == Silent(false) then mem else PageWrite(mem, offset % SIZE, data[..c]);
      Raises(mem', offset + c, n - c, data[c..], outcome, k + 1);
    }
  }

  /** Of `n` bytes to write, no chunk that lies in the first `m` is refused. */
  predicate NoneRefused(offset: nat, n: nat, m: nat, outcome: nat -> Outcome, k: nat)
    decreases n
  {
    var c := Chunk(offset, n);
    0 < c <= m && c <= n ==> outcome(k) != Nacked && NoneRefused(offset + c, n - c, m - c, outcome, k + 1)
  }

  // ---- What writing achieves ----

  /** `data` put at `offset`, around the end of the memory. */
  function Replace(mem: Memory, offset: nat, data: seq<Byte>): Memory
    decreases |data|
  {
    if data == [] then mem else Replace(mem[offset % SIZE := data[0]], offset + 1, data[1..])
  }

  /** Within one page, the device's page write is plain replacement. */
  lemma {:induction false} PageIsReplace(mem: Memory, offset: nat, data: seq<Byte>)
    requires |data| <= 8 - offset % 8
    ensures PageWrite(mem, offset % 256, data) == Replace(mem, offset, data)
    decreases |data|
  {
    if data != [] {
      var mem' := mem[offset % SIZE := data[0]];
      if |data| == 1 {
        assert data[1..] == [];
      } else {
        StaysInPage(offset);
        PageIsReplace(mem', offset + 1, data[1..]);
      }
    }
  }

  lemma StaysInPage(offset: nat)
    requires offset % PAGE != PAGE - 1
    ensures NextInPage(offset % SIZE) == (offset + 1) % SIZE && (offset + 1) % PAGE == offset % PAGE + 1
  {
    hide NextInPage;
    var (s, p, r) := (offset / SIZE, offset / PAGE % 32, offset % PAGE);
    assert offset == 256 * s + 8 * p + r;
    NextIs(p, r);
    AroundAt(s, 8 * p + r);
    AroundAt(s, 8 * p + r + 1);
  }

  lemma NextIs(p: nat, r: nat)
    requires p < 32 && r < 7
    ensures NextInPage(8 * p + r) == 8 * p + r + 1
  {
    assert (8 * p + r) / 8 == p && (8 * p + r + 1) % 8 == r + 1;
  }

  lemma AroundAt(s: nat, x: nat)
    requires x < SIZE
    ensures (256 * s + x) % SIZE == x
  {
  }

  lemma {:induction false} ReplaceConcat(mem: Memory, offset: nat, a: seq<Byte>, b: seq<Byte>)
    ensures Replace(mem, offset, a + b) == Replace(Replace(mem, offset, a), offset + |a|, b)
    decreases |a|
  {
    if a == [] {
      assert a + b == b;
    } else {
      assert (a + b)[1..] == a[1..] + b;
      ReplaceConcat(mem[offset % SIZE := a[0]], offset + 1, a[1..], b);
    }
  }

  /** The device stored the chunk. */
  predicate Stored(o: Outcome) { o == Completed || o == Silent(true) }

  /** Bytes in the first `m` chunks. */
  function ChunkStart(offset: nat, n: nat, m: nat): nat
    decreases m
  {
    if m == 0 || n == 0 then 0
    else
      var c := Chunk(offset, n);
      c + ChunkStart(offset + c, n - c, m - 1)
  }

  lemma ChunkReplaces(mem: Memory, offset: nat, data: seq<Byte>)
    requires data != []
    ensures var c := Chunk(offset, |data|);
            1 <= c <= |data| && PageWrite(mem, offset % SIZE, data[..c]) == Replace(mem, offset, data[..c])
  {
    hide PageWrite, Replace;
    PageIsReplace(mem, offset, data[..Chunk(offset, |data|)]);
  }

  /** If every chunk is stored, the memory is the old one with exactly the data replaced,
      and the count is complete. */
  lemma {:induction false} WriteStores(mem: Memory, offset: nat, data: seq<Byte>, outcome: nat -> Outcome, k: nat)
    requires forall i | i >= k :: Stored(outcome(i))
    ensures var w := WriteSpec(mem, offset, |data|, data, outcome, k);
            w.mem == Replace(mem, offset, data) && w.total == |data|
    decreases |data|
  {
    hide PageWrite, Chunk;
    if data != [] {
      var c := Chunk(offset, |data|);
      ChunkReplaces(mem, offset, data);
      assert Stored(outcome(k));
      WriteStores(PageWrite(mem, offset % SIZE, data[..c]), offset + c, data[c..], outcome, k + 1);
      ReplaceConcat(mem, offset, data[..c], data[c..]);
      assert data[..c] + data[c..] == data;
    }
  }

  /** If chunk `m` is the first one refused, the returned count includes it; and if all chunks
      before it were stored, the memory holds exactly those. */
  lemma {:induction false} WriteRefused(mem: Memory, offset: nat, data: seq<Byte>, outcome: nat -> Outcome,
                                        k: nat, m: nat)
    requires ChunkStart(offset, |data|, m) < |data| && outcome(k + m) == Nacked
    requires forall i | k <= i < k + m :: outcome(i) != Nacked
    ensures var w := WriteSpec(mem, offset, |data|, data, outcome, k);
            && w.total == ChunkStart(offset, |data|, m + 1) > ChunkStart(offset, |data|, m)
            && ((forall i | k <= i < k + m :: Stored(outcome(i))) ==>
                  w.mem == Replace(mem, offset, data[..ChunkStart(offset, |data|, m)]))
    decreases m
  {
    hide PageWrite, Chunk, ChunkStart, Replace, WriteSpec;
    ChunkSize(offset, |data|);
    var c := Chunk(offset, |data|);
    ChunkStartNext(offset, |data|, m);
    WriteStep(mem, offset, |data|, data, outcome, k, c, [offset % SIZE] + data[..c]);
    if m == 0 {
      ChunkStartNext(offset + c, |data| - c, 0);
      ReplaceNothing(mem, offset, data);
    } else {
      ChunkStartNext(offset, |data|, m - 1);
      ChunkReplaces(mem, offset, data);
      assert outcome(k) != Nacked;
      var mem' := if outcome(k) == Silent(false) then mem else PageWrite(mem, offset % SIZE, data[..c]);
      WriteRefused(mem', offset + c, data[c..], outcome, k + 1, m - 1);
      var n := ChunkStart(offset + c, |data| - c, m - 1);
      ReplaceConcat(mem, offset, data[..c], data[c..][..n]);
      assert data[..c] + data[c..][..n] == data[..c + n];
    }
  }

  lemma ChunkStartNext(offset: nat, n: nat, m: nat)
    ensures ChunkStart(offset, n, 0) == 0
    ensures var c := Chunk(offset, n);
            n > 0 ==> ChunkStart(offset, n, m + 1) == c + ChunkStart(offset + c, n - c, m)
  {
  }

  lemma ReplaceNothing(mem: Memory, offset: nat, data: seq<Byte>)
    ensures Replace(mem, offset, data[..0]) == mem
  {
  }

  /** No chunk but possibly the last is refused. */
  predicate RefusedLastOnly(offset: nat, n: nat, outcome: nat -> Outcome, k: nat)
    decreases n
  {
    var c := Chunk(offset, n);
    0 < c < n ==> outcome(k) != Nacked && RefusedLastOnly(offset + c, n - c, outcome, k + 1)
  }

  /** The count says that everything was written exactly when no chunk before the last one
      was refused: a refusal of the last chunk goes unnoticed. */
  lemma {:induction false} CountComplete(mem: Memory, offset: nat, data: seq<Byte>, outcome: nat -> Outcome, k: nat)
    ensures WriteSpec(mem, offset, |data|, data, outcome, k).total <= |data|
    ensures WriteSpec(mem, offset, |data|, data, outcome, k).total == |data| <==>
                RefusedLastOnly(offset, |data|, outcome, k)
    decreases |data|
  {
    hide PageWrite, Chunk;
    if data == [] {
      NoChunk(offset);
    } else {
      ChunkSize(offset, |data|);
      var c := Chunk(offset, |data|);
      var mem' := if outcome(k) == Silent(false) then mem else PageWrite(mem, offset % SIZE, data[..c]);
      CountComplete(mem', offset + c, data[c..], outcome, k + 1);
      NoChunk(offset + c);
    }
  }

  /** Byte `j` of `n` bytes to write is launched and stored. */
  predicate ByteLands(offset: nat, n: nat, outcome: nat -> Outcome, k: nat, j: nat)
    decreases n
  {
    var c := Chunk(offset, n);
    && 0 < c && j < n
    && if j < c then Stored(outcome(k))
       else c < n && outcome(k) != Nacked && ByteLands(offset + c, n - c, outcome, k + 1, j - c)
  }

  /** Every chunk is launched and stored. */
  predicate AllStored(offset: nat, n: nat, outcome: nat -> Outcome, k: nat)
    decreases n
  {
    var c := Chunk(offset, n);
    n > 0 ==> Stored(outcome(k)) && (0 < c < n ==> AllStored(offset + c, n - c, outcome, k + 1))
  }

  /** How many of the first `m` of `n` bytes are stored. */
  function Landed(offset: nat, n: nat, outcome: nat -> Outcome, k: nat, m: nat): nat {
    if m == 0 then 0
    else Landed(offset, n, outcome, k, m - 1) + if ByteLands(offset, n, outcome, k, m - 1) then 1 else 0
  }

  /** The bytes of the first chunk, and those of the chunks after it. */
  lemma {:induction false} LandedChunk(offset: nat, n: nat, outcome: nat -> Outcome, k: nat, m: nat)
    requires 0 < m <= n
    ensures var c := Chunk(offset, n);
            && 0 < c <= n
            && Landed(offset, n, outcome, k, m)
               == (if !Stored(outcome(k)) then 0 else if m < c then m else c)
                  + if m <= c || outcome(k) == Nacked then 0 else Landed(offset + c, n - c, outcome, k + 1, m - c)
  {
    hide Chunk;
    ChunkSize(offset, n);
    var c := Chunk(offset, n);
    if m > 1 { LandedChunk(offset, n, outcome, k, m - 1); }
  }

  /** Whatever the outcomes, byte `x` of the memory is the data byte meant for it exactly if
      that byte was launched and stored, and the old byte otherwise. */
  lemma {:induction false} WriteBytes(mem: Memory, offset: nat, data: seq<Byte>, outcome: nat -> Outcome, k: nat,
                                      x: nat)
    requires |data| <= SIZE && x < SIZE
    ensures var j := (x - offset) % SIZE;
            WriteSpec(mem, offset, |data|, data, outcome, k).mem[x]
            == if j < |data| && ByteLands(offset, |data|, outcome, k, j) then data[j] else mem[x]
    decreases |data|
  {
    hide PageWrite, Chunk, Replace;
    if data != [] {
      ChunkReplaces(mem, offset, data);
      var c := Chunk(offset, |data|);
      var mem' := if outcome(k) == Silent(false) then mem else PageWrite(mem, offset % SIZE, data[..c]);
      WriteBytes(mem', offset + c, data[c..], outcome, k + 1, x);
      ReplaceAt(mem, offset, data[..c], x);
      Further(x, offset, c);
      NoChunk(offset + c);
    }
  }

  lemma Further(x: nat, offset: nat, c: nat)
    requires x < SIZE && c <= SIZE
    ensures var j := (x - offset) % SIZE;
            (x - (offset + c)) % SIZE == if j < c then j - c + SIZE else j - c
  {
  }

  /** The count is at least the number of bytes stored, and equal to it exactly if every chunk
      was launched and stored, which is also exactly when all the data is in the memory. */
  lemma {:induction false} CountHonest(mem: Memory, offset: nat, data: seq<Byte>, outcome: nat -> Outcome, k: nat)
    ensures var total := WriteSpec(mem, offset, |data|, data, outcome, k).total;
            var landed := Landed(offset, |data|, outcome, k, |data|);
            && landed <= total <= |data|
            && (total == landed <==> AllStored(offset, |data|, outcome, k))
            && (landed == |data| <==> AllStored(offset, |data|, outcome, k))
    decreases |data|
  {
    hide PageWrite, Chunk;
    if data == [] {
      NoChunk(offset);
    } else {
      LandedChunk(offset, |data|, outcome, k, |data|);
      var c := Chunk(offset, |data|);
      var mem' := if outcome(k) == Silent(false) then mem else PageWrite(mem, offset % SIZE, data[..c]);
      CountHonest(mem', offset + c, data[c..], outcome, k + 1);
      NoChunk(offset + c);
    }
  }

  /** Two cases in which a byte is counted that was never stored: its chunk is refused, or
      polling ends without a status and the device has not stored it. */
  lemma NotStoredButCounted(mem: Memory, o: Outcome)
    requires o == Nacked || o == Silent(false)
    ensures var w := WriteSpec(mem, 0, 1, [1], _ => o, 0); w.total == 1 && w.mem == mem && !w.raised
    ensures RefusedLastOnly(0, 1, _ => o, 0) && !AllStored(0, 1, _ => o, 0)
  {
    hide PageWrite;
    assert Chunk(0, 1) == 1;
  }

  lemma NoChunk(offset: nat)
    ensures Chunk(offset, 0) == 0
  {
  }

  /** Every write transfer carries the offset and one to six data bytes of one page, also those
      of a write that raises an exception later. */
  lemma {:induction false} PacketsFit(mem: Memory, offset: nat, n: nat, data: seq<Byte>, outcome: nat -> Outcome,
                                      k: nat)
    ensures forall p | p in WriteSpec(mem, offset, n, data, outcome, k).sent ::
              2 <= |p| <= 7 && p[0] % 8 + (|p| - 1) <= 8
    decreases n
  {
    hide PageWrite, Chunk, WriteSpec;
    if n == 0 {
      NothingLeft(mem, offset, data, outcome, k);
    } else if Chunk(offset, n) > |data| {
      DataRunsOut(mem, offset, n, data, outcome, k);
    } else {
      ChunkSize(offset, n);
      PacketInPage(offset, n);
      var c := Chunk(offset, n);
      WriteStep(mem, offset, n, data, outcome, k, c, [offset % SIZE] + data[..c]);
      var mem' := if outcome(k) == Silent(false) then mem else PageWrite(mem, offset % SIZE, data[..c]);
      assert ([offset % SIZE] + data[..c])[1..] == data[..c];
      PacketsFit(mem', offset + c, n - c, data[c..], outcome, k + 1);
    }
  }

  lemma PacketInPage(offset: nat, n: nat)
    ensures offset % SIZE % PAGE + Chunk(offset, n) <= PAGE
  {
    assert offset % SIZE % PAGE == offset % PAGE;
  }

  // ---- Reading ----

  datatype Collected = Collected(data: seq<Byte>, failed: bool)

  /** What the data phase of i2c_read collects from address `a` on: chunks of at most eight
      bytes, and after a transfer without completion whatever is in the FIFO, once. */
  function ReadSpec(mem: Memory, a: nat, n: nat, outcome: nat -> Outcome, noise: (nat, nat) -> Byte, k: nat): Collected
    requires a < SIZE
    decreases n
  {
    if n == 0 then Collected([], false)
    else
      var c := if n > FIFO then FIFO else n;
      if outcome(k) != Completed then Collected(Garbage(noise, k, c), true)
      else
        var rest := ReadSpec(mem, (a + c) % SIZE, n - c, outcome, noise, k + 1);
        Collected(Fetch(mem, a, c) + rest.data, rest.failed)
  }

  lemma ReadStep(mem: Memory, a: nat, n: nat, outcome: nat -> Outcome, noise: (nat, nat) -> Byte, k: nat)
    requires a < SIZE
    ensures var r := ReadSpec(mem, a, n, outcome, noise, k); var c := if n > 8 then 8 else n;
            if n == 0 then r == Collected([], false)
            else if outcome(k) != Completed then r == Collected(Garbage(noise, k, c), true)
            else
              var rest := ReadSpec(mem, (a + c) % 256, n - c, outcome, noise, k + 1);
              r == Collected(Fetch(mem, a, c) + rest.data, rest.failed)
  {
  }

  /** The inner loop of i2c_read: take `c` bytes out of the FIFO. */
  method DrainFifo(g: Twi, c: nat, data: seq<Byte>, total: nat) returns (data': seq<Byte>, total': nat)
    requires g.Valid() && |g.fifo| == c
    modifies g`fifo
    ensures g.Valid() && g.fifo == [] && data' == data + old(g.fifo) && total' == total + c
  {
    data', total' := data, total;
    for i := 0 to c
      invariant g.Valid() && old(g.fifo) == old(g.fifo)[..i] + g.fifo && |g.fifo| == c - i
      invariant data' == data + old(g.fifo)[..i] && total' == total + i
    {
      var b := g.Pop();
      data', total' := data' + [b], total' + 1;
    }
  }

  /** i2c_read: it ends the process when the offset is not accepted, and otherwise appends
      to `data` and returns the number of bytes appended. */
  method I2cRead(g: Twi, offset: nat, length: int, data: seq<Byte>)
      returns (exits: bool, total: nat, data': seq<Byte>)
    requires g.Valid()
    modifies g
    ensures exits <==> g.outcome(old(g.transfers)) != Completed
    ensures !exits ==> g.mem == old(g.mem)
    ensures !exits ==>
              var r := ReadSpec(old(g.mem), offset % 256, if length < 0 then 0 else length,
                                g.outcome, g.noise, old(g.transfers) + 1);
              data' == data + r.data && total == |r.data|
    ensures length >= 0 && (forall i | i >= old(g.transfers) :: g.outcome(i) == Completed) ==>
              !exits && total == length && Brings(old(g.mem), offset, length, data, data')
  {
    hide ReadSpec, Garbage, Fetch, Brings;
    if length >= 0 { ReadBrings(g.mem, offset, length, data, g.outcome, g.noise, g.transfers + 1); }
    data', total := data, 0;
    g.Control(false);
    g.Push(offset % SIZE);
    var o := g.Launch();
    exits := o != Completed;
    if exits {
      return;
    }
    g.Control(true);
    var left, error := length, false;
    ghost var n := if length < 0 then 0 else length;
    ghost var spec := ReadSpec(g.mem, g.ptr, n, g.outcome, g.noise, g.transfers);
    while left > 0 && !error
      invariant g.Valid() && g.fifo == [] && g.reading && g.mem == old(g.mem) && (length >= 0 ==> left >= 0)
      invariant if error then data' == data + spec.data && total == |spec.data|
                else
                  var rest := ReadSpec(g.mem, g.ptr, if left < 0 then 0 else left, g.outcome, g.noise, g.transfers);
                  data + spec.data == data' + rest.data && |spec.data| == total + |rest.data|
      decreases left
    {
      var c := if left > FIFO then FIFO else left;
      ReadStep(g.mem, g.ptr, left, g.outcome, g.noise, g.transfers);
      g.size := c;
      left := left - c;
      o := g.Launch();
      error := o != Completed;
      data', total := DrainFifo(g, c, data', total);
    }
    if !error {
      ReadStep(g.mem, g.ptr, 0, g.outcome, g.noise, g.transfers);
    }
  }

  // ---- Reading back ----

  /** `after` is `before` and then the `length` bytes from `offset` on, around the end of the
      memory. */
  predicate Brings(mem: Memory, offset: nat, length: nat, before: seq<Byte>, after: seq<Byte>) {
    && |after| == |before| + length && before <= after
    && forall i | |before| <= i < |after| :: after[i] == mem[(offset + (i - |before|)) % 256]
  }

  lemma ReadBrings(mem: Memory, offset: nat, length: nat, data: seq<Byte>,
                   outcome: nat -> Outcome, noise: (nat, nat) -> Byte, k: nat)
    ensures (forall i | i >= k :: outcome(i) == Completed) ==>
              var r := ReadSpec(mem, offset % 256, length, outcome, noise, k);
              |r.data| == length && Brings(mem, offset, length, data, data + r.data)
  {
    hide ReadSpec, Fetch;
    if forall i | i >= k :: outcome(i) == Completed {
      ReadFetches(mem, offset % 256, length, outcome, noise, k);
      forall i | 0 <= i < length ensures Fetch(mem, offset % 256, length)[i] == mem[(offset + i) % 256] {
        FetchAt(mem, offset % 256, length, i);
        assert (offset % 256 + i) % 256 == (offset + i) % 256;
      }
    }
  }

  lemma {:induction false} FetchConcat(mem: Memory, a: nat, m: nat, n: nat)
    requires a < SIZE
    ensures Fetch(mem, a, m + n) == Fetch(mem, a, m) + Fetch(mem, (a + m) % SIZE, n)
    decreases m
  {
    hide Fetch;
    FetchNext(mem, a, m);
    if m == 0 {
      assert a % SIZE == a && 0 + n == n;
    } else {
      FetchNext(mem, a, m + n);
      FetchConcat(mem, (a + 1) % SIZE, m - 1, n);
      Around(a, m);
    }
  }

  lemma FetchNext(mem: Memory, a: nat, n: nat)
    requires a < SIZE
    ensures Fetch(mem, a, n) == if n == 0 then [] else [mem[a]] + Fetch(mem, (a + 1) % SIZE, n - 1)
  {
  }

  lemma Around(a: nat, m: nat)
    requires a < SIZE && m > 0
    ensures ((a + 1) % SIZE + (m - 1)) % SIZE == (a + m) % SIZE
  {
  }

  /** If every transfer completes, reading collects the bytes from `a` on, around the end of
      the memory. */
  lemma {:induction false} ReadFetches(mem: Memory, a: nat, n: nat, outcome: nat -> Outcome, noise: (nat,
                                       nat) -> Byte, k: nat)
    requires a < SIZE && forall i | i >= k :: outcome(i) == Completed
    ensures ReadSpec(mem, a, n, outcome, noise, k) == Collected(Fetch(mem, a, n), false)
    decreases n
  {
    hide ReadSpec, Garbage;
    ReadStep(mem, a, n, outcome, noise, k);
    if n > 0 {
      hide Fetch;
      var c := if n > FIFO then FIFO else n;
      ReadFetches(mem, (a + c) % SIZE, n - c, outcome, noise, k + 1);
      FetchConcat(mem, a, c, n - c);
    }
  }

  /** If transfer `m` is the first that does not complete, the bytes before it are those of
      the memory, and what is in the FIFO is returned, and counted, in place of the rest of
      that transfer. */
  lemma {:induction false} ReadFails(mem: Memory, a: nat, n: nat, outcome: nat -> Outcome, noise: (nat,
                                     nat) -> Byte, k: nat, m: nat)
    requires a < SIZE && FIFO * m < n && outcome(k + m) != Completed
    requires forall i | k <= i < k + m :: outcome(i) == Completed
    ensures ReadSpec(mem, a, n, outcome, noise, k)
         == Collected(Fetch(mem, a, FIFO * m)
                      + Garbage(noise, k + m, if n - FIFO * m > FIFO then FIFO else n - FIFO * m), true)
    decreases m
  {
    hide ReadSpec, Garbage, Fetch;
    ReadStep(mem, a, n, outcome, noise, k);
    if m == 0 {
      assert Fetch(mem, a, 0) == [];
    } else {
      ReadFails(mem, (a + FIFO) % SIZE, n - FIFO, outcome, noise, k + 1, m - 1);
      FetchConcat(mem, a, FIFO, FIFO * (m - 1));
    }
  }

  /** Byte `x` after a replacement. */
  lemma {:induction false} ReplaceAt(mem: Memory, offset: nat, data: seq<Byte>, x: nat)
    requires x < SIZE && |data| <= SIZE
    ensures var j := (x - offset) % SIZE;
            Replace(mem, offset, data)[x] == if j < |data| then data[j] else mem[x]
    decreases |data|
  {
    if data != [] {
      ReplaceAt(mem[offset % SIZE := data[0]], offset + 1, data[1..], x);
      Distance(x, offset);
    }
  }

  lemma Distance(x: nat, offset: nat)
    requires x < SIZE
    ensures (x - offset) % SIZE == 0 <==> x == offset % SIZE
    ensures x != offset % SIZE ==> (x - (offset + 1)) % SIZE == (x - offset) % SIZE - 1
    ensures x == offset % SIZE ==> (x - (offset + 1)) % SIZE == SIZE - 1
  {
  }

  lemma {:induction false} FetchReplaced(mem: Memory, offset: nat, data: seq<Byte>, i: nat)
    requires i <= |data| <= SIZE
    ensures Fetch(Replace(mem, offset, data), (offset + i) % SIZE, |data| - i) == data[i..]
    decreases |data| - i
  {
    hide Replace;
    if i < |data| {
      var x := (offset + i) % SIZE;
      ReplaceAt(mem, offset, data, x);
      assert (x - offset) % SIZE == i;
      FetchReplaced(mem, offset, data, i + 1);
      assert (x + 1) % SIZE == (offset + i + 1) % SIZE;
    }
  }

  /** Writing data and reading the same range gives the data back, through different
      chunks, for any length the memory can hold and any offset. */
  lemma WriteThenRead(mem: Memory, offset: nat, data: seq<Byte>, noise: (nat, nat) -> Byte,
                      written: nat -> Outcome, k: nat, read: nat -> Outcome, m: nat)
    requires |data| <= SIZE
    requires forall i | i >= k :: Stored(written(i))
    requires forall i | i >= m :: read(i) == Completed
    ensures ReadSpec(WriteSpec(mem, offset, |data|, data, written, k).mem, offset % SIZE, |data|, read, noise, m)
         == Collected(data, false)
  {
    hide Replace, ReadSpec, WriteSpec, Fetch;
    WriteStores(mem, offset, data, written, k);
    ReadFetches(Replace(mem, offset, data), offset % SIZE, |data|, read, noise, m);
    FetchReplaced(mem, offset, data, 0);
    assert data[0..] == data;
  }

  /** Without going around the end, replacement is what it looks like. */
  lemma ReplaceSlice(mem: Memory, offset: nat, data: seq<Byte>)
    requires offset + |data| <= 256
    ensures Replace(mem, offset, data) == mem[..offset] + data + mem[offset + |data|..]
  {
    hide Replace;
    var r := Replace(mem, offset, data);
    forall x | 0 <= x < SIZE ensures r[x] == (mem[..offset] + data + mem[offset + |data|..])[x] {
      ReplaceAt(mem, offset, data, x);
      assert (x - offset) % SIZE == if x >= offset then x - offset else SIZE + x - offset;
    }
  }

  /** The page boundary matters: a write across it would wrap inside the page, and the byte
      meant for the next page would land at the start of this one. */
  lemma PageWraps(mem: Memory, p: nat, x: Byte, y: Byte)
    requires p < 32
    ensures PageWrite(mem, 8 * p + 7, [x, y]) == mem[8 * p + 7 := x][8 * p := y]
    ensures mem[(8 * p + 8) % 256] != y ==>
              PageWrite(mem, 8 * p + 7, [x, y])[(8 * p + 8) % 256] != Replace(mem, 8 * p + 7, [x, y])[(8 * p + 8) % 256]
  {
    var (m, r) := (mem[8 * p + 7 := x], mem[8 * p + 7 := x][8 * p := y]);
    assert [x, y][1..] == [y] && [y][1..] == [];
    assert NextInPage(8 * p + 7) == 8 * p by { assert (8 * p + 7) / 8 == p && (8 * p + 8) % 8 == 0; }
    assert PageWrite(m, 8 * p, [y]) == r by { assert PageWrite(r, NextInPage(8 * p), []) == r; }
    ReplaceAt(mem, 8 * p + 7, [x, y], (8 * p + 8) % 256);
    assert ((8 * p + 8) % 256 - (8 * p + 7)) % 256 == 1;
  }

  /** Byte `i` of a sequential read. */
  lemma {:induction false} FetchAt(mem: Memory, a: nat, n: nat, i: nat)
    requires a < SIZE && i < n
    ensures Fetch(mem, a, n)[i] == mem[(a + i) % 256]
    decreases n
  {
    if i > 0 {
      FetchAt(mem, (a + 1) % SIZE, n - 1, i - 1);
      Around(a, i);
    }
  }
}
