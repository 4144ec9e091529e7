/** Bus commands of the test bench (lib/model.c): 8, 16 and 32-bit accesses at any byte
    address, split into commands on aligned words with byte enables. U32 is 32 bits wide. */
module BusModel {
  import opened Words

  /** A printed wr/rd command; `burst` is the letter 'b'. */
  datatype Cmd =
    | Write(address: Long, be: nat, data: Word, burst: bool)
    | Read(address: Long, be: nat, data: Word, mask: Word, burst: bool)

  /** Byte `j` of a word, counted from the low end. */
  function ByteOf(w: Word, j: nat): Byte
    requires j < 4
  {
    if j == 0 then w % 0x100
    else if j == 1 then w / 0x100 % 0x100
    else if j == 2 then w / 0x10000 % 0x100
    else w / 0x1000000
  }

  /** Byte enable `j`. */
  predicate Lane(be: nat, j: nat)
    requires j < 4
  {
    (if j == 0 then be else if j == 1 then be / 2 else if j == 2 then be / 4 else be / 8) % 2 == 1
  }

  /** The command concerns byte address `x`. */
  predicate Covers(c: Cmd, x: Long) {
    c.address == x - x % 4 && Lane(c.be, x % 4)
  }

  /** What a memory holds at byte address `x` after the commands, if it held `b` before. */
  function ByteAfter(cmds: seq<Cmd>, x: Long, b: Byte): Byte {
    if cmds == [] then b
    else
      var c := cmds[|cmds| - 1];
      if c.Write? && Covers(c, x) then ByteOf(c.data, x % 4) else ByteAfter(cmds[..|cmds| - 1], x, b)
  }

  /** C's bitwise and. */
  function And(a: nat, b: nat): nat {
    if a == 0 then 0 else 2 * And(a / 2, b / 2) + (if a % 2 == 1 && b % 2 == 1 then 1 else 0)
  }

  /** Every read command accepts byte `b` at address `x`: where it looks, the bits under
      its mask are the expected ones. */
  predicate Accepts(cmds: seq<Cmd>, x: Long, b: Byte) {
    forall c | c in cmds && c.Read? && Covers(c, x) ::
      And(b, ByteOf(c.mask, x % 4)) == And(ByteOf(c.data, x % 4), ByteOf(c.mask, x % 4))
  }

  /** Distance of byte address `x` above `address`, around the 64-bit address space. */
  function Above(x: Long, address: Long): Long { (x - address) % LONG_LIMIT }

  /** The access as a whole: a write replaces exactly bytes `address` to
      `address + width - 1` by the bytes of `data`, low byte first; a read looks at exactly
      those bytes. */
  predicate Implements(cmds: seq<Cmd>, address: Long, width: nat, data: Word, mask: Word, mode: char)
    requires width <= 4
  {
    if IsRead(mode) then
      && (forall c | c in cmds :: c.Read?)
      && forall x: Long, b: Byte :: Accepts(cmds, x, b) <==>
           var j := Above(x, address);
           j < width ==> And(b, ByteOf(mask, j)) == And(ByteOf(data, j), ByteOf(mask, j))
    else
      && (forall c | c in cmds :: c.Write?)
      && forall x: Long, b: Byte :: ByteAfter(cmds, x, b) ==
           var j := Above(x, address);
           if j < width then ByteOf(data, j) else b
  }

  predicate IsRead(mode: char) { mode == 'r' || mode == 'v' }

  /** btype: no burst across the end of a 4096-byte block. */
  function Btype(address: Long): bool { address % 0x1000 / 4 * 4 != 0xFFC }

  function WordOf(address: Long): Long { address - address % 4 }

  /** One command of opr_prn. */
  function Command(address: Long, be: nat, d: Word, m: Word, mode: char, burst: bool): Cmd {
    if IsRead(mode) then Read(address, be, d, m, burst) else Write(address, be, d, burst)
  }

  /** No command flagged as burst is the last word of a 4096-byte block. */
  predicate BurstsEnd(cmds: seq<Cmd>) {
    forall c | c in cmds && c.burst :: c.address % 0x1000 < 0xFFC
  }

  /** opr_prn: one command per word, the last one never a burst unless asked for. */
  method OprPrn(address: Long, be: seq<nat>, d: seq<Word>, m: seq<Word>, mode: char, burst: bool, n: nat)
      returns (cmds: seq<Cmd>)
    requires |be| >= n && |d| >= n && |m| >= n
    ensures |cmds| == n && BurstsEnd(cmds)
    ensures mode == 'r' || mode == 'v' ==> forall c | c in cmds :: c.Read?
    ensures mode != 'r' && mode != 'v' ==> forall c | c in cmds :: c.Write?
    ensures forall i | 0 <= i < n :: cmds[i].address == (address + 4 * i) % 0x1_0000_0000_0000_0000
    ensures forall i | 0 <= i < n ::
              cmds[i].burst <==> (burst || i < n - 1) && cmds[i].address % 0x1000 < 0xFFC
    ensures forall i | 0 <= i < n ::
              cmds[i].be == be[i] && cmds[i].data == d[i] && (cmds[i].Read? ==> cmds[i].mask == m[i])
    ensures forall i | 0 <= i < n ::
              var a := (address + 4 * i) % LONG_LIMIT;
              cmds[i] == Command(a, be[i], d[i], m[i], mode, (burst || i < n - 1) && Btype(a))
  {
    cmds := [];
    var a := address;
    for i := 0 to n
      invariant a == (address + 4 * i) % LONG_LIMIT
      invariant |cmds| == i && BurstsEnd(cmds)
      invariant forall k | 0 <= k < i ::
                  var b := (address + 4 * k) % LONG_LIMIT;
                  cmds[k] == Command(b, be[k], d[k], m[k], mode, (burst || k < n - 1) && Btype(b))
    {
      var c: bool;
      if n == 1 && !burst {
        c := false;
      } else if i == n - 1 && !burst {
        c := false;
      } else {
        c := Btype(a);
      }
      cmds := cmds + [Command(a, be[i], d[i], m[i], mode, c)];
      a := (a + 4) % LONG_LIMIT;
    }
  }

  /** The word of an address lies in the same place of its 4096-byte block. */
  lemma InBlock(address: Long)
    ensures WordOf(address) == address / 4 * 4 && (WordOf(address) + 0) % LONG_LIMIT == WordOf(address)
    ensures WordOf(address) % 0x1000 < 0xFFC <==> address % 0x1000 < 0xFFC
    ensures address % 4 == 0 ==> WordOf(address) == address
  {
    assert address == 4 * (address / 4) + address % 4;
    assert address % 0x1000 == 4 * (address / 4 % 0x400) + address % 4;
    assert WordOf(address) % 0x1000 == 4 * (address / 4 % 0x400);
  }

  /** xopr: one word, the address forced onto a word boundary. */
  method Xopr(address: Long, be: nat, data: Word, mask: Word, burst: bool, mode: char) returns (cmds: seq<Cmd>)
    ensures var a := WordOf(address); cmds == [Command(a, be, data, mask, mode, burst && Btype(a))]
    ensures mode == 'r' || mode == 'v' ==> forall c | c in cmds :: c.Read?
    ensures mode != 'r' && mode != 'v' ==> forall c | c in cmds :: c.Write?
    ensures cmds[0].address == address / 4 * 4 && (cmds[0].burst <==> burst && address % 0x1000 < 0xFFC)
    ensures BurstsEnd(cmds)
  {
    hide WordOf, Btype;
    InBlock(address);
    var a := address;
    if address % 4 != 0 {
      a := WordOf(address);
    }
    cmds := OprPrn(a, [be], [data], [mask], mode, burst, 1);
  }

  /** Command `c` handles the bytes of an access at byte offset `k` that fall into the word
      `off` bytes after the first one. */
  predicate Piece(c: Cmd, off: nat, k: nat, width: nat, data: Word, mask: Word)
    requires width <= 4
  {
    forall l | 0 <= l < 4 ::
      var j := l + off - k;
      && (Lane(c.be, l) <==> 0 <= j < width)
      && (0 <= j < width ==>
            && ByteOf(c.data, l) == ByteOf(data, j)
            && (c.Read? ==> ByteOf(c.mask, l) == ByteOf(mask, j)))
  }

  /** The commands are those of one access: of the requested kind, on the first word and,
      if the access reaches into it, the next. */
  predicate Pieces(cmds: seq<Cmd>, address: Long, width: nat, data: Word, mask: Word, mode: char)
    requires width <= 4
  {
    && (|cmds| == 1 || |cmds| == 2)
    && (forall c | c in cmds :: c.Read? == IsRead(mode))
    && (|cmds| == 1 ==> address % 4 + width <= 4)
    && cmds[0].address == WordOf(address)
    && Piece(cmds[0], 0, address % 4, width, data, mask)
    && (|cmds| == 2 ==>
          && cmds[1].address == (WordOf(address) + 4) % LONG_LIMIT
          && Piece(cmds[1], 4, address % 4, width, data, mask))
  }

  /** Where byte address `x` lies relative to an access. */
  lemma WhichWord(x: Long, address: Long, width: nat)
    requires width <= 4
    ensures var (k, l, w) := (address % 4, x % 4, WordOf(x)); var j := Above(x, address);
            && (w == WordOf(address) ==> (j < width <==> 0 <= l - k < width) && (l >= k ==> j == l - k))
            && (w == (WordOf(address) + 4) % LONG_LIMIT ==> (j < width <==> l + 4 - k < width) && j == l + 4 - k)
            && (w != WordOf(address) && w != (WordOf(address) + 4) % LONG_LIMIT ==> j >= width)
  {
    var (k, l, w) := (address % 4, x % 4, WordOf(x));
    assert x - address == (w - WordOf(address)) + (l - k);
    if w == WordOf(address) {
      assert Above(x, address) == if l >= k then l - k else LONG_LIMIT + l - k;
    } else if w == (WordOf(address) + 4) % LONG_LIMIT {
      assert Above(x, address) == l + 4 - k;
    }
  }

  /** The pieces together are the access. */
  lemma PiecesImplement(cmds: seq<Cmd>, address: Long, width: nat, data: Word, mask: Word, mode: char)
    requires width <= 4 && Pieces(cmds, address, width, data, mask, mode)
    ensures Implements(cmds, address, width, data, mask, mode)
  {
    hide ByteOf, Lane, And, Above, ByteAfter, Accepts;
    forall x: Long, b: Byte
      ensures var j := Above(x, address);
              if IsRead(mode) then
                Accepts(cmds, x, b) <==>
                (j < width ==> And(b, ByteOf(mask, j)) == And(ByteOf(data, j), ByteOf(mask, j)))
              else ByteAfter(cmds, x, b) == if j < width then ByteOf(data, j) else b
    {
      WhichWord(x, address, width);
      if IsRead(mode) {
        PiecesRead(cmds, address, width, data, mask, mode, x, b);
      } else {
        PiecesWrite(cmds, address, width, data, mask, mode, x, b);
      }
    }
  }

  lemma PiecesWrite(cmds: seq<Cmd>, address: Long, width: nat, data: Word, mask: Word, mode: char, x: Long, b: Byte)
    requires width <= 4 && Pieces(cmds, address, width, data, mask, mode) && !IsRead(mode)
    ensures var j := Above(x, address);
            ByteAfter(cmds, x, b) == if j < width then ByteOf(data, j) else b
  {
    hide ByteOf, Lane, Above;
    WhichWord(x, address, width);
    assert cmds[0] in cmds;
    assert [cmds[0]][..0] == [];
    assert ByteAfter([cmds[0]], x, b) == if Covers(cmds[0], x) then ByteOf(cmds[0].data, x % 4) else b;
    if |cmds| == 2 {
      assert cmds[..1] == [cmds[0]];
      assert cmds[1] in cmds;
    } else {
      assert cmds == [cmds[0]];
    }
  }

  lemma PiecesRead(cmds: seq<Cmd>, address: Long, width: nat, data: Word, mask: Word, mode: char, x: Long, b: Byte)
    requires width <= 4 && Pieces(cmds, address, width, data, mask, mode) && IsRead(mode)
    ensures var j := Above(x, address);
            Accepts(cmds, x, b) <==>
            (j < width ==> And(b, ByteOf(mask, j)) == And(ByteOf(data, j), ByteOf(mask, j)))
  {
    hide ByteOf, Lane, Above, And;
    WhichWord(x, address, width);
    assert cmds[0] in cmds;
    if |cmds| == 2 {
      assert cmds == [cmds[0], cmds[1]];
      assert cmds[1] in cmds;
    } else {
      assert cmds == [cmds[0]];
    }
  }

  /** `d << (8 * k)` and `d >> (8 * k)` on 32 bits. */
  function Shl(d: Word, k: nat): Word
    requires k <= 3
  {
    d * (if k == 0 then 1 else if k == 1 then 0x100 else if k == 2 then 0x10000 else 0x1000000) % WORD_LIMIT
  }

  function Shr(d: Word, k: nat): Word
    requires k <= 3
  {
    d / (if k == 0 then 1 else if k == 1 then 0x100 else if k == 2 then 0x10000 else 0x1000000)
  }

  /** A word put together from bytes. */
  function Compose(b0: Byte, b1: Byte, b2: Byte, b3: Byte): Word {
    b0 + 0x100 * b1 + 0x10000 * b2 + 0x1000000 * b3
  }

  lemma ComposeBytes(b0: Byte, b1: Byte, b2: Byte, b3: Byte)
    ensures var w := Compose(b0, b1, b2, b3);
            ByteOf(w, 0) == b0 && ByteOf(w, 1) == b1 && ByteOf(w, 2) == b2 && ByteOf(w, 3) == b3
  {
    var w := Compose(b0, b1, b2, b3);
    assert w / 0x100 == b1 + 0x100 * b2 + 0x10000 * b3;
    assert w / 0x10000 == b2 + 0x100 * b3;
  }

  lemma BytesCompose(w: Word)
    ensures w == Compose(ByteOf(w, 0), ByteOf(w, 1), ByteOf(w, 2), ByteOf(w, 3))
  {
    assert w / 0x10000 == w / 0x100 / 0x100;
    assert w / 0x1000000 == w / 0x10000 / 0x100;
  }

  lemma ShlCompose(b0: Byte, b1: Byte, b2: Byte, b3: Byte)
    ensures var d := Compose(b0, b1, b2, b3);
            && Shl(d, 1) == Compose(0, b0, b1, b2) && Shl(d, 2) == Compose(0, 0, b0, b1)
            && Shl(d, 3) == Compose(0, 0, 0, b0)
  {
    var d: int := Compose(b0, b1, b2, b3);
    DropHigh(d * 0x100, Compose(0, b0, b1, b2), b3);
    DropHigh(d * 0x10000, Compose(0, 0, b0, b1), b2 + 0x100 * b3);
    DropHigh(d * 0x1000000, Compose(0, 0, 0, b0), b1 + 0x100 * b2 + 0x10000 * b3);
  }

  lemma DropHigh(x: int, low: Word, high: int)
    requires x == low + WORD_LIMIT * high
    ensures x % WORD_LIMIT == low
  {
  }

  lemma ShrCompose(b0: Byte, b1: Byte, b2: Byte, b3: Byte)
    ensures var d := Compose(b0, b1, b2, b3);
            && Shr(d, 1) == Compose(b1, b2, b3, 0) && Shr(d, 2) == Compose(b2, b3, 0, 0)
            && Shr(d, 3) == Compose(b3, 0, 0, 0)
  {
  }

  /** Shifting a word by whole bytes moves its bytes. */
  lemma ShiftedBytes(d: Word, k: nat)
    requires 1 <= k <= 3
    ensures var r := Shl(d, k); forall l | k <= l < 4 :: ByteOf(r, l) == ByteOf(d, l - k)
    ensures var r := Shr(d, 4 - k); forall l | 0 <= l < k :: ByteOf(r, l) == ByteOf(d, l + 4 - k)
  {
    hide ByteOf, Shl, Shr, Compose;
    var (b0, b1, b2, b3) := (ByteOf(d, 0), ByteOf(d, 1), ByteOf(d, 2), ByteOf(d, 3));
    BytesCompose(d);
    ShlCompose(b0, b1, b2, b3);
    ShrCompose(b0, b1, b2, b3);
    ComposeBytes(0, b0, b1, b2);
    ComposeBytes(b1, b2, b3, 0);
    ComposeBytes(0, 0, b0, b1);
    ComposeBytes(b2, b3, 0, 0);
    ComposeBytes(0, 0, 0, b0);
    ComposeBytes(b3, 0, 0, 0);
  }

  /** Byte enables `be` select the lanes from `lo` up to `hi`. */
  predicate Enables(be: nat, lo: int, hi: int) {
    forall l | 0 <= l < 4 :: Lane(be, l) <==> lo <= l < hi
  }

  /** The two commands of an unaligned access of `width` bytes, given their byte enables. */
  lemma ShiftedPieces(c0: Cmd, c1: Cmd, k: nat, width: nat, data: Word, mask: Word)
    requires 1 <= k <= 3 && width <= 4
    requires c0.data == Shl(data, k) && c1.data == Shr(data, 4 - k)
    requires c0.Read? ==> c0.mask == Shl(mask, k)
    requires c1.Read? ==> c1.mask == Shr(mask, 4 - k)
    requires Enables(c0.be, k, k + width) && Enables(c1.be, 0, k + width - 4)
    ensures Piece(c0, 0, k, width, data, mask) && Piece(c1, 4, k, width, data, mask)
  {
    hide ByteOf, Shl, Shr, Lane;
    ShiftedBytes(data, k);
    ShiftedBytes(mask, k);
  }

  /** `(0xF << k) & 0xF` and `0xF >> (4 - k)`. */
  function LowEnables(k: nat): nat { 0xF * Pow2(k) % 16 }

  function HighEnables(k: nat): nat
    requires k <= 4
  {
    0xF / Pow2(4 - k)
  }

  /** The byte enables of opr32. */
  lemma Enables32(k: nat)
    requires 1 <= k <= 3
    ensures Enables(LowEnables(k), k, k + 4) && Enables(HighEnables(k), 0, k)
  {
    assert Pow2(1) == 2 && Pow2(2) == 4 && Pow2(3) == 8;
  }

  /** opr32: 32 bits at any byte address. */
  method Opr32(address: Long, data: Word, mask: Word, mode: char) returns (cmds: seq<Cmd>)
    ensures Implements(cmds, address, 4, data, mask, mode) && BurstsEnd(cmds)
    ensures mode == 'r' || mode == 'v' ==> forall c | c in cmds :: c.Read?
    ensures mode != 'r' && mode != 'v' ==> forall c | c in cmds :: c.Write?
    ensures |cmds| == if address % 4 == 0 then 1 else 2
    ensures forall i | 0 <= i < |cmds| ::
              cmds[i].burst <==> i + 1 < |cmds| && address % 0x1000 < 0xFFC
  {
    hide ByteOf, Shl, Shr, Lane, BurstsEnd, Implements, Pow2, Piece, Enables;
    hide Btype, WordOf, LowEnables, HighEnables;
    InBlock(address);
    var k := address % 4;
    if k != 0 {
      var d := [Shl(data, k), Shr(data, 4 - k)];
      var m := [Shl(mask, k), Shr(mask, 4 - k)];
      var be := [LowEnables(k), HighEnables(k)];
      cmds := OprPrn(WordOf(address), be, d, m, mode, false, 2);
      Enables32(k);
      ShiftedPieces(cmds[0], cmds[1], k, 4, data, mask);
    } else {
      cmds := OprPrn(address, [0xF], [data], [mask], mode, false, 1);
      AlignedPiece(cmds[0], data, mask);
    }
    PiecesImplement(cmds, address, 4, data, mask, mode);
  }

  lemma AlignedPiece(c: Cmd, data: Word, mask: Word)
    requires c.be == 0xF && c.data == data && (c.Read? ==> c.mask == mask)
    ensures Piece(c, 0, 0, 4, data, mask)
  {
    hide ByteOf;
  }

  /** opr16: 16 bits at any byte address. */
  method Opr16(address: Long, data: Word, mask: Word, mode: char) returns (cmds: seq<Cmd>)
    requires data < 0x10000 && mask < 0x10000
    ensures Implements(cmds, address, 2, data, mask, mode) && BurstsEnd(cmds)
    ensures mode == 'r' || mode == 'v' ==> forall c | c in cmds :: c.Read?
    ensures mode != 'r' && mode != 'v' ==> forall c | c in cmds :: c.Write?
    ensures |cmds| == if address % 4 == 3 then 2 else 1
    ensures forall i | 0 <= i < |cmds| ::
              cmds[i].burst <==> i + 1 < |cmds| && address % 0x1000 < 0xFFC
  {
    hide ByteOf, Shl, Shr, Lane, BurstsEnd, Implements, Pow2, Piece, Enables, Btype, WordOf;
    InBlock(address);
    var k := address % 4;
    if k == 3 {
      var d := [Shl(data, 3), Shr(data, 1)];
      var m := [Shl(mask, 3), Shr(mask, 1)];
      cmds := OprPrn(WordOf(address), [8, 1], d, m, mode, false, 2);
      Enables16();
      ShiftedPieces(cmds[0], cmds[1], 3, 2, data, mask);
    } else {
      cmds := OprPrn(WordOf(address), [3 * Pow2(k)], [Shl(data, k)], [Shl(mask, k)], mode, false, 1);
      Enables16();
      OnePiece(cmds[0], k, 2, data, mask);
    }
    PiecesImplement(cmds, address, 2, data, mask, mode);
  }

  /** The byte enables of opr16. */
  lemma Enables16()
    ensures Enables(8, 3, 5) && Enables(1, 0, 1)
    ensures forall k: nat | k < 3 :: Enables(3 * Pow2(k), k, k + 2)
  {
    assert Pow2(1) == 2 && Pow2(2) == 4;
  }

  /** The only command of an access that stays within one word. */
  lemma OnePiece(c: Cmd, k: nat, width: nat, data: Word, mask: Word)
    requires 1 <= width <= 4 && k + width <= 4
    requires c.data == Shl(data, k) && (c.Read? ==> c.mask == Shl(mask, k))
    requires Enables(c.be, k, k + width)
    ensures Piece(c, 0, k, width, data, mask)
  {
    hide ByteOf, Lane, Shr;
    if k > 0 {
      hide Shl;
      ShiftedBytes(data, k);
      ShiftedBytes(mask, k);
    }
  }

  lemma Narrowed(address: Long)
    ensures WordOf(address) % WORD_LIMIT == WordOf(address % WORD_LIMIT) && address % 4 == address % WORD_LIMIT % 4
    ensures (WordOf(address) % WORD_LIMIT + 4 * 0) % LONG_LIMIT == WordOf(address) % WORD_LIMIT
  {
    var (q, r) := (address / WORD_LIMIT, address % WORD_LIMIT);
    assert address == q * 0x1_0000_0000 + r && address % 4 == r % 4;
    assert WordOf(address) == q * 0x1_0000_0000 + (r - r % 4);
  }

  /** opr8: 8 bits at any byte address. The word address passes through a 32-bit variable. */
  method Opr8(address: Long, data: Word, mask: Word, mode: char) returns (cmds: seq<Cmd>)
    requires data < 0x10000 && mask < 0x10000
    ensures Implements(cmds, address % WORD_LIMIT, 1, data % 0x100, mask % 0x100, mode) && BurstsEnd(cmds)
    ensures mode == 'r' || mode == 'v' ==> forall c | c in cmds :: c.Read?
    ensures mode != 'r' && mode != 'v' ==> forall c | c in cmds :: c.Write?
    ensures |cmds| == 1 && !cmds[0].burst
  {
    hide ByteOf, Shl, Shr, Lane, BurstsEnd, Implements, Pow2, Piece, Enables, Btype, WordOf;
    InBlock(address);
    var k := address % 4;
    var a := WordOf(address) % WORD_LIMIT;
    cmds := OprPrn(a, [Pow2(k)], [Shl(data % 0x100, k)], [Shl(mask % 0x100, k)], mode, false, 1);
    Narrowed(address);
    Enables8();
    OnePiece(cmds[0], k, 1, data % 0x100, mask % 0x100);
    PiecesImplement(cmds, address % WORD_LIMIT, 1, data % 0x100, mask % 0x100, mode);
  }

  /** The byte enables of opr8. */
  lemma Enables8()
    ensures forall k: nat | k < 4 :: Enables(Pow2(k), k, k + 1)
  {
    assert Pow2(1) == 2 && Pow2(2) == 4 && Pow2(3) == 8;
  }

  /** An 8-bit write as opr8 issues it reaches the byte it was asked for exactly when the
      address fits 32 bits; above that another byte is written instead. */
  lemma Opr8Reaches(cmds: seq<Cmd>, address: Long, data: Word)
    requires data < 0x100 && Implements(cmds, address % WORD_LIMIT, 1, data, 0, 'w')
    ensures Implements(cmds, address, 1, data, 0, 'w') <==> address < WORD_LIMIT
  {
    if address >= WORD_LIMIT {
      var other: Byte := if data == 0 then 1 else 0;
      assert ByteAfter(cmds, address, other) == other;
    }
  }

  /** A read or verify becomes a read command, any other mode a write command. */
  lemma CommandKinds(address: Long, be: nat, d: Word, m: Word, mode: char, burst: bool)
    ensures var c := Command(address, be, d, m, mode, burst);
            c == if mode == 'r' || mode == 'v' then Read(address, be, d, m, burst) else Write(address, be, d, burst)
  {
  }

  /** A burst may follow every word but the last one of a 4096-byte block. */
  lemma BurstFollows(address: Long)
    ensures Btype(address) <==> address % 0x1000 < 0xFFC
  {
  }

  /** A mask of ones looks at the whole byte, a mask of zeros at nothing, and a one-bit mask at
      that bit. */
  lemma MaskMeans(b: Byte, j: nat)
    requires j < 8
    ensures And(b, 0xFF) == b && And(b, 0) == 0
    ensures And(b, Pow2(j)) == if b / Pow2(j) % 2 == 1 then Pow2(j) else 0
  {
    AndOnes(b, 8);
    AndZero(b);
    AndBit(b, j);
    assert Pow2(8) == 0x100 by { assert Pow2(4) == 16; }
  }

  lemma {:induction false} AndOnes(b: nat, n: nat)
    requires b < Pow2(n)
    ensures And(b, Pow2(n) - 1) == b
  {
    if b > 0 && n > 0 {
      assert (Pow2(n) - 1) / 2 == Pow2(n - 1) - 1 && (Pow2(n) - 1) % 2 == 1;
      AndOnes(b / 2, n - 1);
    }
  }

  lemma {:induction false} AndZero(b: nat)
    ensures And(b, 0) == 0
  {
    if b > 0 { AndZero(b / 2); }
  }

  lemma {:induction false} AndBit(b: nat, j: nat)
    ensures And(b, Pow2(j)) == if b / Pow2(j) % 2 == 1 then Pow2(j) else 0
  {
    if j == 0 {
      AndZero(b / 2);
      assert b / Pow2(0) == b;
    } else {
      assert Pow2(j) / 2 == Pow2(j - 1) && Pow2(j) % 2 == 0;
      AndBit(b / 2, j - 1);
      HalfFirst(b, Pow2(j - 1));
      if b == 0 { assert 0 / Pow2(j) == 0; }
    }
  }

  lemma HalfFirst(b: nat, d: nat)
    requires d > 0
    ensures b / (2 * d) == b / 2 / d
  {
    var (q, r) := (b / 2 / d, b / 2 % d);
    assert b / 2 == q * d + r;
    assert b == q * (2 * d) + (2 * r + b % 2);
    QuotientIs(b, 2 * d, q, 2 * r + b % 2);
  }

  lemma QuotientIs(x: nat, d: nat, q: nat, r: nat)
    requires r < d && x == q * d + r
    ensures x / d == q
  {
    var e := x / d - q;
    assert e * d == r - x % d by { assert x == x / d * d + x % d; }
    NoMultiple(e, d);
  }

  lemma NoMultiple(e: int, d: nat)
    ensures (e >= 1 ==> e * d >= d) && (e <= -1 ==> e * d <= -(d as int))
  {
  }
}
