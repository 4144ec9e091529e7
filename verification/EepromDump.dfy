/** The text form of the EEPROM's register records: eeprom_dump_to_file prints them,
    file_dump_to_eeprom reads them back (eeprom_utils.py). A record is a 2-byte address
    and a 4-byte value, low byte first. */
module EepromDump {
  import opened Words
  import opened Eeprom

  const RECORD := 6

  function HexChar(d: nat): char
    requires d < 16
  {
    if d < 10 then '0' + d as char else 'A' + (d - 10) as char
  }

  /** %.nX for a value of at most n hex digits. */
  function Hex(v: nat, n: nat): (s: string)
    ensures |s| == n
  {
    if n == 0 then "" else Hex(v / 16, n - 1) + [HexChar(v % 16)]
  }

  function Address(r: seq<Byte>): nat
    requires |r| == RECORD
  {
    (r[0] as int) + (r[1] as int) * 0x100
  }

  function Value(r: seq<Byte>): nat
    requires |r| == RECORD
  {
    (r[2] as int) + (r[3] as int) * 0x100 + (r[4] as int) * 0x10000 + (r[5] as int) * 0x1000000
  }

  function Line(r: seq<Byte>): string
    requires |r| == RECORD
  {
    Hex(Address(r), 4) + " " + Hex(Value(r), 8)
  }

  /** Record `i` of the dumped bytes. */
  function Record(data: seq<Byte>, i: nat): (r: seq<Byte>)
    requires RECORD * i + RECORD <= |data|
    ensures |r| == RECORD
  {
    data[RECORD * i..RECORD * i + RECORD]
  }

  /** Records printed: up to and including the first one with address 0xFFFF. */
  function Printed(data: seq<Byte>, n: nat): (m: nat)
    requires RECORD * n <= |data|
    ensures m <= n
    ensures forall i | 0 <= i < m - 1 :: Address(Record(data, i)) != 0xFFFF
    ensures m < n ==> m > 0 && Address(Record(data, m - 1)) == 0xFFFF
  {
    if n == 0 then 0
    else
      var m := Printed(data, n - 1);
      if m < n - 1 || (n > 1 && Address(Record(data, n - 2)) == 0xFFFF) then m else n
  }

  /** The records that are there of `n` records asked for. */
  function Whole(data: seq<Byte>, n: nat): (m: nat)
    ensures m <= n && RECORD * m <= |data|
    ensures m < n ==> RECORD * m + RECORD > |data|
  {
    if RECORD * n <= |data| then n else |data| / RECORD
  }

  /** The loop of eeprom_dump_to_file over `n` records. Data that ends before the last of them
      raises an exception, unless a record with address 0xFFFF comes first. */
  method DumpToFile(data: seq<Byte>, n: nat) returns (raised: bool, lines: seq<string>)
    ensures |lines| == Printed(data, Whole(data, n))
    ensures forall i | 0 <= i < |lines| :: lines[i] == Line(Record(data, i))
    ensures raised <==> RECORD * n > |data| && forall i | 0 <= i < |lines| :: Address(Record(data, i)) != 0xFFFF
  {
    hide Line, Address, Hex;
    raised, lines := false, [];
    for i := 0 to n
      invariant !raised && i <= Whole(data, n)
      invariant |lines| == i && Printed(data, i) == i
      invariant forall k | 0 <= k < i :: lines[k] == Line(Record(data, k)) && Address(Record(data, k)) != 0xFFFF
    {
      if RECORD * i + RECORD > |data| {
        return true, lines;
      }
      lines := lines + [Line(Record(data, i))];
      if Address(Record(data, i)) == 0xFFFF {
        PrintedStops(data, i + 1, Whole(data, n));
        return false, lines;
      }
    }
  }

  lemma {:induction false} PrintedStops(data: seq<Byte>, m: nat, n: nat)
    requires 0 < m <= n && RECORD * n <= |data| && Printed(data, m) == m && Address(Record(data, m - 1)) == 0xFFFF
    ensures Printed(data, n) == m
  {
    if m < n { PrintedStops(data, m, n - 1); }
  }

  // ---- Reading ----

  /** White space: blank, and tab to carriage return (9 to 13). */
  predicate Space(c: char) { c == ' ' || 9 <= c as nat <= 13 }

  /** str.split(): the words of a line; `word` is the one being read. */
  function Split(s: string, word: string): seq<string>
    decreases |s|
  {
    if s == "" then (if word == "" then [] else [word])
    else if Space(s[0]) then (if word == "" then [] else [word]) + Split(s[1..], "")
    else Split(s[1..], word + [s[0]])
  }

  /** int(s, 16) of the two characters at most that a slice has; anything but hex digits is
      taken to raise ValueError. */
  function ParseByte(s: string): Option<Byte>
    requires |s| <= 2
  {
    if |s| == 1 then (if HexDigit(s[0]).Some? then Some(HexDigit(s[0]).value) else None)
    else if |s| == 2 && HexDigit(s[0]).Some? && HexDigit(s[1]).Some? then
      Some(HexDigit(s[0]).value * 16 + HexDigit(s[1]).value)
    else None
  }

  /** token[2*i:2*i+2], cut at the end of the token as Python does. */
  function Slice(token: string, i: nat): (s: string)
    ensures |s| <= 2
  {
    var lo := if 2 * i < |token| then 2 * i else |token|;
    var hi := if 2 * i + 2 < |token| then 2 * i + 2 else |token|;
    token[lo..hi]
  }

  /** The bytes of a token, from slice `n - 1` down to slice 0. */
  function ParseToken(token: string, n: nat): Option<seq<Byte>> {
    if n == 0 then Some([])
    else
      var b := ParseByte(Slice(token, n - 1));
      var rest := ParseToken(token, n - 1);
      if b.None? || rest.None? then None else Some([b.value] + rest.value)
  }

  function ParseLine(line: string): Option<seq<Byte>> {
    var words := Split(line, "");
    if |words| != 2 then None
    else
      var (addr, data) := (ParseToken(words[0], 2), ParseToken(words[1], 4));
      if addr.None? || data.None? then None else Some(addr.value + data.value)
  }

  /** The bytes of all lines; None if a line raises an exception. */
  function ParseLines(lines: seq<string>): Option<seq<Byte>> {
    if lines == [] then Some([])
    else
      var front := ParseLines(lines[..|lines| - 1]);
      var last := ParseLine(lines[|lines| - 1]);
      if front.None? || last.None? then None else Some(front.value + last.value)
  }

  /** The loop over one token: its bytes are appended from the last slice to the first. */
  method AppendToken(token: string, n: nat, data: seq<Byte>) returns (raised: bool, data': seq<Byte>)
    ensures raised <==> ParseToken(token, n).None?
    ensures !raised ==> data' == data + ParseToken(token, n).value
  {
    hide ParseByte, Slice;
    data', raised := data, false;
    for i := n downto 0
      invariant ParseToken(token, n).None? <==> ParseToken(token, i).None?
      invariant ParseToken(token, n).Some? ==> data + ParseToken(token, n).value == data' + ParseToken(token, i).value
    {
      var b := ParseByte(Slice(token, i));
      if b.None? {
        return true, data;
      }
      data' := data' + [b.value];
    }
  }

  /** The reading loop of file_dump_to_eeprom. */
  method FileToData(lines: seq<string>) returns (raised: bool, data: seq<Byte>)
    ensures raised <==> ParseLines(lines).None?
    ensures !raised ==> ParseLines(lines) == Some(data)
  {
    hide Split, ParseToken;
    data, raised := [], false;
    for k := 0 to |lines|
      invariant !raised && ParseLines(lines[..k]) == Some(data)
    {
      assert lines[..k + 1][..k] == lines[..k];
      ghost var before := data;
      var words := Split(lines[k], "");
      if |words| != 2 {
        ParseFails(lines, k + 1);
        return true, [];
      }
      raised, data := AppendToken(words[0], 2, data);
      if raised {
        ParseFails(lines, k + 1);
        return;
      }
      raised, data := AppendToken(words[1], 4, data);
      if raised {
        ParseFails(lines, k + 1);
        return;
      }
      assert data == before + ParseLine(lines[k]).value;
    }
    assert lines[..|lines|] == lines;
  }

  /** A line that cannot be read stops the whole file. */
  lemma {:induction false} ParseFails(lines: seq<string>, k: nat)
    requires k <= |lines| && ParseLines(lines[..k]).None?
    ensures ParseLines(lines).None?
    decreases |lines|
  {
    if k < |lines| {
      assert lines[..|lines| - 1][..k] == lines[..k];
      ParseFails(lines[..|lines| - 1], k);
    } else {
      assert lines[..k] == lines;
    }
  }

  // ---- Round trip ----

  /** A byte as two digits. */
  function HexByte(b: Byte): string { [HexChar(b / 16), HexChar(b % 16)] }

  lemma ParseHexByte(b: Byte)
    ensures ParseByte(HexByte(b)) == Some(b)
    ensures forall c | c in HexByte(b) :: !Space(c)
  {
  }

  /** Printing a number whose low byte is `b`. */
  lemma HexAppend(v: nat, b: Byte, n: nat)
    ensures Hex(v * 0x100 + b, n + 2) == Hex(v, n) + HexByte(b)
  {
    var x: nat := v * 0x100 + b;
    assert x / 16 == v * 16 + b / 16 && x % 16 == b % 16;
    assert x / 16 / 16 == v && x / 16 % 16 == b / 16;
    assert Hex(x, n + 2) == Hex(x / 16, n + 1) + [HexChar(x % 16)];
    assert Hex(x / 16, n + 1) == Hex(v, n) + [HexChar(b / 16)];
  }

  /** The tokens of a record, byte by byte. */
  lemma LineTokens(r: seq<Byte>)
    requires |r| == RECORD
    ensures Hex(Address(r), 4) == HexByte(r[1]) + HexByte(r[0])
    ensures Hex(Value(r), 8) == HexByte(r[5]) + HexByte(r[4]) + HexByte(r[3]) + HexByte(r[2])
  {
    hide Hex, HexByte;
    var v5: nat := r[5] as int;
    var v4: nat := v5 * 0x100 + (r[4] as int);
    var v3: nat := v4 * 0x100 + (r[3] as int);
    NoDigits(0);
    HexAppend(0, r[1], 0);
    HexAppend(r[1], r[0], 2);
    HexAppend(0, r[5], 0);
    HexAppend(v5, r[4], 2);
    HexAppend(v4, r[3], 4);
    HexAppend(v3, r[2], 6);
  }

  lemma NoDigits(v: nat)
    ensures Hex(v, 0) == ""
  {
  }

  lemma {:induction false} SplitWord(s: string, t: string, word: string)
    requires forall c | c in s :: !Space(c)
    ensures Split(s + t, word) == Split(t, word + s)
    decreases |s|
  {
    hide Space;
    if s == "" {
      assert s + t == t && word + s == word;
    } else {
      assert (s + t)[0] == s[0] && (s + t)[1..] == s[1..] + t;
      assert s[0] in s && forall c | c in s[1..] :: c in s;
      SplitWord(s[1..], t, word + [s[0]]);
      assert word + [s[0]] + s[1..] == word + s;
    }
  }

  /** A line of two words splits into them. */
  lemma SplitLine(a: string, b: string)
    requires a != "" && b != "" && (forall c | c in a :: !Space(c)) && forall c | c in b :: !Space(c)
    ensures Split(a + " " + b, "") == [a, b]
  {
    SplitWord(a, " " + b, "");
    assert a + " " + b == a + (" " + b) && "" + a == a;
    assert (" " + b)[1..] == b;
    SplitWord(b, "", "");
    assert b + "" == b && "" + b == b;
  }

  /** The bytes of the tokens of a record come back in the order of the record. */
  lemma ParseTokens(r: seq<Byte>)
    requires |r| == RECORD
    ensures ParseToken(HexByte(r[1]) + HexByte(r[0]), 2) == Some(r[..2])
    ensures ParseToken(HexByte(r[5]) + HexByte(r[4]) + HexByte(r[3]) + HexByte(r[2]), 4) == Some(r[2..])
  {
    hide HexChar, ParseByte, ParseToken;
    var a := HexByte(r[1]) + HexByte(r[0]);
    NoBytes(a);
    assert Slice(a, 0) == HexByte(r[1]) && Slice(a, 1) == HexByte(r[0]);
    ParseNext(a, 0, r[1], [], [r[1]]);
    ParseNext(a, 1, r[0], [r[1]], r[..2]);
    var d := HexByte(r[5]) + HexByte(r[4]) + HexByte(r[3]) + HexByte(r[2]);
    NoBytes(d);
    assert Slice(d, 0) == HexByte(r[5]) && Slice(d, 1) == HexByte(r[4]);
    assert Slice(d, 2) == HexByte(r[3]) && Slice(d, 3) == HexByte(r[2]);
    ParseNext(d, 0, r[5], [], [r[5]]);
    ParseNext(d, 1, r[4], [r[5]], [r[4], r[5]]);
    ParseNext(d, 2, r[3], [r[4], r[5]], [r[3], r[4], r[5]]);
    ParseNext(d, 3, r[2], [r[3], r[4], r[5]], r[2..]);
  }

  lemma NoBytes(token: string)
    ensures ParseToken(token, 0) == Some([])
  {
  }

  /** One more printed byte of a token is read in front of the ones before. */
  lemma ParseNext(token: string, n: nat, b: Byte, rest: seq<Byte>, all: seq<Byte>)
    requires Slice(token, n) == HexByte(b) && ParseToken(token, n) == Some(rest) && all == [b] + rest
    ensures ParseToken(token, n + 1) == Some(all)
  {
    ParseHexByte(b);
  }

  /** Reading a printed record gives the record. */
  lemma ParsePrinted(r: seq<Byte>)
    requires |r| == RECORD
    ensures ParseLine(Line(r)) == Some(r)
  {
    hide HexChar, Hex, Split, ParseToken, Address, Value, Space;
    LineTokens(r);
    forall i | 0 <= i < RECORD ensures forall c | c in HexByte(r[i]) :: !Space(c) {
      ParseHexByte(r[i]);
    }
    SplitLine(Hex(Address(r), 4), Hex(Value(r), 8));
    ParseTokens(r);
    assert r[..2] + r[2..] == r;
  }

  /** Dump and read back: the bytes of the printed records, that is up to and including the
      first record with address 0xFFFF, or all of them. */
  lemma {:induction false} DumpThenParse(data: seq<Byte>, lines: seq<string>)
    requires RECORD * |lines| <= |data|
    requires forall i | 0 <= i < |lines| :: lines[i] == Line(Record(data, i))
    ensures ParseLines(lines) == Some(data[..RECORD * |lines|])
    decreases |lines|
  {
    hide Line, ParseLine;
    if lines == [] {
      assert data[..0] == [];
    } else {
      var n := |lines| - 1;
      DumpThenParse(data, lines[..n]);
      ParsePrinted(Record(data, n));
      assert data[..RECORD * n] + Record(data, n) == data[..RECORD * (n + 1)];
    }
  }

  // ---- Restoring an EEPROM from a dump ----

  /** Putting back `n` bytes read at the same place, around the end of the memory. */
  lemma {:induction false} ReplaceFetched(from: Memory, to: Memory, a: nat, n: nat, x: nat)
    requires x < SIZE
    ensures Replace(to, a, Fetch(from, a % SIZE, n))[x] == if (x - a) % SIZE < n then from[x] else to[x]
    decreases n
  {
    if n > 0 {
      assert (a % SIZE + 1) % SIZE == (a + 1) % SIZE;
      ReplaceFetched(from, to[a % SIZE := from[a % SIZE]], a + 1, n - 1, x);
      Distance(x, a);
    }
  }

  lemma CopiesBack(from: Memory, to: Memory, n: nat, outcome: nat -> Outcome, k: nat)
    requires forall i | i >= k :: Stored(outcome(i))
    ensures var w := WriteSpec(to, 0, n, Fetch(from, 0, n), outcome, k);
            w.total == n && forall x | 0 <= x < SIZE :: w.mem[x] == if x < n then from[x] else to[x]
  {
    hide Fetch, Replace, WriteSpec;
    WriteStores(to, 0, Fetch(from, 0, n), outcome, k);
    forall x | 0 <= x < SIZE
      ensures Replace(to, 0, Fetch(from, 0, n))[x] == if x < n then from[x] else to[x]
    {
      ReplaceFetched(from, to, 0, n, x);
    }
  }

  /** The file dumped from one EEPROM, written to another one with every chunk stored, copies
      the bytes of the printed records and no others. A dump longer than the memory wraps
      around when it is read and when it is written, so the statement has no length limit. */
  lemma Restores(from: Memory, to: Memory, n: nat, lines: seq<string>, outcome: nat -> Outcome, k: nat)
    requires var data := Fetch(from, 0, RECORD * n);
             |lines| == Printed(data, n) && forall i | 0 <= i < |lines| :: lines[i] == Line(Record(data, i))
    requires forall i | i >= k :: Stored(outcome(i))
    ensures ParseLines(lines).Some?
    ensures var w := WriteSpec(to, 0, |ParseLines(lines).value|, ParseLines(lines).value, outcome, k);
            && w.total == RECORD * |lines|
            && forall x | 0 <= x < SIZE :: w.mem[x] == if x < RECORD * |lines| then from[x] else to[x]
  {
    hide Fetch, WriteSpec, ParseLines, Line, Printed, Stored;
    var data := Fetch(from, 0, RECORD * n);
    DumpThenParse(data, lines);
    var m := RECORD * |lines|;
    FetchConcat(from, 0, m, RECORD * n - m);
    assert data[..m] == Fetch(from, 0, m);
    CopiesBack(from, to, m, outcome, k);
  }

  // ---- The text, character by character ----

  /** The digits printed are upper case. */
  lemma DigitPrinted(d: nat)
    requires d < 16
    ensures HexChar(d) == "0123456789ABCDEF"[d]
  {
  }

  /** A printed line: four digits, a blank, eight digits; the address and the value from their
      high bytes down. */
  lemma LinePrinted(r: seq<Byte>)
    requires |r| == 6
    ensures Line(r) ==
            HexByte(r[1]) + HexByte(r[0]) + " " + HexByte(r[5]) + HexByte(r[4]) + HexByte(r[3]) + HexByte(r[2])
    ensures Address(r) == (r[0] as int) + 0x100 * (r[1] as int)
    ensures forall b: Byte :: HexByte(b) == ["0123456789ABCDEF"[b / 16], "0123456789ABCDEF"[b % 16]]
  {
    hide Hex;
    LineTokens(r);
    forall b: Byte ensures HexByte(b) == ["0123456789ABCDEF"[b / 16], "0123456789ABCDEF"[b % 16]] {
      DigitPrinted(b / 16);
      DigitPrinted(b % 16);
    }
  }

  /** White space is blank, tab, line feed, vertical tab, form feed and carriage return. */
  lemma Spaces(c: char)
    ensures Space(c) <==> c as nat in {9, 10, 11, 12, 13, 32}
  {
  }

  /** Splitting keeps every character that is not white space, in order, and nothing else; no
      word is empty or holds white space. */
  lemma {:induction false} SplitKeeps(s: string, word: string)
    requires forall c | c in word :: !Space(c)
    ensures Joined(Split(s, word)) == word + Solid(s)
    ensures forall w | w in Split(s, word) :: w != "" && forall c | c in w :: !Space(c)
    decreases |s|
  {
    hide Space;
    if s == "" {
      assert Joined([word]) == word by { assert [word][1..] == [] && word + "" == word; }
      assert word + "" == word;
    } else if Space(s[0]) {
      SplitKeeps(s[1..], "");
      if word != "" {
        assert ([word] + Split(s[1..], ""))[1..] == Split(s[1..], "");
        assert "" + Solid(s[1..]) == Solid(s[1..]);
      } else {
        assert [] + Split(s[1..], "") == Split(s[1..], "");
      }
    } else {
      SplitKeeps(s[1..], word + [s[0]]);
      assert word + [s[0]] + Solid(s[1..]) == word + ([s[0]] + Solid(s[1..]));
    }
  }

  function Joined(words: seq<string>): string {
    if words == [] then "" else words[0] + Joined(words[1..])
  }

  /** The characters of `s` that are not white space. */
  function Solid(s: string): string {
    if s == "" then "" else (if Space(s[0]) then "" else [s[0]]) + Solid(s[1..])
  }

  /** White space ends a word: it splits the line into what comes before and after. */
  lemma {:induction false} SplitAtSpace(s: string, c: char, t: string, word: string)
    requires Space(c)
    ensures Split(s + [c] + t, word) == Split(s, word) + Split(t, "")
    decreases |s|
  {
    hide Space;
    var all := s + [c] + t;
    if s == "" {
      assert all[0] == c && all[1..] == t;
    } else {
      assert all[0] == s[0] && all[1..] == s[1..] + [c] + t;
      SplitAtSpace(s[1..], c, t, if Space(s[0]) then "" else word + [s[0]]);
      if Space(s[0]) {
        assert (if word == "" then [] else [word]) + (Split(s[1..], "") + Split(t, ""))
            == (if word == "" then [] else [word]) + Split(s[1..], "") + Split(t, "");
      }
    }
  }

  /** What a slice of a token stands for: two digits or one, and nothing else. */
  lemma BytesRead(a: char, b: char)
    ensures ParseByte("") == None && ParseByte([a]) == HexDigit(a)
    ensures ParseByte([a, b]).Some? <==> HexDigit(a).Some? && HexDigit(b).Some?
    ensures ParseByte([a, b]).Some? ==> ParseByte([a, b]).value == 16 * HexDigit(a).value + HexDigit(b).value
  {
  }

  /** The bytes of a token: pairs of digits of its first 2n characters, the last pair first; what
      follows is ignored. */
  lemma {:induction false} TokenRead(token: string, n: nat)
    requires |token| >= 2 * n
    ensures ParseToken(token, n).Some? <==> forall i | 0 <= i < 2 * n :: HexDigit(token[i]).Some?
    ensures ParseToken(token, n).Some? ==>
              && |ParseToken(token, n).value| == n
              && forall i | 0 <= i < n ::
                   var (a, b) := (token[2 * (n - 1 - i)], token[2 * (n - 1 - i) + 1]);
                   ParseToken(token, n).value[i] == 16 * HexDigit(a).value + HexDigit(b).value
  {
    hide HexDigit, ParseByte;
    if n > 0 {
      TokenRead(token, n - 1);
      var (a, b) := (token[2 * (n - 1)], token[2 * (n - 1) + 1]);
      assert Slice(token, n - 1) == [a, b];
      BytesRead(a, b);
    }
  }

  /** A token that leaves the last pair of digits empty cannot be read. */
  lemma TokenTooShort(token: string, n: nat)
    requires n > 0 && |token| <= 2 * (n - 1)
    ensures ParseToken(token, n) == None
  {
    assert Slice(token, n - 1) == "";
  }

  /** A line is read exactly if it has two words, the first of which can be read as two bytes
      and the second as four. */
  lemma LineRead(line: string)
    ensures var words := Split(line, "");
            && (ParseLine(line).Some? <==>
                  |words| == 2 && ParseToken(words[0], 2).Some? && ParseToken(words[1], 4).Some?)
            && (ParseLine(line).Some? ==>
                  ParseLine(line).value == ParseToken(words[0], 2).value + ParseToken(words[1], 4).value)
  {
    hide Split, ParseToken;
  }
}
