/** A rule for base labels under which the services' label names never clash. */
module LabelRules {
  import opened Words
  import opened Sequencer
  import opened Assembler
  import opened TwoPass
  import opened Service
  import opened Linker
  import opened MainLoop
  import opened Compile
  import opened Microcode
  import opened Success
  import Boot
  import L = ListWalk

  function CodeSuffixes(ch: L.Channel): seq<string> {
    if ch.fourWord then ["", "_RPT_NOT_DONE", "_NO_INT", "_NEXT_DESC", "_UPDATE", "_UPDATE_B", "_END"]
    else ["", "_NO_INT", "_UPDATE", "_END"]
  }

  function DataSuffixes(ch: L.Channel): seq<string> {
    ["_SIZE", "_BASE", "_INDEX", "_CNT"] + (if ch.fourWord then ["_RPT", "_SYSA"] else []) + ["_LIST"]
  }

  /** The names of a list of entries. */
  predicate Spelt(env: seq<Entry>, base: string, suffixes: seq<string>) {
    |env| == |suffixes| && forall i | 0 <= i < |env| :: env[i].name == base + suffixes[i]
  }

  lemma CodeSpelt(ch: L.Channel, pc: nat)
    ensures Spelt(Names(CodeBlocks(ch), pc), ch.base, CodeSuffixes(ch))
  {
    hide Names, Body, Lines, OffsetOf;
    var bs := CodeBlocks(ch);
    NamesLength(bs, pc);
    BaseItself(ch.base);
    forall i | 0 <= i < |bs| ensures Names(bs, pc)[i].name == ch.base + CodeSuffixes(ch)[i] {
      NameAt(bs, pc, i);
    }
  }

  lemma BaseItself(base: string)
    ensures base + "" == base
  {
  }

  lemma DataSpelt(ch: L.Channel, pc: nat)
    requires |ch.list| < INT_LIMIT
    ensures Spelt(Names(DataBlocks(ch), pc), ch.base, DataSuffixes(ch))
  {
    hide Names, Body, OffsetOf, ListStmts;
    var bs := DataBlocks(ch);
    NamesLength(bs, pc);
    forall i | 0 <= i < |bs| ensures Names(bs, pc)[i].name == ch.base + DataSuffixes(ch)[i] {
      NameAt(bs, pc, i);
    }
  }

  /** Length and two letters tell the suffixes apart. */
  function Key(s: string): int {
    |s| * 0x10000 + if |s| > 2 then s[1] as int * 0x100 + s[2] as int else 0
  }

  function Suffixes(ch: L.Channel): seq<string> { CodeSuffixes(ch) + DataSuffixes(ch) }

  lemma Keys4()
    ensures Key("") == 0 && Key("_RPT_NOT_DONE") == 0x0D5250 && Key("_NO_INT") == 0x074E4F && Key("_NEXT_DESC") ==
                0x0A4E45
    ensures Key("_UPDATE") == 0x075550 && Key("_UPDATE_B") == 0x095550 && Key("_END") == 0x04454E
    ensures Key("_SIZE") == 0x055349 && Key("_BASE") == 0x054241 && Key("_INDEX") == 0x06494E && Key("_CNT") == 0x04434E
    ensures Key("_RPT") == 0x045250 && Key("_SYSA") == 0x055359 && Key("_LIST") == 0x054C49
  {
  }

  lemma SuffixesDiffer(ch: L.Channel)
    ensures forall i, j | 0 <= i < j < |Suffixes(ch)| :: Suffixes(ch)[i] != Suffixes(ch)[j]
    ensures forall i | 0 <= i < |Suffixes(ch)| :: |Suffixes(ch)[i]| <= 13
  {
    Keys4();
    hide Key;
    forall i, j | 0 <= i < j < |Suffixes(ch)| ensures Suffixes(ch)[i] != Suffixes(ch)[j] {
      assert Key(Suffixes(ch)[i]) != Key(Suffixes(ch)[j]);
    }
  }

  predicate GlobalLetter(c: char) { c == 'S' || c == 'M' || c == 'Z' || c == 'T' || c == 'F' || c == '0' }

  /** Base labels are neither empty nor too long, none begins another, and none begins with
      the first letter of a global label or of a number. */
  predicate GoodBases(chs: seq<L.Channel>) {
    && (forall k | 0 <= k < |chs| :: 1 <= |chs[k].base| <= MAX_LABEL_SIZE - 13 && !GlobalLetter(chs[k].base[0]))
    && (forall j, k | 0 <= j < |chs| && 0 <= k < |chs| && j != k :: !(chs[j].base <= chs[k].base))
  }

  lemma UniqueConcat(a: seq<Entry>, b: seq<Entry>)
    requires Unique(a) && Unique(b) && forall e, g | e in a && g in b :: e.name != g.name
    ensures Unique(a + b)
  {
    forall i, j | 0 <= i < j < |a + b| ensures (a + b)[i].name != (a + b)[j].name {
      if i < |a| <= j {
        assert a[i] in a && b[j - |a|] in b;
      }
    }
  }

  /** The labels of one channel: all carry its base, are short, and differ. */
  predicate Own(env: seq<Entry>, base: string) {
    Unique(env) && forall e | e in env :: base <= e.name && |e.name| <= |base| + 13
  }

  lemma SpeltOwn(env: seq<Entry>, ch: L.Channel)
    requires Spelt(env, ch.base, Suffixes(ch))
    ensures Own(env, ch.base)
  {
    hide Suffixes;
    SuffixesDiffer(ch);
    var s := Suffixes(ch);
    forall i, j | 0 <= i < j < |env| ensures env[i].name != env[j].name {
      assert env[i].name[|ch.base|..] == s[i] && env[j].name[|ch.base|..] == s[j];
    }
  }

  function ChannelNames(p: Program, k: nat): seq<Entry>
    requires k < |p.channels| && Small(p.channels)
  {
    Names(CodeBlocks(p.channels[k]), SiteOf(p, k).code) + Names(DataBlocks(p.channels[k]), SiteOf(p, k).data)
  }

  lemma ChannelOwn(p: Program, k: nat)
    requires k < |p.channels| && Small(p.channels)
    ensures Own(ChannelNames(p, k), p.channels[k].base) && |ChannelNames(p, k)| <= 14
  {
    hide Names, CodeBlocks, DataBlocks, CodeStart, DataStart, Own;
    var ch := p.channels[k];
    CodeSpelt(ch, SiteOf(p, k).code);
    DataSpelt(ch, SiteOf(p, k).data);
    SpeltOwn(ChannelNames(p, k), ch);
  }

  lemma PrefixesClash(a: string, b: string, name: string)
    requires a <= name && b <= name
    ensures a <= b || b <= a
  {
    if |a| <= |b| {
      assert a == b[..|a|];
    } else {
      assert b == a[..|b|];
    }
  }

  lemma {:induction false} ChannelsOwn(p: Program, k: nat)
    requires k <= |p.channels| && Small(p.channels) && GoodBases(p.channels)
    ensures Unique(ChannelsLabels(p, k)) && |ChannelsLabels(p, k)| <= 14 * k
    ensures forall e | e in ChannelsLabels(p, k) ::
              |e.name| <= MAX_LABEL_SIZE && exists j | 0 <= j < k :: p.channels[j].base <= e.name
  {
    hide Names, CodeBlocks, DataBlocks, CodeStart, DataStart;
    if k > 0 {
      ChannelsOwn(p, k - 1);
      ChannelOwn(p, k - 1);
      var (a, b) := (ChannelsLabels(p, k - 1), ChannelNames(p, k - 1));
      assert ChannelsLabels(p, k) == a + b;
      forall e, g | e in a && g in b ensures e.name != g.name {
        if e.name == g.name {
          var j :| 0 <= j < k - 1 && p.channels[j].base <= e.name;
          PrefixesClash(p.channels[j].base, p.channels[k - 1].base, e.name);
        }
      }
      UniqueConcat(a, b);
      forall e | e in a + b
        ensures |e.name| <= MAX_LABEL_SIZE && exists j | 0 <= j < k :: p.channels[j].base <= e.name
      {
        if e in b {
          assert p.channels[k - 1].base <= e.name;
        }
      }
    }
  }

  /** A global label: it begins with a letter no base label begins with. */
  predicate Global(e: Entry) {
    1 <= |e.name| <= 6 && GlobalLetter(e.name[0]) && e.name[0] != '0'
  }

  lemma GlobalsUnique(p: Program)
    ensures Unique([Entry("START", START), Entry("MAIN", MAIN)])
    ensures forall e | e in [Entry("START", START), Entry("MAIN", MAIN)] :: Global(e) && e.name[1] != 'I'
    ensures Unique(Names(ConstantBlocks(p), p.constants)) && |Names(ConstantBlocks(p), p.constants)| <= 5
    ensures forall e | e in Names(ConstantBlocks(p), p.constants) ::
              Global(e) && e.name != "START" && e.name != "MAIN"
  {
    hide Names, OffsetOf;
    var bs := ConstantBlocks(p);
    var env := Names(bs, p.constants);
    NamesLength(bs, p.constants);
    forall i | 0 <= i < |env| ensures env[i].name == ["ZERO", "MINUS1", "THREE", "FOUR", "MARKER"][i] {
      NameAt(bs, p.constants, i);
    }
    assert "ZERO"[0] == 'Z' && "MINUS1"[0] == 'M' && "THREE"[0] == 'T' && "FOUR"[0] == 'F' && "MARKER"[0] == 'M';
    assert "MINUS1"[1] == 'I' && "MARKER"[1] == 'A' && "START"[0] == 'S' && |"MAIN"| == 4;
  }

  /** Under the rule a program declares every label once, none too long, none like a number. */
  lemma GoodBasesClean(p: Program)
    requires Small(p.channels) && GoodBases(p.channels)
    ensures Boot.CleanLabels(p) && Short(Labels(p)) && |Labels(p)| <= 14 * |p.channels| + 7
  {
    hide ChannelsLabels, Names, ConstantBlocks;
    GlobalsUnique(p);
    ChannelsOwn(p, |p.channels|);
    var (g, c, k) := ([Entry("START", START), Entry("MAIN", MAIN)], ChannelsLabels(p, |p.channels|),
                      Names(ConstantBlocks(p), p.constants));
    forall e | e in c ensures |e.name| > 0 && !GlobalLetter(e.name[0]) {
      var j :| 0 <= j < |p.channels| && p.channels[j].base <= e.name;
      assert e.name[0] == p.channels[j].base[0];
    }
    UniqueConcat(g, c);
    UniqueConcat(g + c, k);
  }
}
