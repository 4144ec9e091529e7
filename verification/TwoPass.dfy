/** The two passes together do what a direct assembler does that knows all label
    addresses beforehand. */
module TwoPass {
  import opened Words
  import opened SeqCode
  import opened Sequencer
  import opened Assembler
  import opened BusModel

  /** The final value of a word put with operand `operand`. */
  function Final(env: seq<Entry>, data: Word, operand: string): Word {
    if operand == "" then data else OrIn(data, Target(env, operand))
  }

  /** For an instruction: its encoding with the address the label stands for. */
  lemma FinalInstr(env: seq<Entry>, i: Instr, operand: string)
    requires i.InRange() && i.Addressed() && i == i.At(0) && operand != ""
    ensures Final(env, Encode(i), operand) == Encode(i.At(Target(env, operand)))
  {
    hide Encode, Or, Target;
    OrOperand(i, Target(env, operand));
  }

  /** The direct assembler: the word that ends up at address `x`, given the label
      addresses `env`; `before` is what is there when the statements start. */
  function Direct(stmts: seq<Stmt>, pc: nat, env: seq<Entry>, x: nat, before: Option<Word>): Option<Word>
    decreases |stmts|
  {
    if stmts == [] then before
    else
      match stmts[0]
      case Org(a) => Direct(stmts[1..], a, env, x, before)
      case Label(_) => Direct(stmts[1..], pc, env, x, before)
      case Put(data, operand) =>
        Direct(stmts[1..], pc + 1, env, x, if x == pc then Some(Final(env, data, operand)) else before)
  }

  /** The labels declared, with their addresses. */
  function Declared(stmts: seq<Stmt>, pc: nat): seq<Entry>
    decreases |stmts|
  {
    if stmts == [] then []
    else
      match stmts[0]
      case Org(a) => Declared(stmts[1..], a)
      case Label(name) => [Entry(name, pc)] + Declared(stmts[1..], pc)
      case Put(_, _) => Declared(stmts[1..], pc + 1)
  }

  /** Cell `c` will resolve to what the direct assembler has. */
  predicate Agrees(env: seq<Entry>, c: Cell, word: Option<Word>) {
    && (c.operand.Some? <==> word.Some?)
    && (word.Some? ==> Resolve(env, c).data == word.value)
  }

  lemma {:induction false} PassOneAgrees(st: AsmState, stmts: seq<Stmt>, env: seq<Entry>, x: nat, before: Option<Word>)
    requires |st.dram| == RAM_SIZE && x < RAM_SIZE
    requires AssembleAll(st, stmts).Going? && Agrees(env, st.dram[x], before)
    ensures Agrees(env, AssembleAll(st, stmts).st.dram[x], Direct(stmts, st.pc, env, x, before))
    decreases |stmts|
  {
    hide Target, OrIn;
    if stmts != [] {
      var st' := Assemble(st, stmts[0]).st;
      var before' := match stmts[0]
        case Put(data, operand) => if x == st.pc then Some(Final(env, data, operand)) else before
        case _ => before;
      PassOneAgrees(st', stmts[1..], env, x, before');
    }
  }

  lemma {:induction false} PassOneDeclares(st: AsmState, stmts: seq<Stmt>)
    requires |st.dram| == RAM_SIZE && AssembleAll(st, stmts).Going?
    ensures AssembleAll(st, stmts).st.labels == st.labels + Declared(stmts, st.pc)
    decreases |stmts|
  {
    if stmts != [] {
      PassOneDeclares(Assemble(st, stmts[0]).st, stmts[1..]);
    }
  }

  /** Two-pass assembly is correct for every sequence of calls: after pass two a word is
      used exactly when the direct assembler puts something there, and then holds the same. */
  lemma TwoPassIsDirect(stmts: seq<Stmt>, x: nat)
    requires AssembleAll(BLANK, stmts).Going? && x < RAM_SIZE
    ensures var st := AssembleAll(BLANK, stmts).st; var env := Declared(stmts, 0);
            var c := Resolve(st.labels, st.dram[x]);
            && st.labels == env
            && c.operand == st.dram[x].operand
            && (c.operand.Some? <==> Direct(stmts, 0, env, x, None).Some?)
            && (c.operand.Some? ==> c.data == Direct(stmts, 0, env, x, None).value)
  {
    hide Target, OrIn;
    PassOneDeclares(BLANK, stmts);
    PassOneAgrees(BLANK, stmts, Declared(stmts, 0), x, None);
  }

  /** Pass two leaves words without a label alone, and doing it again changes nothing. */
  lemma ResolveAgain(env: seq<Entry>, c: Cell)
    ensures Resolve(env, Resolve(env, c)) == Resolve(env, c)
    ensures c.operand == None || c.operand == Some("") ==> Resolve(env, c) == c
  {
    hide Target, Or;
    if c.operand.Some? {
      OrAgain(c.data, Target(env, c.operand.value));
    }
  }

  /** The first declaration of a name is the only one that counts; if names are declared
      once, every declaration does. */
  predicate Unique(env: seq<Entry>) {
    forall i, j | 0 <= i < j < |env| :: env[i].name != env[j].name
  }

  lemma {:induction false} LookupDeclared(env: seq<Entry>, i: nat)
    requires Unique(env) && i < |env| && env[i].name != ""
    ensures Lookup(env, env[i].name) == Some(env[i].address)
    decreases |env|
  {
    if i > 0 {
      var rest := env[1..];
      assert rest[i - 1] == env[i];
      assert forall j, k | 0 <= j < k < |rest| :: rest[j] == env[j + 1] && rest[k] == env[k + 1];
      LookupDeclared(rest, i - 1);
    }
  }

  lemma {:induction false} LookupMissing(env: seq<Entry>, name: string)
    requires forall e | e in env :: e.name != name
    ensures Lookup(env, name) == None
    decreases |env|
  {
    if env != [] {
      assert env[0] in env;
      assert forall e | e in env[1..] :: e in env;
      LookupMissing(env[1..], name);
    }
  }

  // ---- The image on the bus ----

  /** The command for the last word of `dram`, if it is used. */
  lemma WritesLast(base: Long, dram: seq<Cell>)
    requires base % 4 == 0 && base + 4 * |dram| <= LONG_LIMIT && dram != []
    ensures var n := |dram| - 1;
            Writes(base, dram) == Writes(base, dram[..n]) +
              if dram[n].operand.Some? then [Write(base + 4 * n, 0xF, dram[n].data, false)] else []
  {
    hide WordOf;
    AlignedSum(base, |dram| - 1);
  }

  lemma AlignedSum(base: Long, n: nat)
    requires base % 4 == 0 && base + 4 * n < LONG_LIMIT
    ensures (base + 4 * n) % LONG_LIMIT == base + 4 * n && WordOf(base + 4 * n) == base + 4 * n
  {
  }

  lemma WhichCell(base: Long, n: nat, x: Long)
    requires base % 4 == 0
    ensures x - x % 4 == base + 4 * n <==> base <= x && (x - base) / 4 == n
    ensures base <= x ==> (x < base + 4 * n <==> (x - base) / 4 < n)
  {
    var (q, b) := (x / 4, base / 4);
    assert x == 4 * q + x % 4 && base == 4 * b;
    assert (x - base) / 4 == q - b;
  }

  /** Executing the write commands fills exactly the used words of the descriptor RAM at
      byte address `base`, and nothing else. */
  lemma {:induction false} WritesLoad(base: Long, dram: seq<Cell>, x: Long, b: Byte)
    requires base % 4 == 0 && base + 4 * |dram| <= LONG_LIMIT
    ensures ByteAfter(Writes(base, dram), x, b)
         == if base <= x < base + 4 * |dram| && dram[(x - base) / 4].operand.Some?
            then ByteOf(dram[(x - base) / 4].data, x % 4) else b
  {
    hide ByteOf, Lane, Writes;
    if dram == [] {
      WritesNone(base);
    } else {
      var n := |dram| - 1;
      WritesLast(base, dram);
      WritesLoad(base, dram[..n], x, b);
      FullWord(x % 4);
      WhichCell(base, n, x);
      var cs := Writes(base, dram[..n]);
      WhichCell(base, n + 1, x);
      if dram[n].operand.Some? {
        var c := Write(base + 4 * n, 0xF, dram[n].data, false);
        assert (cs + [c])[..|cs|] == cs;
      } else {
        assert cs + [] == cs;
      }
    }
  }

  lemma WritesNone(base: Long)
    ensures Writes(base, []) == []
  {
  }

  lemma FullWord(j: nat)
    requires j < 4
    ensures Lane(0xF, j)
  {
  }

  /** The write commands go to ascending addresses, so no word is written twice. */
  lemma {:induction false} WritesAscend(base: Long, dram: seq<Cell>)
    requires base % 4 == 0 && base + 4 * |dram| <= LONG_LIMIT
    ensures var cs := Writes(base, dram);
            && (forall i | 0 <= i < |cs| :: cs[i].Write? && base <= cs[i].address < base + 4 * |dram|)
            && (forall i | 0 <= i < |cs| :: cs[i].be == 0xF && !cs[i].burst)
            && (forall i, j | 0 <= i < j < |cs| :: cs[i].address < cs[j].address)
  {
    hide Writes;
    if dram == [] {
      WritesNone(base);
    } else {
      WritesLast(base, dram);
      WritesAscend(base, dram[..|dram| - 1]);
    }
  }

  /** There is exactly one write command per used word. */
  lemma {:induction false} WritesCount(base: Long, dram: seq<Cell>)
    requires base % 4 == 0 && base + 4 * |dram| <= LONG_LIMIT
    ensures |Writes(base, dram)| == |Used(dram)|
  {
    hide Writes;
    if dram == [] {
      WritesNone(base);
      assert Used(dram) == {};
    } else {
      var n := |dram| - 1;
      WritesLast(base, dram);
      WritesCount(base, dram[..n]);
      assert Used(dram) == Used(dram[..n]) + if dram[n].operand.Some? then {n} else {};
    }
  }

  function Used(dram: seq<Cell>): set<nat> { set a: nat | a < |dram| && dram[a].operand.Some? }
}
