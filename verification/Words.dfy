/** Machine words as mathematical integers, with C's `|` on non-negative values
    written out bit by bit. `x & (2^k - 1)` is `x % 2^k`, `x << k` is a multiplication
    by `2^k`; both are written that way where they occur. */
module Words {

  datatype Option<+T> = None | Some(value: T)

  const WORD_LIMIT := 0x1_0000_0000
  const INT_LIMIT := 0x8000_0000
  const LONG_LIMIT := 0x1_0000_0000_0000_0000

  type Byte = b: int | 0 <= b < 0x100
  type Word = w: int | 0 <= w < 0x1_0000_0000
  type Long = x: int | 0 <= x < 0x1_0000_0000_0000_0000

  function Low(x: Long): Word { x % WORD_LIMIT }

  function High(x: Long): Word { x / WORD_LIMIT }

  function Join(lo: Word, hi: Word): (x: Long)
    ensures Low(x) == lo && High(x) == hi
  {
    lo + hi * WORD_LIMIT
  }

  function Pow2(k: nat): (p: nat)
    ensures p > 0
  {
    if k == 0 then 1 else 2 * Pow2(k - 1)
  }

  lemma Powers()
    ensures Pow2(12) == 0x1000 && Pow2(16) == 0x10000 && Pow2(24) == 0x1000000
    ensures Pow2(27) == 0x8000000 && Pow2(28) == 0x10000000 && Pow2(32) == 0x1_0000_0000
  {
    assert Pow2(8) == 0x100;
    assert Pow2(16) == 0x10000 by { assert Pow2(12) == 0x1000; }
    assert Pow2(24) == 0x1000000 by { assert Pow2(20) == 0x100000; }
    assert Pow2(28) == 0x10000000;
  }

  /** C's bitwise or. */
  function Or(a: nat, b: nat): nat {
    if a == 0 then b
    else 2 * Or(a / 2, b / 2) + (if a % 2 == 1 || b % 2 == 1 then 1 else 0)
  }

  lemma {:induction false} OrFits(a: nat, b: nat, k: nat)
    requires a < Pow2(k) && b < Pow2(k)
    ensures Or(a, b) < Pow2(k)
  {
    if k > 0 {
      OrFits(a / 2, b / 2, k - 1);
    }
  }

  /** Fields that do not overlap: or-ing them adds them. */
  lemma {:induction false} OrAdds(a: nat, b: nat, k: nat)
    requires b < Pow2(k)
    ensures Or(a * Pow2(k), b) == a * Pow2(k) + b
  {
    if k == 0 {
      OrZero(a);
    } else {
      var x := a * Pow2(k - 1);
      assert a * Pow2(k) == 2 * x;
      OrAdds(a, b / 2, k - 1);
    }
  }

  lemma {:induction false} OrSelf(a: nat)
    ensures Or(a, a) == a
  {
    if a > 0 {
      OrSelf(a / 2);
    }
  }

  /** Or-ing the same value in a second time changes nothing. */
  lemma {:induction false} OrAgain(a: nat, b: nat)
    ensures Or(Or(a, b), b) == Or(a, b)
  {
    if a == 0 {
      OrSelf(b);
    } else {
      OrAgain(a / 2, b / 2);
    }
  }

  lemma {:induction false} OrZero(a: nat)
    ensures Or(a, 0) == a
  {
    if a > 0 {
      OrZero(a / 2);
    }
  }

  function HexDigit(c: char): Option<nat> {
    if '0' <= c <= '9' then Some(c as nat - '0' as nat)
    else if 'a' <= c <= 'f' then Some(c as nat - 'a' as nat + 10)
    else if 'A' <= c <= 'F' then Some(c as nat - 'A' as nat + 10)
    else None
  }

  /** The hex digits, in both cases, and no other characters. */
  lemma HexDigits(d: nat, c: char)
    requires d < 16
    ensures HexDigit("0123456789abcdef"[d]) == Some(d) && HexDigit("0123456789ABCDEF"[d]) == Some(d)
    ensures HexDigit(c).Some? ==>
              var v := HexDigit(c).value; v < 16 && (c == "0123456789abcdef"[v] || c == "0123456789ABCDEF"[v])
  {
  }
}
