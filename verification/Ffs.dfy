/**
 Bits of a word, and `__rt_ffs`: the first bit set, found through a table of the lowest bits of bytes. Words
 are numbers and a bit of a word is found by halving, so the table is checked row by row: the entries of a row
 of sixteen are those of the first row except where a row begins. The word is then cut into four bytes as the
 code does.
 */
module Ffs {
  import opened Common

  type Word = x: int | 0 <= x < 0x1_0000_0000

  lemma Pow2Values()
    ensures Pow2(8) == 0x100 && Pow2(16) == 0x1_0000 && Pow2(24) == 0x100_0000 && Pow2(32) == 0x1_0000_0000
  {
    assert Pow2(8) == 0x100;
    assert Pow2(16) == 0x1_0000;
    assert Pow2(24) == 0x100_0000;
  }

  predicate HasBit(v: nat, i: nat) {
    if i == 0 then v % 2 == 1 else HasBit(v / 2, i - 1)
  }

  /** `v |= 1 << i` */
  function SetBit(v: nat, i: nat): nat {
    if i == 0 then v - v % 2 + 1 else 2 * SetBit(v / 2, i - 1) + v % 2
  }

  /** `v &= ~(1 << i)` */
  function ClearBit(v: nat, i: nat): nat {
    if i == 0 then v - v % 2 else 2 * ClearBit(v / 2, i - 1) + v % 2
  }

  lemma {:induction false} SetBitAt(v: nat, i: nat, k: nat)
    ensures HasBit(SetBit(v, i), k) <==> k == i || HasBit(v, k)
  {
    if i > 0 && k > 0 { SetBitAt(v / 2, i - 1, k - 1); }
  }

  lemma {:induction false} ClearBitAt(v: nat, i: nat, k: nat)
    ensures HasBit(ClearBit(v, i), k) <==> k != i && HasBit(v, k)
  {
    if i > 0 && k > 0 { ClearBitAt(v / 2, i - 1, k - 1); }
  }

  lemma {:induction false} BitsStayBelow(v: nat, i: nat, n: nat)
    requires v < Pow2(n) && i < n
    ensures SetBit(v, i) < Pow2(n) && ClearBit(v, i) < Pow2(n)
  {
    if i > 0 { BitsStayBelow(v / 2, i - 1, n - 1); }
  }

  lemma {:induction false} ZeroBit(i: nat)
    ensures !HasBit(0, i)
  {
    if i > 0 { ZeroBit(i - 1); }
  }

  /** Bit `i` is set and no lower bit is. */
  predicate LowestBit(v: nat, i: nat) {
    if i == 0 then v % 2 == 1 else v % 2 == 0 && LowestBit(v / 2, i - 1)
  }

  lemma {:induction false} LowestIsLowest(v: nat, i: nat)
    requires LowestBit(v, i)
    ensures HasBit(v, i) && forall k: nat :: k < i ==> !HasBit(v, k)
  {
    if i > 0 {
      LowestIsLowest(v / 2, i - 1);
      forall k: nat | k < i ensures !HasBit(v, k) {
        if k > 0 { assert HasBit(v, k) == HasBit(v / 2, k - 1); }
      }
    }
  }

  /** Higher bits do not matter to a lowest bit below them. */
  lemma {:induction false} LowPart(w: nat, h: nat, n: nat, i: nat)
    requires i < n && LowestBit(w, i)
    ensures LowestBit(w + h * Pow2(n), i)
  {
    hide Pow2;
    Doubled(h, n);
    HalfSum(w, h * Pow2(n - 1));
    if i > 0 { LowPart(w / 2, h, n - 1, i - 1); }
  }

  lemma HalfSum(w: nat, x: nat)
    ensures (w + 2 * x) % 2 == w % 2 && (w + 2 * x) / 2 == w / 2 + x
  {
  }

  lemma Doubled(h: nat, n: nat)
    requires n > 0
    ensures h * Pow2(n) == 2 * (h * Pow2(n - 1))
  {
  }

  /** A lowest bit moves up with a shift. */
  lemma {:induction false} Shifted(w: nat, n: nat, i: nat)
    requires LowestBit(w, i)
    ensures LowestBit(w * Pow2(n), i + n)
  {
    hide Pow2;
    PowZero();
    if n > 0 {
      Doubled(w, n);
      HalfSum(0, w * Pow2(n - 1));
      Shifted(w, n - 1, i);
    }
  }

  /** `__lowest_bit_bitmap`: every row repeats the first one but for its head. */
  const Row: seq<nat> := [0, 0, 1, 0, 2, 0, 1, 0, 3, 0, 1, 0, 2, 0, 1, 0]
  const Heads: seq<nat> := [0, 4, 5, 4, 6, 4, 5, 4, 7, 4, 5, 4, 6, 4, 5, 4]

  function LowestBitmap(w: nat): nat
    requires w < 256
  {
    if w % 16 == 0 then Heads[w / 16] else Row[w % 16]
  }

  lemma RowRight(c: nat)
    requires 0 < c < 16
    ensures LowestBit(c, Row[c]) && Row[c] < 4 && Heads[c] == Row[c] + 4
  {
  }

  lemma TableRight(w: nat)
    requires 0 < w < 256
    ensures LowestBit(w, LowestBitmap(w)) && LowestBitmap(w) < 8
  {
    var h, c := w / 16, w % 16;
    assert Pow2(4) == 16;
    if c == 0 {
      RowRight(h);
      Shifted(h, 4, Row[h]);
    } else {
      RowRight(c);
      LowPart(c, h, 4, Row[c]);
    }
  }

  /** `__rt_ffs` */
  function FindFirstSet(value: Word): nat {
    if value == 0 then 0
    else if value % 0x100 != 0 then LowestBitmap(value % 0x100) + 1
    else if value / 0x100 % 0x100 != 0 then LowestBitmap(value / 0x100 % 0x100) + 9
    else if value / 0x1_0000 % 0x100 != 0 then LowestBitmap(value / 0x1_0000 % 0x100) + 17
    else LowestBitmap(value / 0x100_0000) + 25
  }

  /** It returns zero for zero, and otherwise one more than the number of the lowest bit set. */
  lemma FirstSetIsLowest(value: Word)
    ensures value == 0 <==> FindFirstSet(value) == 0
    ensures value != 0 ==> 1 <= FindFirstSet(value) <= 32 && LowestBit(value, FindFirstSet(value) - 1)
  {
    hide LowestBit, LowestBitmap, Pow2;
    Pow2Values();
    PowZero();
    LowBytes(value);
    if value != 0 {
      if value % 0x100 != 0 {
        OneByte(value, 0, value % 0x100);
      } else if value / 0x100 % 0x100 != 0 {
        OneByte(value, 8, value / 0x100 % 0x100);
      } else if value / 0x1_0000 % 0x100 != 0 {
        OneByte(value, 16, value / 0x1_0000 % 0x100);
      } else {
        OneByte(value, 24, value / 0x100_0000);
      }
    }
  }

  lemma LowBytes(value: Word)
    ensures value % 0x100 == 0 && value / 0x100 % 0x100 == 0 ==> value % 0x1_0000 == 0
    ensures value % 0x1_0000 == 0 && value / 0x1_0000 % 0x100 == 0 ==> value % 0x100_0000 == 0
    ensures value != 0 && value % 0x100_0000 == 0 ==> 0 < value / 0x100_0000 < 0x100
    ensures value / 0x100_0000 % 0x100 == value / 0x100_0000
  {
  }

  lemma PowZero()
    ensures Pow2(0) == 1
  {
  }

  /** The lowest bit of a word whose bytes below position `n` are zero is that of the byte at `n`. */
  lemma OneByte(value: nat, n: nat, w: nat)
    requires 0 < w < 256 && Pow2(n) > 0 && value % Pow2(n) == 0 && value / Pow2(n) % 256 == w
    ensures LowestBit(value, n + LowestBitmap(w)) && LowestBitmap(w) < 8
  {
    hide LowestBit, LowestBitmap;
    var q := value / Pow2(n);
    TableRight(w);
    assert Pow2(8) == 256;
    LowPart(w, q / 256, 8, LowestBitmap(w));
    assert q == w + q / 256 * Pow2(8);
    Shifted(q, n, LowestBitmap(w));
    assert value == q * Pow2(n);
  }
}
