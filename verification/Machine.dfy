/** 64-bit unsigned machine words, with the shifts of C's `uint64_t` written out on naturals. */
module Machine {

  type Word = x: nat | x < 0x1_0000_0000_0000_0000

  /** `x >> k`, one bit at a time. */
  function Shr(x: Word, k: nat): (r: Word)
    ensures r <= x
    decreases k
  {
    if k == 0 then x else Shr(x / 2, k - 1)
  }

  /** `x << k`, one bit at a time: a bit pushed past bit 63 is lost. */
  function Shl(x: Word, k: nat): Word
    decreases k
  {
    if k == 0 then x else Shl(Double(x), k - 1)
  }

  function Double(x: Word): Word {
    if x < 0x8000_0000_0000_0000 then 2 * x else 2 * x - 0x1_0000_0000_0000_0000
  }

  lemma ShrThree(x: Word, k: nat)
    ensures Shr(x, k + 3) == Shr(x / 8, k)
  {
    assert Shr(x, k + 3) == Shr(x / 2, k + 2) == Shr(x / 2 / 2, k + 1) == Shr(x / 2 / 2 / 2, k);
  }

  lemma ShrNine(x: Word, k: nat)
    ensures Shr(x, k + 9) == Shr(x / 512, k)
  {
    ShrThree(x, k + 6);
    ShrThree(x / 8, k + 3);
    ShrThree(x / 8 / 8, k);
  }

  /** Shifting by nine more is dividing the shifted word by 512. */
  lemma ShrNineMore(x: Word, k: nat)
    ensures Shr(x, k + 9) == Shr(x, k) / 512
    decreases k
  {
    if k == 0 {
      ShrNine(x, 0);
    } else {
      ShrNineMore(x / 2, k - 1);
    }
  }

  lemma ShrTwelve(x: Word)
    ensures Shr(x, 12) == x / 4096
  {
    ShrNine(x, 3);
    ShrThree(x / 512, 0);
  }

  /** Three doublings multiply by 8 and drop some multiple of 2^64. */
  lemma ShlThree(x: Word, k: nat) returns (y: Word, dropped: nat)
    ensures Shl(x, k + 3) == Shl(y, k)
    ensures y + dropped * 0x1_0000_0000_0000_0000 == 8 * x
  {
    var x1, x2 := Double(x), Double(Double(x));
    y := Double(x2);
    assert Shl(x, k + 3) == Shl(x1, k + 2) == Shl(x2, k + 1) == Shl(y, k);
    dropped := (if x < 0x8000_0000_0000_0000 then 0 else 4) + (if x1 < 0x8000_0000_0000_0000 then 0 else 2)
             + (if x2 < 0x8000_0000_0000_0000 then 0 else 1);
  }

  /** `x << 12` keeps the low 52 bits of x. */
  lemma ShlTwelve(x: Word)
    ensures Shl(x, 12) == 4096 * (x % 0x10_0000_0000_0000)
  {
    var y1, d1 := ShlThree(x, 9);
    var y2, d2 := ShlThree(y1, 6);
    var y3, d3 := ShlThree(y2, 3);
    var y4, d4 := ShlThree(y3, 0);
    var dropped := 512 * d1 + 64 * d2 + 8 * d3 + d4;
    SplitAt52(x);
    TopBitsDrop(x, y4, dropped, x / 0x10_0000_0000_0000, x % 0x10_0000_0000_0000);
  }

  lemma SplitAt52(x: nat)
    ensures x == 0x10_0000_0000_0000 * (x / 0x10_0000_0000_0000) + x % 0x10_0000_0000_0000
  {
  }

  lemma TopBitsDrop(x: nat, y: nat, dropped: nat, high: nat, low: nat)
    requires x == 0x10_0000_0000_0000 * high + low && low < 0x10_0000_0000_0000
    requires y + dropped * 0x1_0000_0000_0000_0000 == 4096 * x && y < 0x1_0000_0000_0000_0000
    ensures y == 4096 * low
  {
    assert y - 4096 * low == (high - dropped) * 0x1_0000_0000_0000_0000;
  }
}
