/** The integer square root by shift and subtract (mervbot/algorithms.cpp, SQRT). */
module SquareRoot {
  import opened Bytes

  /** Arithmetic on this type is checked never to leave 32 bits. */
  newtype Uint32 = x: int | 0 <= x < U32

  ghost predicate IsRoot(g: int, v: int) {
    0 <= g && g * g <= v < (g + 1) * (g + 1)
  }

  lemma RootIsUnique(g: int, h: int, v: int)
    requires IsRoot(g, v) && IsRoot(h, v)
    ensures g == h
  {
    if g < h {
      Squares(g + 1, h);
    } else if h < g {
      Squares(h + 1, g);
    }
  }

  lemma Squares(x: int, y: int)
    requires 0 <= x <= y
    ensures x * x <= y * y
  {
    assert x * x <= x * y <= y * y;
  }

  /** The invariant of the loop: with step b = 2^k still to try, the root lies in g to g + 2 * b - 1. */
  ghost predicate Bracketed(g: int, b: int, k: nat, left: int, v: int) {
    && 0 <= g && b == Pow2(k) && k < 16 && g + 2 * b <= 0x1_0000
    && left == v - g * g && 0 <= left && v < (g + 2 * b) * (g + 2 * b)
  }

  /** The square of the next candidate, less the square of g. */
  lemma Growth(g: int, b: int)
    ensures (g + b) * (g + b) == g * g + (2 * g + b) * b
  {
  }

  lemma TempFits(g: int, b: int, k: nat, left: int, v: int)
    requires Bracketed(g, b, k, left, v)
    ensures 0 <= (2 * g + b) * b < U32
  {
    Growth(g, b);
    Squares(g + b, 0xFFFF);
    Squares(0, g);
  }

  lemma Narrowed(g: int, b: int, k: nat, left: int, v: int)
    requires Bracketed(g, b, k, left, v) && k > 0
    ensures left >= (2 * g + b) * b ==> Bracketed(g + b, b / 2, k - 1, left - (2 * g + b) * b, v)
    ensures left < (2 * g + b) * b ==> Bracketed(g, b / 2, k - 1, left, v)
  {
    Growth(g, b);
  }

  lemma Found(g: int, b: int, left: int, v: int)
    requires Bracketed(g, b, 0, left, v)
    ensures IsRoot(if left >= (2 * g + b) * b then g + b else g, v)
  {
    Growth(g, b);
  }

  method Sqrt(v: Uint32) returns (g: Uint32)
    ensures IsRoot(g as int, v as int)
  {
    var val, b, bshft: Uint32 := v, 0x8000, 15;
    g := 0;
    ghost var k: nat := 15;
    Start();
    while true
      invariant Bracketed(g as int, b as int, k, val as int, v as int) && bshft as int == k
      decreases k
    {
      TempFits(g as int, b as int, k, val as int, v as int);
      var temp := (2 * g + b) * (Pow2(bshft as int) as Uint32);
      // the last decrement wraps around
      bshft := if bshft == 0 then 0xFFFF_FFFF else bshft - 1;
      if k > 0 {
        Narrowed(g as int, b as int, k, val as int, v as int);
      } else {
        Found(g as int, b as int, val as int, v as int);
      }
      if val >= temp {
        g := g + b;
        val := val - temp;
      }
      b := b / 2;
      if b == 0 { return; }
      k := k - 1;
    }
  }

  lemma Start()
    ensures Pow2(15) == 0x8000
  {
    assert Pow2(8) == 0x100;
  }
}
