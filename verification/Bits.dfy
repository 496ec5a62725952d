/** Machine words as natural numbers.

The sources work on fixed-width unsigned words. Here a word is a natural number, and the bitwise
operators are defined digit by digit, so that masking, shifting and exclusive-or can be related to
ordinary division and remainder by induction. */
module Bits {

  type byte = x: int | 0 <= x < 0x100
  type u16 = x: int | 0 <= x < 0x1_0000
  type u32 = x: int | 0 <= x < 0x1_0000_0000

  function Pow2(k: nat): (p: nat)
    ensures p >= 1
  {
    if k == 0 then 1 else 2 * Pow2(k - 1)
  }

  /** Bit i of a word, counting from the least significant. */
  predicate Bit(x: nat, i: nat) {
    if i == 0 then x % 2 == 1 else Bit(x / 2, i - 1)
  }

  function Xor(a: nat, b: nat): nat
    decreases a + b
  {
    if a == 0 && b == 0 then 0 else 2 * Xor(a / 2, b / 2) + (a % 2 + b % 2) % 2
  }

  function And(a: nat, b: nat): nat {
    if a == 0 then 0 else 2 * And(a / 2, b / 2) + (if a % 2 == 1 && b % 2 == 1 then 1 else 0)
  }

  lemma {:induction false} XorCommutes(a: nat, b: nat)
    ensures Xor(a, b) == Xor(b, a)
    decreases a + b
  {
    if a == 0 && b == 0 {
    } else {
      XorCommutes(a / 2, b / 2);
    }
  }

  lemma {:induction false} XorZero(a: nat)
    ensures Xor(a, 0) == a
  {
    if a == 0 {
    } else {
      XorZero(a / 2);
    }
  }

  lemma {:induction false} XorSelf(a: nat)
    ensures Xor(a, a) == 0
  {
    if a == 0 {
    } else {
      XorSelf(a / 2);
    }
  }

  lemma {:induction false} XorAssociates(a: nat, b: nat, c: nat)
    ensures Xor(Xor(a, b), c) == Xor(a, Xor(b, c))
    decreases a + b + c
  {
    if a == 0 && b == 0 && c == 0 {
    } else {
      XorAssociates(a / 2, b / 2, c / 2);
      XorAssociatesStep(a, b, c);
    }
  }

  lemma {:induction false} XorAssociatesStep(a: nat, b: nat, c: nat)
    requires Xor(Xor(a / 2, b / 2), c / 2) == Xor(a / 2, Xor(b / 2, c / 2))
    ensures Xor(Xor(a, b), c) == Xor(a, Xor(b, c))
  {
    hide Xor;
    XorTwiceLeft(a, b, c);
    XorTwiceRight(a, b, c);
    ParityAssociates(a % 2, b % 2, c % 2);
  }

  lemma {:induction false} XorTwiceLeft(a: nat, b: nat, c: nat)
    ensures Xor(Xor(a, b), c)
         == 2 * Xor(Xor(a / 2, b / 2), c / 2) + ((a % 2 + b % 2) % 2 + c % 2) % 2
  {
    hide Xor;
    XorHalves(a, b);
    XorHalves(Xor(a, b), c);
  }

  lemma {:induction false} XorTwiceRight(a: nat, b: nat, c: nat)
    ensures Xor(a, Xor(b, c))
         == 2 * Xor(a / 2, Xor(b / 2, c / 2)) + (a % 2 + (b % 2 + c % 2) % 2) % 2
  {
    hide Xor;
    XorHalves(b, c);
    XorHalves(a, Xor(b, c));
  }

  lemma ParityAssociates(a: nat, b: nat, c: nat)
    requires a < 2 && b < 2 && c < 2
    ensures ((a + b) % 2 + c) % 2 == (a + (b + c) % 2) % 2
  {
  }

  lemma {:induction false} XorHalves(a: nat, b: nat)
    ensures Xor(a, b) / 2 == Xor(a / 2, b / 2)
    ensures Xor(a, b) % 2 == (a % 2 + b % 2) % 2
    ensures Xor(a, b) == 2 * Xor(a / 2, b / 2) + (a % 2 + b % 2) % 2
  {
  }

  lemma {:induction false} XorBound(a: nat, b: nat, k: nat)
    requires a < Pow2(k) && b < Pow2(k)
    ensures Xor(a, b) < Pow2(k)
  {
    if k == 0 {
    } else {
      XorBound(a / 2, b / 2, k - 1);
      XorHalves(a, b);
    }
  }

  /** Exclusive-or cancels: knowing one operand, the result determines the other. */
  lemma {:induction false} XorCancels(a: nat, b: nat)
    ensures Xor(a, Xor(a, b)) == b
  {
    XorAssociates(a, a, b);
    XorSelf(a);
    XorCommutes(0, b);
    XorZero(b);
  }

  /** Moving operands across an equation between exclusive-ors. */
  lemma {:induction false} XorMove(a: nat, b: nat, c: nat, d: nat)
    requires Xor(a, b) == Xor(c, d)
    ensures Xor(a, c) == Xor(b, d)
  {
    calc {
      Xor(a, c);
      { XorCommutes(b, Xor(a, b)); XorCommutes(a, b); XorCancels(b, a); }
      Xor(Xor(b, Xor(a, b)), c);
      { XorCommutes(b, Xor(c, d)); }
      Xor(Xor(b, Xor(c, d)), c);
      { XorAssociates(b, Xor(c, d), c); XorCommutes(Xor(c, d), c); XorCancels(c, d); }
      Xor(b, d);
    }
  }

  /** The exclusive-or of a sequence of words, accumulated from the left. */
  function XorAll(ws: seq<nat>): nat {
    if ws == [] then 0 else Xor(XorAll(ws[..|ws| - 1]), ws[|ws| - 1])
  }

  lemma {:induction false} XorAllAppend(ws: seq<nat>, w: nat)
    ensures XorAll(ws + [w]) == Xor(XorAll(ws), w)
  {
    assert (ws + [w])[..|ws|] == ws;
  }

  /** Changing one word changes the exclusive-or of all by the exclusive-or of the two. */
  lemma {:induction false} XorAllUpdate(ws: seq<nat>, i: nat, w: nat)
    requires i < |ws|
    ensures Xor(XorAll(ws), XorAll(ws[i := w])) == Xor(ws[i], w)
  {
    var last := |ws| - 1;
    hide Xor;
    if i == last {
      assert ws[i := w][..last] == ws[..last];
      XorShared(XorAll(ws[..last]), ws[last], w);
    } else {
      assert ws[i := w][..last] == ws[..last][i := w];
      XorAllUpdate(ws[..last], i, w);
      XorCommutes(XorAll(ws[..last]), ws[last]);
      XorCommutes(XorAll(ws[..last][i := w]), ws[last]);
      XorShared(ws[last], XorAll(ws[..last]), XorAll(ws[..last][i := w]));
    }
  }

  /** A common part cancels. */
  lemma XorShared(a: nat, x: nat, y: nat)
    ensures Xor(Xor(a, x), Xor(a, y)) == Xor(x, y)
  {
    hide Xor;
    XorCommutes(a, x);
    XorAssociates(x, a, Xor(a, y));
    XorCancels(a, y);
  }

  /** Remainder by a power of two splits into the low bit and the rest. */
  lemma {:induction false} ModHalves(x: nat, k: nat)
    requires k > 0
    ensures x % Pow2(k) == 2 * ((x / 2) % Pow2(k - 1)) + x % 2
  {
    var p := Pow2(k - 1);
    var q, r := (x / 2) / p, (x / 2) % p;
    assert x == (2 * p) * q + (2 * r + x % 2);
    RemainderUnique(x, 2 * p, q, 2 * r + x % 2);
  }

  lemma SmallRemainder(x: nat, m: nat)
    requires x < m
    ensures x % m == x
  {
  }

  lemma RemainderUnique(x: nat, m: nat, q: nat, r: nat)
    requires 0 <= r < m && x == m * q + r
    ensures x % m == r && x / m == q
  {
    SameQuotient(m, q, r, x / m, x % m);
  }

  lemma SameQuotient(m: nat, q: int, r: int, q': int, r': int)
    requires 0 <= r < m && 0 <= r' < m && m * q + r == m * q' + r'
    ensures q == q' && r == r'
  {
    if q < q' {
      MulGap(m, q, q');
    } else if q' < q {
      MulGap(m, q', q);
    }
  }

  lemma MulGap(m: nat, q: int, q': int)
    requires q < q'
    ensures m * q + m <= m * q'
  {
    var d := q' - q - 1;
    assert m * d >= 0;
    assert m * q' == m * (q + 1 + d);
  }

  lemma {:induction false} AndHalves(a: nat, b: nat)
    ensures And(a, b) == 2 * And(a / 2, b / 2) + (if a % 2 == 1 && b % 2 == 1 then 1 else 0)
  {
  }

  /** Masking with a power of two less one is taking the remainder. */
  lemma {:induction false} AndMask(x: nat, k: nat)
    ensures And(x, Pow2(k) - 1) == x % Pow2(k)
  {
    if k == 0 {
      AndZero(x);
    } else {
      var m := Pow2(k) - 1;
      assert m / 2 == Pow2(k - 1) - 1 && m % 2 == 1;
      assert And(x, m) == 2 * And(x / 2, m / 2) + x % 2 by { AndHalves(x, m); }
      assert And(x / 2, m / 2) == (x / 2) % Pow2(k - 1) by { AndMask(x / 2, k - 1); }
      ModHalves(x, k);
    }
  }

  lemma {:induction false} AndZero(x: nat)
    ensures And(x, 0) == 0
  {
    if x == 0 {
    } else {
      AndZero(x / 2);
    }
  }

  lemma {:induction false} XorModHalves(a: nat, b: nat, k: nat)
    requires k > 0
    ensures Xor(a, b) % Pow2(k) == 2 * (Xor(a / 2, b / 2) % Pow2(k - 1)) + (a % 2 + b % 2) % 2
  {
    ModHalves(Xor(a, b), k);
    XorHalves(a, b);
  }

  lemma {:induction false} ModXorHalves(a: nat, b: nat, k: nat)
    requires k > 0
    ensures Xor(a % Pow2(k), b % Pow2(k))
         == 2 * Xor((a / 2) % Pow2(k - 1), (b / 2) % Pow2(k - 1)) + (a % 2 + b % 2) % 2
  {
    var a', b' := a % Pow2(k), b % Pow2(k);
    assert a' / 2 == (a / 2) % Pow2(k - 1) && a' % 2 == a % 2 by { ModHalves(a, k); }
    assert b' / 2 == (b / 2) % Pow2(k - 1) && b' % 2 == b % 2 by { ModHalves(b, k); }
    XorHalves(a', b');
  }

  /** Masking distributes over exclusive-or. */
  lemma {:induction false} XorMod(a: nat, b: nat, k: nat)
    ensures Xor(a, b) % Pow2(k) == Xor(a % Pow2(k), b % Pow2(k))
  {
    if k == 0 {
    } else {
      XorMod(a / 2, b / 2, k - 1);
      XorModHalves(a, b, k);
      ModXorHalves(a, b, k);
    }
  }
}
