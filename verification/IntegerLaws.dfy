/** How the integer operations hang together: orders, quotients and remainders, inverses, and single bits. */
module IntegerLaws {
  import opened Integers

  /** Half the numbers of a width. */
  function Half(w: Precision): int {
    if w == W32 then 0x8000_0000 else 0x8000_0000_0000_0000
  }

  /** v and its distance from the least signed number. */
  function Biased(w: Precision, v: int): int {
    Signed(w, v + Half(w))
  }

  ghost predicate Holds(r: Result) {
    r == Bool(true)
  }

  /** A number as an unsigned one. */
  lemma Unsigned(w: Precision, v: int)
    requires IsSigned(w, v)
    ensures Wrap(w, v) == (if v < 0 then v + 2 * Half(w) else v) && Size(w) == 2 * Half(w)
    ensures Signed(w, v) == v
  {
  }

  lemma Steps(w: Precision, v: int)
    requires IsSigned(w, v)
    ensures Wrap(w, Biased(w, v)) == v + Half(w)
    ensures v != -1 ==> Wrap(w, Signed(w, v + 1)) == Wrap(w, v) + 1
    ensures Wrap(w, 0) == 0
  {
    hide Signed, Wrap;
    Unsigned(w, 0);
    SignedFits(w, v + Half(w));
    Small(w, v + Half(w));
    SignedFits(w, v + 1);
    Unsigned(w, v);
    if v == Half(w) - 1 {
      Small(w, v + 1);
    } else {
      Unsigned(w, v + 1);
    }
  }

  lemma Small(w: Precision, u: int)
    requires 0 <= u < 2 * Half(w)
    ensures Wrap(w, u) == u
  {
  }

  /** Nothing is below zero, and what is below the next number is the number or below it: the unsigned order counts up
      from zero. The signed order is the unsigned one from the least signed number on. */
  lemma Orders(w: Precision, a: int, b: int)
    requires IsSigned(w, a) && IsSigned(w, b)
    ensures !Holds(Apply(w, LtU, a, 0))
    ensures b != -1 ==> (Holds(Apply(w, LtU, a, Signed(w, b + 1))) <==> a == b || Holds(Apply(w, LtU, a, b)))
    ensures Apply(w, LtS, a, b) == Apply(w, LtU, Biased(w, a), Biased(w, b))
  {
    hide Wrap, Signed, Bitwise, Pow2, Quo, Biased;
    Unsigned(w, a);
    Unsigned(w, b);
    Steps(w, a);
    Steps(w, b);
  }

  /** The other comparisons come from the two orders, by exchanging operands and by negation. */
  lemma Comparisons(w: Precision, a: int, b: int)
    requires IsSigned(w, a) && IsSigned(w, b)
    ensures Apply(w, GtS, a, b) == Apply(w, LtS, b, a) && Apply(w, GtU, a, b) == Apply(w, LtU, b, a)
    ensures Holds(Apply(w, LeS, a, b)) <==> !Holds(Apply(w, GtS, a, b))
    ensures Holds(Apply(w, LeU, a, b)) <==> !Holds(Apply(w, GtU, a, b))
    ensures Holds(Apply(w, GeS, a, b)) <==> !Holds(Apply(w, LtS, a, b))
    ensures Holds(Apply(w, GeU, a, b)) <==> !Holds(Apply(w, LtU, a, b))
    ensures Holds(Apply(w, Eq, a, b)) <==> !Holds(Apply(w, LtU, a, b)) && !Holds(Apply(w, LtU, b, a))
    ensures Holds(Apply(w, Ne, a, b)) <==> !Holds(Apply(w, Eq, a, b))
  {
    hide Wrap, Signed, Bitwise, Pow2, Quo;
    Unsigned(w, a);
    Unsigned(w, b);
  }

  /** Signed division truncates: quotient times divisor and remainder make up the dividend, and the remainder is smaller
      than the divisor and on the dividend's side of zero. The one quotient that is no number of the width wraps. */
  lemma SignedDivision(w: Precision, a: int, b: int)
    requires IsSigned(w, a) && IsSigned(w, b)
    ensures Apply(w, DivS, a, b) == Trap <==> b == 0
    ensures Apply(w, RemS, a, b) == Trap <==> b == 0
    ensures b != 0 ==>
              var (q, r) := (Apply(w, DivS, a, b).v, Apply(w, RemS, a, b).v);
              && (a == -Half(w) && b == -1 ==> q == a && r == 0)
              && (!(a == -Half(w) && b == -1) ==> a == b * q + r)
              && Abs(r) < Abs(b) && (r == 0 || (r < 0 <==> a < 0))
  {
    hide Signed, Quo;
    if b != 0 {
      var q := Quo(a, b);
      Truncates(a, b);
      QuoFits(w, a, b);
      SignedFits(w, a - b * q);
      SignedFits(w, q);
      if a == -Half(w) && b == -1 {
        Wraps(w);
      }
    }
  }

  lemma Wraps(w: Precision)
    ensures Quo(-Half(w), -1) == Half(w) && Signed(w, Half(w)) == -Half(w)
  {
  }

  lemma Truncates(a: int, b: int)
    requires b != 0
    ensures Abs(a - b * Quo(a, b)) < Abs(b) && (a - b * Quo(a, b) == 0 || (a - b * Quo(a, b) < 0 <==> a < 0))
  {
    var q, r := Abs(a) / Abs(b), Abs(a) % Abs(b);
    assert Abs(a) == Abs(b) * q + r;
    if (a < 0) == (b < 0) {
      assert b * q == if b < 0 then -(Abs(b) * q) else Abs(b) * q by { Signs(b, q); }
    } else {
      assert b * -q == if b < 0 then Abs(b) * q else -(Abs(b) * q) by { Signs(b, q); }
    }
  }

  lemma Signs(b: int, q: int)
    ensures b < 0 ==> b * q == -(Abs(b) * q) && b * -q == Abs(b) * q
    ensures b >= 0 ==> b * q == Abs(b) * q && b * -q == -(Abs(b) * q)
  {
    assert b * -q == -(b * q);
    assert (-b) * q == -(b * q);
  }

  lemma QuoFits(w: Precision, a: int, b: int)
    requires IsSigned(w, a) && IsSigned(w, b) && b != 0
    ensures IsSigned(w, Quo(a, b)) || (a == -Half(w) && b == -1)
    ensures IsSigned(w, a - b * Quo(a, b))
  {
    hide Quo;
    Truncates(a, b);
    QuoSize(a, b);
  }

  lemma QuoSize(a: int, b: int)
    requires b != 0
    ensures Abs(Quo(a, b)) <= Abs(a) && (a != 0 && Abs(b) >= 2 ==> Abs(Quo(a, b)) < Abs(a))
    ensures b == 1 ==> Quo(a, b) == a
    ensures b == -1 ==> Quo(a, b) == -a
  {
    hide Quo;
    QuoAbs(a, b);
    QuoByOne(a);
    Shrinks(Abs(a), Abs(b));
  }

  lemma QuoAbs(a: int, b: int)
    requires b != 0
    ensures Abs(Quo(a, b)) == Abs(a) / Abs(b)
  {
    var q := Abs(a) / Abs(b);
    Shrinks(Abs(a), Abs(b));
    assert Quo(a, b) == q || Quo(a, b) == -q;
  }

  lemma QuoByOne(a: int)
    ensures Quo(a, 1) == a && Quo(a, -1) == -a
  {
  }

  lemma Shrinks(a: nat, b: nat)
    requires b > 0
    ensures a / b <= a && (b >= 2 && a > 0 ==> a / b < a)
  {
    var q := a / b;
    assert a == b * q + a % b;
    if q > 0 {
      assert b * q >= q by { if b >= 2 { Grows(b, q); } }
      if b >= 2 {
        Grows(b, q);
      }
    }
  }

  lemma Grows(b: nat, q: nat)
    requires b >= 2 && q > 0
    ensures b * q > q
  {
    assert b * q == (b - 1) * q + q;
    AtLeast(q, b - 1);
    assert (b - 1) * q == q * (b - 1);
  }

  /** Unsigned division, of the numbers as unsigned ones. */
  lemma UnsignedDivision(w: Precision, a: int, b: int)
    requires IsSigned(w, a) && IsSigned(w, b)
    ensures Apply(w, DivU, a, b) == Trap <==> b == 0
    ensures Apply(w, RemU, a, b) == Trap <==> b == 0
    ensures b != 0 ==>
              var (q, r) := (Wrap(w, Apply(w, DivU, a, b).v), Wrap(w, Apply(w, RemU, a, b).v));
              Wrap(w, a) == Wrap(w, b) * q + r && 0 <= r < Wrap(w, b)
  {
    hide Signed, Wrap, Bitwise, Pow2, Quo;
    Unsigned(w, a);
    Unsigned(w, b);
    if b != 0 {
      var ua, ub := Wrap(w, a), Wrap(w, b);
      Divides(w, ua, ub);
    }
  }

  lemma Divides(w: Precision, u: nat, d: nat)
    requires u < Size(w) && d > 0
    ensures var (q, r) := (Wrap(w, Signed(w, u / d)), Wrap(w, Signed(w, u % d)));
            u == d * q + r && 0 <= r < d
  {
    hide Signed, Wrap;
    Shrinks(u, d);
    Unwrapped(w, u / d);
    Unwrapped(w, u % d);
  }

  lemma Unwrapped(w: Precision, u: int)
    requires 0 <= u < Size(w)
    ensures Wrap(w, Signed(w, u)) == u
  {
  }

  /** Adding one more, and one more times: sums count up, products add up, and subtracting undoes adding. */
  lemma SumsAndProducts(w: Precision, a: int, b: int)
    requires IsSigned(w, a) && IsSigned(w, b)
    ensures Apply(w, Add, a, 0) == Num(a) && Apply(w, Add, a, 1) == Num(if a == Half(w) - 1 then -Half(w) else a + 1)
    ensures Apply(w, Add, a, Apply(w, Add, b, 1).v) == Apply(w, Add, Apply(w, Add, a, b).v, 1)
    ensures Apply(w, Sub, Apply(w, Add, a, b).v, b) == Num(a)
    ensures Apply(w, Mul, a, 0) == Num(0)
    ensures Apply(w, Mul, a, Apply(w, Add, b, 1).v) == Apply(w, Add, Apply(w, Mul, a, b).v, a)
  {
    hide Signed;
    SumsUp(w, a, b);
    Multiplies(w, a, b);
  }

  lemma SumsUp(w: Precision, a: int, b: int)
    requires IsSigned(w, a) && IsSigned(w, b)
    ensures Signed(w, a + 0) == a && Signed(w, a + 1) == if a == Half(w) - 1 then -Half(w) else a + 1
    ensures Signed(w, a + Signed(w, b + 1)) == Signed(w, Signed(w, a + b) + 1)
    ensures Signed(w, Signed(w, a + b) - b) == a && Signed(w, a * 0) == 0
  {
    hide Signed, Wrap;
    SignedFits(w, a);
    SignedFits(w, 0);
    NextIs(w, a);
    Plus(w, b + 1, a);
    Plus(w, a + b, 1);
    Plus(w, a + b, -b);
  }

  lemma NextIs(w: Precision, a: int)
    requires IsSigned(w, a)
    ensures Signed(w, a + 1) == if a == Half(w) - 1 then -Half(w) else a + 1
  {
  }

  lemma Multiplies(w: Precision, a: int, b: int)
    requires IsSigned(w, a) && IsSigned(w, b)
    ensures Signed(w, a * Signed(w, b + 1)) == Signed(w, Signed(w, a * b) + a)
  {
    hide Signed, Wrap;
    Times(w, a, b + 1);
    Plus(w, a * b, a);
    assert a * (b + 1) == a * b + a;
  }

  /** A factor may wrap first. */
  lemma Times(w: Precision, a: int, b: int)
    ensures Signed(w, a * Signed(w, b)) == Signed(w, a * b)
  {
    hide Signed;
    var k := Turns(w, b);
    Distribute(a, Size(w), k, b);
    assert Signed(w, b) == Size(w) * k + b;
    AddMultiple(Size(w), a * b, a * k);
    SignedSame(w, a * Signed(w, b), a * b);
  }

  /** A summand may wrap first. */
  lemma Plus(w: Precision, a: int, b: int)
    ensures Signed(w, Signed(w, a) + b) == Signed(w, a + b)
  {
    hide Signed;
    var k := Turns(w, a);
    AddMultiple(Size(w), a + b, k);
    SignedSame(w, Signed(w, a) + b, a + b);
  }

  lemma Turns(w: Precision, b: int) returns (k: int)
    ensures Signed(w, b) == Size(w) * k + b
  {
    k := -(b / Size(w)) - (if Wrap(w, b) < Size(w) / 2 then 0 else 1);
  }

  /** Shifting right keeps the sign and rounds down; a count counts modulo the width. */
  lemma Shifts(w: Precision, a: int, n: nat)
    requires IsSigned(w, a) && n < Bits(w)
    ensures var v := Apply(w, ShrS, a, n).v; v * Pow2(n) <= a < (v + 1) * Pow2(n)
    ensures forall o :: o in {Shl, ShrS, ShrU} ==> Apply(w, o, a, n + Bits(w)) == Apply(w, o, a, n)
  {
    hide Signed, Pow2, Wrap, Bitwise, Quo;
    Counts(w, n);
    var p := Pow2(n);
    RoundsDown(a, p);
    RoundsIn(w, a, p);
    SignedFits(w, a / p);
  }

  lemma Counts(w: Precision, n: nat)
    requires n < Bits(w)
    ensures Wrap(w, n) % Bits(w) == n && Wrap(w, n + Bits(w)) % Bits(w) == n
  {
  }

  lemma RoundsDown(a: int, p: int)
    requires p > 0
    ensures (a / p) * p <= a < (a / p + 1) * p
  {
    var v := a / p;
    assert a == p * v + a % p;
    assert v * p == p * v && (v + 1) * p == p * v + p;
  }

  lemma RoundsIn(w: Precision, a: int, p: int)
    requires IsSigned(w, a) && p > 0
    ensures IsSigned(w, a / p)
  {
    if a >= 0 {
      Shrinks(a, p);
    } else {
      RoundsDown(a, p);
      if a / p < a {
        Grown(a / p + 1, a, p);
      }
      if a / p >= 0 {
        Product(a / p, p);
      }
    }
  }

  lemma Product(x: nat, p: nat)
    ensures x * p >= 0
  {
  }

  /** A number no greater than a negative one stays so when it is multiplied. */
  lemma Grown(x: int, a: int, p: int)
    requires x <= a < 0 && p > 0
    ensures x * p <= a
  {
    Below(p, -x);
    assert x * p == -(p * -x);
  }

  lemma Below(p: int, m: int)
    requires p > 0 && m > 0
    ensures p * m >= m
  {
    AtLeast(m, p);
    assert p * m == m * p;
  }

  /** Bit i of v. */
  function BitAt(v: nat, i: nat): nat {
    if i == 0 then v % 2 else BitAt(v / 2, i - 1)
  }

  /** And, or and exclusive or work bit by bit. */
  lemma ByBits(w: Precision, a: int, b: int, i: nat)
    requires IsSigned(w, a) && IsSigned(w, b) && i < Bits(w)
    ensures var (x, y) := (BitAt(Wrap(w, a), i), BitAt(Wrap(w, b), i));
            && (BitAt(Wrap(w, Apply(w, And, a, b).v), i) == 1 <==> x == 1 && y == 1)
            && (BitAt(Wrap(w, Apply(w, Or, a, b).v), i) == 1 <==> x == 1 || y == 1)
            && (BitAt(Wrap(w, Apply(w, Xor, a, b).v), i) == 1 <==> x != y)
  {
    hide Bitwise, BitAt, Signed, Bit;
    var ua, ub := Wrap(w, a), Wrap(w, b);
    CombinedFits(w, And, ua, ub);
    CombinedFits(w, Or, ua, ub);
    CombinedFits(w, Xor, ua, ub);
    CombinedBit(And, ua, ub, Bits(w), i);
    CombinedBit(Or, ua, ub, Bits(w), i);
    CombinedBit(Xor, ua, ub, Bits(w), i);
    IsBit(ua, i);
    IsBit(ub, i);
    BitsAre(BitAt(ua, i), BitAt(ub, i));
  }

  lemma BitsAre(x: nat, y: nat)
    requires x < 2 && y < 2
    ensures Bit(And, x, y) == 1 <==> x == 1 && y == 1
    ensures Bit(Or, x, y) == 1 <==> x == 1 || y == 1
    ensures Bit(Xor, x, y) == 1 <==> x != y
  {
  }

  lemma {:induction false} IsBit(v: nat, i: nat)
    ensures BitAt(v, i) < 2
  {
    if i > 0 {
      IsBit(v / 2, i - 1);
    }
  }

  lemma CombinedFits(w: Precision, op: Op, a: nat, b: nat)
    requires op in {And, Or, Xor}
    ensures Wrap(w, Signed(w, Bitwise(op, a, b, Bits(w)))) == Bitwise(op, a, b, Bits(w))
  {
    hide Bitwise, Signed, Pow2;
    CombinedBelow(op, a, b, Bits(w));
    PowWidth(w);
    SignedFits(w, Bitwise(op, a, b, Bits(w)));
  }

  lemma {:induction false} CombinedBelow(op: Op, a: nat, b: nat, n: nat)
    requires op in {And, Or, Xor}
    ensures Bitwise(op, a, b, n) < Pow2(n)
  {
    if n > 0 {
      CombinedBelow(op, a / 2, b / 2, n - 1);
      OneOrNone(op, a % 2, b % 2);
    }
  }

  lemma OneOrNone(op: Op, x: nat, y: nat)
    requires x < 2 && y < 2
    ensures Bit(op, x, y) < 2
  {
  }

  lemma {:induction false} CombinedBit(op: Op, a: nat, b: nat, n: nat, i: nat)
    requires i < n && op in {And, Or, Xor}
    ensures BitAt(Bitwise(op, a, b, n), i) == Bit(op, BitAt(a, i), BitAt(b, i))
  {
    hide Bit;
    OneOrNone(op, a % 2, b % 2);
    var rest := Bitwise(op, a / 2, b / 2, n - 1);
    assert (Bit(op, a % 2, b % 2) + 2 * rest) % 2 == Bit(op, a % 2, b % 2);
    assert (Bit(op, a % 2, b % 2) + 2 * rest) / 2 == rest;
    if i > 0 {
      CombinedBit(op, a / 2, b / 2, n - 1, i - 1);
    }
  }
}
