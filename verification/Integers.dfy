/** Two's-complement arithmetic at 32 and 64 bits, as the integer opcodes and the passes that evaluate them use it. */
module Integers {
  import Bytecode

  datatype Precision = W32 | W64

  function Bits(w: Precision): nat {
    if w == W32 then 32 else 64
  }

  function Size(w: Precision): int {
    if w == W32 then 0x1_0000_0000 else 0x1_0000_0000_0000_0000
  }

  /** v as an unsigned number of the width. */
  function Wrap(w: Precision, v: int): int {
    v % Size(w)
  }

  /** v as a signed number of the width. */
  function Signed(w: Precision, v: int): int {
    if Wrap(w, v) < Size(w) / 2 then Wrap(w, v) else Wrap(w, v) - Size(w)
  }

  predicate IsSigned(w: Precision, v: int) {
    -Size(w) / 2 <= v < Size(w) / 2
  }

  datatype Op = Add | Sub | Mul | DivS | DivU | RemS | RemU | Shl | ShrS | ShrU | Xor | And | Or
              | Eq | Ne | LtS | LtU | GtS | GtU | LeS | LeU | GeS | GeU

  /** A number of the width, a truth value, or a division by zero. */
  datatype Result = Num(v: int) | Bool(b: bool) | Trap

  function Abs(a: int): nat {
    if a < 0 then -a else a
  }

  /** Division that truncates toward zero. */
  function Quo(a: int, b: int): int
    requires b != 0
  {
    if (a < 0) == (b < 0) then Abs(a) / Abs(b) else -(Abs(a) / Abs(b))
  }

  function Pow2(n: nat): (r: int)
    ensures r > 0
  {
    if n == 0 then 1 else 2 * Pow2(n - 1)
  }

  /** Combines the lowest n bits of a and b one by one. */
  function Bitwise(op: Op, a: nat, b: nat, n: nat): nat {
    if n == 0 then 0
    else Bit(op, a % 2, b % 2) + 2 * Bitwise(op, a / 2, b / 2, n - 1)
  }

  function Bit(op: Op, a: nat, b: nat): nat {
    if op == And then a * b else if op == Or then (if a + b > 0 then 1 else 0) else (a + b) % 2
  }

  /** What an operation makes of two numbers. Shift counts are taken modulo the width. */
  function Apply(w: Precision, op: Op, a: int, b: int): Result {
    var ua, ub := Wrap(w, a), Wrap(w, b);
    var n := ub % Bits(w);
    match op
    case Add => Num(Signed(w, a + b))
    case Sub => Num(Signed(w, a - b))
    case Mul => Num(Signed(w, a * b))
    case DivS => if b == 0 then Trap else Num(Signed(w, Quo(a, b)))
    case DivU => if ub == 0 then Trap else Num(Signed(w, ua / ub))
    case RemS => if b == 0 then Trap else Num(Signed(w, a - b * Quo(a, b)))
    case RemU => if ub == 0 then Trap else Num(Signed(w, ua % ub))
    case Shl => Num(Signed(w, a * Pow2(n)))
    case ShrS => Num(Signed(w, a / Pow2(n)))
    case ShrU => Num(Signed(w, ua / Pow2(n)))
    case Xor => Num(Signed(w, Bitwise(Xor, ua, ub, Bits(w))))
    case And => Num(Signed(w, Bitwise(And, ua, ub, Bits(w))))
    case Or => Num(Signed(w, Bitwise(Or, ua, ub, Bits(w))))
    case Eq => Bool(a == b)
    case Ne => Bool(a != b)
    case LtS => Bool(a < b)
    case LtU => Bool(ua < ub)
    case GtS => Bool(a > b)
    case GtU => Bool(ua > ub)
    case LeS => Bool(a <= b)
    case LeU => Bool(ua <= ub)
    case GeS => Bool(a >= b)
    case GeU => Bool(ua >= ub)
  }

  lemma SignedFits(w: Precision, v: int)
    ensures IsSigned(w, Signed(w, v)) && Wrap(w, Signed(w, v)) == Wrap(w, v)
    ensures IsSigned(w, v) ==> Signed(w, v) == v
  {
  }

  /** Whatever the operation, its number is one of the width. */
  lemma ApplyFits(w: Precision, op: Op, a: int, b: int)
    ensures Apply(w, op, a, b).Num? ==> IsSigned(w, Apply(w, op, a, b).v)
  {
    hide Wrap, Pow2, Bitwise, Quo;
    forall v
      ensures IsSigned(w, Signed(w, v))
    {
      SignedFits(w, v);
    }
  }

  lemma SignedSame(w: Precision, x: int, y: int)
    requires Wrap(w, x) == Wrap(w, y)
    ensures Signed(w, x) == Signed(w, y)
  {
  }

  /** The lowest n bits. */
  function LowBits(a: nat, n: nat): nat {
    a % Pow2(n)
  }

  lemma LowNext(a: nat, n: nat)
    ensures LowBits(a, 0) == 0
    ensures n > 0 ==> LowBits(a, n) == a % 2 + 2 * LowBits(a / 2, n - 1)
  {
    hide Pow2;
    ZeroPow();
    if n > 0 {
      NextPow(n);
      Halve(a, Pow2(n - 1));
    }
  }

  lemma ZeroPow()
    ensures Pow2(0) == 1
  {
  }

  lemma NextPow(n: nat)
    requires n > 0
    ensures Pow2(n) == 2 * Pow2(n - 1)
  {
  }

  lemma {:induction false} BitwiseZero(op: Op, a: nat, n: nat)
    requires op == Xor || op == Or
    ensures Bitwise(op, a, 0, n) == LowBits(a, n)
  {
    hide LowBits, Pow2;
    LowNext(a, n);
    if n > 0 {
      BitwiseZero(op, a / 2, n - 1);
    }
  }

  lemma Halve(a: nat, m: int)
    requires m > 0
    ensures a % (2 * m) == a % 2 + 2 * ((a / 2) % m)
  {
    var h := a / 2;
    var q, r := h / m, h % m;
    Regroup(m, q, r);
    DivModUnique(a, 2 * m, q, 2 * r + a % 2);
  }

  lemma Regroup(m: int, q: int, r: int)
    ensures 2 * (m * q + r) == (2 * m) * q + 2 * r
  {
  }

  lemma DivModUnique(a: int, m: int, q: int, r: int)
    requires m > 0 && a == m * q + r && 0 <= r < m
    ensures a / m == q && a % m == r
  {
    var d := a / m - q;
    Spread(m, a / m, q);
    assert m * d == r - a % m;
    Opposite(m, d);
    if d > 0 {
      AtLeast(m, d);
    } else if d < 0 {
      AtLeast(m, -d);
    }
  }

  lemma Spread(m: int, a: int, b: int)
    ensures m * (a - b) == m * a - m * b
  {
  }

  lemma Opposite(m: int, d: int)
    ensures m * -d == -(m * d)
  {
  }

  lemma AtLeast(m: int, d: int)
    requires m > 0 && d > 0
    ensures m * d >= m
  {
  }

  lemma {:induction false} BitwiseOnes(a: nat, n: nat)
    ensures Bitwise(And, a, Pow2(n) - 1, n) == LowBits(a, n)
  {
    hide LowBits, Pow2;
    LowNext(a, n);
    if n > 0 {
      NextPow(n);
      BitwiseOnes(a / 2, n - 1);
      assert (Pow2(n) - 1) % 2 == 1 && (Pow2(n) - 1) / 2 == Pow2(n - 1) - 1;
    }
  }

  lemma PowWidth(w: Precision)
    ensures Pow2(Bits(w)) == Size(w)
  {
    hide Pow2;
    ZeroPow();
    PowByte(0);
    PowByte(8);
    PowByte(16);
    PowByte(24);
    PowByte(32);
    PowByte(40);
    PowByte(48);
    PowByte(56);
  }

  lemma PowByte(n: nat)
    ensures Pow2(n + 8) == 256 * Pow2(n)
  {
    hide Pow2;
    NextPow(n + 8);
    NextPow(n + 7);
    NextPow(n + 6);
    NextPow(n + 5);
    NextPow(n + 4);
    NextPow(n + 3);
    NextPow(n + 2);
    NextPow(n + 1);
  }

  lemma {:induction false} PowGrows(m: nat, n: nat)
    requires m < n
    ensures Pow2(m) < Pow2(n)
  {
    if m + 1 < n {
      PowGrows(m, n - 1);
    }
  }

  lemma LowByte(a: nat, n: nat)
    ensures LowBits(a, 8 * (n + 1)) == a % 256 + 256 * LowBits(a / 256, 8 * n)
  {
    hide Pow2;
    PowByte(8 * n);
    var m, h := Pow2(8 * n), a / 256;
    var q, r := h / m, h % m;
    Regroup256(m, q, r);
    DivModUnique(a, 256 * m, q, 256 * r + a % 256);
  }

  lemma Regroup256(m: int, q: int, r: int)
    ensures 256 * (m * q + r) == (256 * m) * q + 256 * r
  {
  }

  /** Operations with a right operand that leaves the left one as it is. */
  predicate Neutral(w: Precision, op: Op, c: int) {
    match op
    case Add | Sub | Or | Xor | Shl | ShrS | ShrU => c == 0
    case And => c == -1
    case Mul | DivS | DivU => c == 1
    case _ => false
  }

  lemma NeutralKeeps(w: Precision, op: Op, x: int, c: int)
    requires IsSigned(w, x) && Neutral(w, op, c)
    ensures Apply(w, op, x, c) == Num(x)
  {
    hide Bitwise, Pow2, Wrap, Signed, Quo, LowBits;
    var u := Wrap(w, x);
    WrapFacts(w, x);
    ZeroPow();
    match op
    case Or | Xor =>
      PowWidth(w);
      BitwiseZero(op, u, Bits(w));
      LowAll(w, u);
    case And =>
      PowWidth(w);
      BitwiseOnes(u, Bits(w));
      LowAll(w, u);
    case DivS =>
      QuoOne(x);
    case _ =>
  }

  lemma LowAll(w: Precision, u: nat)
    requires u < Size(w)
    ensures LowBits(u, Bits(w)) == u
  {
    hide Pow2;
    PowWidth(w);
  }

  lemma QuoOne(x: int)
    ensures Quo(x, 1) == x
  {
  }

  lemma WrapFacts(w: Precision, x: int)
    requires IsSigned(w, x)
    ensures 0 <= Wrap(w, x) < Size(w) && Signed(w, Wrap(w, x)) == x && Signed(w, x) == x
    ensures Wrap(w, 0) == 0 && Wrap(w, 1) == 1 && Wrap(w, -1) == Size(w) - 1
  {
  }

  /** Multiplying by what reads as 2^n shifts left by n. */
  lemma MulShifts(w: Precision, x: int, c: int, n: nat)
    requires Wrap(w, c) == Pow2(n) && n < Bits(w)
    ensures Apply(w, Mul, x, c) == Apply(w, Shl, x, n)
  {
    hide Pow2, Signed;
    Count(w, n);
    var q, p := c / Size(w), Pow2(n);
    assert c == Size(w) * q + p;
    Distribute(x, Size(w), q, p);
    AddMultiple(Size(w), x * p, x * q);
    SignedSame(w, x * c, x * p);
  }

  lemma Count(w: Precision, n: nat)
    requires n < Bits(w)
    ensures Wrap(w, n) == n && n % Bits(w) == n
  {
  }

  lemma Distribute(x: int, m: int, q: int, p: int)
    ensures x * (m * q + p) == x * p + m * (x * q)
  {
    assert x * (m * q) == m * (x * q);
  }

  lemma AddMultiple(m: int, a: int, k: int)
    requires m > 0
    ensures (a + m * k) % m == a % m
  {
    var q, r := a / m, a % m;
    assert a + m * k == m * (q + k) + r by { assert m * (q + k) == m * q + m * k; }
    DivModUnique(a + m * k, m, q + k, r);
  }

  /** Unsigned division by what reads as 2^n shifts right by n. */
  lemma DivShifts(w: Precision, x: int, c: int, n: nat)
    requires Wrap(w, c) == Pow2(n) && n < Bits(w)
    ensures Apply(w, DivU, x, c) == Apply(w, ShrU, x, n)
  {
    hide Pow2, Signed;
    Count(w, n);
  }

  /** The lowest set bit's position. */
  function TrailingZeros(v: nat): nat
    requires v > 0
  {
    if v % 2 == 1 then 0 else 1 + TrailingZeros(v / 2)
  }

  /** The exponent of v when v is a power of two greater than one. */
  function Log2(v: nat): Bytecode.Option<nat> {
    if v < 2 || Bitwise(And, v, v - 1, 64) != 0 then Bytecode.None else Bytecode.Some(TrailingZeros(v))
  }

  lemma {:induction false} BitwiseSelf(v: nat, n: nat)
    ensures Bitwise(And, v, v, n) == LowBits(v, n)
  {
    hide LowBits, Pow2;
    LowNext(v, n);
    if n > 0 {
      BitwiseSelf(v / 2, n - 1);
      BitOfSelf(v % 2);
    }
  }

  lemma BitOfSelf(b: nat)
    requires b < 2
    ensures Bit(And, b, b) == b
  {
  }

  /** Clearing the lowest set bit leaves nothing exactly when it is the only one. */
  lemma {:induction false} OneBit(v: nat, n: nat)
    requires 0 < v < Pow2(n)
    ensures Bitwise(And, v, v - 1, n) == 0 <==> v == Pow2(TrailingZeros(v))
  {
    hide Pow2;
    ZeroPow();
    if n > 0 {
      NextPow(n);
      if v % 2 == 1 {
        assert (v - 1) % 2 == 0 && (v - 1) / 2 == v / 2;
        BitwiseSelf(v / 2, n - 1);
        LowSmall(v / 2, n - 1);
      } else {
        assert (v - 1) % 2 == 1 && (v - 1) / 2 == v / 2 - 1;
        OneBit(v / 2, n - 1);
        NextPow(TrailingZeros(v));
      }
    }
  }

  lemma LowSmall(a: nat, n: nat)
    requires a < Pow2(n)
    ensures LowBits(a, n) == a
  {
    hide Pow2;
  }

  /** Log2 finds exactly the powers of two above one. */
  lemma Log2Is(v: nat)
    requires v < Size(W64)
    ensures Log2(v).Some? ==> Log2(v).value > 0 && v == Pow2(Log2(v).value)
    ensures Log2(v).None? ==> forall n: nat :: n > 0 ==> v != Pow2(n)
  {
    PowWidth(W64);
    if v >= 2 {
      OneBit(v, 64);
      if v == Pow2(TrailingZeros(v)) {
        assert TrailingZeros(v) > 0;
      }
      forall n: nat | n > 0 && v == Pow2(n)
        ensures v == Pow2(TrailingZeros(v))
      {
        ZerosOfPow(n);
      }
    } else {
      forall n: nat | n > 0
        ensures v != Pow2(n)
      {
        PowGrows(0, n);
      }
    }
  }

  lemma {:induction false} ZerosOfPow(n: nat)
    ensures TrailingZeros(Pow2(n)) == n
  {
    if n > 0 {
      ZerosOfPow(n - 1);
    }
  }
}
