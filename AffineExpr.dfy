// Affine expressions: substitution of dimensions and symbols, structural
// predicates (symbolic-or-constant, pure affine, function of a dimension),
// the largest known divisor and the multiple-of test, and the guard of the
// simplifier. Uniqued expression storage makes expression identity
// structural equality, which is what a datatype gives.
module AffineExpr {
  import opened Common

  datatype BinaryKind = Add | Mul | FloorDiv | CeilDiv | Mod

  datatype Expr =
    | Constant(value: int)
    | Dim(position: nat)
    | Symbol(position: nat)
    | Binary(kind: BinaryKind, lhs: Expr, rhs: Expr)

  /** replaceDimsAndSymbols: dim i becomes dimReplacements[i] and symbol j
      becomes symReplacements[j]; positions beyond the lists stay. */
  function ReplaceDimsAndSymbols(e: Expr, dimReplacements: seq<Expr>, symReplacements: seq<Expr>): (r: Expr)
    ensures e.Constant? ==> r == e
    ensures e.Dim? ==> r == if e.position < |dimReplacements| then dimReplacements[e.position] else e
    ensures e.Symbol? ==> r == if e.position < |symReplacements| then symReplacements[e.position] else e
  {
    match e
    case Constant(_) => e
    case Dim(p) => if p >= |dimReplacements| then e else dimReplacements[p]
    case Symbol(p) => if p >= |symReplacements| then e else symReplacements[p]
    case Binary(k, lhs, rhs) =>
      var newLhs := ReplaceDimsAndSymbols(lhs, dimReplacements, symReplacements);
      var newRhs := ReplaceDimsAndSymbols(rhs, dimReplacements, symReplacements);
      if newLhs == lhs && newRhs == rhs then e else Binary(k, newLhs, newRhs)
  }

  /** compose: substitutes the results of a map for the dimensions. */
  function Compose(e: Expr, mapResults: seq<Expr>): Expr
  {
    ReplaceDimsAndSymbols(e, mapResults, [])
  }

  /** The dimension positions occurring in an expression. */
  function Dims(e: Expr): set<nat>
  {
    match e
    case Constant(_) => {}
    case Dim(p) => {p}
    case Symbol(_) => {}
    case Binary(_, lhs, rhs) => Dims(lhs) + Dims(rhs)
  }

  predicate IsSymbolicOrConstant(e: Expr)
  {
    match e
    case Constant(_) => true
    case Dim(_) => false
    case Symbol(_) => true
    case Binary(_, lhs, rhs) => IsSymbolicOrConstant(lhs) && IsSymbolicOrConstant(rhs)
  }

  predicate IsFunctionOfDim(e: Expr, position: nat)
  {
    match e
    case Dim(p) => p == position
    case Binary(_, lhs, rhs) => IsFunctionOfDim(lhs, position) || IsFunctionOfDim(rhs, position)
    case _ => false
  }

  /** Multiplication needs a constant operand; floordiv, ceildiv and mod
      need a constant right-hand side. */
  predicate IsPureAffine(e: Expr)
  {
    match e
    case Binary(Add, lhs, rhs) => IsPureAffine(lhs) && IsPureAffine(rhs)
    case Binary(Mul, lhs, rhs) =>
      IsPureAffine(lhs) && IsPureAffine(rhs) && (lhs.Constant? || rhs.Constant?)
    case Binary(_, lhs, rhs) => IsPureAffine(lhs) && rhs.Constant?
    case _ => true
  }

  lemma {:induction false} SymbolicOrConstantIffNoDims(e: Expr)
    ensures IsSymbolicOrConstant(e) <==> Dims(e) == {}
  {
    if e.Binary? {
      SymbolicOrConstantIffNoDims(e.lhs);
      SymbolicOrConstantIffNoDims(e.rhs);
    }
  }

  lemma {:induction false} FunctionOfDimIffOccurs(e: Expr, position: nat)
    ensures IsFunctionOfDim(e, position) <==> position in Dims(e)
  {
    if e.Binary? {
      FunctionOfDimIffOccurs(e.lhs, position);
      FunctionOfDimIffOccurs(e.rhs, position);
    }
  }

  /** With nothing to substitute the expression is returned unchanged. */
  lemma {:induction false} ReplaceNothing(e: Expr)
    ensures ReplaceDimsAndSymbols(e, [], []) == e
  {
    if e.Binary? {
      ReplaceNothing(e.lhs);
      ReplaceNothing(e.rhs);
    }
  }

  /** compose leaves an expression with no dimensions alone. */
  lemma {:induction false} ComposeSymbolic(e: Expr, mapResults: seq<Expr>)
    requires IsSymbolicOrConstant(e)
    ensures Compose(e, mapResults) == e
  {
    if e.Binary? {
      ComposeSymbolic(e.lhs, mapResults);
      ComposeSymbolic(e.rhs, mapResults);
    }
  }

  function IdentityDims(n: nat): (r: seq<Expr>)
    ensures |r| == n && forall i :: 0 <= i < n ==> r[i] == Dim(i)
  {
    seq(n, i requires 0 <= i < n => Dim(i))
  }

  /** Composing with the identity map of enough dimensions is the identity. */
  lemma {:induction false} ComposeIdentity(e: Expr, n: nat)
    requires forall p :: p in Dims(e) ==> p < n
    ensures Compose(e, IdentityDims(n)) == e
  {
    if e.Binary? {
      assert Dims(e) == Dims(e.lhs) + Dims(e.rhs);
      ComposeIdentity(e.lhs, n);
      ComposeIdentity(e.rhs, n);
    }
  }

  /** Substituting pure affine expressions into a pure affine expression
      gives a pure affine expression. */
  lemma {:induction false} ReplacePreservesPureAffine(e: Expr, dims: seq<Expr>, syms: seq<Expr>)
    requires IsPureAffine(e)
    requires forall i :: 0 <= i < |dims| ==> IsPureAffine(dims[i])
    requires forall i :: 0 <= i < |syms| ==> IsPureAffine(syms[i])
    ensures IsPureAffine(ReplaceDimsAndSymbols(e, dims, syms))
  {
    if e.Binary? {
      ReplacePreservesPureAffine(e.lhs, dims, syms);
      ReplacePreservesPureAffine(e.rhs, dims, syms);
      if e.lhs.Constant? {
        assert ReplaceDimsAndSymbols(e.lhs, dims, syms) == e.lhs;
      }
      if e.rhs.Constant? {
        assert ReplaceDimsAndSymbols(e.rhs, dims, syms) == e.rhs;
      }
    }
  }

  // ---------------------------------------------------------------------
  // Values of expressions, the reference for the divisor facts.

  /** Floor division; b != 0. */
  function FloorDivInt(a: int, b: int): int
    requires b != 0
  {
    if b > 0 then a / b else (-a) / (-b)
  }

  function CeilDivInt(a: int, b: int): int
    requires b != 0
  {
    -FloorDivInt(-a, b)
  }

  /** The affine mod, a - b * floor(a / b). */
  function ModInt(a: int, b: int): int
    requires b != 0
  {
    a - b * FloorDivInt(a, b)
  }

  /** The value of an expression for given dimension and symbol values;
      None when a position is unbound or a divisor is zero. */
  function Eval(e: Expr, dims: seq<int>, syms: seq<int>): Option<int>
  {
    match e
    case Constant(c) => Some(c)
    case Dim(p) => if p < |dims| then Some(dims[p]) else None
    case Symbol(p) => if p < |syms| then Some(syms[p]) else None
    case Binary(k, lhs, rhs) =>
      var l := Eval(lhs, dims, syms);
      var r := Eval(rhs, dims, syms);
      if l.None? || r.None? then None
      else match k
        case Add => Some(l.value + r.value)
        case Mul => Some(l.value * r.value)
        case FloorDiv => if r.value == 0 then None else Some(FloorDivInt(l.value, r.value))
        case CeilDiv => if r.value == 0 then None else Some(CeilDivInt(l.value, r.value))
        case Mod => if r.value == 0 then None else Some(ModInt(l.value, r.value))
  }

  /** d divides v; only 0 is a multiple of 0. */
  predicate Divides(d: nat, v: int)
  {
    if d == 0 then v == 0 else v % d == 0
  }

  /** Euclid's algorithm, as GreatestCommonDivisor64 runs it. */
  function Gcd(a: nat, b: nat): (g: nat)
    decreases b
  {
    if b == 0 then a else Gcd(b, a % b)
  }

  lemma DividesTimes(d: nat, v: int, k: int)
    requires Divides(d, v)
    ensures Divides(d, v * k)
  {
    if d != 0 {
      var q := v / d;
      assert v == d * q;
      assert v * k == d * (q * k);
      DivModUnique(v * k, d, q * k, 0);
    }
  }

  lemma DividesSum(d: nat, x: int, y: int)
    requires Divides(d, x) && Divides(d, y)
    ensures Divides(d, x + y) && Divides(d, x - y)
  {
    if d != 0 {
      var qx, qy := x / d, y / d;
      DivModUnique(x + y, d, qx + qy, 0);
      DivModUnique(x - y, d, qx - qy, 0);
    }
  }

  lemma DividesTransitive(a: nat, b: nat, v: int)
    requires Divides(a, b) && Divides(b, v)
    ensures Divides(a, v)
  {
    if b != 0 {
      DividesTimes(a, b, v / b);
      assert v == b * (v / b);
    }
  }

  lemma DividesProduct(a: nat, b: nat, x: int, y: int)
    requires Divides(a, x) && Divides(b, y)
    ensures Divides(a * b, x * y)
  {
    if a != 0 && b != 0 {
      var qx, qy := x / a, y / b;
      assert x * y == (a * b) * (qx * qy) by {
        assert x == a * qx && y == b * qy;
      }
      DivModUnique(x * y, a * b, qx * qy, 0);
    } else if a == 0 {
      assert x == 0;
    } else {
      assert y == 0;
    }
  }

  lemma {:induction false} GcdDivides(a: nat, b: nat)
    ensures Divides(Gcd(a, b), a) && Divides(Gcd(a, b), b)
    decreases b
  {
    if b != 0 {
      GcdDivides(b, a % b);
      var g := Gcd(a, b);
      assert a == b * (a / b) + a % b;
      DividesTimes(g, b, a / b);
      DividesSum(g, b * (a / b), a % b);
    }
  }

  /** The quotient of d * m * k and +-d is a multiple of m. */
  lemma ExactQuotient(m: nat, k: int, c: int)
    requires c != 0
    ensures Divides(m, FloorDivInt(Abs(c) * m * k, c))
    ensures Divides(m, CeilDivInt(Abs(c) * m * k, c))
  {
    var d := Abs(c);
    var q := m * k;
    MulAssoc(d, m, k);
    ExactDivision(d * m * k, d, q);
    DividesTimes(m, m, k);
    DividesNegated(m, q);
  }

  lemma MulAssoc(a: int, b: int, c: int)
    ensures a * b * c == a * (b * c)
  {
  }

  /** Dividing d * q and its negation by d is exact. */
  lemma ExactDivision(x: int, d: int, q: int)
    requires d > 0 && x == d * q
    ensures x / d == q && (-x) / d == -q
  {
    DivModUnique(x, d, q, 0);
    DivModUnique(-x, d, -q, 0);
  }

  lemma DividesNegated(m: nat, q: int)
    requires Divides(m, q)
    ensures Divides(m, -q)
  {
    DividesTimes(m, q, -1);
  }

  // ---------------------------------------------------------------------
  // The divisor computations.

  /** getLargestKnownDivisor as written: dims and symbols 1, a constant its
      absolute value, a product the product of the operands' divisors, and
      the gcd of the operands' divisors for add, floordiv, ceildiv and mod. */
  function LargestKnownDivisorAsWritten(e: Expr): nat
  {
    match e
    case Constant(c) => Abs(c)
    case Dim(_) => 1
    case Symbol(_) => 1
    case Binary(Mul, lhs, rhs) => LargestKnownDivisorAsWritten(lhs) * LargestKnownDivisorAsWritten(rhs)
    case Binary(_, lhs, rhs) => Gcd(LargestKnownDivisorAsWritten(lhs), LargestKnownDivisorAsWritten(rhs))
  }

  /** The largest known divisor with floordiv and ceildiv handled soundly: a
      quotient by a non-zero constant c has divisor lhs / |c| when |c|
      divides the left-hand side's divisor, and 1 otherwise. */
  function LargestKnownDivisor(e: Expr): nat
  {
    match e
    case Constant(c) => Abs(c)
    case Dim(_) => 1
    case Symbol(_) => 1
    case Binary(Mul, lhs, rhs) => LargestKnownDivisor(lhs) * LargestKnownDivisor(rhs)
    case Binary(Add, lhs, rhs) => Gcd(LargestKnownDivisor(lhs), LargestKnownDivisor(rhs))
    case Binary(Mod, lhs, rhs) => Gcd(LargestKnownDivisor(lhs), LargestKnownDivisor(rhs))
    case Binary(_, lhs, rhs) =>
      var l := LargestKnownDivisor(lhs);
      if rhs.Constant? && rhs.value != 0 && l % Abs(rhs.value) == 0 then l / Abs(rhs.value) else 1
  }

  /** The divisor is a divisor of every value the expression takes. */
  lemma {:induction false} LargestKnownDivisorSound(e: Expr, dims: seq<int>, syms: seq<int>)
    requires Eval(e, dims, syms).Some?
    ensures Divides(LargestKnownDivisor(e), Eval(e, dims, syms).value)
  {
    match e
    case Constant(c) =>
      if c != 0 {
        if c > 0 {
          DivModUnique(c, c, 1, 0);
        } else {
          DivModUnique(c, -c, -1, 0);
        }
      }
    case Dim(_) =>
    case Symbol(_) =>
    case Binary(k, lhs, rhs) =>
      LargestKnownDivisorSound(lhs, dims, syms);
      LargestKnownDivisorSound(rhs, dims, syms);
      var x, y := Eval(lhs, dims, syms).value, Eval(rhs, dims, syms).value;
      var l, u := LargestKnownDivisor(lhs), LargestKnownDivisor(rhs);
      GcdDivides(l, u);
      match k
      case Mul =>
        DividesProduct(l, u, x, y);
      case Add =>
        DividesTransitive(Gcd(l, u), l, x);
        DividesTransitive(Gcd(l, u), u, y);
        DividesSum(Gcd(l, u), x, y);
      case Mod =>
        DividesTransitive(Gcd(l, u), l, x);
        DividesTransitive(Gcd(l, u), u, y);
        DividesTimes(Gcd(l, u), y, FloorDivInt(x, y));
        DividesSum(Gcd(l, u), x, y * FloorDivInt(x, y));
      case FloorDiv =>
        QuotientDivisor(lhs, rhs, x, y);
      case CeilDiv =>
        QuotientDivisor(lhs, rhs, x, y);
  }

  lemma QuotientDivisor(lhs: Expr, rhs: Expr, x: int, y: int)
    requires y != 0 && Divides(LargestKnownDivisor(lhs), x)
    requires rhs.Constant? ==> rhs.value == y
    ensures var l := LargestKnownDivisor(lhs);
      var d := if rhs.Constant? && rhs.value != 0 && l % Abs(rhs.value) == 0 then l / Abs(rhs.value) else 1;
      Divides(d, FloorDivInt(x, y)) && Divides(d, CeilDivInt(x, y))
  {
    var l := LargestKnownDivisor(lhs);
    if rhs.Constant? && l % Abs(y) == 0 {
      var m := l / Abs(y);
      assert l == Abs(y) * m;
      if l == 0 {
        assert x == 0;
        assert Abs(y) * m * 0 == 0;
        ExactQuotient(m, 0, y);
      } else {
        var k := x / l;
        assert x == l * k;
        ExactQuotient(m, k, y);
      }
    }
  }

  const U64: int := 0x1_0000_0000_0000_0000

  /** The range of int64_t. */
  predicate IsInt64(x: int)
  {
    -0x8000_0000_0000_0000 <= x < 0x8000_0000_0000_0000
  }

  /** The unsigned 64-bit value of a signed 64-bit factor. */
  function ToUnsigned(factor: int): (u: int)
    requires factor != 0 && IsInt64(factor)
    ensures u > 0
    ensures factor > 0 ==> u == factor
  {
    if factor < 0 then factor + U64 else factor
  }

  /** isMultipleOf as written: a dim or symbol is a multiple of +-1 only, a
      constant c of factor when c % factor is 0, a product when either
      operand's divisor or their product is a multiple, and add, floordiv,
      ceildiv and mod when the gcd of the operands' divisors is. The
      unsigned divisors meet factor converted to unsigned. */
  function IsMultipleOfAsWritten(e: Expr, factor: int): bool
    requires factor != 0 && IsInt64(factor)
  {
    match e
    case Dim(_) => factor * factor == 1
    case Symbol(_) => factor * factor == 1
    case Constant(c) => TruncMod(c, factor) == 0
    case Binary(Mul, lhs, rhs) =>
      var l, u := LargestKnownDivisorAsWritten(lhs), LargestKnownDivisorAsWritten(rhs);
      l % ToUnsigned(factor) == 0 || u % ToUnsigned(factor) == 0 || (l * u) % ToUnsigned(factor) == 0
    case Binary(_, lhs, rhs) =>
      Gcd(LargestKnownDivisorAsWritten(lhs), LargestKnownDivisorAsWritten(rhs)) % ToUnsigned(factor) == 0
  }

  /** isMultipleOf with quotients judged by their sound divisor. */
  function IsMultipleOf(e: Expr, factor: int): bool
    requires factor != 0 && IsInt64(factor)
  {
    match e
    case Dim(_) => factor * factor == 1
    case Symbol(_) => factor * factor == 1
    case Constant(c) => TruncMod(c, factor) == 0
    case Binary(Mul, lhs, rhs) =>
      var l, u := LargestKnownDivisor(lhs), LargestKnownDivisor(rhs);
      l % ToUnsigned(factor) == 0 || u % ToUnsigned(factor) == 0 || (l * u) % ToUnsigned(factor) == 0
    case Binary(_, lhs, rhs) => LargestKnownDivisor(e) % ToUnsigned(factor) == 0
  }

  /** The example (2 * d0) floordiv 4 at d0 = 2: the source's divisor and
      multiple-of test claim evenness of a value that is 1. */
  lemma QuotientDivisorAsWrittenIsUnsound()
    ensures var e := Binary(FloorDiv, Binary(Mul, Dim(0), Constant(2)), Constant(4));
      && LargestKnownDivisorAsWritten(e) == 2
      && IsMultipleOfAsWritten(e, 2)
      && Eval(e, [2], []) == Some(1)
  {
    assert Gcd(2, 4) == Gcd(4, 2) == Gcd(2, 0) == 2;
  }

  /** A positive factor accepted by the multiple-of test divides every value
      of the expression. */
  lemma IsMultipleOfSound(e: Expr, factor: int, dims: seq<int>, syms: seq<int>)
    requires factor > 0 && IsInt64(factor) && IsMultipleOf(e, factor)
    requires Eval(e, dims, syms).Some?
    ensures Eval(e, dims, syms).value % factor == 0
  {
    var v := Eval(e, dims, syms).value;
    match e
    case Dim(_) =>
      assert factor * factor == 1;
      MulMonotone(factor, 2, factor);
    case Symbol(_) =>
      assert factor * factor == 1;
      MulMonotone(factor, 2, factor);
    case Constant(c) =>
      ConstantMultiple(c, factor);
    case Binary(k, lhs, rhs) =>
      if k == Mul {
        ProductMultiple(lhs, rhs, factor, dims, syms);
      } else {
        LargestKnownDivisorSound(e, dims, syms);
        DividesTransitive(factor, LargestKnownDivisor(e), v);
      }
  }

  lemma ConstantMultiple(c: int, factor: int)
    requires factor > 0 && TruncMod(c, factor) == 0
    ensures c % factor == 0
  {
    TruncAgreesOnNaturals(Abs(c), factor);
    if c < 0 {
      var q := TruncDiv(c, factor);
      assert c == factor * q;
      DivModUnique(c, factor, q, 0);
    }
  }

  lemma ProductMultiple(lhs: Expr, rhs: Expr, factor: int, dims: seq<int>, syms: seq<int>)
    requires factor > 0 && IsInt64(factor)
    requires IsMultipleOf(Binary(Mul, lhs, rhs), factor)
    requires Eval(Binary(Mul, lhs, rhs), dims, syms).Some?
    ensures Eval(Binary(Mul, lhs, rhs), dims, syms).value % factor == 0
  {
    LargestKnownDivisorSound(lhs, dims, syms);
    LargestKnownDivisorSound(rhs, dims, syms);
    var x, y := Eval(lhs, dims, syms).value, Eval(rhs, dims, syms).value;
    assert Eval(Binary(Mul, lhs, rhs), dims, syms).value == x * y;
    ProductMultipleValues(LargestKnownDivisor(lhs), LargestKnownDivisor(rhs), x, y, factor);
  }

  /** If factor divides either divisor or their product, it divides the
      product of any two values those divisors divide. */
  lemma ProductMultipleValues(l: nat, u: nat, x: int, y: int, factor: nat)
    requires factor > 0 && Divides(l, x) && Divides(u, y)
    requires l % factor == 0 || u % factor == 0 || (l * u) % factor == 0
    ensures (x * y) % factor == 0
  {
    if l % factor == 0 {
      DividesTransitive(factor, l, x);
      DividesTimes(factor, x, y);
    } else if u % factor == 0 {
      DividesTransitive(factor, u, y);
      DividesTimes(factor, y, x);
      assert y * x == x * y;
    } else {
      DividesProduct(l, u, x, y);
      DividesTransitive(factor, l * u, x * y);
    }
  }

  /** simplifyAffineExpr: only pure affine expressions are flattened and
      rebuilt; the flattening itself is a parameter. */
  function SimplifyAffineExpr(e: Expr, flattenAndRebuild: Expr -> Expr): (r: Expr)
    ensures !IsPureAffine(e) ==> r == e
    ensures IsPureAffine(e) ==> r == flattenAndRebuild(e)
  {
    if !IsPureAffine(e) then e else flattenAndRebuild(e)
  }
}
