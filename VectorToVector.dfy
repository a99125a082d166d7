// Index arithmetic behind vector unrolling: row-major strides of a shape,
// linearisation of an offset vector against a basis and its inverse, the
// index-map gather of shape components, and the element offsets of each
// unrolled instance.
module VectorToVector {
  import opened Common

  predicate AllPositive(s: seq<int>)
  {
    forall i :: 0 <= i < |s| ==> s[i] > 0
  }

  /** Row-major strides: the stride of dimension i is the number of elements
      in one slice along it, the product of the later dimensions. */
  function Strides(shape: seq<int>): (r: seq<int>)
    ensures |r| == |shape|
    ensures AllPositive(shape) ==> AllPositive(r)
  {
    var strides := seq(|shape|, i requires 0 <= i < |shape| => Product(shape[i + 1..]));
    if AllPositive(shape) then SuffixProductsPositive(shape); strides else strides
  }

  lemma SuffixProductsPositive(shape: seq<int>)
    requires AllPositive(shape)
    ensures forall i :: 0 <= i <= |shape| ==> Product(shape[i..]) > 0
  {
    forall i | 0 <= i <= |shape| ensures Product(shape[i..]) > 0 {
      ProductPositive(shape[i..]);
    }
  }

  /** Sum of offsets[i] * basis[i]. */
  function Dot(offsets: seq<int>, basis: seq<int>): int
    requires |offsets| == |basis|
  {
    if offsets == [] then 0 else offsets[0] * basis[0] + Dot(offsets[1..], basis[1..])
  }

  /** offsets addresses an element of a vector of the given shape. */
  predicate InBounds(offsets: seq<int>, shape: seq<int>)
  {
    |offsets| == |shape| && forall i :: 0 <= i < |shape| ==> 0 <= offsets[i] < shape[i]
  }

  /** The quotients of successive division by the basis, with the final
      remainder; C++ integer division truncates toward zero. */
  function Delinearized(linearIndex: int, basis: seq<int>): (r: (seq<int>, int))
    requires AllPositive(basis)
    ensures |r.0| == |basis|
    decreases |basis|
  {
    if basis == [] then ([], linearIndex)
    else
      var tail := Delinearized(TruncMod(linearIndex, basis[0]), basis[1..]);
      ([TruncDiv(linearIndex, basis[0])] + tail.0, tail.1)
  }

  lemma StridesProperties(shape: seq<int>)
    ensures shape != [] ==> Strides(shape)[|shape| - 1] == 1
    ensures forall i :: 0 <= i < |shape| - 1 ==>
      Strides(shape)[i] == Strides(shape)[i + 1] * shape[i + 1]
  {
    forall i | 0 <= i < |shape| - 1
      ensures Strides(shape)[i] == Strides(shape)[i + 1] * shape[i + 1]
    {
      assert shape[i + 1..] == [shape[i + 1]] + shape[i + 2..];
    }
  }

  /** The example from the documentation of computeStrides. */
  lemma StridesExample()
    ensures Strides([3, 4, 5]) == [20, 5, 1]
  {
    assert [3, 4, 5][1..] == [4, 5];
    assert [3, 4, 5][2..] == [5];
    assert [3, 4, 5][3..] == [];
    assert Product([5]) == 5;
    assert Product([4, 5]) == 20;
  }

  lemma StridesTail(shape: seq<int>)
    requires shape != []
    ensures Strides(shape) == [Product(shape[1..])] + Strides(shape[1..])
  {
    var tail := Strides(shape[1..]);
    var r := [Product(shape[1..])] + tail;
    assert |r| == |Strides(shape)|;
    forall i | 0 <= i < |shape| ensures Strides(shape)[i] == r[i] {
      if i == 0 {
        assert Strides(shape)[0] == Product(shape[1..]);
      } else {
        assert r[i] == tail[i - 1];
        assert tail[i - 1] == Product(shape[1..][i..]);
        assert shape[1..][i..] == shape[i + 1..];
      }
    }
  }

  lemma DotAppend(a: seq<int>, b: seq<int>, x: int, y: int)
    requires |a| == |b|
    ensures Dot(a + [x], b + [y]) == Dot(a, b) + x * y
  {
    if a != [] {
      assert (a + [x])[1..] == a[1..] + [x];
      assert (b + [y])[1..] == b[1..] + [y];
      DotAppend(a[1..], b[1..], x, y);
    }
  }

  lemma QuotientBelow(i: int, p: int, s: int)
    requires p > 0 && 0 <= i < s * p
    ensures 0 <= i / p < s && 0 <= i % p < p
  {
    assert (i / p) * p <= i;
    MulMonotone(i / p, s, p);
  }

  /** In-bounds offsets linearise to an index inside the vector. */
  lemma {:induction false} DotBounds(offsets: seq<int>, shape: seq<int>)
    requires AllPositive(shape) && InBounds(offsets, shape)
    ensures 0 <= Dot(offsets, Strides(shape)) < Product(shape)
  {
    if shape != [] {
      var p := Product(shape[1..]);
      var rest := Strides(shape[1..]);
      StridesTail(shape);
      assert AllPositive(shape[1..]) && InBounds(offsets[1..], shape[1..]);
      DotBounds(offsets[1..], shape[1..]);
      assert offsets == [offsets[0]] + offsets[1..];
      DotCons(offsets[0], offsets[1..], p, rest);
      ScaledBelow(offsets[0], shape[0], p, Dot(offsets[1..], rest));
    }
  }

  /** x * p + t stays below n * p when x < n and t < p. */
  lemma ScaledBelow(x: int, n: int, p: int, t: int)
    requires 0 <= x < n && p > 0 && 0 <= t < p
    ensures 0 <= x * p + t < n * p
  {
    MulMonotone(n - 1, x, p);
    assert (n - 1) * p == n * p - p;
    NonNegProduct(x, p);
  }

  /** One step of delinearisation on a non-negative index. */
  lemma DelinearizedCons(i: int, basis: seq<int>)
    requires AllPositive(basis) && basis != [] && i >= 0
    ensures Delinearized(i, basis).0 == [i / basis[0]] + Delinearized(i % basis[0], basis[1..]).0
    ensures Delinearized(i, basis).1 == Delinearized(i % basis[0], basis[1..]).1
  {
    TruncAgreesOnNaturals(i, basis[0]);
  }

  lemma DotCons(x: int, xs: seq<int>, y: int, ys: seq<int>)
    requires |xs| == |ys|
    ensures Dot([x] + xs, [y] + ys) == x * y + Dot(xs, ys)
  {
    assert ([x] + xs)[1..] == xs;
    assert ([y] + ys)[1..] == ys;
  }

  lemma InBoundsCons(x: int, xs: seq<int>, shape: seq<int>)
    requires shape != [] && 0 <= x < shape[0] && InBounds(xs, shape[1..])
    ensures InBounds([x] + xs, shape)
  {
    forall k | 0 <= k < |shape| ensures 0 <= ([x] + xs)[k] < shape[k] {
      if k > 0 { assert ([x] + xs)[k] == xs[k - 1] && shape[k] == shape[1..][k - 1]; }
    }
  }

  lemma DivModParts(i: int, p: int)
    requires p > 0
    ensures i == (i / p) * p + i % p
  {
  }

  /** For a basis of row-major strides, every index of the vector
      delinearises with no remainder to in-bounds offsets that linearise
      back to it. */
  lemma {:induction false} DelinearizeLinearize(shape: seq<int>, i: int)
    requires AllPositive(shape) && 0 <= i < Product(shape)
    ensures Delinearized(i, Strides(shape)).1 == 0
    ensures InBounds(Delinearized(i, Strides(shape)).0, shape)
    ensures Dot(Delinearized(i, Strides(shape)).0, Strides(shape)) == i
  {
    if shape != [] {
      var p := Product(shape[1..]);
      var rest := Strides(shape[1..]);
      StridesTail(shape);
      assert Strides(shape) == [p] + rest;
      ProductPositive(shape[1..]);
      assert AllPositive(shape[1..]);
      QuotientBelow(i, p, shape[0]);
      DelinearizeLinearize(shape[1..], i % p);
      DelinearizedCons(i, Strides(shape));
      var d := Delinearized(i % p, rest).0;
      DotCons(i / p, d, p, rest);
      InBoundsCons(i / p, d, shape);
      DivModParts(i, p);
    }
  }

  /** In-bounds offsets survive a linearise/delinearise round trip. */
  lemma {:induction false} LinearizeDelinearize(shape: seq<int>, offsets: seq<int>)
    requires AllPositive(shape) && InBounds(offsets, shape)
    ensures
      Delinearized(Dot(offsets, Strides(shape)), Strides(shape)) == (offsets, 0)
  {
    if shape != [] {
      var p := Product(shape[1..]);
      var rest := Strides(shape[1..]);
      StridesTail(shape);
      assert Strides(shape) == [p] + rest;
      assert AllPositive(shape[1..]);
      assert InBounds(offsets[1..], shape[1..]);
      ProductPositive(shape[1..]);
      var t := Dot(offsets[1..], rest);
      DotBounds(offsets[1..], shape[1..]);
      assert offsets == [offsets[0]] + offsets[1..];
      DotCons(offsets[0], offsets[1..], p, rest);
      var a := Dot(offsets, Strides(shape));
      DivModUnique(a, p, offsets[0], t);
      assert a >= 0 by { NonNegProduct(offsets[0], p); }
      DelinearizedCons(a, Strides(shape));
      LinearizeDelinearize(shape[1..], offsets[1..]);
    }
  }

  lemma NonNegProduct(x: int, y: int)
    requires x >= 0 && y >= 0
    ensures x * y >= 0
  {
  }

  /** computeStrides: walks the shape from the innermost dimension keeping a
      running product. */
  method ComputeStrides(shape: seq<int>) returns (r: seq<int>)
    requires AllPositive(shape)
    ensures r == Strides(shape)
  {
    if |shape| == 0 {
      return [];
    }
    r := [];
    var running := 1;
    var k := |shape|;
    while k > 0
      invariant 0 <= k <= |shape|
      invariant running == Product(shape[k..])
      invariant r == Strides(shape)[k..]
    {
      k := k - 1;
      assert shape[k..] == [shape[k]] + shape[k + 1..];
      r := [running] + r;
      running := running * shape[k];
    }
  }

  /** computeMaxLinearIndex: the number of elements of a shape, except that
      the empty list gives 0 rather than 1. */
  method ComputeMaxLinearIndex(basis: seq<int>) returns (r: int)
    ensures basis == [] ==> r == 0
    ensures basis != [] ==> r == Product(basis)
  {
    if |basis| == 0 {
      return 0;
    }
    r := 1;
    var k := 0;
    while k < |basis|
      invariant 0 <= k <= |basis|
      invariant r == Product(basis[..k])
    {
      assert basis[..k + 1] == basis[..k] + [basis[k]];
      ProductAppend(basis[..k], basis[k]);
      r := r * basis[k];
      k := k + 1;
    }
    assert basis[..k] == basis;
  }

  /** linearize: the dot product of offsets and basis. */
  method Linearize(offsets: seq<int>, basis: seq<int>) returns (r: int)
    requires |offsets| == |basis|
    ensures r == Dot(offsets, basis)
  {
    r := 0;
    var k := 0;
    while k < |basis|
      invariant 0 <= k <= |basis|
      invariant r == Dot(offsets[..k], basis[..k])
    {
      assert offsets[..k + 1] == offsets[..k] + [offsets[k]];
      assert basis[..k + 1] == basis[..k] + [basis[k]];
      DotAppend(offsets[..k], basis[..k], offsets[k], basis[k]);
      r := r + offsets[k] * basis[k];
      k := k + 1;
    }
    assert offsets[..k] == offsets && basis[..k] == basis;
  }

  /** delinearize: repeatedly divides by the next basis element. The source
      asserts the final remainder is zero; it is returned here so callers
      can see it, and DelinearizeLinearize shows it is zero for every index
      of a vector whose basis is its strides. */
  method Delinearize(linearIndex: int, basis: seq<int>) returns (res: seq<int>, remainder: int)
    requires AllPositive(basis)
    ensures (res, remainder) == Delinearized(linearIndex, basis)
  {
    res := [];
    var cur := linearIndex;
    var k := 0;
    assert basis[0..] == basis;
    while k < |basis|
      invariant 0 <= k <= |basis|
      invariant res + Delinearized(cur, basis[k..]).0 == Delinearized(linearIndex, basis).0
      invariant Delinearized(cur, basis[k..]).1 == Delinearized(linearIndex, basis).1
    {
      DelinearizedStep(cur, basis, k);
      res := res + [TruncDiv(cur, basis[k])];
      cur := TruncMod(cur, basis[k]);
      k := k + 1;
    }
    assert Delinearized(cur, basis[k..]) == ([], cur);
    assert res + [] == res;
    remainder := cur;
  }

  /** The result of getMappedElements applied to the first n inputs:
      result[indexMap[i]] takes input[i] for every mapped i < n, a later i
      overwriting an earlier one. */
  function Mapped(indexMap: map<int, int>, input: seq<int>, base: seq<int>, n: nat): (r: seq<int>)
    requires n <= |input|
    requires forall i :: i in indexMap ==> 0 <= indexMap[i] < |base|
    ensures |r| == |base|
  {
    if n == 0 then base
    else
      var prev := Mapped(indexMap, input, base, n - 1);
      if n - 1 in indexMap then prev[indexMap[n - 1] := input[n - 1]] else prev
  }

  predicate Injective(indexMap: map<int, int>)
  {
    forall i, j :: i in indexMap && j in indexMap && i != j ==> indexMap[i] != indexMap[j]
  }

  /** With an injective index map, position j holds the input of the index
      that maps to it, and keeps its old value when no index does. */
  lemma {:induction false} MappedContents(indexMap: map<int, int>, input: seq<int>, base: seq<int>, n: nat)
    requires n <= |input|
    requires forall i :: i in indexMap ==> 0 <= indexMap[i] < |base|
    requires Injective(indexMap)
    ensures forall i :: 0 <= i < n && i in indexMap ==>
      Mapped(indexMap, input, base, n)[indexMap[i]] == input[i]
    ensures forall j :: 0 <= j < |base| && (forall i :: 0 <= i < n && i in indexMap ==> indexMap[i] != j) ==>
      Mapped(indexMap, input, base, n)[j] == base[j]
  {
    if n > 0 {
      MappedContents(indexMap, input, base, n - 1);
    }
  }

  lemma DelinearizedStep(cur: int, basis: seq<int>, k: nat)
    requires AllPositive(basis) && k < |basis|
    ensures var next := Delinearized(TruncMod(cur, basis[k]), basis[k + 1..]);
      Delinearized(cur, basis[k..]) == ([TruncDiv(cur, basis[k])] + next.0, next.1)
  {
    assert basis[k..][1..] == basis[k + 1..];
  }

  /** getMappedElements: scatters the mapped inputs into result in place. */
  method GetMappedElements(indexMap: map<int, int>, input: seq<int>, result: array<int>)
    requires |indexMap| == result.Length && |input| >= result.Length
    requires forall i :: i in indexMap ==> 0 <= indexMap[i] < result.Length
    modifies result
    ensures result[..] == Mapped(indexMap, input, old(result[..]), |input|)
  {
    ghost var base := result[..];
    var i := 0;
    while i < |input|
      invariant 0 <= i <= |input|
      invariant result[..] == Mapped(indexMap, input, base, i)
    {
      if i in indexMap {
        result[indexMap[i]] := input[i];
      }
      i := i + 1;
    }
  }

  /** Element-space offsets of an unrolled instance: the componentwise
      product of its vector-space offsets and the target shape (zipMap stops
      at the shorter list). */
  function ElementOffsets(vectorOffsets: seq<int>, targetShape: seq<int>): (r: seq<int>)
    ensures |r| == Min(|vectorOffsets|, |targetShape|)
    ensures forall k :: 0 <= k < |r| ==> r[k] == vectorOffsets[k] * targetShape[k]
  {
    seq(Min(|vectorOffsets|, |targetShape|), k requires 0 <= k < Min(|vectorOffsets|, |targetShape|) =>
      vectorOffsets[k] * targetShape[k])
  }

  /** The unroll loop of unrollSingleResultStructuredOp: for each instance i
      below the number of instances, the element offsets of the slice it
      works on. */
  method UnrolledInstanceOffsets(unrollFactors: seq<int>, targetShape: seq<int>)
    returns (offsets: seq<seq<int>>)
    requires AllPositive(unrollFactors)
    ensures unrollFactors == [] ==> offsets == []
    ensures unrollFactors != [] ==> |offsets| == Product(unrollFactors)
    ensures
      forall i :: 0 <= i < |offsets| ==>
        offsets[i] == ElementOffsets(Delinearized(i, Strides(unrollFactors)).0, targetShape)
  {
    StridesProperties(unrollFactors);
    var numInstances := ComputeMaxLinearIndex(unrollFactors);
    var basis := ComputeStrides(unrollFactors);
    offsets := [];
    var i := 0;
    while i < numInstances
      invariant 0 <= i && |offsets| == i
      invariant numInstances >= 0 ==> i <= numInstances
      invariant forall j :: 0 <= j < i ==>
        offsets[j] == ElementOffsets(Delinearized(j, basis).0, targetShape)
    {
      var vectorOffsets, _ := Delinearize(i, basis);
      offsets := offsets + [ElementOffsets(vectorOffsets, targetShape)];
      i := i + 1;
    }
    if unrollFactors != [] {
      ProductPositive(unrollFactors);
    }
  }

  lemma ElementOffsetsInjective(a: seq<int>, b: seq<int>, targetShape: seq<int>)
    requires |a| == |b| == |targetShape| && AllPositive(targetShape)
    ensures ElementOffsets(a, targetShape) == ElementOffsets(b, targetShape) ==> a == b
  {
    if ElementOffsets(a, targetShape) == ElementOffsets(b, targetShape) {
      forall k | 0 <= k < |a| ensures a[k] == b[k] {
        assert ElementOffsets(a, targetShape)[k] == ElementOffsets(b, targetShape)[k];
        assert a[k] * targetShape[k] == b[k] * targetShape[k];
      }
    }
  }

  /** Each unrolled instance addresses a target-shaped slice that lies inside
      the iteration bounds, which are factor * target along every dimension. */
  lemma UnrolledSliceInBounds(unrollFactors: seq<int>, targetShape: seq<int>, i: int)
    requires AllPositive(unrollFactors) && AllPositive(targetShape)
    requires |targetShape| == |unrollFactors|
    requires 0 <= i < Product(unrollFactors)
    ensures
      var oi := ElementOffsets(Delinearized(i, Strides(unrollFactors)).0, targetShape);
      forall k :: 0 <= k < |oi| ==>
        0 <= oi[k] && oi[k] + targetShape[k] <= unrollFactors[k] * targetShape[k]
  {
    DelinearizeLinearize(unrollFactors, i);
    var di := Delinearized(i, Strides(unrollFactors)).0;
    var oi := ElementOffsets(di, targetShape);
    forall k | 0 <= k < |oi|
      ensures 0 <= oi[k] && oi[k] + targetShape[k] <= unrollFactors[k] * targetShape[k]
    {
      SliceBound(di[k], unrollFactors[k], targetShape[k]);
    }
  }

  lemma SliceBound(d: int, f: int, t: int)
    requires 0 <= d < f && t > 0
    ensures 0 <= d * t && d * t + t <= f * t
  {
    MulMonotone(d, 0, t);
    MulMonotone(f, d + 1, t);
  }

  /** Distinct unrolled instances address distinct slices. */
  lemma UnrolledSlicesDistinct(unrollFactors: seq<int>, targetShape: seq<int>, i: int, j: int)
    requires AllPositive(unrollFactors) && AllPositive(targetShape)
    requires |targetShape| == |unrollFactors|
    requires 0 <= i < Product(unrollFactors) && 0 <= j < Product(unrollFactors)
    requires i != j
    ensures ElementOffsets(Delinearized(i, Strides(unrollFactors)).0, targetShape) !=
            ElementOffsets(Delinearized(j, Strides(unrollFactors)).0, targetShape)
  {
    DelinearizeLinearize(unrollFactors, i);
    DelinearizeLinearize(unrollFactors, j);
    ElementOffsetsInjective(Delinearized(i, Strides(unrollFactors)).0,
      Delinearized(j, Strides(unrollFactors)).0, targetShape);
  }
}
