// MklUtil: the stride helpers that describe dense tensor layouts to
// MKL-DNN, the test that turns primitive reuse off for strided 1x1
// convolutions, the key builder of the primitive pool, and the
// thread-local LRU cache of primitives.
module MklUtil {
  import opened Common
  import VectorToVector

  // ---------------------------------------------------------------------
  // CalculateTFStrides

  /** Strides of a shape in TensorFlow (row-major) order, computed from the
      innermost dimension outwards; dims must not be empty. */
  method CalculateTFStrides(dims: seq<int>) returns (strides: seq<int>)
    requires |dims| > 0
    ensures strides == VectorToVector.Strides(dims)
  {
    var a := new int[|dims|];
    var last := |dims| - 1;
    a[last] := 1;
    assert dims[last + 1..] == [];
    var d := last - 1;
    while d >= 0
      invariant -1 <= d < last
      invariant forall k :: d < k < |dims| ==> a[k] == Product(dims[k + 1..])
    {
      assert dims[d + 1..][1..] == dims[d + 2..];
      a[d] := a[d + 1] * dims[d + 1];
      d := d - 1;
    }
    strides := a[..];
  }

  /** The example of the documentation: {1, 2, 3, 4} has strides
      {24, 12, 4, 1}. */
  lemma TFStridesExample()
    ensures VectorToVector.Strides([1, 2, 3, 4]) == [24, 12, 4, 1]
  {
    assert [1, 2, 3, 4][1..] == [2, 3, 4];
    assert [1, 2, 3, 4][2..] == [3, 4];
    assert [1, 2, 3, 4][3..] == [4];
    assert [1, 2, 3, 4][4..] == [];
    assert Product([4]) == 4;
    assert Product([3, 4]) == 12;
    assert Product([2, 3, 4]) == 24;
  }

  // ---------------------------------------------------------------------
  // GetStridesFromSizes

  /** The data formats the helper distinguishes; every format other than
      NHWC takes the NCHW branch. */
  datatype TensorFormat = FormatNHWC | FormatNCHW | FormatOther

  /** MKL lists the sizes of a 4-d tensor innermost first: W, H, C, N. The
      logical dimensions of a format, outermost first, as positions in that
      list. */
  function Outermost(format: TensorFormat): (r: seq<nat>)
    ensures |r| == 4 && forall i :: 0 <= i < 4 ==> r[i] < 4
  {
    if format == FormatNHWC then [3, 1, 0, 2] else [3, 2, 1, 0]
  }

  /** Where each MKL dimension sits in Outermost(format). */
  function Rank(format: TensorFormat, mklDim: nat): (r: nat)
    requires mklDim < 4
    ensures r < 4 && Outermost(format)[r] == mklDim
  {
    if format == FormatNHWC then [2, 1, 3, 0][mklDim] else [3, 2, 1, 0][mklDim]
  }

  /** The entries of s in the given order. */
  function Gather(s: seq<int>, order: seq<nat>): (r: seq<int>)
    requires forall i :: 0 <= i < |order| ==> order[i] < |s|
    ensures |r| == |order|
  {
    seq(|order|, i requires 0 <= i < |order| => s[order[i]])
  }

  /** The strides of a dense tensor laid out in the given format: each MKL
      dimension gets the row-major stride of its place in the format. */
  function DenseLayoutStrides(format: TensorFormat, sizes: seq<int>): (r: seq<int>)
    requires |sizes| == 4
    ensures |r| == 4
  {
    var rowMajor := VectorToVector.Strides(Gather(sizes, Outermost(format)));
    seq(4, d requires 0 <= d < 4 => rowMajor[Rank(format, d)])
  }

  lemma Product4(s: seq<int>)
    requires |s| == 4
    ensures Product(s) == s[0] * (s[1] * (s[2] * s[3]))
    ensures Product(s[1..]) == s[1] * (s[2] * s[3])
    ensures Product(s[2..]) == s[2] * s[3]
    ensures Product(s[3..]) == s[3] && Product(s[4..]) == 1
  {
    assert s[4..] == [];
    assert s[3..][1..] == s[4..];
    assert Product(s[3..]) == s[3] * Product(s[4..]);
    assert s[2..][1..] == s[3..];
    assert Product(s[2..]) == s[2] * Product(s[3..]);
    assert s[1..][1..] == s[2..];
    assert Product(s[1..]) == s[1] * Product(s[2..]);
  }

  /** The dense strides written out for the two branches. */
  lemma DenseLayoutStridesExplicit(format: TensorFormat, s: seq<int>)
    requires |s| == 4
    ensures format == FormatNHWC ==>
      DenseLayoutStrides(format, s) == [s[2], s[0] * s[2], 1, s[0] * (s[1] * s[2])]
    ensures format != FormatNHWC ==>
      DenseLayoutStrides(format, s) == [1, s[0], s[0] * s[1], s[0] * (s[1] * s[2])]
  {
    var g := Gather(s, Outermost(format));
    Product4(g);
    var r := DenseLayoutStrides(format, s);
    if format == FormatNHWC {
      assert g == [s[3], s[1], s[0], s[2]];
      assert r[3] == Product(g[1..]);
      assert s[1] * (s[0] * s[2]) == s[0] * (s[1] * s[2]);
    } else {
      assert g == [s[3], s[2], s[1], s[0]];
      assert r[3] == Product(g[1..]);
      assert s[2] * (s[1] * s[0]) == s[0] * (s[1] * s[2]);
      assert s[1] * s[0] == s[0] * s[1];
    }
  }

  lemma Dot4(a: seq<int>, b: seq<int>)
    requires |a| == 4 && |b| == 4
    ensures VectorToVector.Dot(a, b) == a[0] * b[0] + a[1] * b[1] + a[2] * b[2] + a[3] * b[3]
  {
    assert a[3..][1..] == [] && b[3..][1..] == [];
    assert VectorToVector.Dot(a[3..], b[3..]) == a[3] * b[3];
    assert a[2..][1..] == a[3..] && b[2..][1..] == b[3..];
    assert VectorToVector.Dot(a[2..], b[2..]) == a[2] * b[2] + a[3] * b[3];
    assert a[1..][1..] == a[2..] && b[1..][1..] == b[2..];
    assert VectorToVector.Dot(a[1..], b[1..]) == a[1] * b[1] + a[2] * b[2] + a[3] * b[3];
  }

  /** GetStridesFromSizes writes the four strides of a dense tensor whose
      MKL-ordered sizes are given; the results agree with the row-major
      strides over the format's own dimension order. */
  method GetStridesFromSizes(format: TensorFormat, strides: array<int>, sizes: array<int>)
    requires strides.Length >= 4 && sizes.Length >= 4 && strides != sizes
    modifies strides
    ensures strides[..4] == DenseLayoutStrides(format, sizes[..4])
    ensures forall k :: 4 <= k < strides.Length ==> strides[k] == old(strides[k])
  {
    if format == FormatNHWC {
      strides[0] := sizes[2];
      strides[1] := sizes[0] * sizes[2];
      strides[2] := 1;
      strides[3] := sizes[0] * sizes[1] * sizes[2];
    } else {
      strides[0] := 1;
      strides[1] := sizes[0];
      strides[2] := sizes[0] * sizes[1];
      strides[3] := sizes[0] * sizes[1] * sizes[2];
    }
    DenseLayoutStridesExplicit(format, sizes[..4]);
    assert sizes[0] * sizes[1] * sizes[2] == sizes[0] * (sizes[1] * sizes[2]);
    assert strides[..4] == DenseLayoutStrides(format, sizes[..4]);
  }

  /** A dense layout: every in-bounds index of the tensor lands inside its
      buffer at the offset it has in the format's row-major order. */
  lemma DenseLayoutInBounds(format: TensorFormat, sizes: seq<int>, index: seq<int>)
    requires |sizes| == 4 && VectorToVector.InBounds(index, sizes)
    ensures VectorToVector.Dot(index, DenseLayoutStrides(format, sizes)) ==
            VectorToVector.Dot(Gather(index, Outermost(format)), VectorToVector.Strides(Gather(sizes, Outermost(format))))
    ensures 0 <= VectorToVector.Dot(index, DenseLayoutStrides(format, sizes)) < Product(sizes)
  {
    var o := Outermost(format);
    var g := Gather(sizes, o);
    var gi := Gather(index, o);
    DensePermutedDot(format, sizes, index);
    assert VectorToVector.AllPositive(g);
    assert VectorToVector.InBounds(gi, g);
    VectorToVector.DotBounds(gi, g);
    ProductGathered(format, sizes);
  }

  lemma DensePermutedDot(format: TensorFormat, s: seq<int>, x: seq<int>)
    requires |s| == 4 && |x| == 4
    ensures VectorToVector.Dot(x, DenseLayoutStrides(format, s)) ==
            VectorToVector.Dot(Gather(x, Outermost(format)), VectorToVector.Strides(Gather(s, Outermost(format))))
  {
    var o := Outermost(format);
    var gx := Gather(x, o);
    var st := VectorToVector.Strides(Gather(s, o));
    var d := DenseLayoutStrides(format, s);
    Dot4(x, d);
    Dot4(gx, st);
    var p0, p1, p2, p3 := x[0] * d[0], x[1] * d[1], x[2] * d[2], x[3] * d[3];
    if format == FormatNHWC {
      assert gx[0] * st[0] == p3 && gx[1] * st[1] == p1;
      assert gx[2] * st[2] == p0 && gx[3] * st[3] == p2;
    } else {
      assert gx[0] * st[0] == p3 && gx[1] * st[1] == p2;
      assert gx[2] * st[2] == p1 && gx[3] * st[3] == p0;
    }
  }

  lemma MulReorder(w: int, h: int, c: int, n: int)
    ensures n * (h * (w * c)) == w * (h * (c * n))
    ensures n * (c * (h * w)) == w * (h * (c * n))
  {
    calc {
      n * (h * (w * c));
    ==
      w * (n * (h * c));
    ==
      w * (h * (c * n));
    }
    calc {
      n * (c * (h * w));
    ==
      w * (n * (c * h));
    ==
      w * (h * (c * n));
    }
  }

  lemma ProductGathered(format: TensorFormat, s: seq<int>)
    requires |s| == 4
    ensures Product(Gather(s, Outermost(format))) == Product(s)
  {
    var g := Gather(s, Outermost(format));
    Product4(g);
    Product4(s);
    MulReorder(s[0], s[1], s[2], s[3]);
    if format == FormatNHWC {
      assert g[0] == s[3] && g[1] == s[1] && g[2] == s[0] && g[3] == s[2];
    } else {
      assert g[0] == s[3] && g[1] == s[2] && g[2] == s[1] && g[3] == s[0];
    }
  }

  // ---------------------------------------------------------------------
  // IsConv1x1StrideNot1

  /** A 1x1 convolution (4-d filter whose last two dimensions are 1) with
      two strides, not both 1. */
  function IsConv1x1StrideNot1(filterDims: seq<int>, strides: seq<int>): (r: bool)
    ensures r <==> |filterDims| == 4 && |strides| == 2 && filterDims[2..] == [1, 1] && strides != [1, 1]
  {
    if |filterDims| != 4 || |strides| != 2 then false
    else filterDims[2] == 1 && filterDims[3] == 1 && (strides[0] != 1 || strides[1] != 1)
  }

  // ---------------------------------------------------------------------
  // FactoryKeyCreator

  /** A byte of a std::string. */
  type Byte = b: int | 0 <= b < 256

  /** The character 'x' that ends every piece of a key. */
  const Delimiter: Byte := 120

  /** The pieces of a key, each followed by the delimiter. */
  function Joined(pieces: seq<seq<Byte>>): (r: seq<Byte>)
  {
    if pieces == [] then []
    else Joined(pieces[..|pieces| - 1]) + pieces[|pieces| - 1] + [Delimiter]
  }

  /** The bytes of the two's-complement representation of v in width
      bytes, least significant first (the byte order of the x86 machines
      MKL runs on). */
  function LittleEndian(v: int, width: nat): (r: seq<Byte>)
    ensures |r| == width
    decreases width
  {
    if width == 0 then [] else [v % 256] + LittleEndian(v / 256, width - 1)
  }

  /** The unsigned number whose little-endian bytes are b. */
  function FromLittleEndian(b: seq<Byte>): int
  {
    if b == [] then 0 else b[0] + 256 * FromLittleEndian(b[1..])
  }

  function Pow256(width: nat): (r: int)
    ensures r > 0
  {
    if width == 0 then 1 else 256 * Pow256(width - 1)
  }

  /** What AddAsKey<int> appends for each dimension. */
  function DimPieces(dims: seq<int>): (r: seq<seq<Byte>>)
    ensures |r| == |dims|
  {
    seq(|dims|, i requires 0 <= i < |dims| => LittleEndian(dims[i], 4))
  }

  /** Where the i-th piece starts in the key. */
  function PieceStart(pieces: seq<seq<Byte>>, i: nat): nat
    requires i <= |pieces|
  {
    |Joined(pieces[..i])|
  }

  lemma {:induction false} JoinedPrefix(pieces: seq<seq<Byte>>, i: nat)
    requires i <= |pieces|
    ensures |Joined(pieces[..i])| <= |Joined(pieces)|
    ensures Joined(pieces)[..|Joined(pieces[..i])|] == Joined(pieces[..i])
    decreases |pieces| - i
  {
    if i < |pieces| {
      JoinedPrefix(pieces, i + 1);
      assert pieces[..i + 1][..i] == pieces[..i];
    } else {
      assert pieces[..i] == pieces;
    }
  }

  /** Every piece appears in the key at its start, followed by the
      delimiter. */
  lemma PiecesDelimited(pieces: seq<seq<Byte>>, i: nat)
    requires i < |pieces|
    ensures PieceStart(pieces, i) + |pieces[i]| < |Joined(pieces)|
    ensures Joined(pieces)[PieceStart(pieces, i)..PieceStart(pieces, i) + |pieces[i]|] == pieces[i]
    ensures Joined(pieces)[PieceStart(pieces, i) + |pieces[i]|] == Delimiter
  {
    JoinedPrefix(pieces, i + 1);
    var p := pieces[..i + 1];
    assert p[..|p| - 1] == pieces[..i];
    var s := PieceStart(pieces, i);
    assert Joined(p) == Joined(pieces[..i]) + pieces[i] + [Delimiter];
    assert Joined(pieces)[..|Joined(p)|] == Joined(p);
    assert Joined(p)[s..s + |pieces[i]|] == pieces[i];
  }

  lemma {:induction false} JoinedFront(p: seq<Byte>, pieces: seq<seq<Byte>>)
    ensures Joined([p] + pieces) == p + [Delimiter] + Joined(pieces)
    decreases |pieces|
  {
    if pieces == [] {
      assert [p] + pieces == [p];
      assert [p][..0] == [];
    } else {
      var l := |pieces| - 1;
      assert ([p] + pieces)[..l + 1] == [p] + pieces[..l];
      JoinedFront(p, pieces[..l]);
    }
  }

  /** FromLittleEndian undoes LittleEndian up to the width: the bytes hold
      v modulo 256^width. */
  lemma {:induction false} LittleEndianRoundTrip(v: int, width: nat)
    ensures FromLittleEndian(LittleEndian(v, width)) == v % Pow256(width)
    decreases width
  {
    if width > 0 {
      var q, r := v / 256, v % 256;
      var p := Pow256(width - 1);
      LittleEndianRoundTrip(q, width - 1);
      assert LittleEndian(v, width)[1..] == LittleEndian(q, width - 1);
      assert FromLittleEndian(LittleEndian(v, width)) == r + 256 * (q % p);
      assert v == (q / p) * (256 * p) + (r + 256 * (q % p)) by {
        assert q == (q / p) * p + q % p;
      }
      assert r + 256 * (q % p) < 256 * p by {
        assert q % p <= p - 1;
      }
      DivModUnique(v, 256 * p, q / p, r + 256 * (q % p));
    }
  }

  /** Reads a key of dimensions back, four value bytes and a delimiter at a
      time. */
  function DecodeDims(key: seq<Byte>): (r: seq<int>)
    decreases |key|
  {
    if |key| < 5 then [] else [FromLittleEndian(key[..4])] + DecodeDims(key[5..])
  }

  /** Each dimension modulo 2^32. */
  function Truncated(dims: seq<int>): (r: seq<int>)
    ensures |r| == |dims|
  {
    if dims == [] then [] else [dims[0] % Pow256(4)] + Truncated(dims[1..])
  }

  /** Dimensions already in the int range are kept as they are. */
  lemma {:induction false} TruncatedInRange(dims: seq<int>)
    requires forall i :: 0 <= i < |dims| ==> 0 <= dims[i] < 0x1_0000_0000
    ensures Truncated(dims) == dims
  {
    if dims != [] {
      assert Pow256(4) == 0x1_0000_0000;
      TruncatedInRange(dims[1..]);
    }
  }

  lemma DimPiecesCons(dims: seq<int>)
    requires dims != []
    ensures DimPieces(dims) == [LittleEndian(dims[0], 4)] + DimPieces(dims[1..])
  {
  }

  lemma DimPiecesSnoc(dims: seq<int>, i: nat)
    requires i < |dims|
    ensures DimPieces(dims[..i + 1]) == DimPieces(dims[..i]) + [LittleEndian(dims[i], 4)]
  {
  }

  /** A key that starts with four value bytes and a delimiter decodes to
      their value, then the rest. */
  lemma DecodeFront(first: seq<Byte>, tail: seq<Byte>)
    requires |first| == 4
    ensures DecodeDims(first + [Delimiter] + tail) == [FromLittleEndian(first)] + DecodeDims(tail)
  {
    var key := first + [Delimiter] + tail;
    assert key[..4] == first;
    assert key[5..] == tail;
  }

  /** The key of a list of dimensions determines every dimension modulo
      2^32, the range of the int each one is converted to. */
  lemma {:induction false} DimsKeyDecodes(dims: seq<int>)
    ensures DecodeDims(Joined(DimPieces(dims))) == Truncated(dims)
    decreases |dims|
  {
    if dims == [] {
      assert DimPieces(dims) == [];
    } else {
      var first := LittleEndian(dims[0], 4);
      var rest := DimPieces(dims[1..]);
      DimPiecesCons(dims);
      JoinedFront(first, rest);
      DecodeFront(first, Joined(rest));
      LittleEndianRoundTrip(dims[0], 4);
      DimsKeyDecodes(dims[1..]);
    }
  }

  /** Two lists of 32-bit dimensions with the same key are the same. */
  lemma DimsKeyInjective(a: seq<int>, b: seq<int>)
    requires forall i :: 0 <= i < |a| ==> 0 <= a[i] < 0x1_0000_0000
    requires forall i :: 0 <= i < |b| ==> 0 <= b[i] < 0x1_0000_0000
    requires Joined(DimPieces(a)) == Joined(DimPieces(b))
    ensures a == b
  {
    DimsKeyDecodes(a);
    DimsKeyDecodes(b);
    TruncatedInRange(a);
    TruncatedInRange(b);
  }

  /** Builds the key that names a primitive in the pool. */
  class FactoryKeyCreator {
    var key: seq<Byte>
    ghost var pieces: seq<seq<Byte>>

    ghost predicate Valid()
      reads this
    {
      key == Joined(pieces)
    }

    constructor ()
      ensures Valid() && pieces == [] && key == []
    {
      key := [];
      pieces := [];
    }

    /** Append: the piece, then the delimiter. */
    method Append(s: seq<Byte>)
      requires Valid()
      modifies this
      ensures Valid() && pieces == old(pieces) + [s]
      ensures key == old(key) + s + [Delimiter]
    {
      key := key + s + [Delimiter];
      pieces := pieces + [s];
      assert pieces[..|pieces| - 1] == old(pieces);
    }

    /** AddAsKey(string). */
    method AddAsKeyString(str: seq<Byte>)
      requires Valid()
      modifies this
      ensures Valid() && pieces == old(pieces) + [str]
    {
      Append(str);
    }

    /** AddAsKey<T>: the width bytes of a scalar's representation. */
    method AddAsKeyValue(data: int, width: nat)
      requires Valid()
      modifies this
      ensures Valid() && pieces == old(pieces) + [LittleEndian(data, width)]
    {
      Append(LittleEndian(data, width));
    }

    /** AddAsKey(dims): each dimension as a 4-byte int. */
    method AddAsKeyDims(dims: seq<int>)
      requires Valid()
      modifies this
      ensures Valid() && pieces == old(pieces) + DimPieces(dims)
    {
      for i := 0 to |dims|
        invariant Valid() && pieces == old(pieces) + DimPieces(dims[..i])
      {
        AddAsKeyValue(dims[i], 4);
        DimPiecesSnoc(dims, i);
      }
      assert dims[..|dims|] == dims;
    }

    method GetKey() returns (k: seq<Byte>)
      ensures k == key
    {
      k := key;
    }
  }

  // ---------------------------------------------------------------------
  // LRUCache

  /** A cached primitive, by address; a pointer passed in is never null. */
  type Op = nat

  /** A node of the recency list: std::list nodes have an identity of their
      own, so the same key may sit in two of them. */
  datatype Slot = Slot(id: nat, key: string)

  /** A cache entry: the primitive and the list node it points at. */
  datatype Entry = Entry(op: Op, slot: nat)

  /** The keys of the recency list, most recently used first. */
  function Keys(l: seq<Slot>): (r: seq<string>)
    ensures |r| == |l|
  {
    if l == [] then [] else [l[0].key] + Keys(l[1..])
  }

  /** std::list::erase of the node with the given identity. */
  function RemoveId(l: seq<Slot>, id: nat): (r: seq<Slot>)
    ensures forall x :: x in r ==> x in l
  {
    if l == [] then []
    else if l[0].id == id then l[1..]
    else [l[0]] + RemoveId(l[1..], id)
  }

  /** The sequence without the first occurrence of k. */
  function Without(s: seq<string>, k: string): (r: seq<string>)
  {
    if s == [] then []
    else if s[0] == k then s[1..]
    else [s[0]] + Without(s[1..], k)
  }

  predicate DistinctIds(l: seq<Slot>)
  {
    forall i, j :: 0 <= i < j < |l| ==> l[i].id != l[j].id
  }

  predicate DistinctKeys(l: seq<Slot>)
  {
    forall i, j :: 0 <= i < j < |l| ==> l[i].key != l[j].key
  }

  /** What every operation keeps, whatever its arguments: list nodes are
      distinct and older than the next one to be made, every entry points
      at a node of its own key, and the list is no longer than the
      capacity allows. */
  predicate Linked(lru: seq<Slot>, cache: map<string, Entry>, nextId: nat, capacity: nat)
  {
    && DistinctIds(lru)
    && (forall i :: 0 <= i < |lru| ==> lru[i].id < nextId)
    && (forall k :: k in cache ==> Slot(cache[k].slot, k) in lru)
    && |lru| <= Max(capacity, 1)
  }

  /** Every node of the list is the node of its key's entry: the list and
      the map then describe the same keys, each once. */
  predicate Exact(lru: seq<Slot>, cache: map<string, Entry>)
  {
    forall i :: 0 <= i < |lru| ==> lru[i].key in cache && cache[lru[i].key].slot == lru[i].id
  }

  lemma ExactDistinctKeys(lru: seq<Slot>, cache: map<string, Entry>)
    requires DistinctIds(lru) && Exact(lru, cache)
    ensures DistinctKeys(lru)
  {
  }

  lemma ListTail(l: seq<Slot>, x: Slot) returns (m: nat)
    requires l != [] && x in l[1..]
    ensures 1 <= m < |l| && l[m] == x
  {
    var j :| 0 <= j < |l[1..]| && l[1..][j] == x;
    m := j + 1;
  }

  /** Erasing a node keeps the other nodes, in order, and drops that one. */
  lemma {:induction false} RemoveIdMembers(l: seq<Slot>, id: nat)
    requires DistinctIds(l)
    ensures forall x :: x in RemoveId(l, id) <==> x in l && x.id != id
    ensures DistinctIds(RemoveId(l, id))
  {
    if l != [] {
      RemoveIdMembers(l[1..], id);
      forall x | x in l[1..] ensures x.id != l[0].id {
        var m := ListTail(l, x);
      }
      if l[0].id != id {
        var r := RemoveId(l[1..], id);
        assert RemoveId(l, id) == [l[0]] + r;
        forall x | x in l && x.id != id ensures x in [l[0]] + r {
          if x != l[0] { var j :| 0 <= j < |l| && l[j] == x; assert x in l[1..]; }
        }
      }
    }
  }

  lemma {:induction false} RemoveIdLength(l: seq<Slot>, id: nat, k: string)
    requires Slot(id, k) in l
    ensures |RemoveId(l, id)| == |l| - 1
  {
    if l[0].id != id {
      assert Slot(id, k) in l[1..];
      RemoveIdLength(l[1..], id, k);
    }
  }

  /** With keys listed once, erasing the node of key k removes k from the
      keys. */
  lemma {:induction false} RemoveIdKeys(l: seq<Slot>, id: nat, k: string)
    requires DistinctIds(l) && DistinctKeys(l) && Slot(id, k) in l
    ensures Keys(RemoveId(l, id)) == Without(Keys(l), k)
  {
    if l[0].id == id {
      var j :| 0 <= j < |l| && l[j] == Slot(id, k);
      assert j == 0;
    } else {
      assert l[0].key != k by {
        var m :| 0 <= m < |l| && l[m] == Slot(id, k);
        assert m != 0;
      }
      assert Slot(id, k) in l[1..];
      assert DistinctIds(l[1..]) && DistinctKeys(l[1..]);
      RemoveIdKeys(l[1..], id, k);
      var r := RemoveId(l[1..], id);
      assert RemoveId(l, id) == [l[0]] + r;
      assert ([l[0]] + r)[1..] == r;
    }
  }

  /** GetOp on a present key keeps the invariants and the list's length,
      and with keys listed once it moves the key to the front. */
  lemma TouchKeeps(lru: seq<Slot>, cache: map<string, Entry>, nextId: nat, capacity: nat, key: string,
                   lru': seq<Slot>, cache': map<string, Entry>)
    requires Linked(lru, cache, nextId, capacity) && key in cache
    requires lru' == [Slot(nextId, key)] + RemoveId(lru, cache[key].slot)
    requires cache' == cache[key := Entry(cache[key].op, nextId)]
    ensures Linked(lru', cache', nextId + 1, capacity) && |lru'| == |lru|
    ensures Exact(lru, cache) ==> Exact(lru', cache') && Keys(lru') == [key] + Without(Keys(lru), key)
  {
    TouchLinked(lru, cache, nextId, capacity, key);
    if Exact(lru, cache) {
      TouchExact(lru, cache, nextId, capacity, key);
      ExactDistinctKeys(lru, cache);
      RemoveIdKeys(lru, cache[key].slot, key);
      assert lru'[1..] == RemoveId(lru, cache[key].slot);
    }
  }

  lemma TouchLinked(lru: seq<Slot>, cache: map<string, Entry>, nextId: nat, capacity: nat, key: string)
    requires Linked(lru, cache, nextId, capacity) && key in cache
    ensures var rest := RemoveId(lru, cache[key].slot);
      Linked([Slot(nextId, key)] + rest, cache[key := Entry(cache[key].op, nextId)], nextId + 1, capacity) &&
      |rest| + 1 == |lru|
  {
    var e := cache[key];
    var rest := RemoveId(lru, e.slot);
    RemoveIdMembers(lru, e.slot);
    RemoveIdLength(lru, e.slot, key);
    TouchEntries(lru, cache, key, rest, nextId);
    TouchIds(lru, nextId, key, rest);
  }

  /** After a touch every entry still points at a listed node of its key. */
  lemma TouchEntries(lru: seq<Slot>, cache: map<string, Entry>, key: string, rest: seq<Slot>, nextId: nat)
    requires key in cache && forall k :: k in cache ==> Slot(cache[k].slot, k) in lru
    requires DistinctIds(lru)
    requires forall x :: x in rest <==> x in lru && x.id != cache[key].slot
    ensures var cache' := cache[key := Entry(cache[key].op, nextId)];
      forall k :: k in cache' ==> Slot(cache'[k].slot, k) in [Slot(nextId, key)] + rest
  {
    var cache' := cache[key := Entry(cache[key].op, nextId)];
    forall k | k in cache' ensures Slot(cache'[k].slot, k) in [Slot(nextId, key)] + rest {
      if k != key {
        var i :| 0 <= i < |lru| && lru[i] == Slot(cache[k].slot, k);
        var j :| 0 <= j < |lru| && lru[j] == Slot(cache[key].slot, key);
        assert i != j;
        assert Slot(cache[k].slot, k) in rest;
      }
    }
  }

  /** After a touch the list's nodes are still distinct and older than the
      next one. */
  lemma TouchIds(lru: seq<Slot>, nextId: nat, key: string, rest: seq<Slot>)
    requires forall i :: 0 <= i < |lru| ==> lru[i].id < nextId
    requires DistinctIds(rest) && forall x :: x in rest ==> x in lru
    ensures DistinctIds([Slot(nextId, key)] + rest)
    ensures forall i :: 0 <= i < |rest| + 1 ==> ([Slot(nextId, key)] + rest)[i].id < nextId + 1
  {
    var lru' := [Slot(nextId, key)] + rest;
    forall j | 0 <= j < |rest| ensures rest[j].id < nextId {
      assert rest[j] in rest;
      var m :| 0 <= m < |lru| && lru[m] == rest[j];
    }
    forall i, j | 0 <= i < j < |lru'| ensures lru'[i].id != lru'[j].id {
      if i > 0 { assert lru'[i] == rest[i - 1] && lru'[j] == rest[j - 1]; }
      else { assert lru'[j] == rest[j - 1]; }
    }
  }

  lemma TouchExact(lru: seq<Slot>, cache: map<string, Entry>, nextId: nat, capacity: nat, key: string)
    requires Linked(lru, cache, nextId, capacity) && key in cache && Exact(lru, cache)
    ensures Exact([Slot(nextId, key)] + RemoveId(lru, cache[key].slot), cache[key := Entry(cache[key].op, nextId)])
  {
    var e := cache[key];
    var rest := RemoveId(lru, e.slot);
    var cache' := cache[key := Entry(e.op, nextId)];
    RemoveIdMembers(lru, e.slot);
    RestExact(lru, cache, key, rest, nextId);
    ExactCons(Slot(nextId, key), rest, cache');
  }

  /** The nodes left after erasing a key's node still match the map once
      that key's entry points elsewhere. */
  lemma RestExact(lru: seq<Slot>, cache: map<string, Entry>, key: string, rest: seq<Slot>, nextId: nat)
    requires key in cache && Exact(lru, cache)
    requires forall x :: x in rest ==> x in lru && x.id != cache[key].slot
    ensures Exact(rest, cache[key := Entry(cache[key].op, nextId)])
  {
    var cache' := cache[key := Entry(cache[key].op, nextId)];
    forall j | 0 <= j < |rest| ensures rest[j].key in cache' && cache'[rest[j].key].slot == rest[j].id {
      assert rest[j] in rest;
      var m :| 0 <= m < |lru| && lru[m] == rest[j];
      assert cache[lru[m].key].slot == lru[m].id;
    }
  }

  lemma ExactCons(s: Slot, rest: seq<Slot>, cache: map<string, Entry>)
    requires s.key in cache && cache[s.key].slot == s.id && Exact(rest, cache)
    ensures Exact([s] + rest, cache)
  {
    forall j | 0 <= j < |rest| + 1 ensures ([s] + rest)[j].key in cache && cache[([s] + rest)[j].key].slot == ([s] + rest)[j].id {
      if j > 0 { assert ([s] + rest)[j] == rest[j - 1]; }
    }
  }

  /** Delete on a non-empty list keeps the invariants. */
  lemma EvictKeeps(lru: seq<Slot>, cache: map<string, Entry>, nextId: nat, capacity: nat)
    requires Linked(lru, cache, nextId, capacity) && lru != []
    ensures Linked(lru[..|lru| - 1], cache - {lru[|lru| - 1].key}, nextId, capacity)
    ensures Exact(lru, cache) ==> Exact(lru[..|lru| - 1], cache - {lru[|lru| - 1].key})
  {
    EvictEntries(lru, cache);
    if Exact(lru, cache) {
      EvictExact(lru, cache);
    }
  }

  lemma EvictEntries(lru: seq<Slot>, cache: map<string, Entry>)
    requires lru != [] && DistinctIds(lru) && forall k :: k in cache ==> Slot(cache[k].slot, k) in lru
    ensures var cache' := cache - {lru[|lru| - 1].key};
      forall k :: k in cache' ==> Slot(cache'[k].slot, k) in lru[..|lru| - 1]
  {
    var n := |lru|;
    var cache' := cache - {lru[n - 1].key};
    forall k | k in cache' ensures Slot(cache'[k].slot, k) in lru[..n - 1] {
      var j :| 0 <= j < n && lru[j] == Slot(cache[k].slot, k);
      assert j != n - 1;
      assert lru[..n - 1][j] == lru[j];
    }
  }

  lemma EvictExact(lru: seq<Slot>, cache: map<string, Entry>)
    requires lru != [] && DistinctIds(lru) && Exact(lru, cache)
    ensures Exact(lru[..|lru| - 1], cache - {lru[|lru| - 1].key})
  {
    var n := |lru|;
    var cache' := cache - {lru[n - 1].key};
    var front := lru[..n - 1];
    forall i | 0 <= i < n - 1 ensures front[i].key in cache' && cache'[front[i].key].slot == front[i].id {
      assert front[i] == lru[i];
      assert lru[i].id != lru[n - 1].id;
    }
  }

  /** The insertion half of SetOp keeps the invariants when the list has
      room, and keeps keys listed once when the key has no entry. */
  lemma InsertKeeps(lru: seq<Slot>, cache: map<string, Entry>, nextId: nat, capacity: nat, key: string, op: Op,
                    lru': seq<Slot>, cache': map<string, Entry>)
    requires Linked(lru, cache, nextId, capacity) && |lru| < Max(capacity, 1)
    requires lru' == [Slot(nextId, key)] + lru
    requires cache' == (if key in cache then cache else cache[key := Entry(op, nextId)])
    ensures Linked(lru', cache', nextId + 1, capacity)
    ensures Exact(lru, cache) && key !in cache ==> Exact(lru', cache')
  {
    forall k | k in cache' ensures Slot(cache'[k].slot, k) in lru' {
      if k == key && key !in cache {
        assert lru'[0] == Slot(cache'[k].slot, k);
      } else {
        assert Slot(cache[k].slot, k) in lru;
        assert lru'[1..] == lru;
      }
    }
    if Exact(lru, cache) && key !in cache {
      forall j | 1 <= j < |lru'| ensures lru'[j].key in cache' && cache'[lru'[j].key].slot == lru'[j].id {
        assert lru'[j] == lru[j - 1];
      }
    }
  }

  /** The cache never holds more entries than its list has nodes, so the
      capacity bounds the number of cached primitives. */
  lemma CacheWithinCapacity(lru: seq<Slot>, cache: map<string, Entry>, nextId: nat, capacity: nat)
    requires Linked(lru, cache, nextId, capacity)
    ensures |cache| <= |lru| <= Max(capacity, 1)
  {
    var listed := set i | 0 <= i < |lru| :: lru[i].key;
    assert cache.Keys <= listed by {
      forall k | k in cache ensures k in listed {
        var i :| 0 <= i < |lru| && lru[i] == Slot(cache[k].slot, k);
      }
    }
    CardSubset(cache.Keys, listed);
    KeysCard(lru);
  }

  lemma {:induction false} KeysCard(l: seq<Slot>)
    ensures |set i | 0 <= i < |l| :: l[i].key| <= |l|
  {
    if l != [] {
      KeysCard(l[1..]);
      var t := set i | 0 <= i < |l[1..]| :: l[1..][i].key;
      assert (set i | 0 <= i < |l| :: l[i].key) <= {l[0].key} + t by {
        forall i | 0 <= i < |l| ensures l[i].key in {l[0].key} + t {
          if i > 0 { assert l[i] == l[1..][i - 1]; }
        }
      }
      CardSubset(set i | 0 <= i < |l| :: l[i].key, {l[0].key} + t);
    }
  }

  /** Under Exact, the keys of the cache are the keys of the list, so the
      cache has exactly one entry per node. */
  lemma ExactSameKeys(lru: seq<Slot>, cache: map<string, Entry>, nextId: nat, capacity: nat)
    requires Linked(lru, cache, nextId, capacity) && Exact(lru, cache)
    ensures cache.Keys == set i | 0 <= i < |lru| :: lru[i].key
    ensures DistinctKeys(lru) && |cache| == |lru|
  {
    ExactDistinctKeys(lru, cache);
    forall k | k in cache ensures k in set i | 0 <= i < |lru| :: lru[i].key {
      var j :| 0 <= j < |lru| && lru[j] == Slot(cache[k].slot, k);
    }
    DistinctKeysCard(lru);
  }

  lemma {:induction false} DistinctKeysCard(l: seq<Slot>)
    requires DistinctKeys(l)
    ensures |set i | 0 <= i < |l| :: l[i].key| == |l|
  {
    if l != [] {
      assert DistinctKeys(l[1..]);
      DistinctKeysCard(l[1..]);
      var t := set i | 0 <= i < |l[1..]| :: l[1..][i].key;
      assert (set i | 0 <= i < |l| :: l[i].key) == {l[0].key} + t by {
        forall i | 0 <= i < |l| ensures l[i].key in {l[0].key} + t {
          if i > 0 { assert l[i] == l[1..][i - 1]; }
        }
      }
      assert l[0].key !in t;
    }
  }

  /** An entry's node is older than the next node to be made. */
  lemma SlotBelow(lru: seq<Slot>, cache: map<string, Entry>, nextId: nat, capacity: nat, key: string)
    requires Linked(lru, cache, nextId, capacity) && key in cache
    ensures cache[key].slot < nextId
  {
    var j :| 0 <= j < |lru| && lru[j] == Slot(cache[key].slot, key);
  }

  /** A key listed at the front whose entry points at another node breaks
      Exact. */
  lemma StaleNotExact(lru: seq<Slot>, cache: map<string, Entry>, key: string, id: nat)
    requires |lru| > 0 && lru[0] == Slot(id, key) && key in cache && cache[key].slot != id
    ensures !Exact(lru, cache)
  {
  }

  /** The list once SetOp has made room: its back node is dropped when it
      is at capacity. */
  function Evicted(lru: seq<Slot>, capacity: nat): (r: seq<Slot>)
    ensures |lru| >= capacity && lru != [] ==> |r| == |lru| - 1 && r == lru[..|lru| - 1]
    ensures |lru| < capacity || lru == [] ==> r == lru
  {
    if |lru| >= capacity && lru != [] then lru[..|lru| - 1] else lru
  }

  /** Whether making room evicts the given key's node. */
  predicate EvictsKey(lru: seq<Slot>, capacity: nat, key: string)
  {
    |lru| >= capacity && lru != [] && lru[|lru| - 1].key == key
  }

  /** The map once SetOp has made room: the evicted node's key is erased. */
  function Survivors(lru: seq<Slot>, cache: map<string, Entry>, capacity: nat): (r: map<string, Entry>)
    ensures r.Keys <= cache.Keys && forall k :: k in r ==> r[k] == cache[k]
    ensures |lru| >= capacity && lru != [] ==> r == cache - {lru[|lru| - 1].key}
    ensures |lru| < capacity || lru == [] ==> r == cache
  {
    if |lru| >= capacity && lru != [] then cache - {lru[|lru| - 1].key} else cache
  }

  /** The map once SetOp has stored op under key, unless key has an entry. */
  function Stored(cache: map<string, Entry>, key: string, op: Op, id: nat): (r: map<string, Entry>)
    ensures key in r && r.Keys == cache.Keys + {key}
    ensures key in cache ==> r == cache
    ensures key !in cache ==> r[key] == Entry(op, id)
  {
    if key in cache then cache else cache[key := Entry(op, id)]
  }

  /** Setting a key whose entry survives the eviction lists the key at the
      front with a fresh node while its entry keeps pointing at the old
      one. */
  lemma SetOpStale(lru: seq<Slot>, cache: map<string, Entry>, nextId: nat, capacity: nat, key: string, op: Op)
    requires Linked(lru, cache, nextId, capacity)
    requires key in cache && !EvictsKey(lru, capacity, key)
    ensures var c := Stored(Survivors(lru, cache, capacity), key, op, nextId);
      key in c && c[key] == cache[key] && !Exact([Slot(nextId, key)] + Evicted(lru, capacity), c)
  {
    SlotBelow(lru, cache, nextId, capacity, key);
    var c := Stored(Survivors(lru, cache, capacity), key, op, nextId);
    assert key in Survivors(lru, cache, capacity);
    StaleNotExact([Slot(nextId, key)] + Evicted(lru, capacity), c, key, nextId);
  }

  /** The thread-local cache of primitives: a map from key to entry and a
      list of keys, most recently used first. */
  class LRUCache {
    const capacity: nat
    var lru: seq<Slot>
    var cache: map<string, Entry>
    /** The identity the next list node gets. */
    var nextId: nat

    ghost predicate Valid()
      reads this
    {
      Linked(lru, cache, nextId, capacity)
    }

    /** The keys of the list, front first. */
    function Recency(): seq<string>
      reads this
    {
      Keys(lru)
    }

    /** An empty cache of the given capacity. */
    constructor (capacity: nat)
      ensures Valid() && Exact(lru, cache)
      ensures this.capacity == capacity && lru == [] && cache == map[]
    {
      this.capacity := capacity;
      lru := [];
      cache := map[];
      nextId := 0;
    }

    /** GetOp: a missing key gives null and changes nothing; a present one
        gives its primitive and moves its key to the front of the list. */
    method GetOp(key: string) returns (op: Option<Op>)
      requires Valid()
      modifies this
      ensures Valid()
      ensures key !in old(cache) ==>
        op == None && lru == old(lru) && cache == old(cache) && nextId == old(nextId)
      ensures key in old(cache) ==>
        && op == Some(old(cache[key].op))
        && lru == [Slot(old(nextId), key)] + RemoveId(old(lru), old(cache[key].slot))
        && cache == old(cache)[key := Entry(old(cache[key].op), old(nextId))]
        && |lru| == |old(lru)|
      ensures key in old(cache) && old(Exact(lru, cache)) ==>
        Exact(lru, cache) && Recency() == [key] + Without(old(Recency()), key)
    {
      if key !in cache {
        return None;
      }
      var e := cache[key];
      var lru' := [Slot(nextId, key)] + RemoveId(lru, e.slot);
      var cache' := cache[key := Entry(e.op, nextId)];
      TouchKeeps(lru, cache, nextId, capacity, key, lru', cache');
      lru, cache, nextId := lru', cache', nextId + 1;
      op := Some(e.op);
    }

    /** SetOp: when the list is at capacity the least recently used key is
        evicted first; the key is then listed at the front, and the
        primitive is stored unless the key still has an entry. */
    method SetOp(key: string, op: Op)
      requires Valid()
      modifies this
      ensures Valid()
      ensures lru == [Slot(old(nextId), key)] + Evicted(old(lru), capacity)
      ensures cache == Stored(Survivors(old(lru), old(cache), capacity), key, op, old(nextId))
      ensures key !in old(cache) && old(Exact(lru, cache)) ==> Exact(lru, cache)
      ensures key in old(cache) && !EvictsKey(old(lru), capacity, key) ==>
        key in cache && cache[key] == old(cache[key]) && !Exact(lru, cache)
    {
      if |lru| >= capacity {
        var _ := Delete();
      }
      assert lru == Evicted(old(lru), capacity) && cache == Survivors(old(lru), old(cache), capacity);
      var lru' := [Slot(nextId, key)] + lru;
      var cache' := if key in cache then cache else cache[key := Entry(op, nextId)];
      InsertKeeps(lru, cache, nextId, capacity, key, op, lru', cache');
      lru, cache, nextId := lru', cache', nextId + 1;
      if key in old(cache) && !EvictsKey(old(lru), capacity, key) {
        SetOpStale(old(lru), old(cache), old(nextId), capacity, key, op);
      }
    }

    /** Delete: nothing happens to an empty cache; otherwise the list's
        last node is dropped and its key's entry erased. */
    method Delete() returns (deleted: bool)
      requires Valid()
      modifies this
      ensures Valid() && nextId == old(nextId)
      ensures deleted <==> old(lru) != []
      ensures !deleted ==> lru == old(lru) && cache == old(cache)
      ensures deleted ==>
        lru == old(lru)[..|old(lru)| - 1] && cache == old(cache) - {old(lru)[|old(lru)| - 1].key}
      ensures old(Exact(lru, cache)) ==> Exact(lru, cache)
    {
      if lru == [] {
        return false;
      }
      EvictKeeps(lru, cache, nextId, capacity);
      var last := lru[|lru| - 1];
      lru := lru[..|lru| - 1];
      cache := cache - {last.key};
      deleted := true;
    }

    /** Clear: a cache whose list is empty is left alone, otherwise the map
        and the list are emptied; in either case both end up empty. */
    method Clear()
      requires Valid()
      modifies this
      ensures Valid() && nextId == old(nextId)
      ensures lru == [] && cache == map[]
      ensures old(lru) == [] ==> cache == old(cache)
    {
      if lru == [] {
        CacheWithinCapacity(lru, cache, nextId, capacity);
        return;
      }
      cache := map[];
      lru := [];
    }
  }
}
