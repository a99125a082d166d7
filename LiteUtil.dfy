// TFLite's small utilities: recognising Flex custom ops by name, copying and
// comparing dimension arrays, combining hashes, the byte sizes of tensor
// element types, the name of an op registration, and the placeholder
// registration for custom ops nobody resolved.
module LiteUtil {
  import opened Common

  // ---------------------------------------------------------------------
  // IsFlexOp: strncmp against the Flex prefix
  // ---------------------------------------------------------------------

  /** The prefix of custom op codes handled by the Flex delegate. */
  const FlexPrefix: string := "Flex"

  /** The character a C string reads at position i: the one stored there,
      or the terminating NUL past its end. */
  function CharAt(s: string, i: nat): char
  {
    if i < |s| then s[i] else '\0'
  }

  /** strncmp: compares at most n characters, stopping after a NUL; the
      result is the difference of the first differing characters or 0. */
  function StrNCmp(a: string, b: string, n: nat): int
    decreases n
  {
    if n == 0 then 0
    else if CharAt(a, 0) != CharAt(b, 0) then CharAt(a, 0) as int - CharAt(b, 0) as int
    else if CharAt(a, 0) == '\0' then 0
    else StrNCmp(a[1..], b[1..], n - 1)
  }

  /** The first (at most) n characters of the C string s: they stop at the
      first NUL. */
  function CPrefix(s: string, n: nat): string
    decreases n
  {
    if n == 0 || CharAt(s, 0) == '\0' then "" else [s[0]] + CPrefix(s[1..], n - 1)
  }

  /** strncmp returns 0 exactly when the two C strings agree on their first
      n characters (a shorter string agreeing up to its end only with a
      string that ends there too). */
  lemma {:induction false} StrNCmpZeroIff(a: string, b: string, n: nat)
    ensures StrNCmp(a, b, n) == 0 <==> CPrefix(a, n) == CPrefix(b, n)
    decreases n
  {
    if n > 0 && CharAt(a, 0) == CharAt(b, 0) && CharAt(a, 0) != '\0' {
      StrNCmpZeroIff(a[1..], b[1..], n - 1);
      var pa, pb := CPrefix(a[1..], n - 1), CPrefix(b[1..], n - 1);
      assert CPrefix(a, n) == [a[0]] + pa && CPrefix(b, n) == [b[0]] + pb;
      assert [a[0]] + pa == [a[0]] + pb ==> pa == pb by {
        if [a[0]] + pa == [a[0]] + pb {
          assert pa == ([a[0]] + pa)[1..];
        }
      }
    } else if n > 0 && CharAt(a, 0) != CharAt(b, 0) {
      assert CPrefix(a, n) == [] || CPrefix(a, n)[0] == CharAt(a, 0);
      assert CPrefix(b, n) == [] || CPrefix(b, n)[0] == CharAt(b, 0);
    }
  }

  /** IsFlexOp: a custom op name (possibly null) names a Flex op. */
  predicate IsFlexOp(customName: Option<string>)
  {
    customName.Some? && StrNCmp(customName.value, FlexPrefix, |FlexPrefix|) == 0
  }

  /** No NUL inside: the string is the C string it denotes. */
  predicate NulFree(s: string)
  {
    forall i :: 0 <= i < |s| ==> s[i] != '\0'
  }

  /** Without NULs, the C prefix is the string's own prefix. */
  lemma {:induction false} CPrefixOfNulFree(s: string, n: nat)
    requires NulFree(s)
    ensures CPrefix(s, n) == s[..Min(n, |s|)]
    decreases n
  {
    if n > 0 && |s| > 0 {
      CPrefixOfNulFree(s[1..], n - 1);
    }
  }

  /** A null name is not a Flex op; any other name is one exactly when it
      starts with "Flex". */
  lemma IsFlexOpIff(customName: Option<string>)
    requires customName.Some? ==> NulFree(customName.value)
    ensures customName.None? ==> !IsFlexOp(customName)
    ensures customName.Some? ==> (IsFlexOp(customName) <==> StartsWith(customName.value, FlexPrefix))
  {
    if customName.Some? {
      var s := customName.value;
      StrNCmpZeroIff(s, FlexPrefix, 4);
      CPrefixOfNulFree(s, 4);
      CPrefixOfNulFree(FlexPrefix, 4);
    }
  }

  // ---------------------------------------------------------------------
  // Dimension arrays
  // ---------------------------------------------------------------------

  /** ConvertArrayToTfLiteIntArray: a fresh array of `rank` elements holding
      the first `rank` entries of dims. */
  method ConvertArrayToTfLiteIntArray(rank: int, dims: seq<int>) returns (output: array<int>)
    requires 0 <= rank <= |dims|
    ensures fresh(output)
    ensures output[..] == dims[..rank]
  {
    output := new int[rank];
    var i := 0;
    while i < rank
      invariant 0 <= i <= rank
      invariant output[..i] == dims[..i]
      modifies output
    {
      output[i] := dims[i];
      i := i + 1;
      assert output[..i] == output[..i - 1] + [output[i - 1]];
    }
    assert output[..] == output[..rank];
  }

  /** ConvertVectorToTfLiteIntArray: the whole vector copied. */
  method ConvertVectorToTfLiteIntArray(input: seq<int>) returns (output: array<int>)
    ensures fresh(output)
    ensures output[..] == input
  {
    output := ConvertArrayToTfLiteIntArray(|input|, input);
    assert input[..|input|] == input;
  }

  /** EqualArrayAndTfLiteIntArray: a (possibly null) array equals the first
      bSize entries of b: same size and the same elements in order. */
  method EqualArrayAndTfLiteIntArray(a: array?<int>, bSize: int, b: seq<int>) returns (r: bool)
    requires bSize <= |b|
    ensures r <==> a != null && a.Length == bSize && a[..] == b[..bSize]
  {
    if a == null {
      return false;
    }
    if a.Length != bSize {
      return false;
    }
    var i := 0;
    while i < a.Length
      invariant 0 <= i <= a.Length
      invariant a[..i] == b[..i]
    {
      if a[i] != b[i] {
        assert a[..][i] != b[..bSize][i];
        return false;
      }
      i := i + 1;
      assert a[..i] == a[..i - 1] + [a[i - 1]];
      assert b[..i] == b[..i - 1] + [b[i - 1]];
    }
    assert a[..] == a[..a.Length];
    return true;
  }

  // ---------------------------------------------------------------------
  // CombineHashes (size_t is 64 bits wide)
  // ---------------------------------------------------------------------

  const HashSeed: bv64 := 0x9e37_79b9_7f4a_7800

  /** One step of TensorFlow core's hash combiner, with 64-bit wrap-around. */
  function Mix(result: bv64, hash: bv64): bv64
  {
    result ^ (hash + HashSeed + (result << 10) + (result >> 4))
  }

  /** Folding the hashes left into acc. */
  function FoldFrom(acc: bv64, hashes: seq<bv64>): bv64
    decreases |hashes|
  {
    if |hashes| == 0 then acc else FoldFrom(Mix(acc, hashes[0]), hashes[1..])
  }

  /** Folding a concatenation is folding the second part from where the
      first left off. */
  lemma {:induction false} FoldConcat(acc: bv64, a: seq<bv64>, b: seq<bv64>)
    ensures FoldFrom(acc, a + b) == FoldFrom(FoldFrom(acc, a), b)
    decreases |a|
  {
    if |a| > 0 {
      assert (a + b)[1..] == a[1..] + b;
      FoldConcat(Mix(acc, a[0]), a[1..], b);
    } else {
      assert a + b == b;
    }
  }

  /** CombineHashes: the left fold of Mix over the hashes, starting at 0. */
  method CombineHashes(hashes: seq<bv64>) returns (result: bv64)
    ensures result == FoldFrom(0, hashes)
  {
    result := 0;
    var i := 0;
    while i < |hashes|
      invariant 0 <= i <= |hashes|
      invariant result == FoldFrom(0, hashes[..i])
    {
      FoldConcat(0, hashes[..i], [hashes[i]]);
      assert hashes[..i + 1] == hashes[..i] + [hashes[i]];
      result := Mix(result, hashes[i]);
      i := i + 1;
    }
    assert hashes[..i] == hashes;
  }

  /** No hashes combine to 0, a single hash to itself plus the seed. */
  lemma CombineFewHashes(h: bv64)
    ensures FoldFrom(0, []) == 0
    ensures FoldFrom(0, [h]) == h + HashSeed
  {
    assert FoldFrom(0, [h]) == FoldFrom(Mix(0, h), []);
  }

  // ---------------------------------------------------------------------
  // GetSizeOfType
  // ---------------------------------------------------------------------

  /** The tensor element types (TfLiteType). */
  datatype TfLiteType =
    | NoType | Float32 | Int32 | UInt8 | Int64 | String | Bool | Int16
    | Complex64 | Int8 | Float16

  /** The outcome of GetSizeOfType: the byte size, or an error, reported
      to the context when there is one. */
  datatype SizeResult = SizeOk(bytes: nat) | SizeError(reported: bool)

  /** The number of bits the type's name gives it (a bool takes a byte);
      no width for types without a fixed-size element. */
  function WidthInBits(t: TfLiteType): Option<nat>
  {
    match t
    case Float32 => Some(32)
    case Int32 => Some(32)
    case UInt8 => Some(8)
    case Int64 => Some(64)
    case Bool => Some(8)
    case Complex64 => Some(64)
    case Int16 => Some(16)
    case Int8 => Some(8)
    case Float16 => Some(16)
    case _ => None
  }

  /** GetSizeOfType: sizeof the element type for the nine supported types;
      otherwise an error, reported only when a context is given. */
  function GetSizeOfType(hasContext: bool, t: TfLiteType): (r: SizeResult)
  {
    match t
    case Float32 => SizeOk(4)
    case Int32 => SizeOk(4)
    case UInt8 => SizeOk(1)
    case Int64 => SizeOk(8)
    case Bool => SizeOk(1)
    case Complex64 => SizeOk(8)
    case Int16 => SizeOk(2)
    case Int8 => SizeOk(1)
    case Float16 => SizeOk(2)
    case _ => SizeError(hasContext)
  }

  /** The size agrees with the width in the type's name; the types without
      one fail, and the error is reported iff there is a context. */
  lemma SizeOfTypeMatchesWidth(hasContext: bool, t: TfLiteType)
    ensures GetSizeOfType(hasContext, t).SizeOk? <==> WidthInBits(t).Some?
    ensures GetSizeOfType(hasContext, t).SizeOk? ==>
              8 * GetSizeOfType(hasContext, t).bytes == WidthInBits(t).value
    ensures GetSizeOfType(hasContext, t).SizeError? ==>
              GetSizeOfType(hasContext, t).reported == hasContext
  {
  }

  /** Only the untyped and string element types are unsupported. */
  lemma UnsupportedTypes(hasContext: bool, t: TfLiteType)
    ensures GetSizeOfType(hasContext, t).SizeError? <==> t == NoType || t == String
  {
  }

  // ---------------------------------------------------------------------
  // Registrations
  // ---------------------------------------------------------------------

  const BuiltinCustom: int := 32
  const BuiltinDelegate: int := 51

  /** The invoke function of a registration, by identity. */
  datatype Invoke = NoInvoke | UnresolvedOpInvoke | OtherInvoke(id: nat)

  /** The fields of TfLiteRegistration the utilities read or set. */
  datatype Registration = Registration(
    invoke: Invoke, builtinCode: int, customName: Option<string>, version: int)

  /** GetOpNameByRegistration, given the schema's enum names: the builtin
      op's name, followed by a space and the custom name for CUSTOM and
      DELEGATE registrations that carry one. */
  function GetOpNameByRegistration(enumName: int -> string, reg: Registration): (r: string)
  {
    var base := enumName(reg.builtinCode);
    if (reg.builtinCode == BuiltinCustom || reg.builtinCode == BuiltinDelegate) && reg.customName.Some? then
      base + " " + reg.customName.value
    else
      base
  }

  /** The op name starts with the enum name; what follows is a space and the
      custom name exactly when the op is CUSTOM or DELEGATE with a name, and
      nothing otherwise. */
  lemma OpNameParts(enumName: int -> string, reg: Registration)
    ensures var r := GetOpNameByRegistration(enumName, reg);
            var base := enumName(reg.builtinCode);
            |base| <= |r| && r[..|base|] == base &&
            ((reg.builtinCode == BuiltinCustom || reg.builtinCode == BuiltinDelegate) && reg.customName.Some?
             <==> |r| > |base|) &&
            (|r| > |base| ==> r[|base|..] == " " + reg.customName.value)
  {
    var r := GetOpNameByRegistration(enumName, reg);
    var base := enumName(reg.builtinCode);
    if |r| > |base| {
      assert r == base + " " + reg.customName.value;
      assert r[|base|..] == " " + reg.customName.value;
    }
  }

  /** CreateUnresolvedCustomOp: a CUSTOM registration of version 1 whose
      only function is the one that fails with "unresolved custom op". */
  function CreateUnresolvedCustomOp(customOpName: Option<string>): (r: Registration)
  {
    Registration(UnresolvedOpInvoke, BuiltinCustom, customOpName, 1)
  }

  /** IsUnresolvedCustomOp: a CUSTOM registration invoking the unresolved
      op function. */
  predicate IsUnresolvedCustomOp(reg: Registration)
  {
    reg.builtinCode == BuiltinCustom && reg.invoke == UnresolvedOpInvoke
  }

  /** A created placeholder is recognised as unresolved, and is named after
      CUSTOM and the custom op name. */
  lemma UnresolvedRoundTrip(enumName: int -> string, name: Option<string>)
    ensures IsUnresolvedCustomOp(CreateUnresolvedCustomOp(name))
    ensures GetOpNameByRegistration(enumName, CreateUnresolvedCustomOp(name)) ==
            if name.Some? then enumName(BuiltinCustom) + " " + name.value else enumName(BuiltinCustom)
  {
  }
}
