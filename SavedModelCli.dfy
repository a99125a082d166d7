// saved_model_cli: the parsing of tensor names and of the --inputs,
// --input_exprs and --input_examples arguments of the `run` command, and the
// order in which the three input sources override one another.
module SavedModelCli {
  import opened Common
  import opened PyErrors
  import opened PyStr
  import opened PyDict

  // ---------------------------------------------------------------------
  // Tensor names
  // ---------------------------------------------------------------------

  /** _parse_tensor_name: "node:slot" becomes (node, slot), split at the last
      colon; a name with no colon, or ending in one, is (name, None). A slot
      that is not a decimal literal makes int() raise ValueError. */
  function ParseTensorName(name: string): (r: PyResult<(string, Option<int>)>)
    ensures (':' !in name || name[|name| - 1] == ':') ==> r == Returned((name, None))
    ensures r.Raised? ==> r.exc == ValueError
    ensures ':' in name && name[|name| - 1] != ':' ==>
              (r.Returned? <==> PyInt(name[LastIndexOf(name, ':').value + 1..]).Returned?) &&
              (r.Returned? ==> r.value.1.Some?)
    ensures r.Returned? && r.value.1.Some? ==>
              var node := r.value.0;
              |node| < |name| && name[..|node|] == node && name[|node|] == ':'
              && ':' !in name[|node| + 1..] && PyInt(name[|node| + 1..]) == Returned(r.value.1.value)
  {
    if ':' in name && name[|name| - 1] != ':' then
      var i := LastIndexOf(name, ':').value;
      match PyInt(name[i + 1..])
      case Raised(e) => Raised(e)
      case Returned(slot) =>
        assert name[..i] == name[..|name[..i]|];
        Returned((name[..i], Some(slot)))
    else Returned((name, None))
  }

  /** A node name followed by ':' and an output index parses back to the
      pair, whatever colons the node name itself contains. */
  lemma TensorNameRoundTrip(node: string, slot: int)
    ensures ParseTensorName(node + ":" + IntToString(slot)) == Returned((node, Some(slot)))
  {
    var text := IntToString(slot);
    var name := node + ":" + text;
    IntToStringChars(slot, ':');
    assert name[|node|] == ':' && name[|node| + 1..] == text;
    LastIndexAfter(node, ':', text);
    assert name[..|node|] == node;
    PyIntOfIntToString(slot);
  }

  // ---------------------------------------------------------------------
  // --inputs
  // ---------------------------------------------------------------------

  /** Where one input is loaded from: a file, and the name of an array in it
      when one was given in brackets. */
  datatype FileRef = FileRef(filename: string, variableName: Option<string>)

  predicate NoBrackets(s: string)
  {
    '[' !in s && ']' !in s
  }

  /** re.match(r'([^=]+)=([^\[\]]+)\[([^\[\]]+)\]$', ...) applied to the
      text after the '=': a non-empty bracket-free file name, then a
      non-empty bracket-free variable name in brackets, at the end of the
      text or just before a final newline. */
  function MatchFileAndVariable(rest: string): Option<(string, string)>
  {
    var body :=
      if |rest| >= 1 && rest[|rest| - 1] == ']' then Some(rest[..|rest| - 1])
      else if |rest| >= 2 && rest[|rest| - 2] == ']' && rest[|rest| - 1] == '\n' then Some(rest[..|rest| - 2])
      else None;
    if body.None? then None
    else
      var b := body.value;
      match FirstIndexOf(b, '[')
      case None => None
      case Some(i) =>
        var f := b[..i];
        var v := b[i + 1..];
        if |f| > 0 && |v| > 0 && NoBrackets(f) && NoBrackets(v) then Some((f, v)) else None
  }

  /** How a FileRef is written after the '=': "file" or "file[variable]". */
  function Rendered(ref: FileRef): string
  {
    match ref.variableName
    case None => ref.filename
    case Some(v) => ref.filename + ['['] + v + [']']
  }

  /** A FileRef the patterns can produce: non-empty bracket-free names. */
  predicate WellFormedRef(ref: FileRef)
  {
    |ref.filename| > 0 && NoBrackets(ref.filename)
    && (ref.variableName.Some? ==> |ref.variableName.value| > 0 && NoBrackets(ref.variableName.value))
  }

  /** What the first pattern accepts is exactly "file[variable]", with an
      optional final newline. */
  lemma FileAndVariableShape(rest: string)
    requires MatchFileAndVariable(rest).Some?
    ensures var ref := FileRef(MatchFileAndVariable(rest).value.0, Some(MatchFileAndVariable(rest).value.1));
            WellFormedRef(ref) && (rest == Rendered(ref) || rest == Rendered(ref) + ['\n'])
  {
    var f := MatchFileAndVariable(rest).value.0;
    var v := MatchFileAndVariable(rest).value.1;
    var b := if rest[|rest| - 1] == ']' then rest[..|rest| - 1] else rest[..|rest| - 2];
    var i := FirstIndexOf(b, '[').value;
    assert f == b[..i] && v == b[i + 1..];
    assert b == f + ['['] + v;
    if rest[|rest| - 1] == ']' {
      assert rest == b + [']'];
    } else {
      assert rest == b + [']'] + ['\n'];
    }
  }

  /** Both patterns give back a well-formed FileRef from its rendering. */
  lemma RenderedRoundTrip(ref: FileRef)
    requires WellFormedRef(ref)
    ensures ref.variableName.Some? ==> MatchFileAndVariable(Rendered(ref)) == Some((ref.filename, ref.variableName.value))
    ensures ref.variableName.None? ==> MatchFileAndVariable(Rendered(ref)).None? && MatchFile(Rendered(ref)) == Some(ref.filename)
  {
    var f := ref.filename;
    if ref.variableName.Some? {
      var v := ref.variableName.value;
      var b := f + ['['] + v;
      assert Rendered(ref)[..|Rendered(ref)| - 1] == b;
      FirstIndexAfter(f, '[', v);
      assert b[..|f|] == f && b[|f| + 1..] == v;
    } else {
      assert f[|f| - 1] in f;
      assert |f| >= 2 ==> f[|f| - 2] in f;
    }
  }

  /** re.match(r'([^=]+)=([^\[\]]+)$', ...) applied to the text after the
      '=': a non-empty bracket-free file name (a final newline is part of
      it, the greedy group taking it before '$' is tried). */
  function MatchFile(rest: string): Option<string>
  {
    if |rest| > 0 && NoBrackets(rest) then Some(rest) else None
  }

  /** One ';'-separated segment of --inputs: the key is the non-empty text
      before the first '=' (the group [^=]+ cannot reach past it), the rest
      is "file[variable]" or "file". None means the segment matches neither
      pattern. */
  function ParseInputSegment(segment: string): Option<(string, FileRef)>
  {
    match FirstIndexOf(segment, '=')
    case None => None
    case Some(i) =>
      if i == 0 then None
      else
        var key := segment[..i];
        var rest := segment[i + 1..];
        match MatchFileAndVariable(rest)
        case Some((f, v)) => Some((key, FileRef(f, Some(v))))
        case None =>
          match MatchFile(rest)
          case Some(f) => Some((key, FileRef(f, None)))
          case None => None
  }

  /** A segment that parses is "key=file" or "key=file[variable]" (with an
      optional final newline), its key non-empty and free of '='. */
  lemma SegmentShape(segment: string)
    requires ParseInputSegment(segment).Some?
    ensures var key := ParseInputSegment(segment).value.0;
            var ref := ParseInputSegment(segment).value.1;
            |key| > 0 && '=' !in key && WellFormedRef(ref)
            && (segment == key + ['='] + Rendered(ref)
                || (ref.variableName.Some? && segment == key + ['='] + Rendered(ref) + ['\n']))
  {
    var i := FirstIndexOf(segment, '=').value;
    SplitAtFirst(segment, '=', i);
    if MatchFileAndVariable(segment[i + 1..]).Some? {
      FileAndVariableShape(segment[i + 1..]);
      AppendNewline(segment[..i], segment[i + 1..], Rendered(ParseInputSegment(segment).value.1));
    }
  }

  lemma SplitAtFirst(s: string, c: char, i: nat)
    requires i < |s| && s[i] == c
    ensures s == s[..i] + [c] + s[i + 1..]
  {
  }

  lemma AppendNewline(key: string, rest: string, rendered: string)
    requires rest == rendered || rest == rendered + ['\n']
    ensures key + ['='] + rest == key + ['='] + rendered || key + ['='] + rest == key + ['='] + rendered + ['\n']
  {
    if rest != rendered {
      assert key + ['='] + (rendered + ['\n']) == key + ['='] + rendered + ['\n'];
    }
  }

  /** "key=file" and "key=file[variable]" parse back to the key and the
      FileRef. */
  lemma SegmentRoundTrip(key: string, ref: FileRef)
    requires |key| > 0 && '=' !in key && WellFormedRef(ref)
    ensures ParseInputSegment(key + ['='] + Rendered(ref)) == Some((key, ref))
  {
    var rest := Rendered(ref);
    var segment := key + ['='] + rest;
    FirstIndexAfter(key, '=', rest);
    assert segment[..|key|] == key && segment[|key| + 1..] == rest;
    RenderedRoundTrip(ref);
  }

  /** The dict preprocess_inputs_arg_string builds from the segments of its
      argument: empty segments are skipped, a segment matching neither
      pattern raises RuntimeError, and a later segment overwrites the value
      of an earlier one with the same key. */
  function ParsedInputs(segments: seq<string>): PyResult<Dict<FileRef>>
  {
    if segments == [] then Returned([])
    else
      match ParsedInputs(segments[..|segments| - 1])
      case Raised(e) => Raised(e)
      case Returned(d) =>
        var segment := segments[|segments| - 1];
        if segment == [] then Returned(d)
        else
          match ParseInputSegment(segment)
          case None => Raised(RuntimeError)
          case Some((key, ref)) => Returned(Set(d, key, ref))
  }

  /** Once a prefix of the segments raised, so does the whole argument. */
  lemma {:induction false} ParsedInputsRaisedPrefix(segments: seq<string>, n: nat)
    requires n <= |segments| && ParsedInputs(segments[..n]) == Raised(RuntimeError)
    ensures ParsedInputs(segments) == Raised(RuntimeError)
  {
    if n < |segments| {
      var p := segments[..|segments| - 1];
      assert p[..n] == segments[..n];
      ParsedInputsRaisedPrefix(p, n);
    } else {
      assert segments[..n] == segments;
    }
  }

  /** One more segment of the argument, after a prefix that parsed. */
  lemma ParsedInputsStep(segments: seq<string>, i: nat)
    requires i < |segments| && ParsedInputs(segments[..i]).Returned?
    ensures var d := ParsedInputs(segments[..i]).value;
            ParsedInputs(segments[..i + 1]) ==
              if segments[i] == [] then Returned(d)
              else match ParseInputSegment(segments[i])
                   case None => Raised(RuntimeError)
                   case Some((key, ref)) => Returned(Set(d, key, ref))
  {
    assert segments[..i + 1][..i] == segments[..i];
  }

  /** preprocess_inputs_arg_string. */
  method PreprocessInputsArgString(inputs: string) returns (r: PyResult<Dict<FileRef>>)
    ensures r == ParsedInputs(Split(inputs, ';'))
  {
    var segments := Split(inputs, ';');
    var inputDict: Dict<FileRef> := [];
    var i := 0;
    while i < |segments|
      invariant 0 <= i <= |segments|
      invariant ParsedInputs(segments[..i]) == Returned(inputDict)
    {
      var segment := segments[i];
      ParsedInputsStep(segments, i);
      if segment != [] {
        var m := ParseInputSegment(segment);
        if m.None? {
          ParsedInputsRaisedPrefix(segments, i + 1);
          return Raised(RuntimeError);
        }
        inputDict := Set(inputDict, m.value.0, m.value.1);
      }
      i := i + 1;
    }
    assert segments[..i] == segments;
    return Returned(inputDict);
  }

  /** The value the last segment naming key gives it, if any segment does. */
  function LastInputFor(segments: seq<string>, key: string): Option<FileRef>
  {
    if segments == [] then None
    else
      var segment := segments[|segments| - 1];
      var m := ParseInputSegment(segment);
      if segment != [] && m.Some? && m.value.0 == key then Some(m.value.1)
      else LastInputFor(segments[..|segments| - 1], key)
  }

  lemma {:induction false} InputsRaiseRuntimeError(segments: seq<string>)
    ensures ParsedInputs(segments).Raised? ==> ParsedInputs(segments).exc == RuntimeError
  {
    if segments != [] {
      InputsRaiseRuntimeError(segments[..|segments| - 1]);
    }
  }

  lemma BadSegmentRaises(segments: seq<string>, i: nat)
    requires i < |segments| && segments[i] != [] && ParseInputSegment(segments[i]).None?
    ensures ParsedInputs(segments) == Raised(RuntimeError)
  {
    var p := segments[..i + 1];
    assert p[..i] == segments[..i];
    InputsRaiseRuntimeError(segments[..i]);
    assert ParsedInputs(p) == Raised(RuntimeError);
    ParsedInputsRaisedPrefix(segments, i + 1);
  }

  lemma {:induction false} GoodSegmentsReturn(segments: seq<string>)
    requires forall i :: 0 <= i < |segments| && segments[i] != [] ==> ParseInputSegment(segments[i]).Some?
    ensures ParsedInputs(segments).Returned?
  {
    if segments != [] {
      var p := segments[..|segments| - 1];
      assert forall i :: 0 <= i < |p| ==> p[i] == segments[i];
      GoodSegmentsReturn(p);
    }
  }

  /** --inputs fails, always with RuntimeError, exactly when some non-empty
      segment matches neither pattern. */
  lemma InputsErrorIff(segments: seq<string>)
    ensures ParsedInputs(segments).Raised? ==> ParsedInputs(segments).exc == RuntimeError
    ensures ParsedInputs(segments).Raised? <==>
              exists i :: 0 <= i < |segments| && segments[i] != [] && ParseInputSegment(segments[i]).None?
  {
    InputsRaiseRuntimeError(segments);
    if exists i :: 0 <= i < |segments| && segments[i] != [] && ParseInputSegment(segments[i]).None? {
      var i :| 0 <= i < |segments| && segments[i] != [] && ParseInputSegment(segments[i]).None?;
      BadSegmentRaises(segments, i);
    } else {
      GoodSegmentsReturn(segments);
    }
  }

  /** Every key of the parsed dict holds the value of the last segment that
      names it, and the keys are distinct. */
  lemma {:induction false} InputsLastWins(segments: seq<string>, key: string)
    requires ParsedInputs(segments).Returned?
    ensures Lookup(ParsedInputs(segments).value, key) == LastInputFor(segments, key)
    ensures DistinctKeys(ParsedInputs(segments).value)
  {
    if segments != [] {
      var p := segments[..|segments| - 1];
      InputsLastWins(p, key);
      var segment := segments[|segments| - 1];
      var m := ParseInputSegment(segment);
      if segment != [] {
        var d := ParsedInputs(p).value;
        SetLookup(d, m.value.0, m.value.1, key);
        SetDistinct(d, m.value.0, m.value.1);
      }
    }
  }

  // ---------------------------------------------------------------------
  // --input_exprs and --input_examples
  // ---------------------------------------------------------------------

  /** The dict preprocess_input_exprs_arg_string builds, AS WRITTEN: the test
      for '=' looks at the whole argument instead of the segment, so a
      segment without '=' in an argument that has one reaches the two-way
      unpacking of split('=', 1) and raises ValueError. The values are the
      expression texts; their evaluation is not modelled. */
  function ParsedExprsAsWritten(whole: string, segments: seq<string>): PyResult<Dict<string>>
  {
    if segments == [] then Returned([])
    else
      match ParsedExprsAsWritten(whole, segments[..|segments| - 1])
      case Raised(e) => Raised(e)
      case Returned(d) =>
        var segment := segments[|segments| - 1];
        if segment == [] then Returned(d)
        else if '=' !in whole then Raised(RuntimeError)
        else
          match FirstIndexOf(segment, '=')
          case None => Raised(ValueError)
          case Some(i) => Returned(Set(d, segment[..i], segment[i + 1..]))
  }

  /** "a=1;b" raises ValueError, not the RuntimeError that reports a badly
      formatted --input_exprs. */
  lemma ExprsAsWrittenMisreports()
    ensures ParsedExprsAsWritten("a=1;b", Split("a=1;b", ';')) == Raised(ValueError)
    ensures ParsedExprs(Split("a=1;b", ';')) == Raised(RuntimeError)
  {
    SplitJoin(["a=1", "b"], ';');
    assert Join(["a=1", "b"], ';') == "a=1;b";
    var segments := Split("a=1;b", ';');
    assert segments[..1] == ["a=1"] && segments[..1][..0] == [];
    assert FirstIndexOf("a=1", '=') == Some(1);
    assert FirstIndexOf("b", '=') == None;
  }

  /** The dict preprocess_input_exprs_arg_string builds with the '=' test
      applied to the segment, as its message intends: every malformed
      segment raises RuntimeError; a key is the text before the first '=',
      its expression the text after it; later keys overwrite earlier ones. */
  function ParsedExprs(segments: seq<string>): PyResult<Dict<string>>
  {
    if segments == [] then Returned([])
    else
      match ParsedExprs(segments[..|segments| - 1])
      case Raised(e) => Raised(e)
      case Returned(d) =>
        var segment := segments[|segments| - 1];
        if segment == [] then Returned(d)
        else
          match FirstIndexOf(segment, '=')
          case None => Raised(RuntimeError)
          case Some(i) => Returned(Set(d, segment[..i], segment[i + 1..]))
  }

  lemma {:induction false} ExprsRaiseRuntimeError(segments: seq<string>)
    ensures ParsedExprs(segments).Raised? ==> ParsedExprs(segments).exc == RuntimeError
  {
    if segments != [] {
      ExprsRaiseRuntimeError(segments[..|segments| - 1]);
    }
  }

  lemma BadExprRaises(segments: seq<string>, i: nat)
    requires i < |segments| && segments[i] != [] && '=' !in segments[i]
    ensures ParsedExprs(segments) == Raised(RuntimeError)
  {
    var p := segments[..i + 1];
    assert p[..i] == segments[..i];
    ExprsRaiseRuntimeError(segments[..i]);
    assert ParsedExprs(p) == Raised(RuntimeError);
    ParsedExprsRaisedPrefix(segments, i + 1);
  }

  lemma {:induction false} GoodExprsReturn(segments: seq<string>)
    requires forall i :: 0 <= i < |segments| && segments[i] != [] ==> '=' in segments[i]
    ensures ParsedExprs(segments).Returned?
  {
    if segments != [] {
      var p := segments[..|segments| - 1];
      assert forall i :: 0 <= i < |p| ==> p[i] == segments[i];
      GoodExprsReturn(p);
    }
  }

  /** The corrected parser fails, always with RuntimeError, exactly when a
      non-empty segment has no '='. */
  lemma ExprsErrorIff(segments: seq<string>)
    ensures ParsedExprs(segments).Raised? ==> ParsedExprs(segments).exc == RuntimeError
    ensures ParsedExprs(segments).Raised? <==>
              exists i :: 0 <= i < |segments| && segments[i] != [] && '=' !in segments[i]
  {
    ExprsRaiseRuntimeError(segments);
    if exists i :: 0 <= i < |segments| && segments[i] != [] && '=' !in segments[i] {
      var i :| 0 <= i < |segments| && segments[i] != [] && '=' !in segments[i];
      BadExprRaises(segments, i);
    } else {
      GoodExprsReturn(segments);
    }
  }

  /** The two parsers agree whenever each non-empty segment has an '=' just
      when the whole argument has one. */
  lemma {:induction false} ExprsAgree(whole: string, segments: seq<string>)
    requires forall i :: 0 <= i < |segments| && segments[i] != [] ==> ('=' in segments[i] <==> '=' in whole)
    ensures ParsedExprsAsWritten(whole, segments) == ParsedExprs(segments)
  {
    if segments != [] {
      var p := segments[..|segments| - 1];
      assert forall i :: 0 <= i < |p| ==> p[i] == segments[i];
      ExprsAgree(whole, p);
    }
  }

  /** The code as written differs from the corrected parser only on an
      argument that has an '=' but a non-empty segment without one. */
  lemma ExprsAgreeUnlessMixed(whole: string)
    requires '=' in whole ==>
               forall i :: 0 <= i < |Split(whole, ';')| && Split(whole, ';')[i] != [] ==> '=' in Split(whole, ';')[i]
    ensures ParsedExprsAsWritten(whole, Split(whole, ';')) == ParsedExprs(Split(whole, ';'))
  {
    SplitPieceChars(whole, ';', '=');
    ExprsAgree(whole, Split(whole, ';'));
  }

  /** preprocess_input_exprs_arg_string, with the '=' test on the segment. */
  method PreprocessInputExprsArgString(exprs: string) returns (r: PyResult<Dict<string>>)
    ensures r == ParsedExprs(Split(exprs, ';'))
  {
    var segments := Split(exprs, ';');
    var inputDict: Dict<string> := [];
    var i := 0;
    while i < |segments|
      invariant 0 <= i <= |segments|
      invariant ParsedExprs(segments[..i]) == Returned(inputDict)
    {
      var segment := segments[i];
      assert segments[..i + 1][..i] == segments[..i];
      if segment != [] {
        var eq := FirstIndexOf(segment, '=');
        if eq.None? {
          ParsedExprsRaisedPrefix(segments, i + 1);
          return Raised(RuntimeError);
        }
        inputDict := Set(inputDict, segment[..eq.value], segment[eq.value + 1..]);
      }
      i := i + 1;
    }
    assert segments[..i] == segments;
    return Returned(inputDict);
  }

  lemma {:induction false} ParsedExprsRaisedPrefix(segments: seq<string>, n: nat)
    requires n <= |segments| && ParsedExprs(segments[..n]) == Raised(RuntimeError)
    ensures ParsedExprs(segments) == Raised(RuntimeError)
  {
    if n < |segments| {
      var p := segments[..|segments| - 1];
      assert p[..n] == segments[..n];
      ParsedExprsRaisedPrefix(p, n);
    } else {
      assert segments[..n] == segments;
    }
  }

  /** "key=expr" with a key free of '=' parses to that key and expression;
      the expression may itself contain '='. */
  lemma ExprSegmentRoundTrip(key: string, expr: string)
    requires '=' !in key
    ensures ParsedExprs([key + ['='] + expr]) == Returned([(key, expr)])
  {
    var segment := key + ['='] + expr;
    FirstIndexAfter(key, '=', expr);
    assert segment[..|key|] == key && segment[|key| + 1..] == expr;
    var none: seq<string> := [];
    assert [segment][..0] == none;
    var empty: Dict<string> := [];
    assert Keys(empty) == [];
    assert Set(empty, key, expr) == [(key, expr)];
    assert ParsedExprs(none) == Returned(empty);
  }

  // ---------------------------------------------------------------------
  // --input_examples
  // ---------------------------------------------------------------------

  /** The Python objects an --input_examples expression evaluates to, as far
      as the example code looks at them. Floating-point values are not
      modelled, only their type. */
  datatype PyValue =
    | IntValue(i: int)
    | BoolValue(b: bool)
    | FloatValue
    | StrValue(s: string)
    | NoneValue
    | ListValue(elements: seq<PyValue>)
    | DictValue(entries: seq<(string, PyValue)>)

  /** Applies f to the items in order and stops at the first that raises:
      the list comprehension and the for loops of the example code. */
  function EachOf<X, Y>(xs: seq<X>, f: X -> PyResult<Y>): (r: PyResult<seq<Y>>)
    ensures r.Returned? ==> |r.value| == |xs| && forall i :: 0 <= i < |xs| ==> f(xs[i]) == Returned(r.value[i])
    ensures r.Raised? ==> exists i :: FirstRaised(xs, f, i) && r.exc == f(xs[i]).exc
  {
    if xs == [] then Returned([])
    else
      match EachOf(xs[..|xs| - 1], f)
      case Raised(e) =>
        FirstRaisedPrefix(xs, f);
        Raised(e)
      case Returned(ys) =>
        match f(xs[|xs| - 1])
        case Raised(e) =>
          assert FirstRaised(xs, f, |xs| - 1);
          Raised(e)
        case Returned(y) => Returned(ys + [y])
  }

  /** Item i is the first item on which f raises. */
  ghost predicate FirstRaised<X, Y>(xs: seq<X>, f: X -> PyResult<Y>, i: int)
  {
    0 <= i < |xs| && f(xs[i]).Raised? && forall j :: 0 <= j < i ==> f(xs[j]).Returned?
  }

  /** The first item of a prefix to raise is the first of the whole. */
  lemma FirstRaisedPrefix<X, Y>(xs: seq<X>, f: X -> PyResult<Y>)
    requires xs != []
    ensures forall i :: FirstRaised(xs[..|xs| - 1], f, i) ==> FirstRaised(xs, f, i)
  {
    var p := xs[..|xs| - 1];
    assert forall j :: 0 <= j < |p| ==> p[j] == xs[j];
  }

  /** There is only one first item to raise. */
  lemma FirstRaisedUnique<X, Y>(xs: seq<X>, f: X -> PyResult<Y>, i: int, j: int)
    requires FirstRaised(xs, f, i) && FirstRaised(xs, f, j)
    ensures i == j
  {
  }

  /** EachOf returns exactly when no item raises. */
  lemma EachOfAll<X, Y>(xs: seq<X>, f: X -> PyResult<Y>)
    ensures EachOf(xs, f).Returned? <==> forall i :: 0 <= i < |xs| ==> f(xs[i]).Returned?
  {
    var r := EachOf(xs, f);
    if r.Raised? {
      var i :| FirstRaised(xs, f, i) && r.exc == f(xs[i]).exc;
    } else {
      forall i | 0 <= i < |xs|
        ensures f(xs[i]).Returned?
      {
        assert f(xs[i]) == Returned(r.value[i]);
      }
    }
  }

  /** What EachOf raises is exactly what its first raising item raises. */
  lemma EachOfRaises<X, Y>(xs: seq<X>, f: X -> PyResult<Y>, exc: PyException)
    ensures EachOf(xs, f) == Raised(exc) <==> exists i :: FirstRaised(xs, f, i) && f(xs[i]) == Raised(exc)
  {
    var r := EachOf(xs, f);
    if r.Raised? {
      var i :| FirstRaised(xs, f, i) && r.exc == f(xs[i]).exc;
      forall k | FirstRaised(xs, f, k)
        ensures k == i
      {
        FirstRaisedUnique(xs, f, i, k);
      }
    } else {
      forall k | 0 <= k < |xs|
        ensures !FirstRaised(xs, f, k)
      {
        assert f(xs[k]) == Returned(r.value[k]);
      }
    }
  }

  /** The list of a tf.train.Feature a feature's values go into. */
  datatype FeatureKind = FloatList | BytesList | Int64List

  /** The list kind the type of a first value selects: float, str or an
      integer type (bool is an integer type in Python); none for any other. */
  function KindOf(v: PyValue): Option<FeatureKind>
  {
    match v
    case FloatValue => Some(FloatList)
    case StrValue(_) => Some(BytesList)
    case IntValue(_) => Some(Int64List)
    case BoolValue(_) => Some(Int64List)
    case _ => None
  }

  /** One feature of a tf.Example: its name, its list kind and its values. */
  datatype Feature = Feature(name: string, kind: FeatureKind, values: seq<PyValue>)

  /** One item of an example dictionary. A value that is not a list raises
      ValueError; an empty list raises IndexError when its first element is
      read; a first element of another type raises ValueError. */
  function FeatureOf(item: (string, PyValue)): (r: PyResult<Feature>)
    ensures r.Raised? ==> r.exc in {ValueError, IndexError}
    ensures r == Raised(IndexError) <==> item.1 == ListValue([])
    ensures r.Returned? <==> item.1.ListValue? && item.1.elements != [] && KindOf(item.1.elements[0]).Some?
    ensures r.Returned? ==>
              r.value.name == item.0 && r.value.values == item.1.elements
              && KindOf(r.value.values[0]) == Some(r.value.kind)
  {
    var (name, value) := item;
    if !value.ListValue? then Raised(ValueError)
    else if value.elements == [] then Raised(IndexError)
    else
      match KindOf(value.elements[0])
      case None => Raised(ValueError)
      case Some(kind) => Returned(Feature(name, kind, value.elements))
  }

  /** _create_example_string: .items() of anything but a dictionary raises
      AttributeError; each item becomes a feature, in order, and the first
      bad item raises. The serialised proto is not modelled: an example is
      its list of features. */
  function CreateExample(example: PyValue): (r: PyResult<seq<Feature>>)
    ensures r == Raised(AttributeError) <==> !example.DictValue?
    ensures r.Returned? <==>
              example.DictValue? && forall i :: 0 <= i < |example.entries| ==> FeatureOf(example.entries[i]).Returned?
    ensures r.Returned? ==>
              |r.value| == |example.entries| &&
              forall i :: 0 <= i < |r.value| ==>
                r.value[i].name == example.entries[i].0 && r.value[i].values == example.entries[i].1.elements
    ensures r == Raised(IndexError) <==>
              example.DictValue? &&
              exists i :: FirstRaised(example.entries, FeatureOf, i) && example.entries[i].1 == ListValue([])
  {
    if !example.DictValue? then Raised(AttributeError)
    else
      EachOfRaises(example.entries, FeatureOf, IndexError);
      EachOfRaises(example.entries, FeatureOf, AttributeError);
      EachOfAll(example.entries, FeatureOf);
      EachOf(example.entries, FeatureOf)
  }

  /** One key of --input_examples with its evaluated value: anything but a
      list raises ValueError; otherwise each element becomes an example, in
      order, and the first bad one raises. */
  function ExampleInput(item: (string, PyValue)): (r: PyResult<(string, seq<seq<Feature>>)>)
    ensures r.Raised? ==> r.exc in {ValueError, AttributeError, IndexError}
    ensures r == Raised(IndexError) <==>
              item.1.ListValue? &&
              exists j :: FirstRaised(item.1.elements, CreateExample, j) && CreateExample(item.1.elements[j]) == Raised(IndexError)
    ensures r == Raised(AttributeError) <==>
              item.1.ListValue? &&
              exists j :: FirstRaised(item.1.elements, CreateExample, j) && !item.1.elements[j].DictValue?
    ensures r.Returned? <==>
              item.1.ListValue? && forall j :: 0 <= j < |item.1.elements| ==> CreateExample(item.1.elements[j]).Returned?
    ensures r.Returned? ==>
              r.value.0 == item.0 && |r.value.1| == |item.1.elements| &&
              forall j :: 0 <= j < |r.value.1| ==> CreateExample(item.1.elements[j]) == Returned(r.value.1[j])
  {
    var (key, value) := item;
    if !value.ListValue? then Raised(ValueError)
    else
      EachOfRaises(value.elements, CreateExample, AttributeError);
      EachOfRaises(value.elements, CreateExample, IndexError);
      EachOfAll(value.elements, CreateExample);
      match EachOf(value.elements, CreateExample)
      case Raised(e) => Raised(e)
      case Returned(es) => Returned((key, es))
  }

  /** preprocess_input_examples_arg_string: the --input_exprs parse, whose
      expressions eval evaluates, then each key's list of examples in the
      dict's order; the first bad value raises. A result keeps the parse's
      keys in their order, each with one example per element of its list. */
  function ParsedExamples(examples: string, eval: string -> PyValue): (r: PyResult<Dict<seq<seq<Feature>>>>)
    ensures r.Raised? ==> r.exc in {RuntimeError, ValueError, AttributeError, IndexError}
    ensures ParsedExprs(Split(examples, ';')).Raised? ==> r == Raised(ParsedExprs(Split(examples, ';')).exc)
  {
    match ParsedExprs(Split(examples, ';'))
    case Raised(e) =>
      ExprsRaiseRuntimeError(Split(examples, ';'));
      Raised(e)
    case Returned(d) => ExamplesOf(d, eval)
  }

  /** The loop over the parsed --input_examples dict, each expression
      evaluated by eval. A result keeps the dict's keys in their order, each
      with its examples, and there is one exactly when no key raises. */
  function ExamplesOf(d: Dict<string>, eval: string -> PyValue): (r: PyResult<Dict<seq<seq<Feature>>>>)
    ensures r.Raised? ==> r.exc in {ValueError, AttributeError, IndexError}
    ensures r.Returned? <==> forall i :: 0 <= i < |d| ==> ExampleInput((d[i].0, eval(d[i].1))).Returned?
    ensures r.Returned? ==>
              Keys(r.value) == Keys(d) &&
              forall i :: 0 <= i < |d| ==> ExampleInput((d[i].0, eval(d[i].1))) == Returned(r.value[i])
  {
    var items := MapDict(d, eval);
    EachOfKeys(d, eval);
    EachOfRaisesKinds(items);
    EachOf(items, ExampleInput)
  }

  lemma EachOfRaisesKinds(items: Dict<PyValue>)
    ensures EachOf(items, ExampleInput).Raised? ==> EachOf(items, ExampleInput).exc in {ValueError, AttributeError, IndexError}
  {
    var r := EachOf(items, ExampleInput);
    if r.Raised? {
      var i :| FirstRaised(items, ExampleInput, i) && r.exc == ExampleInput(items[i]).exc;
    }
  }

  lemma EachOfKeys(d: Dict<string>, eval: string -> PyValue)
    ensures var r := EachOf(MapDict(d, eval), ExampleInput);
            (r.Returned? <==> forall i :: 0 <= i < |d| ==> ExampleInput((d[i].0, eval(d[i].1))).Returned?) &&
            (r.Returned? ==>
               Keys(r.value) == Keys(d) &&
               forall i :: 0 <= i < |d| ==> ExampleInput((d[i].0, eval(d[i].1))) == Returned(r.value[i]))
  {
    var items := MapDict(d, eval);
    var r := EachOf(items, ExampleInput);
    EachOfAll(items, ExampleInput);
    assert forall i :: 0 <= i < |d| ==> items[i] == (d[i].0, eval(d[i].1));
    if r.Returned? {
      forall i | 0 <= i < |d| ensures Keys(r.value)[i] == Keys(d)[i] {
        assert ExampleInput(items[i]) == Returned(r.value[i]);
      }
    }
  }

  // ---------------------------------------------------------------------
  // load_inputs_from_input_arg_string and run
  // ---------------------------------------------------------------------

  /** What np.load finds in a file: a single array (.npy), an archive of
      named arrays (.npz), or a pickled dictionary of named arrays. */
  datatype FileContents = NpyArray | NpzArchive(names: seq<string>) | Pickled(keys: seq<string>)

  /** One value of the feed dict: an array read from a file (the whole
      content, or one named member), the value of a Python expression, or
      the examples an --input_examples expression gives. */
  datatype FeedValue =
    | FileArray(filename: string, member: Option<string>)
    | Expression(expr: string)
    | SerializedExamples(examples: seq<seq<Feature>>)

  /** The array one --inputs entry loads. With a variable name: a .npy file
      ignores the name; otherwise the name must be in the file, else
      RuntimeError. Without one: an archive must hold exactly one array,
      else RuntimeError; any other file is used whole. */
  function LoadFileInput(ref: FileRef, contents: FileContents): (r: PyResult<FeedValue>)
    ensures r.Raised? ==> r.exc == RuntimeError
    ensures r.Returned? ==> r.value.FileArray? && r.value.filename == ref.filename
  {
    if ref.variableName.Some? && ref.variableName.value != "" then
      var name := ref.variableName.value;
      match contents
      case NpyArray => Returned(FileArray(ref.filename, None))
      case NpzArchive(names) => if name in names then Returned(FileArray(ref.filename, Some(name))) else Raised(RuntimeError)
      case Pickled(keys) => if name in keys then Returned(FileArray(ref.filename, Some(name))) else Raised(RuntimeError)
    else
      match contents
      case NpzArchive(names) =>
        if |names| != 1 then Raised(RuntimeError) else Returned(FileArray(ref.filename, Some(names[0])))
      case _ => Returned(FileArray(ref.filename, None))
  }

  /** The feed dict after the --inputs loop: each entry loaded in order. */
  function LoadedFiles(inputs: Dict<FileRef>, load: string -> FileContents): PyResult<Dict<FeedValue>>
  {
    if inputs == [] then Returned([])
    else
      match LoadedFiles(inputs[..|inputs| - 1], load)
      case Raised(e) => Raised(e)
      case Returned(feed) =>
        var (key, ref) := inputs[|inputs| - 1];
        match LoadFileInput(ref, load(ref.filename))
        case Raised(e) => Raised(e)
        case Returned(value) => Returned(Set(feed, key, value))
  }

  /** What load_inputs_from_input_arg_string returns: the three arguments are
      parsed first, in order; then the files are loaded; then expression
      values override file values and example values override both. */
  function LoadedInputs(inputs: string, exprs: string, examples: string,
                        load: string -> FileContents, eval: string -> PyValue): PyResult<Dict<FeedValue>>
  {
    match ParsedInputs(Split(inputs, ';'))
    case Raised(e) => Raised(e)
    case Returned(fileRefs) =>
      match ParsedExprs(Split(exprs, ';'))
      case Raised(e) => Raised(e)
      case Returned(exprDict) =>
        match ParsedExamples(examples, eval)
        case Raised(e) => Raised(e)
        case Returned(exampleDict) =>
          match LoadedFiles(fileRefs, load)
          case Raised(e) => Raised(e)
          case Returned(feed) =>
            Returned(Update(Update(feed, MapDict(exprDict, e => Expression(e))),
                            MapDict(exampleDict, e => SerializedExamples(e))))
  }

  /** Example inputs override expression inputs, which override file inputs:
      a key holds its --input_examples value if it has one, else its
      --input_exprs value if it has one, else what its file gave. */
  lemma InputPrecedence(inputs: string, exprs: string, examples: string,
                        load: string -> FileContents, eval: string -> PyValue, key: string)
    requires LoadedInputs(inputs, exprs, examples, load, eval).Returned?
    ensures var feed := LoadedInputs(inputs, exprs, examples, load, eval).value;
            var exprDict := ParsedExprs(Split(exprs, ';')).value;
            var exampleDict := ParsedExamples(examples, eval).value;
            var files := LoadedFiles(ParsedInputs(Split(inputs, ';')).value, load).value;
            Lookup(feed, key) ==
              if Lookup(exampleDict, key).Some? then Some(SerializedExamples(Lookup(exampleDict, key).value))
              else if Lookup(exprDict, key).Some? then Some(Expression(Lookup(exprDict, key).value))
              else Lookup(files, key)
  {
    var exprDict := ParsedExprs(Split(exprs, ';')).value;
    var exampleDict := ParsedExamples(examples, eval).value;
    var files := LoadedFiles(ParsedInputs(Split(inputs, ';')).value, load).value;
    var e1 := MapDict(exprDict, e => Expression(e));
    var e2 := MapDict(exampleDict, e => SerializedExamples(e));
    UpdateLookup(Update(files, e1), e2, key);
    UpdateLookup(files, e1, key);
    MapDictLookup(exprDict, e => Expression(e), key);
    MapDictLookup(exampleDict, e => SerializedExamples(e), key);
  }

  /** The --inputs loop of load_inputs_from_input_arg_string. */
  method LoadFiles(inputs: Dict<FileRef>, load: string -> FileContents) returns (r: PyResult<Dict<FeedValue>>)
    ensures r == LoadedFiles(inputs, load)
  {
    var feed: Dict<FeedValue> := [];
    var i := 0;
    while i < |inputs|
      invariant 0 <= i <= |inputs|
      invariant LoadedFiles(inputs[..i], load) == Returned(feed)
    {
      var (key, ref) := inputs[i];
      assert inputs[..i + 1][..i] == inputs[..i];
      var value := LoadFileInput(ref, load(ref.filename));
      if value.Raised? {
        LoadedFilesRaisedPrefix(inputs, i + 1, load);
        return Raised(RuntimeError);
      }
      feed := Set(feed, key, value.value);
      i := i + 1;
    }
    assert inputs[..i] == inputs;
    return Returned(feed);
  }

  lemma {:induction false} LoadedFilesRaisedPrefix(inputs: Dict<FileRef>, n: nat, load: string -> FileContents)
    requires n <= |inputs| && LoadedFiles(inputs[..n], load) == Raised(RuntimeError)
    ensures LoadedFiles(inputs, load) == Raised(RuntimeError)
  {
    if n < |inputs| {
      var p := inputs[..|inputs| - 1];
      assert p[..n] == inputs[..n];
      LoadedFilesRaisedPrefix(p, n, load);
    } else {
      assert inputs[..n] == inputs;
    }
  }

  /** One of the override loops: every item of values is assigned into the
      feed dict, in order. */
  method Override(feed: Dict<FeedValue>, values: Dict<FeedValue>) returns (r: Dict<FeedValue>)
    ensures r == Update(feed, values)
  {
    r := feed;
    var i := 0;
    while i < |values|
      invariant 0 <= i <= |values|
      invariant r == Update(feed, values[..i])
    {
      assert values[..i + 1][..i] == values[..i];
      r := Set(r, values[i].0, values[i].1);
      i := i + 1;
    }
    assert values[..i] == values;
  }

  /** load_inputs_from_input_arg_string. */
  method LoadInputsFromInputArgString(inputs: string, exprs: string, examples: string,
                                      load: string -> FileContents, eval: string -> PyValue)
    returns (r: PyResult<Dict<FeedValue>>)
    ensures r == LoadedInputs(inputs, exprs, examples, load, eval)
  {
    var fileRefs := PreprocessInputsArgString(inputs);
    if fileRefs.Raised? {
      return Raised(fileRefs.exc);
    }
    var exprDict := PreprocessInputExprsArgString(exprs);
    if exprDict.Raised? {
      return Raised(exprDict.exc);
    }
    var exampleDict := ParsedExamples(examples, eval);
    if exampleDict.Raised? {
      return Raised(exampleDict.exc);
    }
    var files := LoadFiles(fileRefs.value, load);
    if files.Raised? {
      return Raised(files.exc);
    }
    var feed := Override(files.value, MapDict(exprDict.value, e => Expression(e)));
    feed := Override(feed, MapDict(exampleDict.value, e => SerializedExamples(e)));
    return Returned(feed);
  }

  /** The input arguments of the `run` command; argparse gives '' when an
      option is absent. */
  datatype RunArgs = RunArgs(inputs: string, inputExprs: string, inputExamples: string)

  /** run, up to the feed dict it passes on: without any of the three input
      options it raises AttributeError before anything is loaded. */
  method Run(args: RunArgs, load: string -> FileContents, eval: string -> PyValue)
    returns (r: PyResult<Dict<FeedValue>>)
    ensures args.inputs == "" && args.inputExprs == "" && args.inputExamples == "" ==> r == Raised(AttributeError)
    ensures args.inputs != "" || args.inputExprs != "" || args.inputExamples != "" ==>
              r == LoadedInputs(args.inputs, args.inputExprs, args.inputExamples, load, eval)
  {
    if args.inputs == "" && args.inputExprs == "" && args.inputExamples == "" {
      return Raised(AttributeError);
    }
    r := LoadInputsFromInputArgString(args.inputs, args.inputExprs, args.inputExamples, load, eval);
  }

  /** The --input_examples parse succeeds and the first of its keys to
      raise raises exc. */
  ghost predicate ExamplesRaise(examples: string, eval: string -> PyValue, exc: PyException)
  {
    var parsed := ParsedExprs(Split(examples, ';'));
    parsed.Returned? &&
    var items := MapDict(parsed.value, eval);
    exists i :: FirstRaised(items, ExampleInput, i) && ExampleInput(items[i]) == Raised(exc)
  }

  /** The error kinds of loading. The files and the other two arguments
      raise only RuntimeError, so AttributeError comes exactly from an
      --input_examples key whose first bad example is not a dictionary (see
      ExampleInput), and IndexError exactly from one whose first bad example
      has an empty feature list first among its bad features (see
      CreateExample). */
  lemma LoadErrorKinds(inputs: string, exprs: string, examples: string,
                       load: string -> FileContents, eval: string -> PyValue)
    ensures var r := LoadedInputs(inputs, exprs, examples, load, eval);
            r.Raised? ==> r.exc in {RuntimeError, ValueError, AttributeError, IndexError}
    ensures var r := LoadedInputs(inputs, exprs, examples, load, eval);
            var parsed := ParsedInputs(Split(inputs, ';')).Returned? && ParsedExprs(Split(exprs, ';')).Returned?;
            (r == Raised(AttributeError) <==> parsed && ExamplesRaise(examples, eval, AttributeError)) &&
            (r == Raised(IndexError) <==> parsed && ExamplesRaise(examples, eval, IndexError))
  {
    InputsRaiseRuntimeError(Split(inputs, ';'));
    ExprsRaiseRuntimeError(Split(exprs, ';'));
    var fileRefs := ParsedInputs(Split(inputs, ';'));
    if fileRefs.Returned? {
      LoadedFilesErrors(fileRefs.value, load);
    }
    ExamplesRaiseIff(examples, eval, AttributeError);
    ExamplesRaiseIff(examples, eval, IndexError);
  }

  /** The --input_examples argument raises AttributeError or IndexError
      exactly when it parses and its first bad key raises it. */
  lemma ExamplesRaiseIff(examples: string, eval: string -> PyValue, exc: PyException)
    requires exc in {AttributeError, IndexError}
    ensures ParsedExamples(examples, eval) == Raised(exc) <==> ExamplesRaise(examples, eval, exc)
  {
    ExprsRaiseRuntimeError(Split(examples, ';'));
    var parsed := ParsedExprs(Split(examples, ';'));
    if parsed.Returned? {
      EachOfRaises(MapDict(parsed.value, eval), ExampleInput, exc);
    }
  }

  /** The example with a non-dictionary element, k=[1], raises
      AttributeError, and the one with an empty feature list,
      k=[{"f": []}], raises IndexError. */
  lemma ExampleErrorKinds()
    ensures ExampleInput(("k", ListValue([IntValue(1)]))) == Raised(AttributeError)
    ensures ExampleInput(("k", ListValue([DictValue([("f", ListValue([]))])]))) == Raised(IndexError)
  {
    var bad := ListValue([IntValue(1)]);
    assert FirstRaised(bad.elements, CreateExample, 0);
    var empty := ListValue([DictValue([("f", ListValue([]))])]);
    assert FirstRaised(empty.elements[0].entries, FeatureOf, 0);
    assert FirstRaised(empty.elements, CreateExample, 0);
  }

  lemma {:induction false} LoadedFilesErrors(inputs: Dict<FileRef>, load: string -> FileContents)
    ensures LoadedFiles(inputs, load).Raised? ==> LoadedFiles(inputs, load).exc == RuntimeError
  {
    if inputs != [] {
      LoadedFilesErrors(inputs[..|inputs| - 1], load);
    }
  }
}
