// Equation handling of einsum: the two subscript parsers (the original
// implementation and the opt_einsum based one), the size of a shape and the
// guard that skips an identity transpose.
//
// Shapes are lists of dimensions where an unknown dimension is None. The
// first parser only needs each input's rank (None when the rank is unknown).
module SpecialMathOps {
  import opened Common
  import opened PyErrors
  import opened PyStr

  // ---------------------------------------------------------------------
  // Characters and strings
  // ---------------------------------------------------------------------

  predicate IsLetter(c: char)
  {
    ('a' <= c <= 'z') || ('A' <= c <= 'Z')
  }

  /** Every pair of characters is in strictly increasing code-point order. */
  predicate Increasing(s: string)
  {
    forall i, j :: 0 <= i < j < |s| ==> s[i] < s[j]
  }

  /** No character occurs twice; len(set(s)) == len(s). */
  predicate Distinct(s: string)
  {
    forall i, j :: 0 <= i < j < |s| ==> s[i] != s[j]
  }

  /** s.count(c) for one character. */
  function Occurrences(s: string, c: char): (r: nat)
    ensures r > 0 <==> c in s
    ensures r <= |s|
  {
    if s == [] then 0
    else Occurrences(s[..|s| - 1], c) + (if s[|s| - 1] == c then 1 else 0)
  }

  lemma {:induction false} OccurrencesAppend(s: string, t: string, c: char)
    ensures Occurrences(s + t, c) == Occurrences(s, c) + Occurrences(t, c)
    decreases |t|
  {
    if t == [] {
      assert s + t == s;
    } else {
      var k := |t| - 1;
      var st := s + t;
      assert st[..|st| - 1] == s + t[..k];
      assert st[|st| - 1] == t[k];
      OccurrencesAppend(s, t[..k], c);
      assert Occurrences(st, c) == Occurrences(s + t[..k], c) + (if t[k] == c then 1 else 0);
    }
  }

  /** A string with no repeated character holds each character at most once. */
  lemma {:induction false} DistinctOccurrences(s: string, c: char)
    requires Distinct(s)
    ensures Occurrences(s, c) <= 1
  {
    if s != [] {
      var k := |s| - 1;
      assert Distinct(s[..k]);
      DistinctOccurrences(s[..k], c);
      if s[k] == c {
        assert c !in s[..k];
      }
    }
  }

  /** ''.join(pieces). */
  function Flatten(pieces: seq<string>): string
  {
    if pieces == [] then "" else Flatten(pieces[..|pieces| - 1]) + pieces[|pieces| - 1]
  }

  /** A character of ''.join(pieces) is a character of one of the pieces. */
  lemma {:induction false} FlattenMember(pieces: seq<string>, c: char)
    ensures c in Flatten(pieces) <==> exists i :: 0 <= i < |pieces| && c in pieces[i]
  {
    if pieces != [] {
      var k := |pieces| - 1;
      FlattenMember(pieces[..k], c);
      if c in Flatten(pieces[..k]) {
        var i :| 0 <= i < k && c in pieces[..k][i];
        assert c in pieces[i];
      }
      if exists i :: 0 <= i < |pieces| && c in pieces[i] {
        var i :| 0 <= i < |pieces| && c in pieces[i];
        if i < k {
          assert c in pieces[..k][i];
        }
      }
    }
  }

  /** equation.replace(' ', ''). */
  function RemoveSpaces(s: string): (r: string)
    ensures ' ' !in r
    ensures forall c :: c != ' ' ==> (c in r <==> c in s)
    ensures ' ' !in s ==> r == s
  {
    if s == [] then ""
    else RemoveSpaces(s[..|s| - 1]) + (if s[|s| - 1] == ' ' then "" else [s[|s| - 1]])
  }

  /** The string starts with '...'. */
  predicate StartsEllipsis(s: string)
  {
    |s| >= 3 && s[0] == '.' && s[1] == '.' && s[2] == '.'
  }

  /** '...' in s. */
  predicate ContainsEllipsis(s: string)
    decreases |s|
  {
    |s| >= 3 && (StartsEllipsis(s) || ContainsEllipsis(s[1..]))
  }

  /** A string holding no '.' holds no ellipsis. */
  lemma {:induction false} NoPeriodNoEllipsis(s: string)
    requires '.' !in s
    ensures !ContainsEllipsis(s)
    decreases |s|
  {
    if |s| >= 3 {
      assert s[0] in s;
      assert forall c :: c in s[1..] ==> c in s;
      NoPeriodNoEllipsis(s[1..]);
    }
  }

  /** s.split('...'): the pieces between the ellipses, scanning from the left. */
  function SplitEllipsis(s: string): (r: seq<string>)
    ensures |r| >= 1
    ensures |r| >= 2 <==> ContainsEllipsis(s)
    ensures |Flatten(r)| == |s| - 3 * (|r| - 1)
    decreases |s|
  {
    if s == [] then [""]
    else if StartsEllipsis(s) then
      var t := SplitEllipsis(s[3..]);
      FlattenCons("", t);
      [""] + t
    else
      var t := SplitEllipsis(s[1..]);
      FlattenCons(t[0], t[1..]);
      FlattenCons([s[0]] + t[0], t[1..]);
      assert [t[0]] + t[1..] == t;
      [[s[0]] + t[0]] + t[1..]
  }

  lemma {:induction false} FlattenCons(p: string, ps: seq<string>)
    ensures Flatten([p] + ps) == p + Flatten(ps)
    decreases |ps|
  {
    if ps == [] {
      assert [p] + ps == [p];
      assert [p][..0] == [];
    } else {
      var k := |ps| - 1;
      assert ([p] + ps)[..k + 1] == [p] + ps[..k];
      FlattenCons(p, ps[..k]);
    }
  }

  /** The pieces put back together with rep between consecutive ones. */
  function JoinWith(pieces: seq<string>, rep: string): string
    requires |pieces| >= 1
  {
    if |pieces| == 1 then pieces[0] else pieces[0] + rep + JoinWith(pieces[1..], rep)
  }

  /** s.replace('...', rep): every ellipsis found scanning from the left is
      replaced. */
  function ReplaceEllipsis(s: string, rep: string): string
    decreases |s|
  {
    if s == [] then ""
    else if StartsEllipsis(s) then rep + ReplaceEllipsis(s[3..], rep)
    else [s[0]] + ReplaceEllipsis(s[1..], rep)
  }

  /** Replacing is splitting and joining with the replacement. */
  lemma {:induction false} ReplaceIsSplitJoin(s: string, rep: string)
    ensures ReplaceEllipsis(s, rep) == JoinWith(SplitEllipsis(s), rep)
    decreases |s|
  {
    if s == [] {
    } else if StartsEllipsis(s) {
      ReplaceIsSplitJoin(s[3..], rep);
      JoinWithEmptyHead(SplitEllipsis(s[3..]), rep);
    } else {
      ReplaceIsSplitJoin(s[1..], rep);
      JoinWithConsHead(s[0], SplitEllipsis(s[1..]), rep);
    }
  }

  lemma JoinWithEmptyHead(t: seq<string>, rep: string)
    requires |t| >= 1
    ensures JoinWith([""] + t, rep) == rep + JoinWith(t, rep)
  {
    assert ([""] + t)[1..] == t;
  }

  lemma JoinWithConsHead(c: char, t: seq<string>, rep: string)
    requires |t| >= 1
    ensures JoinWith([[c] + t[0]] + t[1..], rep) == [c] + JoinWith(t, rep)
  {
    var r := [[c] + t[0]] + t[1..];
    assert r[1..] == t[1..];
  }

  /** Without an ellipsis the replacement changes nothing. */
  lemma ReplaceWithoutEllipsis(s: string, rep: string)
    requires !ContainsEllipsis(s)
    ensures ReplaceEllipsis(s, rep) == s
  {
    ReplaceIsSplitJoin(s, rep);
    ReplaceSingleSplit(s);
  }

  lemma {:induction false} ReplaceSingleSplit(s: string)
    requires !ContainsEllipsis(s)
    ensures SplitEllipsis(s) == [s]
    decreases |s|
  {
    if s != [] {
      assert !StartsEllipsis(s);
      assert !ContainsEllipsis(s[1..]);
      ReplaceSingleSplit(s[1..]);
      assert [s[0]] + s[1..] == s;
    }
  }

  /** A replaced string holds only characters of the original and of the
      replacement. */
  lemma {:induction false} ReplaceChars(s: string, rep: string, c: char)
    requires c in ReplaceEllipsis(s, rep)
    ensures c in s || c in rep
    decreases |s|
  {
    if s != [] {
      if StartsEllipsis(s) {
        if c !in rep {
          ReplaceChars(s[3..], rep, c);
        }
      } else if c != s[0] {
        ReplaceChars(s[1..], rep, c);
      }
    }
  }

  /** sorted(chars), for characters below code point n: the characters of
      the set in increasing order. */
  function SortedAscii(chars: set<char>, n: nat): (r: string)
    requires n <= 128
    ensures forall c :: c in r <==> c in chars && (c as int) < n
    ensures Increasing(r)
  {
    if n == 0 then ""
    else
      var c := (n - 1) as char;
      var r := SortedAscii(chars, n - 1);
      assert forall i :: 0 <= i < |r| ==> r[i] in r;
      if c in chars then r + [c] else r
  }

  // ---------------------------------------------------------------------
  // The subscript pattern
  // ---------------------------------------------------------------------

  /** A character of the subscript pattern: a letter, one of the extra
      characters, and on the input side the comma. */
  predicate InClass(c: char, extra: set<char>, comma: bool)
  {
    IsLetter(c) || c in extra || (comma && c == ',')
  }

  /** The length of the longest prefix of class characters (a greedy
      character-class repetition). */
  function ClassPrefix(s: string, extra: set<char>, comma: bool): (r: nat)
    ensures r <= |s|
    ensures forall i :: 0 <= i < r ==> InClass(s[i], extra, comma)
    ensures r < |s| ==> !InClass(s[r], extra, comma)
  {
    if s == [] || !InClass(s[0], extra, comma) then 0
    else 1 + ClassPrefix(s[1..], extra, comma)
  }

  predicate AllInClass(s: string, extra: set<char>, comma: bool)
  {
    forall i :: 0 <= i < |s| ==> InClass(s[i], extra, comma)
  }

  /** The text a match consists of: the inputs, the optional arrow with the
      output, and the one final newline that '$' lets through. */
  function Layout(inputs: string, output: Option<string>, newline: bool): string
  {
    inputs + (if output.Some? then "->" + output.value else "") + (if newline then "\n" else "")
  }

  /** What follows the input group: nothing, or the arrow and the output
      group; then the end of the text or a final newline. */
  function MatchTail(rest: string, extra: set<char>): (r: Option<Option<string>>)
    requires '-' !in extra && '\n' !in extra
    ensures r.Some? && r.value.Some? ==> AllInClass(r.value.value, extra, false)
    ensures r.Some? ==> rest == Layout("", r.value, false) || rest == Layout("", r.value, true)
    ensures r.Some? ==> (r.value.None? <==> '-' !in rest)
  {
    if rest == "" || rest == "\n" then Some(None)
    else if |rest| >= 2 && rest[0] == '-' && rest[1] == '>' then
      var t := rest[2..];
      var m := ClassPrefix(t, extra, false);
      var tail := t[m..];
      if tail == "" || tail == "\n" then
        assert t == t[..m] + tail;
        assert rest == "->" + t;
        assert rest[0] == '-';
        Some(Some(t[..m]))
      else None
    else None
  }

  /** re.match('^([C,]+)(->[C]*)?$', s) where C is the letters and the extra
      characters ('*' instead of '+' when nonEmpty is false): the two groups,
      the second without its arrow, or None when the text does not match. */
  function MatchSubscripts(s: string, extra: set<char>, nonEmpty: bool): (r: Option<(string, Option<string>)>)
    requires '-' !in extra && '\n' !in extra && ',' !in extra
    ensures r.Some? ==> AllInClass(r.value.0, extra, true) && (nonEmpty ==> r.value.0 != "")
    ensures r.Some? && r.value.1.Some? ==> AllInClass(r.value.1.value, extra, false)
    ensures r.Some? ==> s == Layout(r.value.0, r.value.1, false) || s == Layout(r.value.0, r.value.1, true)
    ensures r.Some? ==> (r.value.1.None? <==> '-' !in s)
  {
    var n := ClassPrefix(s, extra, true);
    var g1 := s[..n];
    var rest := s[n..];
    if nonEmpty && n == 0 then None
    else
      match MatchTail(rest, extra)
      case None => None
      case Some(output) =>
        MatchParts(s, n, output, extra);
        Some((g1, output))
  }

  /** The input group followed by a matching tail is a match of the whole. */
  lemma MatchParts(s: string, n: nat, output: Option<string>, extra: set<char>)
    requires n <= |s| && '-' !in extra && ',' !in extra
    requires forall i :: 0 <= i < n ==> InClass(s[i], extra, true)
    requires s[n..] == Layout("", output, false) || s[n..] == Layout("", output, true)
    requires output.None? <==> '-' !in s[n..]
    ensures AllInClass(s[..n], extra, true)
    ensures s == Layout(s[..n], output, false) || s == Layout(s[..n], output, true)
    ensures output.None? <==> '-' !in s
  {
    assert s == s[..n] + s[n..];
    assert forall nl :: Layout(s[..n], output, nl) == s[..n] + Layout("", output, nl);
    assert forall i :: 0 <= i < n ==> s[i] != '-';
  }

  /** Every text of the pattern's form matches, with the groups it was built
      from. */
  lemma MatchComplete(inputs: string, output: Option<string>, newline: bool, extra: set<char>, nonEmpty: bool)
    requires '-' !in extra && '\n' !in extra && ',' !in extra
    requires AllInClass(inputs, extra, true) && (nonEmpty ==> inputs != "")
    requires output.Some? ==> AllInClass(output.value, extra, false)
    ensures MatchSubscripts(Layout(inputs, output, newline), extra, nonEmpty) == Some((inputs, output))
  {
    var s := Layout(inputs, output, newline);
    var rest := Layout("", output, newline);
    assert s == inputs + rest;
    ClassPrefixStops(inputs, rest, extra, true);
    assert s[..|inputs|] == inputs && s[|inputs|..] == rest;
    MatchTailComplete(output, newline, extra);
  }

  lemma MatchTailComplete(output: Option<string>, newline: bool, extra: set<char>)
    requires '-' !in extra && '\n' !in extra
    requires output.Some? ==> AllInClass(output.value, extra, false)
    ensures MatchTail(Layout("", output, newline), extra) == Some(output)
  {
    if output.Some? {
      var tail := if newline then "\n" else "";
      var rest := Layout("", output, newline);
      assert rest == "->" + (output.value + tail);
      assert rest[2..] == output.value + tail;
      ClassPrefixStops(output.value, tail, extra, false);
      assert (output.value + tail)[..|output.value|] == output.value;
      assert (output.value + tail)[|output.value|..] == tail;
    }
  }

  /** The greedy prefix of a + b ends after a when a is all class characters
      and b does not start with one. */
  lemma {:induction false} ClassPrefixStops(a: string, b: string, extra: set<char>, comma: bool)
    requires AllInClass(a, extra, comma)
    requires b != [] ==> !InClass(b[0], extra, comma)
    ensures ClassPrefix(a + b, extra, comma) == |a|
  {
    if a != [] {
      assert (a + b)[1..] == a[1..] + b;
      ClassPrefixStops(a[1..], b, extra, comma);
    }
  }

  /** A sep-joined text of pieces drawn from a class holds only class
      characters and separators. */
  lemma {:induction false} JoinInClass(pieces: seq<string>, extra: set<char>)
    requires |pieces| >= 1
    requires forall i :: 0 <= i < |pieces| ==> AllInClass(pieces[i], extra, false)
    ensures AllInClass(Join(pieces, ','), extra, true)
  {
    if |pieces| > 1 {
      JoinInClass(pieces[1..], extra);
      var rest := Join(pieces[1..], ',');
      var s := pieces[0] + [','] + rest;
      assert forall i :: 0 <= i < |s| ==> s[i] == ',' || (i < |pieces[0]| && s[i] == pieces[0][i]) || (i > |pieces[0]| && s[i] == rest[i - |pieces[0]| - 1]);
    }
  }

  // ---------------------------------------------------------------------
  // The original parser
  // ---------------------------------------------------------------------

  /** string.ascii_letters: the lower-case letters, then the upper-case ones. */
  function AsciiLetters(): (r: string)
    ensures forall i :: 0 <= i < |r| ==> IsLetter(r[i])
  {
    seq(26, i requires 0 <= i < 26 => ('a' as int + i) as char)
      + seq(26, i requires 0 <= i < 26 => ('A' as int + i) as char)
  }

  /** The characters of letters, in order, that are not in used. */
  function LettersNotIn(letters: string, used: string): (r: string)
    ensures forall c :: c in r <==> c in letters && c !in used
  {
    if letters == [] then ""
    else
      var k := |letters| - 1;
      LettersNotIn(letters[..k], used) + (if letters[k] in used then "" else [letters[k]])
  }

  /** The letters no input subscript uses, in ascii_letters order. */
  function Unused(used: string): (r: string)
    ensures forall c :: c in r ==> IsLetter(c) && c !in used
  {
    var r := LettersNotIn(AsciiLetters(), used);
    assert forall c :: c in AsciiLetters() ==> IsLetter(c);
    r
  }

  /** The axes that replace the ellipsis of one input subscript: the last n
      unused letters, where n is what the input's rank leaves once the named
      labels are counted. The ellipsis must occur once and the rank must be
      known and large enough. */
  function ReplacementAxes(ax: string, ndim: Option<nat>, unused: string): (r: PyResult<string>)
    requires ContainsEllipsis(ax)
    ensures r.Raised? ==> r.exc == ValueError
    ensures r.Returned? ==> |r.value| <= |unused| && r.value == unused[|unused| - |r.value|..]
    ensures r.Returned? ==> ndim.Some? && |ReplaceEllipsis(ax, r.value)| == ndim.value
  {
    var parts := SplitEllipsis(ax);
    if |parts| != 2 then Raised(ValueError)
    else if ndim.None? then Raised(ValueError)
    else
      assert Flatten(parts) == parts[0] + parts[1] by {
        assert parts == [parts[0]] + [parts[1]];
        FlattenCons(parts[0], [parts[1]]);
        assert Flatten([parts[1]]) == parts[1] by {
          assert [parts[1]][..0] == [];
        }
      }
      var n := ndim.value - |Flatten(parts)|;
      if n < 0 then Raised(ValueError)
      else if |unused| < n then Raised(ValueError)
      else
        var rep := unused[|unused| - n..];
        ReplaceIsSplitJoin(ax, rep);
        assert JoinWith(parts, rep) == parts[0] + rep + parts[1];
        Returned(rep)
  }

  /** The ellipsis loop over the first |labels| inputs: each subscript with an
      ellipsis gets its replacement axes, and the longest replacement so far
      is kept as the ellipsis axes. The first failing input decides the
      error. */
  function ResolveEllipses(labels: seq<string>, ndims: seq<Option<nat>>, unused: string): (r: PyResult<(seq<string>, string)>)
    requires |ndims| == |labels|
    ensures r.Raised? ==> r.exc == ValueError
    ensures r.Returned? ==> |r.value.0| == |labels|
    ensures r.Returned? ==> forall i :: 0 <= i < |labels| ==>
      if ContainsEllipsis(labels[i]) then ndims[i].Some? && |r.value.0[i]| == ndims[i].value
      else r.value.0[i] == labels[i]
    ensures r.Returned? ==> |r.value.1| <= |unused| && r.value.1 == unused[|unused| - |r.value.1|..]
  {
    if labels == [] then Returned(([], ""))
    else
      var k := |labels| - 1;
      match ResolveEllipses(labels[..k], ndims[..k], unused)
      case Raised(e) => Raised(e)
      case Returned((done, axes)) =>
        ResolveStep(labels, ndims, unused, done, axes)
  }

  /** One more input of the ellipsis loop. */
  function ResolveStep(labels: seq<string>, ndims: seq<Option<nat>>, unused: string, done: seq<string>, axes: string): (r: PyResult<(seq<string>, string)>)
    requires |ndims| == |labels| > 0 && |done| == |labels| - 1
    requires forall i :: 0 <= i < |done| ==>
      if ContainsEllipsis(labels[i]) then ndims[i].Some? && |done[i]| == ndims[i].value
      else done[i] == labels[i]
    requires |axes| <= |unused| && axes == unused[|unused| - |axes|..]
    ensures r.Raised? ==> r.exc == ValueError
    ensures r.Returned? ==> |r.value.0| == |labels|
    ensures r.Returned? ==> forall i :: 0 <= i < |labels| ==>
      if ContainsEllipsis(labels[i]) then ndims[i].Some? && |r.value.0[i]| == ndims[i].value
      else r.value.0[i] == labels[i]
    ensures r.Returned? ==> |r.value.1| <= |unused| && r.value.1 == unused[|unused| - |r.value.1|..]
  {
    var k := |labels| - 1;
    if !ContainsEllipsis(labels[k]) then Returned((done + [labels[k]], axes))
    else
      match ReplacementAxes(labels[k], ndims[k], unused)
      case Raised(e) => Raised(e)
      case Returned(rep) =>
        Returned((done + [ReplaceEllipsis(labels[k], rep)], if |rep| > |axes| then rep else axes))
  }

  predicate HasPeriod(labels: seq<string>)
  {
    exists i :: 0 <= i < |labels| && '.' in labels[i]
  }

  /** The implicit output of the original parser: the ellipsis axes, then in
      sorted order every other label that occurs exactly once. */
  function ImplicitOutputV1(labels: seq<string>, axes: string): (r: string)
    ensures |r| >= |axes| && r[..|axes|] == axes
    ensures Increasing(r[|axes|..])
    ensures forall c :: (c as int) < 128 ==>
      (c in r[|axes|..] <==> c !in axes && Occurrences(Flatten(labels), c) == 1)
  {
    var flat := Flatten(labels);
    var rest := SortedAscii(set c | c in flat && c !in axes && Occurrences(flat, c) == 1, 128);
    assert (axes + rest)[|axes|..] == rest;
    axes + rest
  }

  /** The original einsum parser: the input subscripts with every ellipsis
      replaced by unused letters, and the output subscript (given, or made of
      the ellipsis axes and the labels that occur once). With
      rejectStrayPeriods a period outside an ellipsis is refused whether or
      not the equation has an ellipsis; without it, as the code is written, a
      period is refused only when the equation holds an ellipsis. */
  function EinsumV1Parse(equation: string, ndims: seq<Option<nat>>, rejectStrayPeriods: bool): (r: PyResult<(seq<string>, string)>)
    ensures r.Raised? ==> r.exc == ValueError
    ensures r.Returned? ==> |r.value.0| == |ndims|
  {
    var eq := RemoveSpaces(equation);
    match MatchSubscripts(eq, {'.'}, true)
    case None => Raised(ValueError)
    case Some((g1, g2)) =>
      var labels := Split(g1, ',');
      if |ndims| != |labels| then Raised(ValueError)
      else if ContainsEllipsis(eq) then
        match ResolveEllipses(labels, ndims, Unused(Flatten(labels)))
        case Raised(e) => Raised(e)
        case Returned((resolved, axes)) =>
          if HasPeriod(resolved) then Raised(ValueError)
          else if g2.Some? then
            var output := ReplaceEllipsis(g2.value, axes);
            if '.' in output then Raised(ValueError) else Returned((resolved, output))
          else Returned((resolved, ImplicitOutputV1(resolved, axes)))
      else if rejectStrayPeriods && (HasPeriod(labels) || (g2.Some? && '.' in g2.value)) then
        Raised(ValueError)
      else if g2.Some? then Returned((labels, g2.value))
      else Returned((labels, ImplicitOutputV1(labels, "")))
  }

  /** With periods refused outside ellipses, no label of the result is a
      period. */
  lemma V1NoStrayPeriods(equation: string, ndims: seq<Option<nat>>)
    requires EinsumV1Parse(equation, ndims, true).Returned?
    ensures forall i :: 0 <= i < |ndims| ==> '.' !in EinsumV1Parse(equation, ndims, true).value.0[i]
    ensures '.' !in EinsumV1Parse(equation, ndims, true).value.1
  {
    var eq := RemoveSpaces(equation);
    var (g1, g2) := MatchSubscripts(eq, {'.'}, true).value;
    var labels := Split(g1, ',');
    var (resolved, output) := EinsumV1Parse(equation, ndims, true).value;
    if ContainsEllipsis(eq) {
      var (_, axes) := ResolveEllipses(labels, ndims, Unused(Flatten(labels))).value;
      assert !HasPeriod(resolved);
      if g2.None? {
        assert '.' !in axes by {
          assert forall c :: c in axes ==> c in Unused(Flatten(labels));
        }
        FlattenMember(resolved, '.');
        assert '.' !in output[|axes|..];
        assert output == output[..|axes|] + output[|axes|..];
      }
    } else if g2.None? {
      FlattenMember(labels, '.');
      assert '.' !in output[0..];
      assert output[0..] == output;
    }
  }

  /** An equation without an ellipsis and with an explicit output keeps
      its subscripts as written, unless periods are refused and one occurs. */
  lemma V1WithoutEllipsis(equation: string, ndims: seq<Option<nat>>, rejectStrayPeriods: bool, inputs: string, output: string)
    requires MatchSubscripts(RemoveSpaces(equation), {'.'}, true) == Some((inputs, Some(output)))
    requires |Split(inputs, ',')| == |ndims|
    requires !ContainsEllipsis(RemoveSpaces(equation))
    ensures EinsumV1Parse(equation, ndims, rejectStrayPeriods)
      == if rejectStrayPeriods && (HasPeriod(Split(inputs, ',')) || '.' in output) then Raised(ValueError)
         else Returned((Split(inputs, ','), output))
  {
  }

  /** The equation in the code as written: a period outside an ellipsis is
      taken for a label when the equation has no ellipsis, so "a.b->ab" is
      accepted for a rank-3 input and its middle axis is summed away; with
      periods refused it is an error. */
  lemma V1StrayPeriodAccepted()
    ensures EinsumV1Parse("a.b->ab", [Some(3)], false) == Returned((["a.b"], "ab"))
    ensures EinsumV1Parse("a.b->ab", [Some(3)], true) == Raised(ValueError)
  {
    StrayPeriodExample();
    assert '.' in ["a.b"][0];
    V1WithoutEllipsis("a.b->ab", [Some(3)], false, "a.b", "ab");
    V1WithoutEllipsis("a.b->ab", [Some(3)], true, "a.b", "ab");
  }

  lemma StrayPeriodExample()
    ensures MatchSubscripts(RemoveSpaces("a.b->ab"), {'.'}, true) == Some(("a.b", Some("ab")))
    ensures Split("a.b", ',') == ["a.b"]
    ensures !ContainsEllipsis(RemoveSpaces("a.b->ab"))
  {
    StrayPeriodMatch();
    assert FirstIndexOf("a.b", ',').None?;
    StrayPeriodNoEllipsis();
  }

  lemma StrayPeriodMatch()
    ensures RemoveSpaces("a.b->ab") == "a.b->ab"
    ensures MatchSubscripts("a.b->ab", {'.'}, true) == Some(("a.b", Some("ab")))
  {
    var eq := "a.b->ab";
    assert ' ' !in eq;
    assert eq == Layout("a.b", Some("ab"), false);
    assert AllInClass("a.b", {'.'}, true) && AllInClass("ab", {'.'}, false);
    MatchComplete("a.b", Some("ab"), false, {'.'}, true);
  }

  lemma StrayPeriodNoEllipsis()
    ensures !ContainsEllipsis("a.b->ab")
  {
    var eq := "a.b->ab";
    assert !StartsEllipsis(eq);
    assert eq[3..] == "->ab";
    NoPeriodNoEllipsis("->ab");
    assert !StartsEllipsis(eq[1..]) && !StartsEllipsis(eq[2..]);
    assert eq[1..][1..] == eq[2..] && eq[2..][1..] == eq[3..];
  }

  /** A character outside the class does not occur in a text of the class. */
  lemma NotInClassText(s: string, extra: set<char>, comma: bool, c: char)
    requires AllInClass(s, extra, comma) && !InClass(c, extra, comma)
    ensures c !in s
  {
  }

  /** Letters-only subscripts laid out as "g1->output" match as written. */
  lemma LetterSubscriptsMatch(inputs: seq<string>, output: string)
    requires |inputs| >= 1 && Join(inputs, ',') != ""
    requires forall i :: 0 <= i < |inputs| ==> forall j :: 0 <= j < |inputs[i]| ==> IsLetter(inputs[i][j])
    requires forall j :: 0 <= j < |output| ==> IsLetter(output[j])
    ensures var g1 := Join(inputs, ',');
            var eq := g1 + "->" + output;
            RemoveSpaces(eq) == eq && MatchSubscripts(eq, {'.'}, true) == Some((g1, Some(output)))
  {
    var g1 := Join(inputs, ',');
    var eq := g1 + "->" + output;
    assert forall i :: 0 <= i < |inputs| ==> AllInClass(inputs[i], {'.'}, false);
    JoinInClass(inputs, {'.'});
    assert AllInClass(output, {'.'}, false);
    assert eq == Layout(g1, Some(output), false);
    NotInClassText(g1, {'.'}, true, ' ');
    NotInClassText(output, {'.'}, false, ' ');
    assert RemoveSpaces(eq) == eq;
    MatchComplete(g1, Some(output), false, {'.'}, true);
  }

  /** Letters-only subscripts split back into the inputs and hold neither
      a period nor an ellipsis. */
  lemma LetterSubscriptsPlain(inputs: seq<string>, output: string)
    requires |inputs| >= 1
    requires forall i :: 0 <= i < |inputs| ==> forall j :: 0 <= j < |inputs[i]| ==> IsLetter(inputs[i][j])
    requires forall j :: 0 <= j < |output| ==> IsLetter(output[j])
    ensures var g1 := Join(inputs, ',');
            Split(g1, ',') == inputs && !HasPeriod(inputs) && '.' !in output &&
            !ContainsEllipsis(g1 + "->" + output)
  {
    var g1 := Join(inputs, ',');
    forall i | 0 <= i < |inputs|
      ensures ',' !in inputs[i] && '.' !in inputs[i]
    {
      assert AllInClass(inputs[i], {}, false);
      NotInClassText(inputs[i], {}, false, ',');
      NotInClassText(inputs[i], {}, false, '.');
    }
    SplitJoin(inputs, ',');
    assert AllInClass(output, {}, false);
    NotInClassText(output, {}, false, '.');
    JoinInClass(inputs, {});
    NotInClassText(g1, {}, true, '.');
    NoPeriodNoEllipsis(g1 + "->" + output);
  }

  /** Every well-formed equation without periods whose subscripts fit the
      inputs is accepted: the subscripts come back as written. */
  lemma V1AcceptsWellFormed(inputs: seq<string>, output: string, ndims: seq<Option<nat>>, rejectStrayPeriods: bool)
    requires |inputs| == |ndims| >= 1
    requires forall i :: 0 <= i < |inputs| ==> forall j :: 0 <= j < |inputs[i]| ==> IsLetter(inputs[i][j])
    requires forall j :: 0 <= j < |output| ==> IsLetter(output[j])
    requires Join(inputs, ',') != ""
    ensures EinsumV1Parse(Join(inputs, ',') + "->" + output, ndims, rejectStrayPeriods) == Returned((inputs, output))
  {
    var g1 := Join(inputs, ',');
    LetterSubscriptsMatch(inputs, output);
    LetterSubscriptsPlain(inputs, output);
    V1WithoutEllipsis(g1 + "->" + output, ndims, rejectStrayPeriods, g1, output);
  }

  /** The per-label counts of the implicit output: every label outside the
      ellipsis axes with the number of times it occurs. */
  method CountLabels(labels: seq<string>, axes: string) returns (counts: map<char, nat>)
    ensures forall c :: c in counts <==> c in Flatten(labels) && c !in axes
    ensures forall c :: c in counts ==> counts[c] == Occurrences(Flatten(labels), c)
  {
    ghost var keys := set c | c in Flatten(labels) && c !in axes;
    counts := map c | c in Flatten(labels) && c !in axes :: 0;
    var i := 0;
    while i < |labels|
      invariant 0 <= i <= |labels|
      invariant forall c :: c in counts <==> c in keys
      invariant forall c :: c in counts ==> counts[c] == Occurrences(Flatten(labels[..i]), c)
    {
      forall c | c in labels[i] && c !in axes
        ensures c in keys
      {
        FlattenMember(labels, c);
      }
      counts := CountWord(counts, Flatten(labels[..i]), labels[i], keys, axes);
      assert labels[..i + 1][..i] == labels[..i];
      i := i + 1;
    }
    assert labels[..i] == labels;
  }

  /** The inner loop: the counts of one more subscript's labels. */
  method CountWord(counts: map<char, nat>, ghost seen: string, word: string, ghost keys: set<char>, axes: string)
    returns (counts': map<char, nat>)
    requires forall c :: c in counts <==> c in keys
    requires forall c :: c in keys ==> c !in axes
    requires forall c :: c in word && c !in axes ==> c in keys
    requires forall c :: c in counts ==> counts[c] == Occurrences(seen, c)
    ensures forall c :: c in counts' <==> c in keys
    ensures forall c :: c in counts' ==> counts'[c] == Occurrences(seen + word, c)
  {
    counts' := counts;
    var j := 0;
    assert seen + word[..j] == seen;
    while j < |word|
      invariant 0 <= j <= |word|
      invariant forall c :: c in counts' <==> c in keys
      invariant forall c :: c in counts' ==> counts'[c] == Occurrences(seen + word[..j], c)
    {
      var ax := word[j];
      OccurrencesSnoc(seen + word[..j], ax);
      assert seen + word[..j + 1] == (seen + word[..j]) + [ax];
      if ax !in axes {
        counts' := counts'[ax := counts'[ax] + 1];
      }
      j := j + 1;
    }
    assert word[..j] == word;
  }

  lemma OccurrencesSnoc(s: string, x: char)
    ensures forall c :: Occurrences(s + [x], c) == Occurrences(s, c) + (if x == c then 1 else 0)
  {
    assert (s + [x])[..|s|] == s;
  }

  /** The ellipsis loop of the original parser, input by input. */
  method ResolveEllipsesLoop(labels: seq<string>, ndims: seq<Option<nat>>, unused: string) returns (r: PyResult<(seq<string>, string)>)
    requires |ndims| == |labels|
    ensures r == ResolveEllipses(labels, ndims, unused)
  {
    var done: seq<string> := [];
    var axes := "";
    var i := 0;
    while i < |labels|
      invariant 0 <= i <= |labels|
      invariant ResolveEllipses(labels[..i], ndims[..i], unused) == Returned((done, axes))
    {
      assert labels[..i + 1][..i] == labels[..i] && ndims[..i + 1][..i] == ndims[..i];
      if ContainsEllipsis(labels[i]) {
        var rep := ReplacementAxes(labels[i], ndims[i], unused);
        if rep.Raised? {
          ResolvePrefixRaised(labels, ndims, unused, i + 1);
          return Raised(rep.exc);
        }
        done := done + [ReplaceEllipsis(labels[i], rep.value)];
        if |rep.value| > |axes| {
          axes := rep.value;
        }
      } else {
        done := done + [labels[i]];
      }
      i := i + 1;
    }
    assert labels[..i] == labels && ndims[..i] == ndims;
    r := Returned((done, axes));
  }

  /** Once an input fails, the whole loop fails with its error. */
  lemma {:induction false} ResolvePrefixRaised(labels: seq<string>, ndims: seq<Option<nat>>, unused: string, n: nat)
    requires |ndims| == |labels| && 0 < n <= |labels|
    requires ResolveEllipses(labels[..n], ndims[..n], unused).Raised?
    ensures ResolveEllipses(labels, ndims, unused) == ResolveEllipses(labels[..n], ndims[..n], unused)
    decreases |labels| - n
  {
    if n < |labels| {
      assert labels[..n + 1][..n] == labels[..n] && ndims[..n + 1][..n] == ndims[..n];
      ResolvePrefixRaised(labels, ndims, unused, n + 1);
    } else {
      assert labels[..n] == labels && ndims[..n] == ndims;
    }
  }

  /** _einsum_v1_parse_and_resolve_equation, with periods outside an
      ellipsis refused in every equation. */
  method EinsumV1ParseAndResolveEquation(equation: string, ndims: seq<Option<nat>>) returns (r: PyResult<(seq<string>, string)>)
    ensures r == EinsumV1Parse(equation, ndims, true)
  {
    var eq := RemoveSpaces(equation);
    var m := MatchSubscripts(eq, {'.'}, true);
    if m.None? {
      return Raised(ValueError);
    }
    var (g1, g2) := m.value;
    var labels := Split(g1, ',');
    if |ndims| != |labels| {
      return Raised(ValueError);
    }
    var output := g2;
    var axes := "";
    if ContainsEllipsis(eq) {
      var resolved := ResolveEllipsesLoop(labels, ndims, Unused(Flatten(labels)));
      if resolved.Raised? {
        return Raised(resolved.exc);
      }
      labels, axes := resolved.value.0, resolved.value.1;
      if HasPeriod(labels) {
        return Raised(ValueError);
      }
      if output.Some? {
        output := Some(ReplaceEllipsis(output.value, axes));
        if '.' in output.value {
          return Raised(ValueError);
        }
      }
    } else if HasPeriod(labels) || (output.Some? && '.' in output.value) {
      return Raised(ValueError);
    }
    if output.None? {
      var counts := CountLabels(labels, axes);
      var once := set c | c in counts && counts[c] == 1;
      assert once == set c | c in Flatten(labels) && c !in axes && Occurrences(Flatten(labels), c) == 1;
      output := Some(axes + SortedAscii(once, 128));
    }
    r := Returned((labels, output.value));
  }

  // ---------------------------------------------------------------------
  // The opt_einsum based parser
  // ---------------------------------------------------------------------

  /** The checked subscripts: the resolved equation (an ellipsis written as
      '0', the implicit output appended), the input subscripts, the output
      subscript and the ellipsis label. */
  datatype Subscripts = Subscripts(resolved: string, inputs: seq<string>, output: string, ellipsis: Option<char>)

  /** The implicit output: the labels other than ',' that occur exactly once
      in the input group, in sorted order. */
  function ImplicitOutputV2(inputs: string): (r: string)
    ensures Increasing(r)
    ensures forall c :: (c as int) < 128 ==> (c in r <==> c != ',' && Occurrences(inputs, c) == 1)
  {
    SortedAscii(set c | c in inputs && c != ',' && Occurrences(inputs, c) == 1, 128)
  }

  /** Every output label is the ellipsis label or occurs in the inputs. */
  predicate OutputLabelsKnown(output: string, inputs: string, ellipsis: Option<char>)
  {
    forall i :: 0 <= i < |output| ==> Some(output[i]) == ellipsis || output[i] in inputs
  }

  /** The equation checks of the second parser, up to the resolved shapes:
      '0' is refused when the equation has an ellipsis, which then becomes
      '0'. */
  function V2Subscripts(equation: string, nInputs: nat): (r: PyResult<Subscripts>)
    ensures r.Raised? ==> r.exc == ValueError
    ensures ContainsEllipsis(equation) && '0' in RemoveSpaces(equation) ==> r.Raised?
    ensures r.Returned? ==> |r.value.inputs| == nInputs
    ensures r.Returned? ==> Distinct(r.value.output)
    ensures r.Returned? ==> OutputLabelsKnown(r.value.output, Join(r.value.inputs, ','), r.value.ellipsis)
    ensures r.Returned? ==> r.value.ellipsis == if ContainsEllipsis(equation) then Some('0') else None
  {
    var eq := RemoveSpaces(equation);
    if ContainsEllipsis(equation) && '0' in eq then Raised(ValueError)
    else if ContainsEllipsis(equation) then CheckSubscripts(ReplaceEllipsis(eq, "0"), Some('0'), nInputs)
    else CheckSubscripts(eq, None, nInputs)
  }

  /** The rest of the checks, on the equation without spaces and with the
      ellipsis written '0': the subscripts must match the pattern and fit
      the inputs; without an arrow the output is implicit and is appended;
      the output must not repeat a label, name a label absent from the
      inputs, or hold two ellipses. */
  function CheckSubscripts(eq: string, ellipsis: Option<char>, nInputs: nat): (r: PyResult<Subscripts>)
    requires ellipsis == None || ellipsis == Some('0')
    ensures r.Raised? ==> r.exc == ValueError
    ensures r.Returned? ==> |r.value.inputs| == nInputs && r.value.ellipsis == ellipsis
    ensures r.Returned? ==> Distinct(r.value.output)
    ensures r.Returned? ==> OutputLabelsKnown(r.value.output, Join(r.value.inputs, ','), ellipsis)
    ensures r.Returned? && '-' !in eq ==>
      && r.value.resolved == eq + "->" + r.value.output
      && r.value.output == ImplicitOutputV2(Join(r.value.inputs, ','))
  {
    match MatchSubscripts(eq, if ellipsis.Some? then {'0'} else {}, false)
    case None => Raised(ValueError)
    case Some((g1, g2)) =>
      var inputs := Split(g1, ',');
      if nInputs != |inputs| then Raised(ValueError)
      else
        var output := if g2.Some? then g2.value else ImplicitOutputV2(g1);
        var resolved := if g2.Some? then eq else eq + "->" + output;
        if output != "" && !Distinct(output) then Raised(ValueError)
        else if !OutputLabelsKnown(output, g1, ellipsis) then Raised(ValueError)
        else if ellipsis.Some? && output != "" && Occurrences(output, '0') > 1 then Raised(ValueError)
        else
          JoinSplit(g1, ',');
          Returned(Subscripts(resolved, inputs, output, ellipsis))
  }

  /** Without an arrow the resolved equation is the equation followed by
      '->' and the implicit output. */
  lemma V2ImplicitOutputAppended(equation: string, nInputs: nat)
    requires V2Subscripts(equation, nInputs).Returned?
    requires '-' !in equation
    ensures var sub := V2Subscripts(equation, nInputs).value;
      var eq := RemoveSpaces(equation);
      && sub.resolved == (if ContainsEllipsis(equation) then ReplaceEllipsis(eq, "0") else eq) + "->" + sub.output
      && sub.output == ImplicitOutputV2(Join(sub.inputs, ','))
  {
    var eq := RemoveSpaces(equation);
    if ContainsEllipsis(equation) && '-' in ReplaceEllipsis(eq, "0") {
      ReplaceChars(eq, "0", '-');
    }
  }

  /** Every well-formed equation without an ellipsis, whose output names
      distinct labels of the inputs and whose subscripts fit at most two
      inputs, is accepted as written, with no resolved shapes. */
  lemma V2AcceptsWellFormed(inputs: seq<string>, output: string, shapes: seq<Option<Shape>>)
    requires 1 <= |inputs| == |shapes| <= 2
    requires forall i :: 0 <= i < |inputs| ==> forall j :: 0 <= j < |inputs[i]| ==> IsLetter(inputs[i][j])
    requires forall j :: 0 <= j < |output| ==> IsLetter(output[j])
    requires Distinct(output) && forall j :: 0 <= j < |output| ==> output[j] in Join(inputs, ',')
    ensures EinsumV2Parse(Join(inputs, ',') + "->" + output, shapes)
      == Returned((Join(inputs, ',') + "->" + output, None, None))
  {
    var g1 := Join(inputs, ',');
    var eq := g1 + "->" + output;
    assert forall i :: 0 <= i < |inputs| ==> AllInClass(inputs[i], {}, false);
    JoinInClass(inputs, {});
    assert AllInClass(output, {}, false);
    assert eq == Layout(g1, Some(output), false);
    NotInClassText(g1, {}, true, ' ');
    NotInClassText(output, {}, false, ' ');
    assert RemoveSpaces(eq) == eq;
    NotInClassText(g1, {}, true, '.');
    NotInClassText(output, {}, false, '.');
    NoPeriodNoEllipsis(eq);
    MatchComplete(g1, Some(output), false, {}, false);
    forall i | 0 <= i < |inputs|
      ensures ',' !in inputs[i]
    {
      NotInClassText(inputs[i], {}, false, ',');
    }
    SplitJoin(inputs, ',');
    assert OutputLabelsKnown(output, g1, None);
    assert CheckSubscripts(eq, None, |shapes|) == Returned(Subscripts(eq, inputs, output, None));
  }

  /** The check for several ellipses in the output never decides anything:
      an output that passed the repeated-label check holds '0' at most once. */
  lemma V2SecondEllipsisCheckRedundant(output: string)
    requires Distinct(output)
    ensures Occurrences(output, '0') <= 1
  {
    DistinctOccurrences(output, '0');
  }

  /** A shape: a list of dimensions, None where a dimension is unknown. */
  type Shape = seq<Option<int>>

  /** filter(None, dims): the known dimensions other than 0. */
  function KnownNonZero(dims: Shape): (r: seq<int>)
    ensures forall i :: 0 <= i < |r| ==> r[i] != 0
  {
    if dims == [] then []
    else
      var d := dims[|dims| - 1];
      KnownNonZero(dims[..|dims| - 1]) + (if d.Some? && d.value != 0 then [d.value] else [])
  }

  /** The first and last occurrence of a character coincide exactly when it
      occurs once. */
  lemma FirstLastOccurrence(s: string, c: char)
    requires c in s
    ensures FirstIndexOf(s, c) == LastIndexOf(s, c) <==> Occurrences(s, c) == 1
  {
    var i := FirstIndexOf(s, c).value;
    var j := LastIndexOf(s, c).value;
    OccurrencesAround(s, i, c);
    assert Occurrences(s[..i], c) == 0;
    if i == j {
      assert Occurrences(s[i + 1..], c) == 0;
    } else {
      assert i < j;
      assert s[i + 1..][j - i - 1] == c;
      assert Occurrences(s[i + 1..], c) > 0;
    }
  }

  /** The occurrences before, at and after a position. */
  lemma OccurrencesAround(s: string, i: nat, c: char)
    requires i < |s|
    ensures Occurrences(s, c) == Occurrences(s[..i], c) + (if s[i] == c then 1 else 0) + Occurrences(s[i + 1..], c)
  {
    assert s == s[..i + 1] + s[i + 1..];
    OccurrencesAppend(s[..i + 1], s[i + 1..], c);
    assert s[..i + 1][..i] == s[..i];
  }

  /** One input's shape lined up with its labels: the dimensions under the
      ellipsis collapse into one, the product of the known non-zero ones. An
      input with two ellipses, more labels than dimensions (the ellipsis
      standing for none) or, without an ellipsis, a label count other than
      its rank is refused. */
  function CollapseEllipsis(labels: string, shape: Shape, ellipsis: Option<char>): (r: PyResult<Shape>)
    ensures r.Raised? ==> r.exc == ValueError
    ensures r.Raised? <==>
      if ellipsis.Some? && ellipsis.value in labels
      then Occurrences(labels, ellipsis.value) > 1 || |labels| > |shape| + 1
      else |labels| != |shape|
    ensures r.Returned? ==> |r.value| == |labels|
    ensures r.Returned? && (ellipsis.None? || ellipsis.value !in labels) ==> r.value == shape
    ensures r.Returned? && ellipsis.Some? && ellipsis.value in labels ==>
      var s := FirstIndexOf(labels, ellipsis.value).value;
      && (forall k :: 0 <= k < s ==> r.value[k] == shape[k])
      && r.value[s] == Some(Product(KnownNonZero(shape[s..s + |shape| + 1 - |labels|])))
      && (forall k :: s < k < |labels| ==> r.value[k] == shape[k + |shape| - |labels|])
  {
    var start := if ellipsis.Some? then FirstIndexOf(labels, ellipsis.value) else None;
    if start.Some? then
      FirstLastOccurrence(labels, ellipsis.value);
      if start != LastIndexOf(labels, ellipsis.value) then Raised(ValueError)
      else if |labels| > |shape| + 1 then Raised(ValueError)
      else
        var s := start.value;
        var e := s + |shape| + 1 - |labels|;
        Returned(shape[..s] + [Some(Product(KnownNonZero(shape[s..e])))] + shape[e..])
    else if |labels| != |shape| then Raised(ValueError)
    else Returned(shape)
  }

  /** zip(dims, labels) restricted to the known dimensions, as (label, dim)
      pairs in order. */
  function ZipKnown(dims: Shape, labels: string): (r: seq<(char, int)>)
    requires |dims| == |labels|
  {
    if dims == [] then []
    else
      var k := |dims| - 1;
      ZipKnown(dims[..k], labels[..k]) + (if dims[k].Some? then [(labels[k], dims[k].value)] else [])
  }

  /** A pair is zipped exactly when its label stands over that known
      dimension. */
  lemma {:induction false} ZipKnownMember(dims: Shape, labels: string, l: char, d: int)
    requires |dims| == |labels|
    ensures (l, d) in ZipKnown(dims, labels) <==> exists k :: 0 <= k < |dims| && labels[k] == l && dims[k] == Some(d)
  {
    if dims != [] {
      var k := |dims| - 1;
      ZipKnownMember(dims[..k], labels[..k], l, d);
      if exists k' :: 0 <= k' < k && labels[..k][k'] == l && dims[..k][k'] == Some(d) {
        var k' :| 0 <= k' < k && labels[..k][k'] == l && dims[..k][k'] == Some(d);
        assert labels[k'] == l && dims[k'] == Some(d);
      }
      if exists k' :: 0 <= k' < |dims| && labels[k'] == l && dims[k'] == Some(d) {
        var k' :| 0 <= k' < |dims| && labels[k'] == l && dims[k'] == Some(d);
        if k' < k {
          assert labels[..k][k'] == l && dims[..k][k'] == Some(d);
        }
      }
    }
  }

  /** The (label, dim) pairs the label_to_dim loop reads, over the first
      |inputs| inputs: inputs of unknown shape are skipped, and the first
      input whose shape does not fit its labels decides the error. */
  function KnownDims(inputs: seq<string>, shapes: seq<Option<Shape>>, ellipsis: Option<char>): (r: PyResult<seq<(char, int)>>)
    requires |inputs| == |shapes|
    ensures r.Raised? ==> r.exc == ValueError
  {
    if inputs == [] then Returned([])
    else
      var k := |inputs| - 1;
      match KnownDims(inputs[..k], shapes[..k], ellipsis)
      case Raised(e) => Raised(e)
      case Returned(pairs) =>
        if shapes[k].None? then Returned(pairs)
        else
          match CollapseEllipsis(inputs[k], shapes[k].value, ellipsis)
          case Raised(e) => Raised(e)
          case Returned(dims) => Returned(pairs + ZipKnown(dims, inputs[k]))
  }

  /** label_to_dim[label], with the default 1 for a label never seen. */
  function LabelDim(m: map<char, int>, l: char): int
  {
    if l in m then m[l] else 1
  }

  /** label_to_dim after max-updating it with every pair in order. */
  function MaxDims(pairs: seq<(char, int)>): map<char, int>
  {
    if pairs == [] then map[]
    else
      var k := |pairs| - 1;
      var m := MaxDims(pairs[..k]);
      m[pairs[k].0 := Max(LabelDim(m, pairs[k].0), pairs[k].1)]
  }

  /** A resolved label dimension is the largest known dimension of that
      label, and 1 when there is none larger. */
  lemma {:induction false} MaxDimsIsMaximum(pairs: seq<(char, int)>, l: char)
    ensures LabelDim(MaxDims(pairs), l) >= 1
    ensures forall i :: 0 <= i < |pairs| && pairs[i].0 == l ==> pairs[i].1 <= LabelDim(MaxDims(pairs), l)
    ensures LabelDim(MaxDims(pairs), l) == 1 || exists i :: 0 <= i < |pairs| && pairs[i] == (l, LabelDim(MaxDims(pairs), l))
  {
    if pairs != [] {
      var k := |pairs| - 1;
      MaxDimsIsMaximum(pairs[..k], l);
      var before := LabelDim(MaxDims(pairs[..k]), l);
      assert forall i :: 0 <= i < k ==> pairs[..k][i] == pairs[i];
      if before != 1 && (pairs[k].0 != l || pairs[k].1 <= before) {
        var i :| 0 <= i < k && pairs[..k][i] == (l, before);
        assert pairs[i] == (l, before);
      }
    }
  }

  /** Every resolved dimension is at least 1. */
  lemma MaxDimsPositive(pairs: seq<(char, int)>)
    ensures forall l :: LabelDim(MaxDims(pairs), l) >= 1
  {
    forall l {
      MaxDimsIsMaximum(pairs, l);
    }
  }

  /** The resolved shapes: each label of each input replaced by its
      dimension. */
  function ResolvedShapes(inputs: seq<string>, m: map<char, int>): (r: seq<seq<int>>)
    ensures |r| == |inputs|
    ensures forall j :: 0 <= j < |inputs| ==> |r[j]| == |inputs[j]|
  {
    seq(|inputs|, j requires 0 <= j < |inputs| => ResolvedShape(inputs[j], m))
  }

  function ResolvedShape(labels: string, m: map<char, int>): (r: seq<int>)
    ensures |r| == |labels|
  {
    seq(|labels|, k requires 0 <= k < |labels| => LabelDim(m, labels[k]))
  }

  /** _einsum_v2_parse_and_resolve_equation: the resolved equation, the
      resolved shapes (only for more than two inputs) and the ellipsis
      label. */
  function EinsumV2Parse(equation: string, shapes: seq<Option<Shape>>): (r: PyResult<(string, Option<seq<seq<int>>>, Option<char>)>)
    ensures r.Raised? ==> r.exc == ValueError
    ensures r.Returned? ==> (r.value.1.None? <==> |shapes| <= 2)
    ensures r.Returned? && r.value.1.Some? ==> |r.value.1.value| == |shapes|
  {
    match V2Subscripts(equation, |shapes|)
    case Raised(e) => Raised(e)
    case Returned(sub) =>
      if |shapes| <= 2 then Returned((sub.resolved, None, sub.ellipsis))
      else
        match KnownDims(sub.inputs, shapes, sub.ellipsis)
        case Raised(e) => Raised(e)
        case Returned(pairs) =>
          Returned((sub.resolved, Some(ResolvedShapes(sub.inputs, MaxDims(pairs))), sub.ellipsis))
  }

  /** Each resolved dimension is the largest known dimension its label
      stands over in any input (1 if none is larger); every known dimension
      under that label is at most it. */
  lemma V2ResolvedDimIsMax(equation: string, shapes: seq<Option<Shape>>, j: nat, k: nat)
    requires EinsumV2Parse(equation, shapes).Returned? && |shapes| > 2
    requires j < |shapes| && k < |V2Subscripts(equation, |shapes|).value.inputs[j]|
    ensures var sub := V2Subscripts(equation, |shapes|).value;
      var pairs := KnownDims(sub.inputs, shapes, sub.ellipsis).value;
      var d := EinsumV2Parse(equation, shapes).value.1.value[j][k];
      var l := sub.inputs[j][k];
      && d >= 1
      && (forall i :: 0 <= i < |pairs| && pairs[i].0 == l ==> pairs[i].1 <= d)
      && (d == 1 || exists i :: 0 <= i < |pairs| && pairs[i] == (l, d))
  {
    var sub := V2Subscripts(equation, |shapes|).value;
    var pairs := KnownDims(sub.inputs, shapes, sub.ellipsis).value;
    MaxDimsIsMaximum(pairs, sub.inputs[j][k]);
  }

  /** Once an input fails, the whole label_to_dim loop fails with its
      error. */
  lemma {:induction false} KnownDimsPrefixRaised(inputs: seq<string>, shapes: seq<Option<Shape>>, ellipsis: Option<char>, n: nat)
    requires |inputs| == |shapes| && 0 < n <= |inputs|
    requires KnownDims(inputs[..n], shapes[..n], ellipsis).Raised?
    ensures KnownDims(inputs, shapes, ellipsis) == KnownDims(inputs[..n], shapes[..n], ellipsis)
    decreases |inputs| - n
  {
    if n < |inputs| {
      assert inputs[..n + 1][..n] == inputs[..n] && shapes[..n + 1][..n] == shapes[..n];
      KnownDimsPrefixRaised(inputs, shapes, ellipsis, n + 1);
    } else {
      assert inputs[..n] == inputs && shapes[..n] == shapes;
    }
  }

  lemma MaxDimsSnoc(pairs: seq<(char, int)>, p: (char, int))
    ensures MaxDims(pairs + [p]) == MaxDims(pairs)[p.0 := Max(LabelDim(MaxDims(pairs), p.0), p.1)]
  {
    assert (pairs + [p])[..|pairs|] == pairs;
  }

  /** The inner loop: max-update label_to_dim with one input's known
      dimensions. */
  method MaxInto(m: map<char, int>, ghost pairs: seq<(char, int)>, dims: Shape, labels: string) returns (m': map<char, int>)
    requires |dims| == |labels| && m == MaxDims(pairs)
    ensures m' == MaxDims(pairs + ZipKnown(dims, labels))
  {
    m' := m;
    var k := 0;
    assert pairs + ZipKnown(dims[..0], labels[..0]) == pairs;
    while k < |dims|
      invariant 0 <= k <= |dims|
      invariant m' == MaxDims(pairs + ZipKnown(dims[..k], labels[..k]))
    {
      ghost var before := pairs + ZipKnown(dims[..k], labels[..k]);
      assert dims[..k + 1][..k] == dims[..k] && labels[..k + 1][..k] == labels[..k];
      if dims[k].Some? {
        MaxDimsSnoc(before, (labels[k], dims[k].value));
        assert pairs + ZipKnown(dims[..k + 1], labels[..k + 1]) == before + [(labels[k], dims[k].value)];
        m' := m'[labels[k] := Max(LabelDim(m', labels[k]), dims[k].value)];
      } else {
        assert ZipKnown(dims[..k + 1], labels[..k + 1]) == ZipKnown(dims[..k], labels[..k]);
      }
      k := k + 1;
    }
    assert dims[..k] == dims && labels[..k] == labels;
  }

  /** The label_to_dim loop over all inputs. */
  method LabelToDim(inputs: seq<string>, shapes: seq<Option<Shape>>, ellipsis: Option<char>) returns (r: PyResult<map<char, int>>)
    requires |inputs| == |shapes|
    ensures KnownDims(inputs, shapes, ellipsis).Raised? ==> r == Raised(KnownDims(inputs, shapes, ellipsis).exc)
    ensures KnownDims(inputs, shapes, ellipsis).Returned? ==> r == Returned(MaxDims(KnownDims(inputs, shapes, ellipsis).value))
  {
    var m: map<char, int> := map[];
    ghost var pairs: seq<(char, int)> := [];
    var i := 0;
    while i < |inputs|
      invariant 0 <= i <= |inputs|
      invariant KnownDims(inputs[..i], shapes[..i], ellipsis) == Returned(pairs)
      invariant m == MaxDims(pairs)
    {
      assert inputs[..i + 1][..i] == inputs[..i] && shapes[..i + 1][..i] == shapes[..i];
      if shapes[i].Some? {
        var dims := CollapseEllipsis(inputs[i], shapes[i].value, ellipsis);
        if dims.Raised? {
          KnownDimsPrefixRaised(inputs, shapes, ellipsis, i + 1);
          return Raised(dims.exc);
        }
        m := MaxInto(m, pairs, dims.value, inputs[i]);
        pairs := pairs + ZipKnown(dims.value, inputs[i]);
      }
      i := i + 1;
    }
    assert inputs[..i] == inputs && shapes[..i] == shapes;
    r := Returned(m);
  }

  /** The resolved_shapes loop. */
  method ResolveShapes(inputs: seq<string>, m: map<char, int>) returns (resolved: seq<seq<int>>)
    ensures resolved == ResolvedShapes(inputs, m)
  {
    resolved := [];
    var i := 0;
    while i < |inputs|
      invariant 0 <= i <= |inputs|
      invariant |resolved| == i
      invariant forall j :: 0 <= j < i ==> resolved[j] == ResolvedShape(inputs[j], m)
    {
      resolved := resolved + [ResolvedShape(inputs[i], m)];
      i := i + 1;
    }
  }

  /** _einsum_v2_parse_and_resolve_equation. */
  method EinsumV2ParseAndResolveEquation(equation: string, shapes: seq<Option<Shape>>)
    returns (r: PyResult<(string, Option<seq<seq<int>>>, Option<char>)>)
    ensures r == EinsumV2Parse(equation, shapes)
  {
    var sub := V2Subscripts(equation, |shapes|);
    if sub.Raised? {
      return Raised(sub.exc);
    }
    var Subscripts(resolved, inputs, _, ellipsis) := sub.value;
    if |shapes| <= 2 {
      return Returned((resolved, None, ellipsis));
    }
    var labelToDim := LabelToDim(inputs, shapes, ellipsis);
    if labelToDim.Raised? {
      return Raised(labelToDim.exc);
    }
    var resolvedShapes := ResolveShapes(inputs, labelToDim.value);
    r := Returned((resolved, Some(resolvedShapes), ellipsis));
  }

  // ---------------------------------------------------------------------
  // _total_size and the transpose guard
  // ---------------------------------------------------------------------

  /** The product of the shape values, accumulated from 1. */
  method TotalSize(shapeValues: seq<int>) returns (result: int)
    ensures result == Product(shapeValues)
  {
    result := 1;
    var i := 0;
    while i < |shapeValues|
      invariant 0 <= i <= |shapeValues|
      invariant result == Product(shapeValues[..i])
    {
      ProductAppend(shapeValues[..i], shapeValues[i]);
      assert shapeValues[..i + 1] == shapeValues[..i] + [shapeValues[i]];
      result := result * shapeValues[i];
      i := i + 1;
    }
    assert shapeValues[..i] == shapeValues;
  }

  /** A tensor as the graph node that produces it: an input of known shape
      or a transpose of another tensor. */
  datatype Tensor = Input(shape: seq<int>) | Transposed(operand: Tensor, perm: seq<int>)

  /** A permutation of range(n). */
  predicate IsPermutation(perm: seq<int>, n: nat)
  {
    && |perm| == n
    && (forall i :: 0 <= i < n ==> 0 <= perm[i] < n)
    && (forall i, j :: 0 <= i < j < n ==> perm[i] != perm[j])
  }

  /** list(range(n)). */
  function Range(n: nat): (r: seq<int>)
    ensures |r| == n && forall i :: 0 <= i < n ==> r[i] == i
  {
    if n == 0 then [] else Range(n - 1) + [n - 1]
  }

  /** The shape of a tensor: transpose takes dimension perm[i] to place i. */
  function ShapeOf(t: Tensor): seq<int>
  {
    match t
    case Input(shape) => shape
    case Transposed(operand, perm) =>
      var s := ShapeOf(operand);
      seq(|perm|, i requires 0 <= i < |perm| => if 0 <= perm[i] < |s| then s[perm[i]] else 0)
  }

  /** Transpose unless perm is the identity, in which case the tensor itself
      is returned. Either way the result has the permuted shape. */
  function TransposeIfNecessary(t: Tensor, perm: seq<int>): (r: Tensor)
    requires IsPermutation(perm, |ShapeOf(t)|)
    ensures r == t <==> perm == Range(|perm|)
    ensures |ShapeOf(r)| == |ShapeOf(t)|
    ensures forall i :: 0 <= i < |perm| ==> ShapeOf(r)[i] == ShapeOf(t)[perm[i]]
  {
    if perm != Range(|perm|) then Transposed(t, perm) else t
  }
}
