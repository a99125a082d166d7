// The few Python str operations the tools and ops modules rely on: searching
// for a character, str.split on a one-character separator, and int() on a
// decimal literal.
module PyStr {
  import opened Common
  import opened PyErrors

  /** s.find(c): the index of the first c, or None when there is none. */
  function FirstIndexOf(s: string, c: char): (r: Option<nat>)
    ensures r.None? <==> c !in s
    ensures r.Some? ==> r.value < |s| && s[r.value] == c && c !in s[..r.value]
  {
    if s == [] then None
    else if s[0] == c then Some(0)
    else
      match FirstIndexOf(s[1..], c)
      case None => None
      case Some(i) =>
        assert s[..i + 1] == [s[0]] + s[1..][..i];
        Some(i + 1)
  }

  /** s.rfind(c): the index of the last c, or None when there is none. */
  function LastIndexOf(s: string, c: char): (r: Option<nat>)
    ensures r.None? <==> c !in s
    ensures r.Some? ==> r.value < |s| && s[r.value] == c && c !in s[r.value + 1..]
  {
    if s == [] then None
    else if s[|s| - 1] == c then Some(|s| - 1)
    else
      var r := LastIndexOf(s[..|s| - 1], c);
      if r.Some? then
        assert s[r.value + 1..] == s[..|s| - 1][r.value + 1..] + [s[|s| - 1]];
        r
      else r
  }

  /** s.split(sep): the pieces between the separators, in order; there is
      always at least one (possibly empty) piece. */
  function Split(s: string, sep: char): (r: seq<string>)
    ensures |r| >= 1
    ensures forall i :: 0 <= i < |r| ==> sep !in r[i]
    decreases |s|
  {
    match FirstIndexOf(s, sep)
    case None => [s]
    case Some(i) => [s[..i]] + Split(s[i + 1..], sep)
  }

  /** A character of a piece is a character of the string that was split. */
  lemma {:induction false} SplitPieceChars(s: string, sep: char, c: char)
    ensures forall i :: 0 <= i < |Split(s, sep)| ==> c in Split(s, sep)[i] ==> c in s
    decreases |s|
  {
    match FirstIndexOf(s, sep)
    case None =>
    case Some(i) =>
      SplitPieceChars(s[i + 1..], sep, c);
      var r := Split(s, sep);
      forall j | 0 <= j < |r| && c in r[j]
        ensures c in s
      {
        if j == 0 {
          var k :| 0 <= k < |r[0]| && r[0][k] == c;
          assert s[k] == c;
        } else {
          assert r[j] == Split(s[i + 1..], sep)[j - 1];
          var k :| 0 <= k < |s[i + 1..]| && s[i + 1..][k] == c;
          assert s[i + 1 + k] == c;
        }
      }
  }

  /** sep.join(pieces). */
  function Join(pieces: seq<string>, sep: char): string
  {
    if pieces == [] then ""
    else if |pieces| == 1 then pieces[0]
    else pieces[0] + [sep] + Join(pieces[1..], sep)
  }

  /** Joining the pieces of a split gives back the string. */
  lemma {:induction false} JoinSplit(s: string, sep: char)
    ensures Join(Split(s, sep), sep) == s
    decreases |s|
  {
    match FirstIndexOf(s, sep)
    case None =>
    case Some(i) =>
      var pieces := Split(s, sep);
      assert pieces[0] == s[..i] && pieces[1..] == Split(s[i + 1..], sep);
      JoinSplit(s[i + 1..], sep);
      assert s == s[..i] + [sep] + s[i + 1..];
  }

  /** Splitting a join of separator-free pieces gives back the pieces. */
  lemma {:induction false} SplitJoin(pieces: seq<string>, sep: char)
    requires |pieces| >= 1
    requires forall i :: 0 <= i < |pieces| ==> sep !in pieces[i]
    ensures Split(Join(pieces, sep), sep) == pieces
  {
    if |pieces| > 1 {
      var rest := Join(pieces[1..], sep);
      var s := pieces[0] + [sep] + rest;
      assert s[..|pieces[0]|] == pieces[0];
      assert s[|pieces[0]| + 1..] == rest;
      FirstIndexAfter(pieces[0], sep, rest);
      SplitJoin(pieces[1..], sep);
    } else {
      assert FirstIndexOf(pieces[0], sep).None?;
    }
  }

  /** The first c of a + [c] + b is the one after a when a has none. */
  lemma {:induction false} FirstIndexAfter(a: string, c: char, b: string)
    requires c !in a
    ensures FirstIndexOf(a + [c] + b, c) == Some(|a|)
  {
    if a != [] {
      assert (a + [c] + b)[1..] == a[1..] + [c] + b;
      FirstIndexAfter(a[1..], c, b);
    }
  }

  /** The last c of a + [c] + b is the one after a when b has none. */
  lemma {:induction false} LastIndexAfter(a: string, c: char, b: string)
    requires c !in b
    ensures LastIndexOf(a + [c] + b, c) == Some(|a|)
  {
    if b != [] {
      var s := a + [c] + b;
      assert s[..|s| - 1] == a + [c] + b[..|b| - 1];
      assert s[|s| - 1] == b[|b| - 1];
      LastIndexAfter(a, c, b[..|b| - 1]);
    }
  }

  predicate AllDigits(s: string)
  {
    forall i :: 0 <= i < |s| ==> IsDigit(s[i])
  }

  /** int(s) on a decimal literal: an optional sign and at least one digit.
      Anything else raises ValueError. */
  function PyInt(s: string): (r: PyResult<int>)
    ensures r.Raised? ==> r.exc == ValueError
    ensures r.Returned? ==> |s| > 0 && (IsDigit(s[0]) || s[0] == '-' || s[0] == '+')
  {
    if |s| > 0 && AllDigits(s) then Returned(ParseNat(s))
    else if |s| > 1 && s[0] == '-' && AllDigits(s[1..]) then Returned(-(ParseNat(s[1..]) as int))
    else if |s| > 1 && s[0] == '+' && AllDigits(s[1..]) then Returned(ParseNat(s[1..]))
    else Raised(ValueError)
  }

  /** int(str(k)) == k. */
  lemma PyIntOfIntToString(k: int)
    ensures PyInt(IntToString(k)) == Returned(k)
  {
    if k >= 0 {
      ParseNatToString(k);
    } else {
      var s := IntToString(k);
      assert s[1..] == NatToString(-k);
      assert !IsDigit(s[0]);
      ParseNatToString(-k);
    }
  }

  /** The decimal text of an integer holds only digits and a minus sign. */
  lemma IntToStringChars(k: int, c: char)
    requires c != '-' && !IsDigit(c)
    ensures c !in IntToString(k)
  {
    if k < 0 {
      assert IntToString(k) == "-" + NatToString(-k);
    }
  }
}
