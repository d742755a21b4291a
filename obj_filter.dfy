/** The clean-up script for the turbo models' OBJ files: every `usemtl`
    line naming an excluded material is dropped, and so is every face line
    whose first vertex index is 1 to 48. Every other line is copied as it
    is, in order. The file is a sequence of lines, each with its own line
    terminator; reading and writing it is outside the model. */
module ObjFilter {

  datatype Result<T> = Ok(value: T) | Err(error: string)

  /** The message of the IndexError raised by a `usemtl` line without a
      material name. */
  const IndexError: string := "list index out of range"

  /** The materials the script is run with. */
  const ExcludedMaterials: seq<string> := ["245_257_63_235_4_3", "245_256_63_235_4_4", "245_256_63_235_4_3"]

  /** str.isspace for one character: the separators str.split() and
      str.strip() break and trim on. */
  predicate IsSpace(c: char) {
    var n := c as int;
    (9 <= n <= 13) || (28 <= n <= 32) || n == 0x85 || n == 0xA0 || n == 0x1680 ||
    (0x2000 <= n <= 0x200A) || n == 0x2028 || n == 0x2029 || n == 0x202F || n == 0x205F || n == 0x3000
  }

  predicate StartsWith(s: string, prefix: string) {
    |prefix| <= |s| && s[..|prefix|] == prefix
  }

  /** str.lstrip(): the text after the leading whitespace. */
  function LStrip(s: string): (r: string)
    ensures |r| <= |s| && r == s[|s| - |r|..]
    ensures forall k :: 0 <= k < |s| - |r| ==> IsSpace(s[k])
    ensures |r| > 0 ==> !IsSpace(r[0])
  {
    if |s| > 0 && IsSpace(s[0]) then LStrip(s[1..]) else s
  }

  /** str.rstrip(): the text before the trailing whitespace. */
  function RStrip(s: string): (r: string)
    ensures |r| <= |s| && r == s[..|r|]
    ensures forall k :: |r| <= k < |s| ==> IsSpace(s[k])
    ensures |r| > 0 ==> !IsSpace(r[|r| - 1])
  {
    if |s| > 0 && IsSpace(s[|s| - 1]) then RStrip(s[..|s| - 1]) else s
  }

  /** str.strip(). */
  function Strip(s: string): (r: string)
    ensures |r| > 0 ==> !IsSpace(r[0]) && !IsSpace(r[|r| - 1])
  {
    RStrip(LStrip(s))
  }

  /** The length of the run of non-space characters `s` starts with. */
  function TokenLength(s: string): (n: nat)
    ensures n <= |s|
    ensures forall k :: 0 <= k < n ==> !IsSpace(s[k])
    ensures n < |s| ==> IsSpace(s[n])
  {
    if |s| == 0 || IsSpace(s[0]) then 0 else 1 + TokenLength(s[1..])
  }

  /** str.split() with no separator: the maximal runs of non-space
      characters, in order. */
  function Split(s: string): (tokens: seq<string>)
    ensures forall t :: t in tokens ==> |t| > 0
    decreases |s|
  {
    if |s| == 0 then []
    else if IsSpace(s[0]) then Split(s[1..])
    else
      var n := TokenLength(s);
      [s[..n]] + Split(s[n..])
  }

  predicate IsDigit(c: char) {
    48 <= c as int <= 57
  }

  /** f'{n}': the decimal digits of n, without leading zeros. */
  function DecimalString(n: nat): (s: string)
    ensures |s| > 0 && forall k :: 0 <= k < |s| ==> IsDigit(s[k])
  {
    if n < 10 then [(48 + n) as char]
    else DecimalString(n / 10) + [(48 + n % 10) as char]
  }

  /** The number a string of decimal digits stands for. */
  function ParseDecimal(s: string): nat
    requires forall k :: 0 <= k < |s| ==> IsDigit(s[k])
  {
    if |s| == 0 then 0
    else
      assert IsDigit(s[|s| - 1]);
      ParseDecimal(s[..|s| - 1]) * 10 + (s[|s| - 1] as int - 48)
  }

  /** Reading back the digits of n gives n. */
  lemma {:induction false} ParseDecimalString(n: nat)
    ensures ParseDecimal(DecimalString(n)) == n
  {
    if n >= 10 {
      var s := DecimalString(n);
      ParseDecimalString(n / 10);
      assert s[..|s| - 1] == DecimalString(n / 10);
    }
  }

  /** The prefix f'f {i}/' of a face line whose first vertex index is i. */
  function FacePrefix(i: nat): string {
    "f " + DecimalString(i) + "/"
  }

  /** One face prefix starts a line made from another only when the two
      indices are equal: the digits end at the slash. */
  lemma FacePrefixUnique(i: nat, n: nat, rest: string)
    ensures StartsWith(FacePrefix(n) + rest, FacePrefix(i)) <==> i == n
  {
    var a, b := DecimalString(i), DecimalString(n);
    var line := FacePrefix(n) + rest;
    if StartsWith(line, FacePrefix(i)) {
      assert forall k :: 0 <= k < |b| ==> line[2 + k] == b[k];
      assert line[2 + |b|] == '/';
      assert forall k :: 0 <= k < |a| ==> line[2 + k] == a[k];
      assert FacePrefix(i)[2 + |a|] == '/';
      if |a| == |b| {
        assert a == b;
        ParseDecimalString(i);
        ParseDecimalString(n);
      }
    }
  }

  /** The face lines the script drops: a first vertex index from 1 to 48. */
  predicate IsEmptyFaceLine(line: string) {
    exists i :: 1 <= i < 49 && StartsWith(line, FacePrefix(i))
  }

  /** any(line.startswith(f'f {i}/') for i in range(1, 49)), stopping at
      the first match. */
  method HasEmptyFacePrefix(line: string) returns (found: bool)
    ensures found <==> IsEmptyFaceLine(line)
  {
    var i := 1;
    while i < 49
      invariant 1 <= i <= 49
      invariant forall j :: 1 <= j < i ==> !StartsWith(line, FacePrefix(j))
    {
      if StartsWith(line, FacePrefix(i)) {
        return true;
      }
      i := i + 1;
    }
    return false;
  }

  /** A face line "f n/..." is dropped exactly when 1 <= n <= 48. */
  lemma FaceLineDropped(n: nat, rest: string)
    ensures IsEmptyFaceLine(FacePrefix(n) + rest) <==> 1 <= n <= 48
  {
    if IsEmptyFaceLine(FacePrefix(n) + rest) {
      var i :| 1 <= i < 49 && StartsWith(FacePrefix(n) + rest, FacePrefix(i));
      FacePrefixUnique(i, n, rest);
    }
    if 1 <= n <= 48 {
      FacePrefixUnique(n, n, rest);
    }
  }

  /** The line makes the script fail: a `usemtl` line with no second
      token. */
  predicate RaisesIndexError(line: string) {
    StartsWith(line, "usemtl") && |Split(Strip(line))| < 2
  }

  /** The line is copied to the output. */
  predicate Kept(line: string, excluded: seq<string>) {
    if StartsWith(line, "usemtl") then
      var tokens := Split(Strip(line));
      |tokens| >= 2 && tokens[1] !in excluded
    else
      !IsEmptyFaceLine(line)
  }

  /** The decision for one line: keep it, drop it, or fail. */
  function LineDecision(line: string, excluded: seq<string>): (r: Result<bool>)
    ensures r.Err? <==> RaisesIndexError(line)
    ensures r.Ok? ==> (r.value <==> Kept(line, excluded))
  {
    if StartsWith(line, "usemtl") then
      var tokens := Split(Strip(line));
      if |tokens| < 2 then Err(IndexError)
      else Ok(tokens[1] !in excluded)
    else
      Ok(!StartsWith(line, "f ") || !IsEmptyFaceLine(line))
  }

  /** The decision the script takes on each line, for a given list of
      excluded materials. */
  function Decide(excluded: seq<string>): string -> Result<bool> {
    line => LineDecision(line, excluded)
  }

  /** What the loop of filter_geometry computes from the lines read so
      far, for any per-line decision: the first failing line stops it with
      its error, otherwise the lines decided `true` are kept in order. */
  function FilterBy(lines: seq<string>, decide: string -> Result<bool>): Result<seq<string>>
  {
    if |lines| == 0 then Ok([])
    else
      match FilterBy(lines[..|lines| - 1], decide)
      case Err(e) => Err(e)
      case Ok(prev) =>
        match decide(lines[|lines| - 1])
        case Err(e) => Err(e)
        case Ok(keep) => Ok(if keep then prev + [lines[|lines| - 1]] else prev)
  }

  /** The lines decided `true`, in order. */
  function SelectBy(lines: seq<string>, decide: string -> Result<bool>): seq<string>
  {
    if |lines| == 0 then []
    else SelectBy(lines[..|lines| - 1], decide) + (if decide(lines[|lines| - 1]) == Ok(true) then [lines[|lines| - 1]] else [])
  }

  /** filter_geometry's loop over the lines of one file. */
  function Filter(lines: seq<string>, excluded: seq<string>): Result<seq<string>>
  {
    FilterBy(lines, Decide(excluded))
  }

  /** The kept lines, in order. */
  function Select(lines: seq<string>, excluded: seq<string>): seq<string>
  {
    SelectBy(lines, Decide(excluded))
  }

  /** filter_geometry over the lines of one file: the lines to write back,
      or the error that stops the script before anything is written. */
  method FilterGeometry(lines: seq<string>, excluded: seq<string>) returns (result: Result<seq<string>>)
    ensures result == Filter(lines, excluded)
  {
    var filteredLines: seq<string> := [];
    for i := 0 to |lines|
      invariant Filter(lines[..i], excluded) == Ok(filteredLines)
    {
      var line := lines[i];
      assert lines[..i + 1][..i] == lines[..i];
      if StartsWith(line, "usemtl") {
        var tokens := Split(Strip(line));
        if |tokens| < 2 {
          FilterErrExtends(lines, i + 1, Decide(excluded), IndexError);
          return Err(IndexError);
        }
        var materialName := tokens[1];
        if materialName !in excluded {
          filteredLines := filteredLines + [line];
        }
      } else {
        var emptyFace := false;
        if StartsWith(line, "f ") {
          emptyFace := HasEmptyFacePrefix(line);
        }
        if !emptyFace {
          filteredLines := filteredLines + [line];
        }
      }
    }
    assert lines[..|lines|] == lines;
    return Ok(filteredLines);
  }

  /** Once a line has failed, the whole run fails with its error. */
  lemma {:induction false} FilterErrExtends(lines: seq<string>, i: nat, decide: string -> Result<bool>, e: string)
    requires i <= |lines| && FilterBy(lines[..i], decide) == Err(e)
    ensures FilterBy(lines, decide) == Err(e)
    decreases |lines| - i
  {
    if i < |lines| {
      assert lines[..i + 1][..i] == lines[..i];
      FilterErrExtends(lines, i + 1, decide, e);
    } else {
      assert lines[..i] == lines;
    }
  }

  /** For any decision, the run succeeds exactly when no line fails, and
      then gives the lines decided `true`; a failing run carries the error
      of a failing line. */
  lemma {:induction false} FilterBySelects(lines: seq<string>, decide: string -> Result<bool>)
    ensures FilterBy(lines, decide).Ok? <==> forall k :: 0 <= k < |lines| ==> decide(lines[k]).Ok?
    ensures FilterBy(lines, decide).Ok? ==> FilterBy(lines, decide).value == SelectBy(lines, decide)
    ensures FilterBy(lines, decide).Err? ==>
      exists k :: 0 <= k < |lines| && decide(lines[k]) == Err(FilterBy(lines, decide).error)
  {
    if |lines| > 0 {
      var prefix := lines[..|lines| - 1];
      FilterBySelects(prefix, decide);
      assert forall k :: 0 <= k < |prefix| ==> prefix[k] == lines[k];
      if FilterBy(prefix, decide).Err? {
        var k :| 0 <= k < |prefix| && decide(prefix[k]) == Err(FilterBy(prefix, decide).error);
        assert decide(lines[k]) == Err(FilterBy(lines, decide).error);
      }
    }
  }

  /** The script succeeds exactly when no line is a `usemtl` line without a
      material name, and then writes the kept lines; otherwise it stops with
      IndexError. */
  lemma FilterSelects(lines: seq<string>, excluded: seq<string>)
    ensures Filter(lines, excluded).Ok? <==> forall k :: 0 <= k < |lines| ==> !RaisesIndexError(lines[k])
    ensures Filter(lines, excluded).Ok? ==> Filter(lines, excluded).value == Select(lines, excluded)
    ensures Filter(lines, excluded).Err? ==> Filter(lines, excluded).error == IndexError
  {
    var decide := Decide(excluded);
    FilterBySelects(lines, decide);
    forall k | 0 <= k < |lines|
      ensures decide(lines[k]).Ok? <==> !RaisesIndexError(lines[k])
      ensures decide(lines[k]).Err? ==> decide(lines[k]).error == IndexError
    {
      assert decide(lines[k]) == LineDecision(lines[k], excluded);
    }
  }

  /** `a` is an order-preserving subsequence of `b`. */
  ghost predicate Subsequence(a: seq<string>, b: seq<string>)
    decreases |b|
  {
    if |a| == 0 then true
    else if |b| == 0 then false
    else if a[|a| - 1] == b[|b| - 1] then Subsequence(a[..|a| - 1], b[..|b| - 1])
    else Subsequence(a, b[..|b| - 1])
  }

  /** For any decision, the selected lines are some of the input lines,
      unchanged and in order, and each was decided `true`. */
  lemma {:induction false} SelectBySubsequence(lines: seq<string>, decide: string -> Result<bool>)
    ensures Subsequence(SelectBy(lines, decide), lines)
    ensures forall l :: l in SelectBy(lines, decide) ==> l in lines && decide(l) == Ok(true)
  {
    if |lines| > 0 {
      var prefix := lines[..|lines| - 1];
      var last := lines[|lines| - 1];
      SelectBySubsequence(prefix, decide);
      SubsequenceOfPrefix(SelectBy(prefix, decide), prefix, last);
      assert lines == prefix + [last];
      assert SelectBy(prefix, decide) + [] == SelectBy(prefix, decide);
    }
  }

  /** The output is some of the input lines, unchanged and in order, and
      every one of them is a kept line. */
  lemma SelectSubsequence(lines: seq<string>, excluded: seq<string>)
    ensures Subsequence(Select(lines, excluded), lines)
    ensures forall l :: l in Select(lines, excluded) ==> l in lines && Kept(l, excluded)
  {
    var decide := Decide(excluded);
    SelectBySubsequence(lines, decide);
    forall l | l in Select(lines, excluded)
      ensures Kept(l, excluded)
    {
      assert decide(l) == LineDecision(l, excluded);
    }
  }

  lemma SubsequenceOfPrefix(a: seq<string>, b: seq<string>, x: string)
    requires Subsequence(a, b)
    ensures Subsequence(a, b + [x]) && Subsequence(a + [x], b + [x])
  {
    assert (b + [x])[..|b|] == b;
    assert (a + [x])[..|a|] == a;
    if |a| > 0 && a[|a| - 1] == x {
      SubsequenceDrop(a, b);
    }
  }

  /** Leaving out the last line of a subsequence keeps it a subsequence. */
  lemma {:induction false} SubsequenceDrop(a: seq<string>, b: seq<string>)
    requires |a| > 0 && Subsequence(a, b)
    ensures Subsequence(a[..|a| - 1], b)
    decreases |b|
  {
    var a', b' := a[..|a| - 1], b[..|b| - 1];
    if a[|a| - 1] != b[|b| - 1] {
      SubsequenceDrop(a, b');
    }
    assert Subsequence(a', b');
    if |a'| > 0 && a'[|a'| - 1] == b[|b| - 1] {
      SubsequenceDrop(a', b');
    }
  }

  /** Each line is decided from its own text alone: filtering two runs of
      lines one after the other keeps the same lines as filtering them
      together. So dropping a `usemtl` line never drops the faces after it. */
  lemma {:induction false} SelectAppend(a: seq<string>, b: seq<string>, excluded: seq<string>)
    ensures Select(a + b, excluded) == Select(a, excluded) + Select(b, excluded)
    decreases |b|
  {
    if |b| > 0 {
      var b' := b[..|b| - 1];
      assert (a + b)[..|a + b| - 1] == a + b';
      SelectAppend(a, b', excluded);
    } else {
      assert a + b == a;
    }
  }

  /** A kept line never makes the script fail. */
  lemma KeptDoesNotRaise(line: string, excluded: seq<string>)
    requires Kept(line, excluded)
    ensures !RaisesIndexError(line)
  {
  }

  /** Running the script on its own output changes nothing. */
  lemma FilterIdempotent(lines: seq<string>, excluded: seq<string>)
    requires Filter(lines, excluded).Ok?
    ensures Filter(Filter(lines, excluded).value, excluded) == Filter(lines, excluded)
  {
    var decide := Decide(excluded);
    FilterBySelects(lines, decide);
    var out := SelectBy(lines, decide);
    SelectBySubsequence(lines, decide);
    SelectByAllTrue(out, decide);
  }

  /** When every line is decided `true`, the run keeps them all. */
  lemma {:induction false} SelectByAllTrue(lines: seq<string>, decide: string -> Result<bool>)
    requires forall l :: l in lines ==> decide(l) == Ok(true)
    ensures FilterBy(lines, decide) == Ok(lines)
  {
    if |lines| > 0 {
      var prefix := lines[..|lines| - 1];
      assert forall l :: l in prefix ==> l in lines;
      SelectByAllTrue(prefix, decide);
      assert lines == prefix + [lines[|lines| - 1]];
      assert lines[|lines| - 1] in lines;
    }
  }

  /** A `usemtl` line with a material name is kept exactly when the name
      is not excluded; a face line is kept exactly when its first vertex
      index is not 1 to 48; every other line is kept. */
  lemma SingleLine(line: string, excluded: seq<string>)
    ensures StartsWith(line, "usemtl") && |Split(Strip(line))| >= 2 ==>
      (Filter([line], excluded) == Ok([line]) <==> Split(Strip(line))[1] !in excluded) &&
      (Filter([line], excluded) == Ok([]) <==> Split(Strip(line))[1] in excluded)
    ensures !StartsWith(line, "usemtl") ==>
      (Filter([line], excluded) == Ok([]) <==> IsEmptyFaceLine(line)) &&
      (Filter([line], excluded) == Ok([line]) <==> !IsEmptyFaceLine(line))
    ensures !StartsWith(line, "usemtl") && !StartsWith(line, "f ") ==> Filter([line], excluded) == Ok([line])
    ensures RaisesIndexError(line) ==> Filter([line], excluded) == Err(IndexError)
  {
    assert [line][..0] == [];
    assert [line][|[line]| - 1] == line;
    assert FilterBy([line][..0], Decide(excluded)) == Ok([]);
    assert Decide(excluded)(line) == LineDecision(line, excluded);
    assert [] + [line] == [line];
    assert Filter([line], excluded) == match LineDecision(line, excluded)
      case Err(e) => Err(e)
      case Ok(keep) => Ok(if keep then [line] else []);
    EmptyFaceLineIsFace(line);
  }

  /** Every face line the script drops starts with "f ". */
  lemma EmptyFaceLineIsFace(line: string)
    ensures IsEmptyFaceLine(line) ==> StartsWith(line, "f ")
  {
    if IsEmptyFaceLine(line) {
      var i :| 1 <= i < 49 && StartsWith(line, FacePrefix(i));
      assert line[..2] == FacePrefix(i)[..2];
    }
  }

  /** A word with no whitespace in it splits into itself alone. */
  lemma SplitWord(w: string)
    requires |w| > 0 && forall k :: 0 <= k < |w| ==> !IsSpace(w[k])
    ensures Split(w) == [w]
  {
    var n := TokenLength(w);
    assert n == |w|;
    assert w[..n] == w && w[n..] == [];
  }

  /** Stripping a word followed by a newline gives back the word. */
  lemma StripWordLine(w: string)
    requires |w| > 0 && forall k :: 0 <= k < |w| ==> !IsSpace(w[k])
    ensures Strip(w + "\n") == w
  {
    var line := w + "\n";
    assert !IsSpace(line[0]);
    assert LStrip(line) == line;
    assert IsSpace(line[|line| - 1]) && line[..|line| - 1] == w;
    assert !IsSpace(w[|w| - 1]);
    assert RStrip(line) == RStrip(w) == w;
  }

  /** A bare `usemtl` line stops the script with an IndexError. */
  lemma BareUsemtl()
    ensures Filter(["usemtl\n"], ExcludedMaterials) == Err(IndexError)
  {
    var w := "usemtl";
    assert forall k :: 0 <= k < |w| ==> !IsSpace(w[k]);
    StripWordLine(w);
    SplitWord(w);
    assert "usemtl\n" == w + "\n";
    assert Split(Strip("usemtl\n")) == ["usemtl"];
    assert [("usemtl\n")][..0] == [];
  }
}
