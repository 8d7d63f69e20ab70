/**
 * Properties of whole runs of read_mesh.py: the line counter only ever
 * reaches the error it names, comment lines can be dropped from every file
 * without changing the result, and an `*INCLUDE` line reads on as though the
 * included file's lines stood in its place.
 */
module MeshRuns {
  import opened Results
  import opened Strings
  import opened Errors
  import opened MeshLines
  import opened MeshReader
  import opened MeshProperties

  // ---------------------------------------------------------------- errors up to their line number

  lemma NodeLineIgnoresLineNum(line: string, n1: int, n2: int)
    ensures ForgetLine(ParseNodeDataLine(line, n1)) == ForgetLine(ParseNodeDataLine(line, n2))
  {
  }

  lemma ElementLineIgnoresLineNum(line: string, n1: int, n2: int)
    ensures ForgetLine(ParseElementDataLine(line, n1)) == ForgetLine(ParseElementDataLine(line, n2))
  {
  }

  lemma IncludeStepIgnoresLineNum(s: string, n1: int, n2: int)
    ensures ForgetLine(IncludeStep(s, n1)) == ForgetLine(IncludeStep(s, n2))
  {
  }

  lemma KeywordStepIgnoresLineNum(st: ParseState, s: string, u: string, n1: int, n2: int)
    requires IsKeywordWithData(u)
    ensures ForgetLine(KeywordStep(st, s, u, n1)) == ForgetLine(KeywordStep(st, s, u, n2))
  {
  }

  lemma NodeStepIgnoresLineNum(st: ParseState, m: MeshData, s: string, n1: int, n2: int)
    requires Consistent(st, m)
    ensures ForgetLine(NodeStep(st, m, s, n1)) == ForgetLine(NodeStep(st, m, s, n2))
  {
    NodeLineIgnoresLineNum(s, n1, n2);
  }

  lemma ElementStepIgnoresLineNum(st: ParseState, m: MeshData, s: string, n1: int, n2: int)
    requires Consistent(st, m) && st.section == ElementSection
    ensures ForgetLine(ElementStep(st, m, s, n1)) == ForgetLine(ElementStep(st, m, s, n2))
  {
    ElementLineIgnoresLineNum(s, n1, n2);
  }

  lemma SetStepIgnoresLineNum(st: ParseState, m: MeshData, s: string, n1: int, n2: int)
    requires Consistent(st, m) && st.section == ElementSetSection
    ensures ForgetLine(SetStep(st, m, s, n1)) == ForgetLine(SetStep(st, m, s, n2))
  {
    if ',' in s && st.generate {
      assert ForgetLine(GenerateStep(st, m, s, n1)) == ForgetLine(GenerateStep(st, m, s, n2));
    }
  }

  /** Apart from the line number an error names, a line's effect does not depend on its number. */
  lemma LineStepIgnoresLineNum(st: ParseState, m: MeshData, line: string, n1: int, n2: int)
    requires Consistent(st, m)
    ensures ForgetLine(LineStep(st, m, line, n1)) == ForgetLine(LineStep(st, m, line, n2))
  {
    var s := Strip(line);
    var u := Upper(s);
    if IsComment(s) || ((s == "" || IsKeyword(u)) && st.section != NoSection) {
    } else if StartsWith(u, "*INCLUDE") {
      IncludeStepIgnoresLineNum(s, n1, n2);
    } else if IsKeywordWithData(u) {
      KeywordStepIgnoresLineNum(st, s, u, n1, n2);
    } else if st.section == NodeSection {
      NodeStepIgnoresLineNum(st, m, s, n1, n2);
    } else if st.section == ElementSection {
      ElementStepIgnoresLineNum(st, m, s, n1, n2);
    } else if st.section == ElementSetSection {
      SetStepIgnoresLineNum(st, m, s, n1, n2);
    }
  }

  // ---------------------------------------------------------------- what is left to read

  /** The lines a cursor has still to deliver, in order: the open included file's, then the primary file's. */
  function Pending(c: Cursor): seq<string>
  {
    (if c.incl.Some? then c.incl.value else []) + c.rest
  }

  /** A cursor with the comment lines of both its files removed. */
  function Filter(c: Cursor): Cursor
  {
    Cursor(Significant(c.rest), if c.incl.Some? then Some(Significant(c.incl.value)) else None, c.lineNum, c.prevLineNum)
  }

  /**
   * An exhausted included file is as good as none: the next line is the
   * primary file's, numbered from `prev_line_num + 1`.
   */
  function Canon(c: Cursor): Cursor
  {
    if c.incl == Some([]) then Cursor(c.rest, None, c.prevLineNum + 1, c.prevLineNum) else c
  }

  /** Every included file with its comment lines removed. */
  function SignificantFiles(files: map<string, seq<string>>): (r: map<string, seq<string>>)
    ensures r.Keys == files.Keys
    ensures forall path :: path in files ==> r[path] == Significant(files[path])
  {
    map path | path in files :: Significant(files[path])
  }

  /** The lines that are not comments, in order. */
  function Significant(lines: seq<string>): (r: seq<string>)
    ensures |r| <= |lines|
  {
    if lines == [] then []
    else if IsComment(Strip(lines[0])) then Significant(lines[1..])
    else [lines[0]] + Significant(lines[1..])
  }

  lemma {:induction false} SignificantAppend(a: seq<string>, b: seq<string>)
    ensures Significant(a + b) == Significant(a) + Significant(b)
    decreases |a|
  {
    if a == [] {
      assert a + b == b;
    } else {
      assert (a + b)[0] == a[0];
      assert (a + b)[1..] == a[1..] + b;
      SignificantAppend(a[1..], b);
    }
  }

  predicate NoIncludeLines(lines: seq<string>) {
    forall i :: 0 <= i < |lines| ==> !IsIncludeLine(lines[i])
  }

  /** No included file holds an `*INCLUDE` line of its own. */
  predicate OneLevel(files: map<string, seq<string>>) {
    forall path :: path in files ==> NoIncludeLines(files[path])
  }

  /** The open included file, if any, holds no `*INCLUDE` line. */
  predicate Flat(c: Cursor) {
    c.incl.None? || NoIncludeLines(c.incl.value)
  }

  /** Two sets of included files that differ only in their comment lines. */
  predicate SameFiles(files1: map<string, seq<string>>, files2: map<string, seq<string>>) {
    files1.Keys == files2.Keys && forall path :: path in files1 ==> Significant(files1[path]) == Significant(files2[path])
  }

  /** Reading a line delivers the first pending line and leaves the rest pending. */
  lemma ReadLinePending(c: Cursor)
    ensures ReadLine(c).None? <==> Pending(c) == []
    ensures ReadLine(c).Some? ==>
      var (line, fromInclude, after) := ReadLine(c).value;
      && Pending(c) != [] && line == Pending(c)[0] && Pending(after) == Pending(c)[1..]
      && (fromInclude ==> c.incl.Some? && c.incl.value != [] && line == c.incl.value[0] && after.incl == Some(c.incl.value[1..]))
      && (!fromInclude ==> after.incl.None?)
  {
    if c.incl.Some? && c.incl.value != [] {
      assert Pending(c)[1..] == c.incl.value[1..] + c.rest;
    }
  }

  /** What is left after reading a line from a flat cursor is flat. */
  lemma ReadLineFlat(c: Cursor)
    requires Flat(c) && ReadLine(c).Some?
    ensures Flat(ReadLine(c).value.2)
    ensures ReadLine(c).value.1 ==> !IsIncludeLine(ReadLine(c).value.0)
  {
    ReadLinePending(c);
    var (line, fromInclude, after) := ReadLine(c).value;
    if fromInclude {
      var incl := c.incl.value;
      forall i | 0 <= i < |incl[1..]| ensures !IsIncludeLine(incl[1..][i]) {
        assert incl[1..][i] == incl[i + 1];
      }
    }
  }

  /**
   * Two runs over the same significant lines, from the same state, with
   * included files that differ only in comments and hold no `*INCLUDE` of
   * their own, end alike up to the line number an error names. So the line
   * counter never affects the maps, and comment lines affect nothing.
   */
  lemma {:induction false} RunAgrees(files1: map<string, seq<string>>, files2: map<string, seq<string>>,
                                     c1: Cursor, c2: Cursor, st: ParseState, m: MeshData)
    requires Consistent(st, m)
    requires OneLevel(files1) && OneLevel(files2) && SameFiles(files1, files2)
    requires Flat(c1) && Flat(c2)
    requires Significant(Pending(c1)) == Significant(Pending(c2))
    ensures ForgetLine(Run(files1, c1, st, m)) == ForgetLine(Run(files2, c2, st, m))
    decreases Remaining(c1).0, Remaining(c1).1, Remaining(c2).0, Remaining(c2).1
  {
    var p1 := Pending(c1);
    var p2 := Pending(c2);
    ReadLinePending(c1);
    ReadLinePending(c2);
    if p1 != [] && IsComment(Strip(p1[0])) {
      var c1' := SkipComment(files1, c1, st, m);
      RunAgrees(files1, files2, c1', c2, st, m);
    } else if p2 != [] && IsComment(Strip(p2[0])) {
      var c2' := SkipComment(files2, c2, st, m);
      RunAgrees(files1, files2, c1, c2', st, m);
    } else if p1 == [] || p2 == [] {
      assert p1 == [] && p2 == [];
    } else {
      assert Significant(p1) == [p1[0]] + Significant(p1[1..]);
      assert Significant(p2) == [p2[0]] + Significant(p2[1..]);
      assert p1[0] == Significant(p1)[0] == Significant(p2)[0] == p2[0];
      assert ReadAlike(c1, c2);
      RunAgreesOnLine(files1, files2, c1, c2, st, m);
    }
  }

  /** A comment line read first is passed over, with the line counter as it was. */
  lemma SkipComment(files: map<string, seq<string>>, c: Cursor, st: ParseState, m: MeshData) returns (c': Cursor)
    requires Consistent(st, m)
    requires Pending(c) != [] && IsComment(Strip(Pending(c)[0]))
    ensures Shorter(c', c) && (Flat(c) ==> Flat(c'))
    ensures Significant(Pending(c')) == Significant(Pending(c))
    ensures Canon(Filter(c')) == Canon(Filter(c))
    ensures Run(files, c', st, m) == Run(files, c, st, m)
  {
    ReadLinePending(c);
    if Flat(c) {
      ReadLineFlat(c);
    }
    var (line, fromInclude, after) := ReadLine(c).value;
    CommentLineIgnored(st, m, line, after.lineNum);
    c' := after.(lineNum := NextLineNum(line, after.lineNum));
    assert Advance(files, c, st, m) == Resume(c', st, m);
    if fromInclude {
      assert Significant(c.incl.value) == Significant(c.incl.value[1..]);
    } else {
      assert Significant(c.rest) == Significant(c.rest[1..]);
    }
  }

  /** A failing line ends the run with its error. */
  lemma AdvanceFails(files: map<string, seq<string>>, c: Cursor, st: ParseState, m: MeshData)
    requires Consistent(st, m) && ReadLine(c).Some?
    requires LineStep(st, m, ReadLine(c).value.0, ReadLine(c).value.2.lineNum).Failure?
    ensures Run(files, c, st, m) == Failure(LineStep(st, m, ReadLine(c).value.0, ReadLine(c).value.2.lineNum).error)
  {
  }

  /** A run that goes on after its first pass is the run from where that pass left off. */
  lemma RunResumes(files: map<string, seq<string>>, c: Cursor, st: ParseState, m: MeshData)
    requires Consistent(st, m) && Advance(files, c, st, m).Resume?
    ensures var next := Advance(files, c, st, m);
      Run(files, c, st, m) == Run(files, next.cursor, next.state, next.mesh)
  {
  }

  /** A run whose first pass stops ends with that pass's result. */
  lemma RunStops(files: map<string, seq<string>>, c: Cursor, st: ParseState, m: MeshData)
    requires Consistent(st, m) && Advance(files, c, st, m).Done?
    ensures Run(files, c, st, m) == Advance(files, c, st, m).result
  {
  }

  /** A pass over an accepted `*INCLUDE` line of the primary file opens the named file, numbered from 1. */
  lemma AdvanceOpens(files: map<string, seq<string>>, c: Cursor, st: ParseState, m: MeshData, path: string)
    requires Consistent(st, m) && ReadLine(c).Some? && !ReadLine(c).value.1
    requires LineStep(st, m, ReadLine(c).value.0, ReadLine(c).value.2.lineNum) == Success(OpenInclude(path))
    requires path in files
    ensures Advance(files, c, st, m)
         == Resume(Cursor(ReadLine(c).value.2.rest, Some(files[path]), 1, ReadLine(c).value.2.lineNum + 1), st, m)
  {
  }

  /**
   * After an accepted `*INCLUDE` line of the primary file, the run goes on in
   * the named file, numbered from 1, with the rest of the primary file after it.
   */
  lemma RunOpens(files: map<string, seq<string>>, c: Cursor, st: ParseState, m: MeshData, path: string)
      returns (d: Cursor)
    requires Consistent(st, m) && ReadLine(c).Some? && !ReadLine(c).value.1
    requires LineStep(st, m, ReadLine(c).value.0, ReadLine(c).value.2.lineNum) == Success(OpenInclude(path))
    requires path in files
    ensures Run(files, c, st, m) == Run(files, d, st, m)
    ensures d.incl == Some(files[path]) && d.rest == ReadLine(c).value.2.rest && Shorter(d, c)
  {
    var after := ReadLine(c).value.2;
    d := Cursor(after.rest, Some(files[path]), 1, after.lineNum + 1);
    AdvanceOpens(files, c, st, m, path);
    var next := Advance(files, c, st, m);
    assert next.cursor == d && next.state == st && next.mesh == m;
    RunResumes(files, c, st, m);
  }

  /** Two cursors whose first pending line is the same significant line, read by both. */
  predicate ReadAlike(c1: Cursor, c2: Cursor) {
    && Flat(c1) && Flat(c2)
    && Significant(Pending(c1)) == Significant(Pending(c2))
    && Pending(c1) != [] && Pending(c2) != [] && !IsComment(Strip(Pending(c1)[0])) && Pending(c1)[0] == Pending(c2)[0]
  }

  /** After both read their first line, the two cursors are flat and have the same significant lines left. */
  lemma ReadAlikeRest(c1: Cursor, c2: Cursor)
    requires ReadAlike(c1, c2)
    ensures ReadLine(c1).Some? && ReadLine(c2).Some?
    ensures ReadLine(c1).value.0 == ReadLine(c2).value.0
    ensures Flat(ReadLine(c1).value.2) && Flat(ReadLine(c2).value.2)
    ensures Significant(Pending(ReadLine(c1).value.2)) == Significant(Pending(ReadLine(c2).value.2))
    ensures ReadLine(c1).value.1 ==> !IsIncludeLine(ReadLine(c1).value.0)
    ensures ReadLine(c2).value.1 ==> !IsIncludeLine(ReadLine(c2).value.0)
    ensures !ReadLine(c1).value.1 ==> Pending(ReadLine(c1).value.2) == ReadLine(c1).value.2.rest
    ensures !ReadLine(c2).value.1 ==> Pending(ReadLine(c2).value.2) == ReadLine(c2).value.2.rest
  {
    ReadLinePending(c1);
    ReadLinePending(c2);
    ReadLineFlat(c1);
    ReadLineFlat(c2);
    var p1 := Pending(c1);
    var p2 := Pending(c2);
    assert Significant(p1) == [p1[0]] + Significant(p1[1..]);
    assert Significant(p2) == [p2[0]] + Significant(p2[1..]);
    assert Significant(p1[1..]) == Significant(p1)[1..] == Significant(p2)[1..] == Significant(p2[1..]);
  }

  /** The step of RunAgrees where both runs read the same significant line. */
  lemma {:induction false} RunAgreesOnLine(files1: map<string, seq<string>>, files2: map<string, seq<string>>,
                                           c1: Cursor, c2: Cursor, st: ParseState, m: MeshData)
    requires Consistent(st, m)
    requires OneLevel(files1) && OneLevel(files2) && SameFiles(files1, files2)
    requires ReadAlike(c1, c2)
    ensures ForgetLine(Run(files1, c1, st, m)) == ForgetLine(Run(files2, c2, st, m))
    decreases Remaining(c1).0, Remaining(c1).1, Remaining(c2).0, Remaining(c2).1, 2
  {
    ReadAlikeRest(c1, c2);
    var (line, _, after1) := ReadLine(c1).value;
    var after2 := ReadLine(c2).value.2;
    LineStepIgnoresLineNum(st, m, line, after1.lineNum, after2.lineNum);
    var o1 := LineStep(st, m, line, after1.lineNum);
    if o1.Failure? {
      AdvanceFails(files1, c1, st, m);
      AdvanceFails(files2, c2, st, m);
    } else if o1.value.Proceed? {
      AgreeAfterProceed(files1, files2, c1, c2, st, m);
    } else {
      AgreeAfterInclude(files1, files2, c1, c2, st, m);
    }
  }

  lemma {:induction false} AgreeAfterProceed(files1: map<string, seq<string>>, files2: map<string, seq<string>>,
                                             c1: Cursor, c2: Cursor, st: ParseState, m: MeshData)
    requires Consistent(st, m)
    requires OneLevel(files1) && OneLevel(files2) && SameFiles(files1, files2)
    requires ReadAlike(c1, c2) && ReadLine(c1).Some? && ReadLine(c2).Some?
    requires LineStep(st, m, ReadLine(c1).value.0, ReadLine(c1).value.2.lineNum).Success?
    requires LineStep(st, m, ReadLine(c1).value.0, ReadLine(c1).value.2.lineNum).value.Proceed?
    ensures ForgetLine(Run(files1, c1, st, m)) == ForgetLine(Run(files2, c2, st, m))
    decreases Remaining(c1).0, Remaining(c1).1, Remaining(c2).0, Remaining(c2).1, 0
  {
    ReadAlikeRest(c1, c2);
    var (line, _, after1) := ReadLine(c1).value;
    var after2 := ReadLine(c2).value.2;
    LineStepIgnoresLineNum(st, m, line, after1.lineNum, after2.lineNum);
    var next := LineStep(st, m, line, after1.lineNum).value;
    assert LineStep(st, m, line, after2.lineNum) == Success(next);
    var d1 := after1.(lineNum := NextLineNum(line, after1.lineNum));
    var d2 := after2.(lineNum := NextLineNum(line, after2.lineNum));
    assert Advance(files1, c1, st, m) == Resume(d1, next.state, next.mesh);
    assert Advance(files2, c2, st, m) == Resume(d2, next.state, next.mesh);
    RunResumes(files1, c1, st, m);
    RunResumes(files2, c2, st, m);
    RunAgrees(files1, files2, d1, d2, next.state, next.mesh);
  }

  lemma {:induction false} AgreeAfterInclude(files1: map<string, seq<string>>, files2: map<string, seq<string>>,
                                             c1: Cursor, c2: Cursor, st: ParseState, m: MeshData)
    requires Consistent(st, m)
    requires OneLevel(files1) && OneLevel(files2) && SameFiles(files1, files2)
    requires ReadAlike(c1, c2) && ReadLine(c1).Some? && ReadLine(c2).Some?
    requires LineStep(st, m, ReadLine(c1).value.0, ReadLine(c1).value.2.lineNum).Success?
    requires LineStep(st, m, ReadLine(c1).value.0, ReadLine(c1).value.2.lineNum).value.OpenInclude?
    ensures ForgetLine(Run(files1, c1, st, m)) == ForgetLine(Run(files2, c2, st, m))
    decreases Remaining(c1).0, Remaining(c1).1, Remaining(c2).0, Remaining(c2).1, 1
  {
    ReadAlikeRest(c1, c2);
    var line := ReadLine(c1).value.0;
    var after1 := ReadLine(c1).value.2;
    var after2 := ReadLine(c2).value.2;
    LineStepIgnoresLineNum(st, m, line, after1.lineNum, after2.lineNum);
    var path := LineStep(st, m, line, after1.lineNum).value.path;
    assert LineStep(st, m, line, after2.lineNum) == Success(OpenInclude(path));
    assert !ReadLine(c1).value.1 && !ReadLine(c2).value.1;
    if path in files1 {
      AgreeInFile(files1, files2, c1, c2, st, m, path);
    } else {
      assert Advance(files1, c1, st, m) == Done(Failure(FileNotFound(path)));
      assert Advance(files2, c2, st, m) == Done(Failure(FileNotFound(path)));
      RunStops(files1, c1, st, m);
      RunStops(files2, c2, st, m);
    }
  }

  lemma {:induction false} AgreeInFile(files1: map<string, seq<string>>, files2: map<string, seq<string>>,
                                       c1: Cursor, c2: Cursor, st: ParseState, m: MeshData, path: string)
    requires Consistent(st, m)
    requires OneLevel(files1) && OneLevel(files2) && SameFiles(files1, files2)
    requires ReadAlike(c1, c2) && ReadLine(c1).Some? && ReadLine(c2).Some?
    requires !ReadLine(c1).value.1 && !ReadLine(c2).value.1 && ReadLine(c1).value.0 == ReadLine(c2).value.0
    requires LineStep(st, m, ReadLine(c1).value.0, ReadLine(c1).value.2.lineNum) == Success(OpenInclude(path))
    requires LineStep(st, m, ReadLine(c2).value.0, ReadLine(c2).value.2.lineNum) == Success(OpenInclude(path))
    requires path in files1
    ensures ForgetLine(Run(files1, c1, st, m)) == ForgetLine(Run(files2, c2, st, m))
    decreases Remaining(c1).0, Remaining(c1).1, Remaining(c2).0, Remaining(c2).1, 0
  {
    ReadAlikeRest(c1, c2);
    var d1 := RunOpens(files1, c1, st, m, path);
    var d2 := RunOpens(files2, c2, st, m, path);
    SignificantAppend(files1[path], d1.rest);
    SignificantAppend(files2[path], d2.rest);
    RunAgrees(files1, files2, d1, d2, st, m);
  }

  // ---------------------------------------------------------------- comment lines

  /** An exhausted included file reads exactly as none. */
  lemma RunCanon(files: map<string, seq<string>>, c: Cursor, st: ParseState, m: MeshData)
    requires Consistent(st, m)
    ensures Run(files, Canon(c), st, m) == Run(files, c, st, m)
  {
    AdvanceCanon(files, c, st, m);
  }

  /** One pass reads the same line from a cursor and from its canonical form, and ends alike. */
  lemma AdvanceCanon(files: map<string, seq<string>>, c: Cursor, st: ParseState, m: MeshData)
    requires Consistent(st, m)
    ensures Advance(files, Canon(c), st, m) == Advance(files, c, st, m)
  {
    if c.incl == Some([]) {
      assert ReadLine(Canon(c)) == ReadLine(c);
    }
  }

  /** Where a pass over the comment-free files leaves things, given where a pass over the originals does. */
  function FilterNext(next: Next): Next
  {
    match next
    case Done(result) => Done(result)
    case Resume(c, st, m) => Resume(Filter(c), st, m)
  }

  /** Reading a line that is not a comment delivers it from the comment-free cursor too, with the same number. */
  lemma ReadLineFiltered(c: Cursor)
    requires Pending(c) != [] && !IsComment(Strip(Pending(c)[0]))
    ensures ReadLine(c).Some?
    ensures var (line, fromInclude, after) := ReadLine(c).value;
      ReadLine(Canon(Filter(c))) == Some((line, fromInclude, Filter(after)))
  {
    ReadLinePending(c);
    if c.incl.Some? && c.incl.value != [] {
      assert Significant(c.incl.value) == [c.incl.value[0]] + Significant(c.incl.value[1..]);
    } else {
      assert Significant(c.rest) == [c.rest[0]] + Significant(c.rest[1..]);
    }
  }

  /** A pass over a line that is not a comment ends alike over the comment-free files. */
  lemma AdvanceFiltered(files: map<string, seq<string>>, c: Cursor, st: ParseState, m: MeshData)
    requires Consistent(st, m)
    requires Pending(c) != [] && !IsComment(Strip(Pending(c)[0]))
    ensures Advance(SignificantFiles(files), Canon(Filter(c)), st, m) == FilterNext(Advance(files, c, st, m))
  {
    ReadLineFiltered(c);
    var (line, fromInclude, after) := ReadLine(c).value;
    var o := LineStep(st, m, line, after.lineNum);
    assert Advance(files, c, st, m) == Follow(files, o, line, fromInclude, after, st, m);
    assert Advance(SignificantFiles(files), Canon(Filter(c)), st, m)
        == Follow(SignificantFiles(files), o, line, fromInclude, Filter(after), st, m);
    FollowFiltered(files, o, line, fromInclude, after, st, m);
  }

  /** Whatever a line's outcome, the rest of the pass ends alike over the comment-free files. */
  lemma FollowFiltered(files: map<string, seq<string>>, o: Result<Action, Error>, line: string, fromInclude: bool, after: Cursor, st: ParseState, m: MeshData)
    requires Consistent(st, m)
    requires o.Success? && o.value.Proceed? ==> Consistent(o.value.state, o.value.mesh)
    ensures Follow(SignificantFiles(files), o, line, fromInclude, Filter(after), st, m)
         == FilterNext(Follow(files, o, line, fromInclude, after, st, m))
  {
    var sf := SignificantFiles(files);
    match o
    case Failure(e) =>
    case Success(Proceed(st', m')) =>
      var n := NextLineNum(line, after.lineNum);
      assert Filter(after).(lineNum := n) == Filter(after.(lineNum := n));
    case Success(OpenInclude(path)) =>
      if !fromInclude && path in files {
        var next := Cursor(after.rest, Some(files[path]), 1, after.lineNum + 1);
        assert Filter(next) == Cursor(Filter(after).rest, Some(sf[path]), 1, after.lineNum + 1);
      }
  }

  /**
   * A run over files with their comment lines removed ends exactly as the run
   * over the files themselves, error line numbers included: comment lines
   * change no state and are not counted.
   */
  lemma {:induction false} RunWithoutComments(files: map<string, seq<string>>, c: Cursor, st: ParseState, m: MeshData)
    requires Consistent(st, m)
    ensures Run(SignificantFiles(files), Canon(Filter(c)), st, m) == Run(files, c, st, m)
    decreases Remaining(c).0, Remaining(c).1
  {
    var p := Pending(c);
    ReadLinePending(c);
    if p == [] {
      assert Pending(Canon(Filter(c))) == [] by {
        assert c.rest == [] && (c.incl.None? || c.incl.value == []);
      }
      ReadLinePending(Canon(Filter(c)));
    } else if IsComment(Strip(p[0])) {
      var c' := SkipComment(files, c, st, m);
      RunWithoutComments(files, c', st, m);
    } else {
      AdvanceFiltered(files, c, st, m);
      var next := Advance(files, c, st, m);
      if next.Done? {
        RunStops(files, c, st, m);
        RunStops(SignificantFiles(files), Canon(Filter(c)), st, m);
      } else {
        RunResumes(files, c, st, m);
        RunResumes(SignificantFiles(files), Canon(Filter(c)), st, m);
        RunWithoutComments(files, next.cursor, next.state, next.mesh);
        RunCanon(SignificantFiles(files), Filter(next.cursor), next.state, next.mesh);
      }
    }
  }

  /** `read_mesh` gives the same result, error line numbers included, once every comment line is removed from every file. */
  lemma ReadMeshWithoutComments(primary: seq<string>, files: map<string, seq<string>>)
    ensures ReadMeshSpec(Significant(primary), SignificantFiles(files)) == ReadMeshSpec(primary, files)
  {
    InitialConsistent();
    RunWithoutComments(files, Start(primary), Initial, EmptyMesh);
    assert Canon(Filter(Start(primary))) == Start(Significant(primary));
  }

  // ---------------------------------------------------------------- line numbers and included files

  /** Where the line counter starts affects nothing but the line number an error names. */
  lemma RunIgnoresLineNumbers(files: map<string, seq<string>>, c: Cursor, st: ParseState, m: MeshData, lineNum: int, prevLineNum: int)
    requires Consistent(st, m) && OneLevel(files) && Flat(c)
    ensures ForgetLine(Run(files, c.(lineNum := lineNum, prevLineNum := prevLineNum), st, m)) == ForgetLine(Run(files, c, st, m))
  {
    RunAgrees(files, files, c.(lineNum := lineNum, prevLineNum := prevLineNum), c, st, m);
  }

  /**
   * An accepted `*INCLUDE` line of the primary file reads on as though the
   * included file's lines stood in its place, up to the line numbers errors
   * name, when no included file holds an `*INCLUDE` of its own.
   */
  lemma IncludeSplice(files: map<string, seq<string>>, line: string, rest: seq<string>,
                      lineNum: int, prevLineNum: int, st: ParseState, m: MeshData, path: string)
    requires Consistent(st, m) && OneLevel(files)
    requires LineStep(st, m, line, lineNum) == Success(OpenInclude(path)) && path in files
    ensures ForgetLine(Run(files, Cursor([line] + rest, None, lineNum, prevLineNum), st, m))
         == ForgetLine(Run(files, Cursor(files[path] + rest, None, lineNum + 1, prevLineNum), st, m))
  {
    var c := Cursor([line] + rest, None, lineNum, prevLineNum);
    assert ReadLine(c) == Some((line, false, Cursor(rest, None, lineNum, prevLineNum)));
    var d := RunOpens(files, c, st, m, path);
    var spliced := Cursor(files[path] + rest, None, lineNum + 1, prevLineNum);
    assert Flat(d) by {
      assert NoIncludeLines(files[path]);
    }
    assert Pending(d) == files[path] + rest == Pending(spliced);
    RunAgrees(files, files, d, spliced, st, m);
  }
}
