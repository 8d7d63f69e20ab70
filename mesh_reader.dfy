/**
 * The line interpreter `read_mesh` of ccxmeshreader/read_mesh.py.
 *
 * The specification is a pair of functions: LineStep gives the effect of one
 * physical line on the parse state and the three result maps, and Run folds
 * it over the primary file's lines, splicing in an included file after its
 * `*INCLUDE` line. The class LineInterpreter holds the same state in fields its
 * Step method updates in place, and ReadMesh drives it with the source's
 * `while` loop; both are proved to agree with the functions.
 */
module MeshReader {
  import opened Results
  import opened Strings
  import opened Errors
  import opened MeshLines

  /** `data_type_to_read`: `''`, `'node'`, `'element'` or `'element_set'`. */
  datatype Section = NoSection | NodeSection | ElementSection | ElementSetSection

  function SectionOf(d: DataType): (s: Section)
    ensures s != NoSection
  {
    match d
    case NodeData => NodeSection
    case ElementData => ElementSection
    case ElementSetData => ElementSetSection
  }

  /**
   * The locals of `read_mesh` that survive from one line to the next, apart
   * from the line counter and the included file: the section being read, the
   * element awaiting a continuation line, the last element number read, the
   * element type and set name in force, and whether a GENERATE line is due.
   */
  datatype ParseState = ParseState(
    section: Section,
    pending: Option<int>,
    elementNumber: int,
    elementType: ParamValue,
    elementSet: ParamValue,
    generate: bool)

  /** The state before the first line. `element_number` is unbound there; no line reads it before one sets it. */
  const Initial := ParseState(NoSection, None, 0, Text(""), Text(""), false)

  /** The state after a blank or keyword line closes a section: everything but the last element number is reset. */
  function Closed(st: ParseState): (r: ParseState)
    ensures r.section == NoSection && r.pending == None && !r.generate
    ensures r.elementType == Text("") && r.elementSet == Text("")
    ensures r.elementNumber == st.elementNumber
  {
    Initial.(elementNumber := st.elementNumber)
  }

  /** The three maps `read_mesh` returns, keyed as the source keys them. */
  datatype MeshData = MeshData(
    nodes: map<int, Coordinates>,
    elements: map<ParamValue, map<int, seq<int>>>,
    sets: map<ParamValue, set<int>>)

  const EmptyMesh := MeshData(map[], map[], map[])

  /**
   * What holds between lines: outside a section the state is the closed one,
   * and an element awaiting continuation is in an element section and already
   * stored under the current element type.
   */
  predicate Consistent(st: ParseState, m: MeshData) {
    && (st.section == NoSection ==> st == Closed(st))
    && (st.pending.Some? ==>
          && st.section == ElementSection
          && st.pending.value == st.elementNumber
          && st.elementType in m.elements
          && st.elementNumber in m.elements[st.elementType])
  }

  lemma InitialConsistent()
    ensures Consistent(Initial, EmptyMesh)
  {
  }

  // ---------------------------------------------------------------- defaultdict reads

  /** `result['element_set_by_name'][name]` read through the defaultdict: a missing name reads as the empty set. */
  function SetOf(sets: map<ParamValue, set<int>>, name: ParamValue): set<int>
  {
    if name in sets then sets[name] else {}
  }

  /** `result['element_set_by_name'][name].add(e)`. */
  function AddToSet(sets: map<ParamValue, set<int>>, name: ParamValue, e: int): (r: map<ParamValue, set<int>>)
    ensures r.Keys == sets.Keys + {name}
    ensures r[name] == SetOf(sets, name) + {e}
    ensures forall k :: k in sets && k != name ==> r[k] == sets[k]
  {
    sets[name := SetOf(sets, name) + {e}]
  }

  /** `result['element_dict_by_type'][t]` read through the defaultdict. */
  function ElementsOf(elements: map<ParamValue, map<int, seq<int>>>, t: ParamValue): map<int, seq<int>>
  {
    if t in elements then elements[t] else map[]
  }

  /** `int(token)`, raising ValueError for a token that is not an integer. */
  function IntOf(token: string): (r: Result<int, Error>)
    ensures r.Success? <==> ParseInt(token).Some?
    ensures r.Success? ==> ParseInt(token) == Some(r.value)
  {
    match ParseInt(token)
    case Some(v) => Success(v)
    case None => Failure(ValueError(NotAnInteger(token)))
  }

  // ---------------------------------------------------------------- element sets

  /** The elements of Python's `range(start, stop, step)`, for a step that is not 0. */
  function RangeSet(start: int, stop: int, step: int): set<int>
    requires step != 0
    decreases if step > 0 then stop - start else start - stop
  {
    if (step > 0 && start < stop) || (step < 0 && start > stop) then
      {start} + RangeSet(start + step, stop, step)
    else {}
  }

  /** The `k`-th value Python's `range` yields from `start` by `step`. */
  function NthValue(start: int, step: int, k: nat): int
  {
    start + k * step
  }

  /** Before the bound: below `stop` for a positive step, above it for a negative one. */
  predicate BeforeStop(e: int, stop: int, step: int)
  {
    if step > 0 then e < stop else e > stop
  }

  /** Every element of the range is some `start + k*step` short of the bound. */
  lemma {:induction false} RangeSetSound(start: int, stop: int, step: int, e: int)
    requires step != 0 && e in RangeSet(start, stop, step)
    ensures exists k: nat :: NthValue(start, step, k) == e && BeforeStop(e, stop, step)
    decreases if step > 0 then stop - start else start - stop
  {
    if e == start {
      assert NthValue(start, step, 0) == e;
    } else {
      RangeSetSound(start + step, stop, step, e);
      var k: nat :| NthValue(start + step, step, k) == e && BeforeStop(e, stop, step);
      assert NthValue(start, step, k + 1) == e;
    }
  }

  /** Every `start + k*step` short of the bound is an element of the range. */
  lemma {:induction false} RangeSetComplete(start: int, stop: int, step: int, k: nat)
    requires step != 0 && BeforeStop(NthValue(start, step, k), stop, step)
    ensures NthValue(start, step, k) in RangeSet(start, stop, step)
    decreases k
  {
    if step > 0 {
      assert k * step >= 0;
    } else {
      assert k * step <= 0;
    }
    if k > 0 {
      assert NthValue(start + step, step, k - 1) == NthValue(start, step, k);
      RangeSetComplete(start + step, stop, step, k - 1);
    }
  }

  /** Membership in `range(start, stop, step)` stated directly: some `start + k*step`, `k >= 0`, short of the bound. */
  lemma RangeSetMembers(start: int, stop: int, step: int)
    requires step != 0
    ensures forall e :: e in RangeSet(start, stop, step) <==>
      exists k: nat :: NthValue(start, step, k) == e && BeforeStop(e, stop, step)
  {
    forall e ensures e in RangeSet(start, stop, step) <==>
      exists k: nat :: NthValue(start, step, k) == e && BeforeStop(e, stop, step)
    {
      if e in RangeSet(start, stop, step) {
        RangeSetSound(start, stop, step, e);
      }
      if exists k: nat :: NthValue(start, step, k) == e && BeforeStop(e, stop, step) {
        var k: nat :| NthValue(start, step, k) == e && BeforeStop(e, stop, step);
        RangeSetComplete(start, stop, step, k);
      }
    }
  }

  /** One field of an element-set list line added to the target set: a named set by copy or union, else an integer. */
  function AddSetPart(sets: map<ParamValue, set<int>>, target: ParamValue, part: string): (r: Result<map<ParamValue, set<int>>, Error>)
    ensures r.Success? <==> Text(part) in sets || ParseInt(part).Some?
    ensures r.Success? ==> r.value.Keys == sets.Keys + {target}
    ensures r.Success? ==> forall k :: k in sets && k != target ==> r.value[k] == sets[k]
    ensures r.Success? ==> r.value[target] == SetOf(sets, target) + PartContribution(sets, part)
  {
    if Text(part) in sets then
      if |SetOf(sets, target)| == 0 then Success(sets[target := sets[Text(part)]])
      else Success(sets[target := SetOf(sets, target) + sets[Text(part)]])
    else
      var e :- IntOf(part);
      Success(AddToSet(sets, target, e))
  }

  /** What one listed field contributes: the named set it refers to, or the integer it spells. */
  function PartContribution(sets: map<ParamValue, set<int>>, part: string): set<int>
  {
    if Text(part) in sets then sets[Text(part)]
    else if ParseInt(part).Some? then {ParseInt(part).value}
    else {}
  }

  /** The `for part in parts` loop of an element-set list line, field by field. */
  function AddSetParts(sets: map<ParamValue, set<int>>, target: ParamValue, parts: seq<string>): Result<map<ParamValue, set<int>>, Error>
    decreases |parts|
  {
    if parts == [] then Success(sets)
    else
      var next :- AddSetPart(sets, target, parts[0]);
      AddSetParts(next, target, parts[1..])
  }

  // ---------------------------------------------------------------- one line

  /** What a line asks of the caller: go on with a new state and result, or open an included file. */
  datatype Action = Proceed(state: ParseState, mesh: MeshData) | OpenInclude(path: string)

  /** The `*INCLUDE` branch: the INPUT parameter names the file; a bare INPUT flag is not a path. */
  function IncludeStep(strippedLine: string, lineNum: int): (r: Result<Action, Error>)
    ensures r.Success? ==> r.value.OpenInclude?
  {
    var kp :- KeywordLine(strippedLine);
    var params := kp.1;
    if "INPUT" !in params then Failure(ParserError(IncludeWithoutInput, lineNum, strippedLine))
    else if params["INPUT"].Flag? then Failure(TypeError)
    else Success(OpenInclude(params["INPUT"].text))
  }

  /** A section keyword line, met outside a section: opens the section and records ELSET, GENERATE and TYPE. */
  function KeywordStep(st: ParseState, strippedLine: string, upperLine: string, lineNum: int): (r: Result<ParseState, Error>)
    requires IsKeywordWithData(upperLine)
    ensures r.Success? ==> r.value.section == SectionOf(GetDataType(upperLine).value)
    ensures r.Success? ==> r.value.pending == st.pending && r.value.elementNumber == st.elementNumber
  {
    if EndsWith(strippedLine, ",") then Failure(ParserError(KeywordContinuation, lineNum, strippedLine))
    else
      var dataType := GetDataType(upperLine).value;
      var kp :- KeywordLine(strippedLine);
      var params := kp.1;
      var elementSet := if "ELSET" in params then params["ELSET"] else st.elementSet;
      var generate := if "GENERATE" in params then true else st.generate;
      if dataType == ElementData && "TYPE" !in params then
        Failure(ParserError(ElementWithoutType, lineNum, strippedLine))
      else
        var elementType := if dataType == ElementData then params["TYPE"] else st.elementType;
        Success(st.(section := SectionOf(dataType), elementSet := elementSet, generate := generate, elementType := elementType))
  }

  /** A node data line: the node is stored, replacing any earlier node with that number. */
  function NodeStep(st: ParseState, m: MeshData, strippedLine: string, lineNum: int): (r: Result<Action, Error>)
    requires Consistent(st, m)
    ensures r.Success? ==> r.value.Proceed? && Consistent(r.value.state, r.value.mesh)
  {
    var node :- ParseNodeDataLine(strippedLine, lineNum);
    Success(Proceed(st, m.(nodes := m.nodes[node.0 := node.1])))
  }

  /** An element data line: a continuation extends the pending element, otherwise a new element is stored. */
  function ElementStep(st: ParseState, m: MeshData, strippedLine: string, lineNum: int): (r: Result<Action, Error>)
    requires Consistent(st, m) && st.section == ElementSection
    ensures r.Success? ==> r.value.Proceed? && Consistent(r.value.state, r.value.mesh)
  {
    var data :- ParseElementDataLine(strippedLine, lineNum);
    var continues := EndsWith(strippedLine, ",");
    if st.pending.Some? then
      var byNumber := m.elements[st.elementType];
      var extended := byNumber[st.pending.value := byNumber[st.pending.value] + data];
      var m' := m.(elements := m.elements[st.elementType := extended]);
      Success(Proceed(st.(pending := if continues then Some(st.elementNumber) else None), m'))
    else
      var number := data[0];
      var byNumber := ElementsOf(m.elements, st.elementType);
      var m1 := m.(elements := m.elements[st.elementType := byNumber[number := data[1..]]]);
      var m2 := if Truthy(st.elementSet) then m1.(sets := AddToSet(m1.sets, st.elementSet, number)) else m1;
      Success(Proceed(st.(elementNumber := number, pending := if continues then Some(number) else None), m2))
  }

  /** A comma-less element-set line: a set name replaces the target with that set, anything else is one integer to add. */
  function BareSetStep(st: ParseState, m: MeshData, strippedLine: string): Result<Action, Error>
  {
    if Text(strippedLine) in m.sets then
      Success(Proceed(st, m.(sets := m.sets[st.elementSet := m.sets[Text(strippedLine)]])))
    else
      var e :- IntOf(strippedLine);
      Success(Proceed(st, m.(sets := AddToSet(m.sets, st.elementSet, e))))
  }

  /** `start = int(parts[0])`, `end = int(parts[1])` and the step, `int(parts[2])` or 1, raising at the first that is not an integer. */
  function GenerateBounds(parts: seq<string>): (r: Result<(int, int, int), Error>)
    requires 2 <= |parts| <= 3
    ensures r.Success? <==>
      ParseInt(parts[0]).Some? && ParseInt(parts[1]).Some? && (|parts| == 3 ==> ParseInt(parts[2]).Some?)
    ensures r.Success? ==>
      && ParseInt(parts[0]) == Some(r.value.0)
      && ParseInt(parts[1]) == Some(r.value.1)
      && (if |parts| == 3 then ParseInt(parts[2]) == Some(r.value.2) else r.value.2 == 1)
  {
    var start :- IntOf(parts[0]);
    var end :- IntOf(parts[1]);
    var step :- if |parts| == 3 then IntOf(parts[2]) else Success(1);
    Success((start, end, step))
  }

  /** The GENERATE line: `start, end[, step]` replaces the target with the inclusive range and clears the flag. */
  function GenerateStep(st: ParseState, m: MeshData, strippedLine: string, lineNum: int): Result<Action, Error>
  {
    var parts := Split(strippedLine, ',');
    if !(2 <= |parts| <= 3) then Failure(ParserError(GenerateFieldCount, lineNum, strippedLine))
    else
      var bounds :- GenerateBounds(parts);
      GenerateRange(st, m, bounds.0, bounds.1, bounds.2)
  }

  /** `range(start, end + 1, step)` stored under the target, which raises ValueError for a zero step. */
  function GenerateRange(st: ParseState, m: MeshData, start: int, end: int, step: int): (r: Result<Action, Error>)
    ensures step == 0 <==> r == Failure(ValueError(ZeroRangeStep))
  {
    if step == 0 then Failure(ValueError(ZeroRangeStep))
    else Success(Proceed(st.(generate := false), m.(sets := m.sets[st.elementSet := RangeSet(start, end + 1, step)])))
  }

  /** A list line: each field, after a trailing comma's empty one is dropped, is added to the target. */
  function ListSetStep(st: ParseState, m: MeshData, strippedLine: string): Result<Action, Error>
  {
    var sets :- AddSetParts(m.sets, st.elementSet, DataFields(strippedLine));
    Success(Proceed(st, m.(sets := sets)))
  }

  /** An element-set data line: a bare reference or integer, a GENERATE range, or a list of references and integers. */
  function SetStep(st: ParseState, m: MeshData, strippedLine: string, lineNum: int): (r: Result<Action, Error>)
    requires Consistent(st, m) && st.section == ElementSetSection
    ensures r.Success? ==> r.value.Proceed? && Consistent(r.value.state, r.value.mesh)
  {
    if ',' !in strippedLine then BareSetStep(st, m, strippedLine)
    else if st.generate then GenerateStep(st, m, strippedLine, lineNum)
    else ListSetStep(st, m, strippedLine)
  }

  lemma IncludeIsKeyword(upperLine: string)
    ensures StartsWith(upperLine, "*INCLUDE") ==> IsKeyword(upperLine)
  {
    if StartsWith(upperLine, "*INCLUDE") {
      assert upperLine[0] == '*' && upperLine[1] == 'I';
    }
  }

  /** A line is an include line when its stripped, upper-cased form starts with `*INCLUDE`. */
  predicate IsIncludeLine(line: string) {
    StartsWith(Upper(Strip(line)), "*INCLUDE")
  }

  /**
   * One pass of the `while` body of `read_mesh` for one physical line with
   * line number `lineNum`: comments are skipped, a blank or keyword line in a
   * section only closes it, `*INCLUDE` asks for a file, a section keyword
   * opens its section, and a data line goes to the section's builder.
   */
  function LineStep(st: ParseState, m: MeshData, line: string, lineNum: int): (r: Result<Action, Error>)
    requires Consistent(st, m)
    ensures r.Success? && r.value.Proceed? ==> Consistent(r.value.state, r.value.mesh)
    ensures r.Success? && r.value.OpenInclude? ==> IsIncludeLine(line) && st.section == NoSection
  {
    var strippedLine := Strip(line);
    var upperLine := Upper(strippedLine);
    SectionKeywordsExclusive(upperLine);
    IncludeIsKeyword(upperLine);
    if IsComment(strippedLine) then Success(Proceed(st, m))
    else if (strippedLine == "" || IsKeyword(upperLine)) && st.section != NoSection then
      Success(Proceed(Closed(st), m))
    else if StartsWith(upperLine, "*INCLUDE") then IncludeStep(strippedLine, lineNum)
    else if IsKeywordWithData(upperLine) then
      var st' :- KeywordStep(st, strippedLine, upperLine, lineNum);
      Success(Proceed(st', m))
    else if st.section == NodeSection then NodeStep(st, m, strippedLine, lineNum)
    else if st.section == ElementSection then ElementStep(st, m, strippedLine, lineNum)
    else if st.section == ElementSetSection then SetStep(st, m, strippedLine, lineNum)
    else Success(Proceed(st, m))
  }

  // ---------------------------------------------------------------- the whole file

  /** `line_num` after a line: comment lines `continue` before the counter is incremented. */
  function NextLineNum(line: string, lineNum: int): int
  {
    if IsComment(Strip(line)) then lineNum else lineNum + 1
  }

  /**
   * Where reading stands: the unread lines of the primary file, those of the
   * open included file if there is one, `line_num` and `prev_line_num`.
   */
  datatype Cursor = Cursor(rest: seq<string>, incl: Option<seq<string>>, lineNum: int, prevLineNum: int)

  /** How much is left to read, for termination: the primary file first, then the included file. */
  function Remaining(c: Cursor): (nat, nat)
  {
    (|c.rest|, if c.incl.Some? then |c.incl.value| + 1 else 0)
  }

  /**
   * The `readline` calls at the top of the loop: the next line of the open
   * included file, or, once it is exhausted, the next primary line numbered
   * from `prev_line_num + 1`. Gives the line, whether it came from the
   * included file, and the cursor after it with the line's own number.
   */
  function ReadLine(c: Cursor): (r: Option<(string, bool, Cursor)>)
    ensures r.None? <==> c.rest == [] && (c.incl.None? || c.incl.value == [])
    ensures r.Some? && r.value.1 ==>
      && c.incl.Some? && r.value.2.rest == c.rest
      && r.value.2.incl.Some? && |r.value.2.incl.value| < |c.incl.value|
    ensures r.Some? && !r.value.1 ==> |r.value.2.rest| < |c.rest| && r.value.2.incl.None?
  {
    if c.incl.Some? && c.incl.value != [] then
      Some((c.incl.value[0], true, c.(incl := Some(c.incl.value[1..]))))
    else
      var lineNum := if c.incl.Some? then c.prevLineNum + 1 else c.lineNum;
      if c.rest == [] then None
      else Some((c.rest[0], false, Cursor(c.rest[1..], None, lineNum, c.prevLineNum)))
  }

  /** Where one pass of the `while line` loop leaves things: returned with a result, or going on from a new point. */
  datatype Next = Done(result: Result<MeshData, Error>) | Resume(cursor: Cursor, state: ParseState, mesh: MeshData)

  /** Less left to read: fewer primary lines, or as many and fewer included ones. */
  predicate Shorter(a: Cursor, b: Cursor) {
    Remaining(a).0 < Remaining(b).0 || (Remaining(a).0 == Remaining(b).0 && Remaining(a).1 < Remaining(b).1)
  }

  /**
   * One pass of the `while line` loop: read a line, interpret it, and either
   * stop (end of input or an exception) or go on. After an `*INCLUDE` line the
   * included lines are numbered from 1 and `prev_line_num` is one past the
   * `*INCLUDE` line's number; a comment line leaves `line_num` as it is.
   */
  function Advance(files: map<string, seq<string>>, c: Cursor, st: ParseState, m: MeshData): (r: Next)
    requires Consistent(st, m)
    ensures r.Resume? ==> Consistent(r.state, r.mesh) && Shorter(r.cursor, c)
  {
    match ReadLine(c)
    case None => Done(Success(m))
    case Some((line, fromInclude, after)) => Follow(files, LineStep(st, m, line, after.lineNum), line, fromInclude, after, st, m)
  }

  /**
   * The rest of that pass once the line read has been interpreted with
   * outcome `o`: `after` is the cursor past the line, carrying its number.
   * An `*INCLUDE` line opens the named file unless it was itself read from
   * an included file.
   */
  function Follow(files: map<string, seq<string>>, o: Result<Action, Error>, line: string, fromInclude: bool, after: Cursor, st: ParseState, m: MeshData): (r: Next)
    requires Consistent(st, m)
    requires o.Success? && o.value.Proceed? ==> Consistent(o.value.state, o.value.mesh)
    ensures r.Resume? ==> Consistent(r.state, r.mesh) && r.cursor.rest == after.rest
    ensures r.Resume? && fromInclude ==> r.cursor.incl == after.incl
  {
    match o
    case Failure(e) => Done(Failure(e))
    case Success(OpenInclude(path)) =>
      if fromInclude then Done(Failure(NestedInclude(path)))
      else if path !in files then Done(Failure(FileNotFound(path)))
      else Resume(Cursor(after.rest, Some(files[path]), 1, after.lineNum + 1), st, m)
    case Success(Proceed(st', m')) =>
      Resume(after.(lineNum := NextLineNum(line, after.lineNum)), st', m')
  }

  /**
   * The `while line` loop of `read_mesh` from a given point, included files
   * being looked up by their INPUT text in `files`.
   */
  function Run(files: map<string, seq<string>>, c: Cursor, st: ParseState, m: MeshData): Result<MeshData, Error>
    requires Consistent(st, m)
    decreases Remaining(c).0, Remaining(c).1
  {
    match Advance(files, c, st, m)
    case Done(result) => result
    case Resume(c', st', m') => Run(files, c', st', m')
  }

  /** The cursor before the first line of the primary file. */
  function Start(primary: seq<string>): Cursor
  {
    Cursor(primary, None, 1, 0)
  }

  /** The result of `read_mesh` on a primary file's lines. */
  function ReadMeshSpec(primary: seq<string>, files: map<string, seq<string>>): Result<MeshData, Error>
  {
    InitialConsistent();
    Run(files, Start(primary), Initial, EmptyMesh)
  }

  // ---------------------------------------------------------------- the imperative reader

  /** What a line step reports to the reading loop: a failure, a file to include, or nothing. */
  function Report(o: Result<Action, Error>): Result<Option<string>, Error>
  {
    match o
    case Failure(e) => Failure(e)
    case Success(OpenInclude(path)) => Success(Some(path))
    case Success(Proceed(_, _)) => Success(None)
  }

  /**
   * A method's report and new state agree with the outcome `o` of a step
   * function: the report is o's, and after a success the state and maps are
   * the ones `o` proceeds with, or unchanged when `o` asks for a file.
   */
  predicate Agrees(r: Result<Option<string>, Error>, o: Result<Action, Error>,
                   st0: ParseState, m0: MeshData, st1: ParseState, m1: MeshData)
  {
    && r == Report(o)
    && (o.Success? && o.value.Proceed? ==> st1 == o.value.state && m1 == o.value.mesh)
    && (o.Success? && o.value.OpenInclude? ==> st1 == st0 && m1 == m0)
  }

  /** The result dictionary and the loop's locals of `read_mesh`, updated in place line by line. */
  class LineInterpreter {
    var nodes: map<int, Coordinates>
    var elements: map<ParamValue, map<int, seq<int>>>
    var sets: map<ParamValue, set<int>>
    var section: Section
    var pending: Option<int>
    var elementNumber: int
    var elementType: ParamValue
    var elementSet: ParamValue
    var generate: bool

    function State(): ParseState
      reads this
    {
      ParseState(section, pending, elementNumber, elementType, elementSet, generate)
    }

    function Mesh(): MeshData
      reads this
    {
      MeshData(nodes, elements, sets)
    }

    predicate Valid()
      reads this
    {
      Consistent(State(), Mesh())
    }

    constructor ()
      ensures State() == Initial && Mesh() == EmptyMesh && Valid()
    {
      nodes := map[];
      elements := map[];
      sets := map[];
      section := NoSection;
      pending := None;
      elementNumber := 0;
      elementType := Text("");
      elementSet := Text("");
      generate := false;
    }

    /** Leave the current section, clearing the per-section locals. */
    method CloseSection()
      modifies this
      ensures State() == Closed(old(State())) && Mesh() == old(Mesh())
    {
      section := NoSection;
      pending := None;
      elementType := Text("");
      elementSet := Text("");
      generate := false;
    }

    /** The `*INCLUDE` branch: report the INPUT file to open. */
    method Include(strippedLine: string, lineNum: int) returns (r: Result<Option<string>, Error>)
      ensures r == Report(IncludeStep(strippedLine, lineNum))
    {
      var kp := ParseKeywordLine(strippedLine);
      if kp.Failure? {
        return Failure(kp.error);
      }
      var params := kp.value.1;
      if "INPUT" !in params {
        return Failure(ParserError(IncludeWithoutInput, lineNum, strippedLine));
      }
      if params["INPUT"].Flag? {
        return Failure(TypeError);
      }
      return Success(Some(params["INPUT"].text));
    }

    /** A section keyword line: record the section and its ELSET, GENERATE and TYPE parameters. */
    method OpenSection(strippedLine: string, upperLine: string, lineNum: int) returns (r: Result<Option<string>, Error>)
      requires IsKeywordWithData(upperLine)
      modifies this
      ensures var o := KeywordStep(old(State()), strippedLine, upperLine, lineNum);
        && (o.Failure? ==> r == Failure(o.error))
        && (o.Success? ==> r == Success(None) && State() == o.value && Mesh() == old(Mesh()))
    {
      if EndsWith(strippedLine, ",") {
        return Failure(ParserError(KeywordContinuation, lineNum, strippedLine));
      }
      var dataType := GetDataType(upperLine).value;
      section := SectionOf(dataType);
      var kp := ParseKeywordLine(strippedLine);
      if kp.Failure? {
        return Failure(kp.error);
      }
      var params := kp.value.1;
      if "ELSET" in params {
        elementSet := params["ELSET"];
      }
      if "GENERATE" in params {
        generate := true;
      }
      if dataType == ElementData {
        if "TYPE" !in params {
          return Failure(ParserError(ElementWithoutType, lineNum, strippedLine));
        }
        elementType := params["TYPE"];
      }
      return Success(None);
    }

    /** A node data line: store the node. */
    method AddNode(strippedLine: string, lineNum: int) returns (r: Result<Option<string>, Error>)
      requires Valid()
      modifies this
      ensures Agrees(r, NodeStep(old(State()), old(Mesh()), strippedLine, lineNum), old(State()), old(Mesh()), State(), Mesh())
    {
      var node := ParseNodeDataLine(strippedLine, lineNum);
      if node.Failure? {
        return Failure(node.error);
      }
      nodes := nodes[node.value.0 := node.value.1];
      return Success(None);
    }

    /** An element data line: extend the pending element or store a new one. */
    method AddElement(strippedLine: string, lineNum: int) returns (r: Result<Option<string>, Error>)
      requires Valid() && section == ElementSection
      modifies this
      ensures Agrees(r, ElementStep(old(State()), old(Mesh()), strippedLine, lineNum), old(State()), old(Mesh()), State(), Mesh())
    {
      var data := ParseElementDataLine(strippedLine, lineNum);
      if data.Failure? {
        return Failure(data.error);
      }
      if pending.Some? {
        var byNumber := elements[elementType];
        elements := elements[elementType := byNumber[pending.value := byNumber[pending.value] + data.value]];
        pending := None;
      } else {
        elementNumber := data.value[0];
        var byNumber := ElementsOf(elements, elementType);
        elements := elements[elementType := byNumber[elementNumber := data.value[1..]]];
        if Truthy(elementSet) {
          sets := AddToSet(sets, elementSet, elementNumber);
        }
      }
      if EndsWith(strippedLine, ",") {
        pending := Some(elementNumber);
      }
      return Success(None);
    }

    /** A comma-less element-set line. */
    method AddBareReference(strippedLine: string) returns (r: Result<Option<string>, Error>)
      modifies this
      ensures Agrees(r, BareSetStep(old(State()), old(Mesh()), strippedLine), old(State()), old(Mesh()), State(), Mesh())
    {
      if Text(strippedLine) in sets {
        sets := sets[elementSet := sets[Text(strippedLine)]];
      } else {
        var e := IntOf(strippedLine);
        if e.Failure? {
          return Failure(e.error);
        }
        sets := AddToSet(sets, elementSet, e.value);
      }
      return Success(None);
    }

    /** The line after `*ELSET, GENERATE`. */
    method AddGenerated(strippedLine: string, lineNum: int) returns (r: Result<Option<string>, Error>)
      modifies this
      ensures Agrees(r, GenerateStep(old(State()), old(Mesh()), strippedLine, lineNum), old(State()), old(Mesh()), State(), Mesh())
    {
      var parts := Split(strippedLine, ',');
      var numParts := |parts|;
      if !(2 <= numParts <= 3) {
        return Failure(ParserError(GenerateFieldCount, lineNum, strippedLine));
      }
      var bounds := GenerateBounds(parts);
      if bounds.Failure? {
        return Failure(bounds.error);
      }
      var (start, end, step) := bounds.value;
      if step == 0 {
        return Failure(ValueError(ZeroRangeStep));
      }
      sets := sets[elementSet := RangeSet(start, end + 1, step)];
      generate := false;
      return Success(None);
    }

    /** A list line: the `for part in parts` loop. */
    method AddListed(strippedLine: string) returns (r: Result<Option<string>, Error>)
      modifies this
      ensures Agrees(r, ListSetStep(old(State()), old(Mesh()), strippedLine), old(State()), old(Mesh()), State(), Mesh())
    {
      var parts := Split(strippedLine, ',');
      if EndsWith(strippedLine, ",") {
        parts := parts[..|parts| - 1];
      }
      assert parts == DataFields(strippedLine);
      for i := 0 to |parts|
        invariant AddSetParts(old(sets), elementSet, parts) == AddSetParts(sets, elementSet, parts[i..])
        invariant State() == old(State()) && nodes == old(nodes) && elements == old(elements)
      {
        var part := parts[i];
        assert parts[i..][1..] == parts[i + 1..];
        if Text(part) in sets {
          if |SetOf(sets, elementSet)| == 0 {
            sets := sets[elementSet := sets[Text(part)]];
          } else {
            sets := sets[elementSet := SetOf(sets, elementSet) + sets[Text(part)]];
          }
        } else {
          var e := IntOf(part);
          if e.Failure? {
            return Failure(e.error);
          }
          sets := AddToSet(sets, elementSet, e.value);
        }
      }
      assert parts[|parts|..] == [];
      return Success(None);
    }

    /** An element-set data line: a reference or integer, a GENERATE range, or a list. */
    method AddToElementSet(strippedLine: string, lineNum: int) returns (r: Result<Option<string>, Error>)
      requires Valid() && section == ElementSetSection
      modifies this
      ensures Agrees(r, SetStep(old(State()), old(Mesh()), strippedLine, lineNum), old(State()), old(Mesh()), State(), Mesh())
    {
      if ',' !in strippedLine {
        r := AddBareReference(strippedLine);
      } else if generate {
        r := AddGenerated(strippedLine, lineNum);
      } else {
        r := AddListed(strippedLine);
      }
    }

    /** One pass of the loop body of `read_mesh` for one line. */
    method Step(line: string, lineNum: int) returns (r: Result<Option<string>, Error>)
      requires Valid()
      modifies this
      ensures Agrees(r, LineStep(old(State()), old(Mesh()), line, lineNum), old(State()), old(Mesh()), State(), Mesh())
      ensures r.Success? ==> Valid()
    {
      var strippedLine := Strip(line);
      var upperLine := Upper(strippedLine);
      SectionKeywordsExclusive(upperLine);
      IncludeIsKeyword(upperLine);
      if IsComment(strippedLine) {
        return Success(None);
      }
      if (strippedLine == "" || IsKeyword(upperLine)) && section != NoSection {
        CloseSection();
        return Success(None);
      }
      if StartsWith(upperLine, "*INCLUDE") {
        r := Include(strippedLine, lineNum);
      } else if IsKeywordWithData(upperLine) {
        r := OpenSection(strippedLine, upperLine, lineNum);
      } else if section == NodeSection {
        r := AddNode(strippedLine, lineNum);
      } else if section == ElementSection {
        r := AddElement(strippedLine, lineNum);
      } else if section == ElementSetSection {
        r := AddToElementSet(strippedLine, lineNum);
      } else {
        r := Success(None);
      }
    }

    /** One pass of the `while line` loop: read the next line from the cursor and interpret it. */
    method Pass(files: map<string, seq<string>>, cursor: Cursor) returns (result: Option<Result<MeshData, Error>>, next: Cursor)
      requires Valid()
      modifies this
      ensures var o := Advance(files, cursor, old(State()), old(Mesh()));
        && (result.Some? <==> o.Done?)
        && (o.Done? ==> result.value == o.result)
        && (o.Resume? ==> next == o.cursor && State() == o.state && Mesh() == o.mesh && Valid())
    {
      next := cursor;
      var read := ReadLine(cursor);
      if read.None? {
        return Some(Success(Mesh())), next;
      }
      var (line, fromInclude, after) := read.value;
      if IsComment(Strip(line)) {
        return None, after;
      }
      var step := Step(line, after.lineNum);
      if step.Failure? {
        return Some(Failure(step.error)), next;
      }
      if step.value.Some? {
        var path := step.value.value;
        if fromInclude {
          return Some(Failure(NestedInclude(path))), next;
        }
        if path !in files {
          return Some(Failure(FileNotFound(path))), next;
        }
        return None, Cursor(after.rest, Some(files[path]), 1, after.lineNum + 1);
      }
      return None, after.(lineNum := after.lineNum + 1);
    }
  }

  /** `read_mesh`: the `while line` loop over the primary file, reading an included file's lines in place of its `*INCLUDE` line. */
  method ReadMesh(primary: seq<string>, files: map<string, seq<string>>) returns (r: Result<MeshData, Error>)
    ensures r == ReadMeshSpec(primary, files)
  {
    var reader := new LineInterpreter();
    var cursor := Start(primary);
    while true
      invariant reader.Valid()
      invariant ReadMeshSpec(primary, files) == Run(files, cursor, reader.State(), reader.Mesh())
      decreases Remaining(cursor).0, Remaining(cursor).1
    {
      var result, next := reader.Pass(files, cursor);
      if result.Some? {
        return result.value;
      }
      cursor := next;
    }
  }
}
