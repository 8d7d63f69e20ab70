/**
 * ccxinpreader/read_inp.py: the older reader, restricted to node and element
 * sections. It upper-cases each whole line before looking at it, has no
 * comment skipping, no element sets and no `*INCLUDE`, and reads every
 * element field with a plain `int()`.
 *
 * As for read_mesh.py, the specification is a step function InpLineStep and
 * a run function RunInp over the file's lines; the class InpInterpreter
 * holds the loop's locals and result maps as fields its Step method updates,
 * and ReadInp drives it with the source's loop.
 */
module InpReader {
  import opened Results
  import opened Strings
  import opened Errors
  import opened MessageFormat
  import opened MeshLines
  import MeshReader

  // ---------------------------------------------------------------- line helpers

  /** `sanitize_line`: surrounding whitespace removed, then upper-cased; the same as the other way round. */
  function SanitizeLine(line: string): (r: string)
    ensures r == Strip(Upper(line))
    ensures IsStripped(r) && Upper(r) == r
  {
    StripUpper(line);
    UpperIdempotent(Strip(line));
    Upper(Strip(line))
  }

  /** `is_keyword_with_data` of read_inp.py: only node and element definitions open a section. */
  predicate InpIsKeywordWithData(sanitizedLine: string) {
    IsNodeDefinition(sanitizedLine) || IsElementDefinition(sanitizedLine)
  }

  /** The value of `data_type`: `''`, `'node'` or `'element'`. */
  datatype InpSection = Outside | Nodes | Elements

  /** `get_data_type` of read_inp.py: the first of node and element definition that holds, or `None`. */
  function InpGetDataType(sanitizedLine: string): (r: Option<InpSection>)
    ensures r.Some? <==> InpIsKeywordWithData(sanitizedLine)
    ensures r == Some(Nodes) <==> IsNodeDefinition(sanitizedLine)
    ensures r == Some(Elements) <==> IsElementDefinition(sanitizedLine)
  {
    SectionKeywordsExclusive(sanitizedLine);
    if IsNodeDefinition(sanitizedLine) then Some(Nodes)
    else if IsElementDefinition(sanitizedLine) then Some(Elements)
    else None
  }

  /**
   * `parse_node_data_line` of read_inp.py: a line that does not split into
   * exactly four comma fields raises ValueError naming the line; otherwise
   * the stripped fields are read as for read_mesh.py.
   */
  function InpParseNodeDataLine(line: string, lineNum: int): (r: Result<(int, Coordinates), Error>)
    ensures |Split(line, ',')| != 4 <==> r == Failure(FormattedRaise(ValueError(InpNodeFieldCount(lineNum, line)), line))
    ensures |Split(line, ',')| == 4 ==> r == ParseNodeFields(StripParts(Split(line, ',')))
  {
    var parts := Split(line, ',');
    if |parts| != 4 then Failure(FormattedRaise(ValueError(InpNodeFieldCount(lineNum, line)), line))
    else
      var r := ParseNodeFields(StripParts(parts));
      assert r != Failure(FormattedRaise(ValueError(InpNodeFieldCount(lineNum, line)), line));
      r
  }

  /** `[int(part.strip()) for part in parts]`: every field must be an integer, an empty one included. */
  function StrictInts(parts: seq<string>): (r: Result<seq<int>, Error>)
    ensures r.Success? <==> forall i :: 0 <= i < |parts| ==> ParseInt(parts[i]).Some?
    ensures r.Success? ==> |r.value| == |parts| && forall i :: 0 <= i < |parts| ==> ParseInt(parts[i]) == Some(r.value[i])
    ensures r.Failure? ==> r.error.ValueError? && r.error.cause.NotAnInteger?
    decreases |parts|
  {
    if parts == [] then Success([])
    else
      var first := ParseInt(parts[0]);
      if first.None? then Failure(ValueError(NotAnInteger(Strip(parts[0]))))
      else
        var rest :- StrictInts(parts[1..]);
        assert forall i :: 1 <= i < |parts| ==> parts[i] == parts[1..][i - 1];
        Success([first.value] + rest)
  }

  /**
   * `parse_element_data_line` of read_inp.py: at most 16 fields once a
   * trailing comma's empty field is dropped (more raise ValueError), each
   * read with `int()`, so that an empty field is an error.
   */
  function InpParseElementDataLine(line: string, lineNum: int): (r: Result<seq<int>, Error>)
    ensures |DataFields(line)| > 16 ==> r == Failure(FormattedRaise(ValueError(ElementFieldLimit(lineNum, line)), line))
    ensures r.Success? <==> |DataFields(line)| <= 16 && forall i :: 0 <= i < |DataFields(line)| ==> ParseInt(DataFields(line)[i]).Some?
    ensures r.Success? ==>
      && 1 <= |r.value| == |DataFields(line)| <= 16
      && forall i :: 0 <= i < |r.value| ==> ParseInt(DataFields(line)[i]) == Some(r.value[i])
  {
    var fields := DataFields(line);
    if |fields| > 16 then Failure(FormattedRaise(ValueError(ElementFieldLimit(lineNum, line)), line))
    else StrictInts(fields)
  }

  // ---------------------------------------------------------------- state

  /** The locals of `read_inp` that survive from one line to the next, apart from the line counter. */
  datatype InpState = InpState(section: InpSection, pending: Option<int>, elementNumber: int, elementType: ParamValue)

  /** Before the first line; `element_number` is unbound there and no line reads it before one sets it. */
  const InpInitial := InpState(Outside, None, 0, Text(""))

  /** The state after a blank or keyword line closes a section. */
  function InpClosed(st: InpState): (r: InpState)
    ensures r.section == Outside && r.pending == None && r.elementType == Text("")
    ensures r.elementNumber == st.elementNumber
  {
    InpInitial.(elementNumber := st.elementNumber)
  }

  /** The dictionary `read_inp` returns. */
  datatype InpData = InpData(nodes: map<int, Coordinates>, elements: map<ParamValue, map<int, seq<int>>>)

  const EmptyInp := InpData(map[], map[])

  /** Between lines: outside a section the state is the closed one, and a pending element is stored. */
  predicate InpConsistent(st: InpState, d: InpData) {
    && (st.section == Outside ==> st == InpClosed(st))
    && (st.pending.Some? ==>
          && st.section == Elements
          && st.pending.value == st.elementNumber
          && st.elementType in d.elements
          && st.elementNumber in d.elements[st.elementType])
  }

  lemma InpInitialConsistent()
    ensures InpConsistent(InpInitial, EmptyInp)
  {
  }

  // ---------------------------------------------------------------- one line

  /** A section keyword line met outside a section: opens the section, taking TYPE for an element section. */
  function InpKeywordStep(st: InpState, sanitizedLine: string, lineNum: int): (r: Result<InpState, Error>)
    requires InpIsKeywordWithData(sanitizedLine)
    ensures r.Success? ==> r.value.section == InpGetDataType(sanitizedLine).value
    ensures r.Success? ==> r.value.pending == st.pending && r.value.elementNumber == st.elementNumber
    ensures r.Failure? ==>
      || (KeywordLine(sanitizedLine).Failure? && r.error == KeywordLine(sanitizedLine).error)
      || (InpGetDataType(sanitizedLine) == Some(Elements)
          && r.error == FormattedRaise(ValueError(InpElementWithoutType(lineNum, sanitizedLine)), sanitizedLine))
  {
    var section := InpGetDataType(sanitizedLine).value;
    var kp :- KeywordLine(sanitizedLine);
    var params := kp.1;
    if section == Elements then
      if "TYPE" !in params then Failure(FormattedRaise(ValueError(InpElementWithoutType(lineNum, sanitizedLine)), sanitizedLine))
      else Success(st.(section := Elements, elementType := params["TYPE"]))
    else Success(st.(section := section))
  }

  /** A node data line: the node is stored, replacing any earlier node with that number. */
  function InpNodeStep(st: InpState, d: InpData, sanitizedLine: string, lineNum: int): (r: Result<(InpState, InpData), Error>)
    requires InpConsistent(st, d)
    ensures r.Success? ==> InpConsistent(r.value.0, r.value.1)
  {
    var node :- InpParseNodeDataLine(sanitizedLine, lineNum);
    Success((st, d.(nodes := d.nodes[node.0 := node.1])))
  }

  /** An element data line: a continuation extends the pending element, otherwise a new element is stored. */
  function InpElementStep(st: InpState, d: InpData, sanitizedLine: string, lineNum: int): (r: Result<(InpState, InpData), Error>)
    requires InpConsistent(st, d) && st.section == Elements
    ensures r.Success? ==> InpConsistent(r.value.0, r.value.1)
  {
    var data :- InpParseElementDataLine(sanitizedLine, lineNum);
    var continues := EndsWith(sanitizedLine, ",");
    if st.pending.Some? then
      var byNumber := d.elements[st.elementType];
      var d' := d.(elements := d.elements[st.elementType := byNumber[st.pending.value := byNumber[st.pending.value] + data]]);
      Success((st.(pending := if continues then Some(st.elementNumber) else None), d'))
    else
      var number := data[0];
      var byNumber := MeshReader.ElementsOf(d.elements, st.elementType);
      var d' := d.(elements := d.elements[st.elementType := byNumber[number := data[1..]]]);
      Success((st.(elementNumber := number, pending := if continues then Some(number) else None), d'))
  }

  /**
   * One pass of the `while line` body of `read_inp` for a line numbered
   * `lineNum`: a blank or keyword line in a section only closes it, a node or
   * element keyword opens its section, and a data line goes to the section's
   * builder. Nothing is skipped as a comment.
   */
  function InpLineStep(st: InpState, d: InpData, line: string, lineNum: int): (r: Result<(InpState, InpData), Error>)
    requires InpConsistent(st, d)
    ensures r.Success? ==> InpConsistent(r.value.0, r.value.1)
  {
    var s := SanitizeLine(line);
    SectionKeywordsExclusive(s);
    if (s == "" || IsKeyword(s)) && st.section != Outside then Success((InpClosed(st), d))
    else if InpIsKeywordWithData(s) then
      var st' :- InpKeywordStep(st, s, lineNum);
      assert st.section == Outside && st'.pending == None;
      Success((st', d))
    else if st.section == Nodes then InpNodeStep(st, d, s, lineNum)
    else if st.section == Elements then InpElementStep(st, d, s, lineNum)
    else Success((st, d))
  }

  // ---------------------------------------------------------------- the whole file

  /** The `while line` loop of `read_inp` over the lines left, the first of them numbered `lineNum`. */
  function RunInp(lines: seq<string>, lineNum: int, st: InpState, d: InpData): Result<InpData, Error>
    requires InpConsistent(st, d)
    decreases |lines|
  {
    if lines == [] then Success(d)
    else
      var next :- InpLineStep(st, d, lines[0], lineNum);
      RunInp(lines[1..], lineNum + 1, next.0, next.1)
  }

  /** The result of `read_inp` on a file's lines. */
  function ReadInpSpec(lines: seq<string>): Result<InpData, Error>
  {
    InpInitialConsistent();
    RunInp(lines, 1, InpInitial, EmptyInp)
  }

  // ---------------------------------------------------------------- the imperative reader

  /**
   * A method's report and new state agree with the outcome `o` of a step
   * function: it fails with o's error, or it succeeds with o's state and data.
   */
  predicate InpAgrees(error: Option<Error>, o: Result<(InpState, InpData), Error>, st1: InpState, d1: InpData)
  {
    && (error.Some? <==> o.Failure?)
    && (o.Failure? ==> error.value == o.error)
    && (o.Success? ==> st1 == o.value.0 && d1 == o.value.1)
  }

  /** The result dictionary and the loop's locals of `read_inp`, updated in place line by line. */
  class InpInterpreter {
    var nodes: map<int, Coordinates>
    var elements: map<ParamValue, map<int, seq<int>>>
    var section: InpSection
    var pending: Option<int>
    var elementNumber: int
    var elementType: ParamValue

    function State(): InpState
      reads this
    {
      InpState(section, pending, elementNumber, elementType)
    }

    function Data(): InpData
      reads this
    {
      InpData(nodes, elements)
    }

    predicate Valid()
      reads this
    {
      InpConsistent(State(), Data())
    }

    constructor ()
      ensures State() == InpInitial && Data() == EmptyInp && Valid()
    {
      nodes := map[];
      elements := map[];
      section := Outside;
      pending := None;
      elementNumber := 0;
      elementType := Text("");
    }

    /** A section keyword line: record the section and, for elements, the TYPE. */
    method OpenSection(sanitizedLine: string, lineNum: int) returns (error: Option<Error>)
      requires InpIsKeywordWithData(sanitizedLine)
      modifies this
      ensures var o := InpKeywordStep(old(State()), sanitizedLine, lineNum);
        && (error.Some? <==> o.Failure?)
        && (o.Failure? ==> error.value == o.error)
        && (o.Success? ==> State() == o.value && Data() == old(Data()))
    {
      section := InpGetDataType(sanitizedLine).value;
      var kp := ParseKeywordLine(sanitizedLine);
      if kp.Failure? {
        return Some(kp.error);
      }
      var params := kp.value.1;
      if section == Elements {
        if "TYPE" !in params {
          return Some(FormattedRaise(ValueError(InpElementWithoutType(lineNum, sanitizedLine)), sanitizedLine));
        }
        elementType := params["TYPE"];
      }
      return None;
    }

    /** A node data line: store the node. */
    method AddNode(sanitizedLine: string, lineNum: int) returns (error: Option<Error>)
      requires Valid()
      modifies this
      ensures InpAgrees(error, InpNodeStep(old(State()), old(Data()), sanitizedLine, lineNum), State(), Data())
    {
      var node := InpParseNodeDataLine(sanitizedLine, lineNum);
      if node.Failure? {
        return Some(node.error);
      }
      nodes := nodes[node.value.0 := node.value.1];
      return None;
    }

    /** An element data line: extend the pending element and clear the marker, or store a new element. */
    method AddElement(sanitizedLine: string, lineNum: int) returns (error: Option<Error>)
      requires Valid() && section == Elements
      modifies this
      ensures InpAgrees(error, InpElementStep(old(State()), old(Data()), sanitizedLine, lineNum), State(), Data())
    {
      var data := InpParseElementDataLine(sanitizedLine, lineNum);
      if data.Failure? {
        return Some(data.error);
      }
      if pending.Some? {
        var byNumber := elements[elementType];
        elements := elements[elementType := byNumber[pending.value := byNumber[pending.value] + data.value]];
        pending := None;
      } else {
        elementNumber := data.value[0];
        var byNumber := MeshReader.ElementsOf(elements, elementType);
        elements := elements[elementType := byNumber[elementNumber := data.value[1..]]];
      }
      if EndsWith(sanitizedLine, ",") {
        pending := Some(elementNumber);
      }
      return None;
    }

    /** One pass of the loop body of `read_inp` for one line. */
    method Step(line: string, lineNum: int) returns (error: Option<Error>)
      requires Valid()
      modifies this
      ensures InpAgrees(error, InpLineStep(old(State()), old(Data()), line, lineNum), State(), Data())
      ensures error.None? ==> Valid()
    {
      var s := SanitizeLine(line);
      if (s == "" || IsKeyword(s)) && section != Outside {
        section := Outside;
        pending := None;
        elementType := Text("");
        return None;
      }
      if InpIsKeywordWithData(s) {
        error := OpenSection(s, lineNum);
      } else if section == Nodes {
        error := AddNode(s, lineNum);
      } else if section == Elements {
        error := AddElement(s, lineNum);
      } else {
        error := None;
      }
    }
  }

  /** `read_inp`: the `while line` loop over the file's lines, counting them from 1. */
  method ReadInp(lines: seq<string>) returns (r: Result<InpData, Error>)
    ensures r == ReadInpSpec(lines)
  {
    var reader := new InpInterpreter();
    var lineNum := 1;
    var i := 0;
    while i < |lines|
      invariant 0 <= i <= |lines| && lineNum == i + 1
      invariant reader.Valid()
      invariant ReadInpSpec(lines) == RunInp(lines[i..], lineNum, reader.State(), reader.Data())
    {
      assert lines[i..][1..] == lines[i + 1..];
      var error := reader.Step(lines[i], lineNum);
      if error.Some? {
        return Failure(error.value);
      }
      i := i + 1;
      lineNum := lineNum + 1;
    }
    return Success(reader.Data());
  }
}
