/**
 * What read_inp.py promises about one line and about a whole file, and how
 * its element reading differs from read_mesh.py's.
 */
module InpProperties {
  import opened Results
  import opened Strings
  import opened Errors
  import opened MessageFormat
  import opened MeshLines
  import opened InpReader
  import MeshProperties

  // ---------------------------------------------------------------- case

  /** Every line is upper-cased before it is looked at, so upper-casing it first changes nothing. */
  lemma InpLineIgnoresCase(st: InpState, d: InpData, line: string, lineNum: int)
    requires InpConsistent(st, d)
    ensures InpLineStep(st, d, Upper(line), lineNum) == InpLineStep(st, d, line, lineNum)
  {
    StripUpper(line);
    UpperIdempotent(Strip(line));
    assert SanitizeLine(Upper(line)) == SanitizeLine(line);
  }

  /** Every line of a file upper-cased. */
  function UpperAll(lines: seq<string>): (r: seq<string>)
    ensures |r| == |lines| && forall i :: 0 <= i < |lines| ==> r[i] == Upper(lines[i])
  {
    seq(|lines|, i requires 0 <= i < |lines| => Upper(lines[i]))
  }

  /** read_inp gives the same result, or the same error, on a file and on its upper-cased copy. */
  lemma {:induction false} RunInpIgnoresCase(lines: seq<string>, lineNum: int, st: InpState, d: InpData)
    requires InpConsistent(st, d)
    ensures RunInp(UpperAll(lines), lineNum, st, d) == RunInp(lines, lineNum, st, d)
    decreases |lines|
  {
    if lines != [] {
      var upper := UpperAll(lines);
      InpLineIgnoresCase(st, d, lines[0], lineNum);
      var o := InpLineStep(st, d, lines[0], lineNum);
      if o.Success? {
        assert upper[1..] == UpperAll(lines[1..]);
        RunInpIgnoresCase(lines[1..], lineNum + 1, o.value.0, o.value.1);
      }
    }
  }

  lemma ReadInpIgnoresCase(lines: seq<string>)
    ensures ReadInpSpec(UpperAll(lines)) == ReadInpSpec(lines)
  {
    InpInitialConsistent();
    RunInpIgnoresCase(lines, 1, InpInitial, EmptyInp);
  }

  // ---------------------------------------------------------------- comments are not skipped

  /** The first comma field of a line that starts with something other than a comma starts with the same character. */
  lemma SplitFirstChar(s: string, sep: char)
    requires s != [] && s[0] != sep
    ensures Split(s, sep)[0] != [] && Split(s, sep)[0][0] == s[0]
  {
  }

  /** A field that starts with `*` is not an integer. */
  lemma StarIsNotInteger(field: string)
    requires field != [] && field[0] == '*'
    ensures ParseInt(field).None?
  {
    var t := Strip(field);
    assert TrimLeft(field) == field;
    assert t != [] && t[0] == '*';
  }

  /**
   * read_inp does not skip `**` comment lines: outside a section one is
   * ignored like any other line, but inside a node or element section it is
   * read as data and raises.
   */
  lemma InpCommentLine(st: InpState, d: InpData, line: string, lineNum: int)
    requires InpConsistent(st, d)
    requires StartsWith(SanitizeLine(line), "**")
    ensures st.section == Outside ==> InpLineStep(st, d, line, lineNum) == Success((st, d))
    ensures st.section != Outside ==> InpLineStep(st, d, line, lineNum).Failure?
  {
    var s := SanitizeLine(line);
    SectionKeywordsExclusive(s);
    assert s != "" && !IsKeyword(s) && !InpIsKeywordWithData(s);
    if st.section != Outside {
      InpDataLineDispatched(st, d, line, lineNum);
      StarDataRejected(st, d, s, lineNum);
    }
  }

  /** A data line whose first character is `*` is rejected by both builders: its first field is not an integer. */
  lemma StarDataRejected(st: InpState, d: InpData, s: string, lineNum: int)
    requires InpConsistent(st, d) && s != [] && s[0] == '*'
    ensures InpNodeStep(st, d, s, lineNum).Failure?
    ensures st.section == Elements ==> InpElementStep(st, d, s, lineNum).Failure?
  {
    SplitFirstChar(s, ',');
    var first := Split(s, ',')[0];
    StarIsNotInteger(first);
    if |Split(s, ',')| == 4 {
      var p := StripParts(Split(s, ','));
      StripIdempotent(first);
      assert ParseInt(p[0]) == ParseInt(first);
    }
    if |DataFields(s)| <= 16 {
      assert DataFields(s)[0] == first;
    }
  }

  // ---------------------------------------------------------------- sections

  /** Inside a section, a blank line or any keyword line (a section keyword included) only closes it. */
  lemma InpBlankOrKeywordCloses(st: InpState, d: InpData, line: string, lineNum: int)
    requires InpConsistent(st, d) && st.section != Outside
    requires SanitizeLine(line) == "" || IsKeyword(SanitizeLine(line))
    ensures InpLineStep(st, d, line, lineNum) == Success((InpClosed(st), d))
  {
  }

  /**
   * Outside a section, a node or element keyword line opens its section; an
   * element section takes its TYPE from the upper-cased line, and one without
   * TYPE raises. A trailing comma on the keyword line is not an error here.
   */
  lemma InpSectionOpened(st: InpState, d: InpData, line: string, lineNum: int, keyword: string, params: map<string, ParamValue>)
    requires InpConsistent(st, d) && st.section == Outside
    requires InpIsKeywordWithData(SanitizeLine(line))
    requires KeywordLine(SanitizeLine(line)) == Success((keyword, params))
    ensures IsNodeDefinition(SanitizeLine(line)) ==>
      InpLineStep(st, d, line, lineNum) == Success((st.(section := Nodes), d))
    ensures IsElementDefinition(SanitizeLine(line)) && "TYPE" in params ==>
      InpLineStep(st, d, line, lineNum) == Success((st.(section := Elements, elementType := params["TYPE"]), d))
    ensures IsElementDefinition(SanitizeLine(line)) && "TYPE" !in params ==>
      InpLineStep(st, d, line, lineNum) == Failure(FormattedRaise(ValueError(InpElementWithoutType(lineNum, SanitizeLine(line))), SanitizeLine(line)))
    ensures IsElementDefinition(SanitizeLine(line)) && "TYPE" !in params && HasNoBraces(SanitizeLine(line)) ==>
      InpLineStep(st, d, line, lineNum) == Failure(ValueError(InpElementWithoutType(lineNum, SanitizeLine(line))))
  {
    SectionKeywordsExclusive(SanitizeLine(line));
    if HasNoBraces(SanitizeLine(line)) {
      NoBracesFormats(SanitizeLine(line));
    }
  }

  /** A parameter on a section keyword line that holds more than one `=` raises when the section opens. */
  lemma InpKeywordUnpackFails(st: InpState, d: InpData, line: string, lineNum: int)
    requires InpConsistent(st, d) && st.section == Outside
    requires InpIsKeywordWithData(SanitizeLine(line))
    requires KeywordLine(SanitizeLine(line)).Failure?
    ensures InpLineStep(st, d, line, lineNum) == Failure(KeywordLine(SanitizeLine(line)).error)
  {
    SectionKeywordsExclusive(SanitizeLine(line));
  }

  /** In a section, a line that is neither blank nor a keyword goes to the section's builder. */
  lemma InpDataLineDispatched(st: InpState, d: InpData, line: string, lineNum: int)
    requires InpConsistent(st, d) && st.section != Outside
    requires SanitizeLine(line) != "" && !IsKeyword(SanitizeLine(line))
    ensures InpLineStep(st, d, line, lineNum)
         == if st.section == Nodes then InpNodeStep(st, d, SanitizeLine(line), lineNum)
            else InpElementStep(st, d, SanitizeLine(line), lineNum)
  {
    SectionKeywordsExclusive(SanitizeLine(line));
  }

  // ---------------------------------------------------------------- nodes

  /** A data line in a node section stores the node it denotes, replacing any earlier node of that number. */
  lemma InpNodeStored(st: InpState, d: InpData, line: string, lineNum: int, number: int, c: Coordinates)
    requires InpConsistent(st, d) && st.section == Nodes
    requires SanitizeLine(line) != "" && !IsKeyword(SanitizeLine(line))
    requires InpParseNodeDataLine(SanitizeLine(line), lineNum) == Success((number, c))
    ensures InpLineStep(st, d, line, lineNum) == Success((st, d.(nodes := d.nodes[number := c])))
  {
    SectionKeywordsExclusive(SanitizeLine(line));
  }

  /**
   * A node data line without exactly four comma fields raises ValueError
   * naming the line number and the line, unless a brace in the line makes
   * formatting that message raise first.
   */
  lemma InpNodeFieldCountRejected(st: InpState, d: InpData, line: string, lineNum: int)
    requires InpConsistent(st, d) && st.section == Nodes
    requires SanitizeLine(line) != "" && !IsKeyword(SanitizeLine(line))
    requires |Split(SanitizeLine(line), ',')| != 4
    ensures InpLineStep(st, d, line, lineNum) == Failure(FormattedRaise(ValueError(InpNodeFieldCount(lineNum, SanitizeLine(line))), SanitizeLine(line)))
    ensures HasNoBraces(SanitizeLine(line)) ==> InpLineStep(st, d, line, lineNum) == Failure(ValueError(InpNodeFieldCount(lineNum, SanitizeLine(line))))
  {
    SectionKeywordsExclusive(SanitizeLine(line));
    if HasNoBraces(SanitizeLine(line)) {
      NoBracesFormats(SanitizeLine(line));
    }
  }

  // ---------------------------------------------------------------- elements

  /**
   * A data line after a line that ended with a comma extends that element's
   * node list; the element stays pending only if this line ends with a comma too.
   */
  lemma InpContinuationAppends(st: InpState, d: InpData, line: string, lineNum: int, data: seq<int>)
    requires InpConsistent(st, d) && st.section == Elements && st.pending.Some?
    requires SanitizeLine(line) != "" && !IsKeyword(SanitizeLine(line))
    requires InpParseElementDataLine(SanitizeLine(line), lineNum) == Success(data)
    ensures var r := InpLineStep(st, d, line, lineNum);
      && r.Success?
      && r.value.0 == st.(pending := if EndsWith(SanitizeLine(line), ",") then st.pending else None)
      && st.elementType in r.value.1.elements
      && r.value.1.elements[st.elementType]
         == d.elements[st.elementType][st.elementNumber := d.elements[st.elementType][st.elementNumber] + data]
  {
    InpDataLineDispatched(st, d, line, lineNum);
    InpContinuationStepAppends(st, d, SanitizeLine(line), lineNum, data);
  }

  lemma InpContinuationStepAppends(st: InpState, d: InpData, s: string, lineNum: int, data: seq<int>)
    requires InpConsistent(st, d) && st.section == Elements && st.pending.Some?
    requires InpParseElementDataLine(s, lineNum) == Success(data)
    ensures var r := InpElementStep(st, d, s, lineNum);
      && r.Success?
      && r.value.0 == st.(pending := if EndsWith(s, ",") then st.pending else None)
      && st.elementType in r.value.1.elements
      && r.value.1.elements[st.elementType]
         == d.elements[st.elementType][st.elementNumber := d.elements[st.elementType][st.elementNumber] + data]
  {
    InpContinuationStep(st, d, s, lineNum, data);
  }

  /** Extending the pending element leaves the nodes and the other element types alone. */
  lemma InpContinuationKeepsRest(st: InpState, d: InpData, line: string, lineNum: int, data: seq<int>)
    requires InpConsistent(st, d) && st.section == Elements && st.pending.Some?
    requires SanitizeLine(line) != "" && !IsKeyword(SanitizeLine(line))
    requires InpParseElementDataLine(SanitizeLine(line), lineNum) == Success(data)
    ensures var r := InpLineStep(st, d, line, lineNum);
      && r.Success?
      && r.value.1.nodes == d.nodes
      && r.value.1.elements.Keys == d.elements.Keys
      && forall t :: t in d.elements && t != st.elementType ==> r.value.1.elements[t] == d.elements[t]
  {
    InpDataLineDispatched(st, d, line, lineNum);
    InpContinuationStepKeepsRest(st, d, SanitizeLine(line), lineNum, data);
  }

  lemma InpContinuationStepKeepsRest(st: InpState, d: InpData, s: string, lineNum: int, data: seq<int>)
    requires InpConsistent(st, d) && st.section == Elements && st.pending.Some?
    requires InpParseElementDataLine(s, lineNum) == Success(data)
    ensures var r := InpElementStep(st, d, s, lineNum);
      && r.Success?
      && r.value.1.nodes == d.nodes
      && r.value.1.elements.Keys == d.elements.Keys
      && forall t :: t in d.elements && t != st.elementType ==> r.value.1.elements[t] == d.elements[t]
  {
    InpContinuationStep(st, d, s, lineNum, data);
    var byNumber := d.elements[st.elementType];
    MeshProperties.StoreKeepsRest(d.elements, st.elementType, st.elementNumber, byNumber[st.elementNumber] + data);
  }

  lemma InpContinuationStep(st: InpState, d: InpData, s: string, lineNum: int, data: seq<int>)
    requires InpConsistent(st, d) && st.section == Elements && st.pending.Some?
    requires InpParseElementDataLine(s, lineNum) == Success(data)
    ensures var byNumber := d.elements[st.elementType];
      InpElementStep(st, d, s, lineNum)
      == Success((st.(pending := if EndsWith(s, ",") then st.pending else None),
                  d.(elements := d.elements[st.elementType := byNumber[st.elementNumber := byNumber[st.elementNumber] + data]])))
  {
  }

  /**
   * With nothing pending, an element data line stores a new element under the
   * section's type: its first integer is the element number, the rest its nodes.
   */
  lemma InpNewElementStored(st: InpState, d: InpData, line: string, lineNum: int, data: seq<int>)
    requires InpConsistent(st, d) && st.section == Elements && st.pending.None?
    requires SanitizeLine(line) != "" && !IsKeyword(SanitizeLine(line))
    requires InpParseElementDataLine(SanitizeLine(line), lineNum) == Success(data)
    ensures var r := InpLineStep(st, d, line, lineNum);
      && r.Success?
      && r.value.0 == st.(elementNumber := data[0], pending := if EndsWith(SanitizeLine(line), ",") then Some(data[0]) else None)
      && st.elementType in r.value.1.elements
      && data[0] in r.value.1.elements[st.elementType]
      && r.value.1.elements[st.elementType][data[0]] == data[1..]
  {
    InpDataLineDispatched(st, d, line, lineNum);
    InpNewElementStep(st, d, SanitizeLine(line), lineNum, data);
  }

  /** Storing a new element leaves the nodes, the other element types and the other elements of its type alone. */
  lemma InpNewElementKeepsRest(st: InpState, d: InpData, line: string, lineNum: int, data: seq<int>)
    requires InpConsistent(st, d) && st.section == Elements && st.pending.None?
    requires SanitizeLine(line) != "" && !IsKeyword(SanitizeLine(line))
    requires InpParseElementDataLine(SanitizeLine(line), lineNum) == Success(data)
    ensures var r := InpLineStep(st, d, line, lineNum);
      && r.Success?
      && r.value.1.nodes == d.nodes
      && r.value.1.elements.Keys == d.elements.Keys + {st.elementType}
      && (forall t :: t in d.elements && t != st.elementType ==> r.value.1.elements[t] == d.elements[t])
      && forall k :: st.elementType in d.elements && k in d.elements[st.elementType] && k != data[0] ==>
           k in r.value.1.elements[st.elementType] && r.value.1.elements[st.elementType][k] == d.elements[st.elementType][k]
  {
    InpDataLineDispatched(st, d, line, lineNum);
    InpNewElementStep(st, d, SanitizeLine(line), lineNum, data);
    MeshProperties.StoreKeepsRest(d.elements, st.elementType, data[0], data[1..]);
  }

  lemma InpNewElementStep(st: InpState, d: InpData, s: string, lineNum: int, data: seq<int>)
    requires InpConsistent(st, d) && st.section == Elements && st.pending.None?
    requires InpParseElementDataLine(s, lineNum) == Success(data)
    ensures |data| >= 1
    ensures InpElementStep(st, d, s, lineNum)
         == Success((st.(elementNumber := data[0], pending := if EndsWith(s, ",") then Some(data[0]) else None),
                     d.(elements := d.elements[st.elementType := MeshReader.ElementsOf(d.elements, st.elementType)[data[0] := data[1..]]])))
  {
  }

  // ---------------------------------------------------------------- the two element readers

  /** Where no field is empty, `int(part.strip())` and `int(part.strip() or 0)` agree, on values and on errors. */
  lemma {:induction false} StrictIntsAgree(parts: seq<string>)
    requires forall i :: 0 <= i < |parts| ==> Strip(parts[i]) != ""
    ensures StrictInts(parts) == IntsOrZero(parts)
    decreases |parts|
  {
    if parts != [] {
      StripIdempotent(parts[0]);
      assert IntOrZero(parts[0]) == ParseInt(parts[0]);
      StrictIntsAgree(parts[1..]);
    }
  }

  /**
   * read_inp reads element lines as read_mesh does, except that an empty
   * field is an error rather than 0: where read_inp succeeds both agree, and
   * where no field is empty they agree on errors too.
   */
  lemma InpElementAgreesWithMesh(line: string, lineNum: int)
    ensures (forall i :: 0 <= i < |DataFields(line)| ==> Strip(DataFields(line)[i]) != "") ==>
      InpParseElementDataLine(line, lineNum) == ParseElementDataLine(line, lineNum)
    ensures InpParseElementDataLine(line, lineNum).Success? ==>
      ParseElementDataLine(line, lineNum) == InpParseElementDataLine(line, lineNum)
  {
    var fields := DataFields(line);
    if forall i :: 0 <= i < |fields| ==> Strip(fields[i]) != "" {
      StrictIntsAgree(fields);
    }
    if InpParseElementDataLine(line, lineNum).Success? {
      forall i | 0 <= i < |fields| ensures Strip(fields[i]) != "" {
        assert ParseInt(fields[i]).Some?;
      }
      StrictIntsAgree(fields);
    }
  }

  /**
   * Both readers reject an element line of more than 16 fields alike: with
   * ValueError naming the line when it holds no brace, else with whatever
   * formatting the message raises on it.
   */
  lemma ElementFieldLimitRaised(line: string, lineNum: int)
    requires |DataFields(line)| > 16
    ensures InpParseElementDataLine(line, lineNum) == ParseElementDataLine(line, lineNum)
    ensures HasNoBraces(line) ==> ParseElementDataLine(line, lineNum) == Failure(ValueError(ElementFieldLimit(lineNum, line)))
    ensures FormatFault(line).Some? ==> ParseElementDataLine(line, lineNum) == Failure(FormatFault(line).value)
  {
    if HasNoBraces(line) {
      NoBracesFormats(line);
    }
  }

  /** A line of three fields, none holding a comma, is rejected by read_inp's node reader whatever its fields hold. */
  lemma ThreeFieldNodeLine(line: string, a: string, b: string, c: string, lineNum: int)
    requires line == a + "," + b + "," + c
    requires ',' !in a && ',' !in b && ',' !in c
    ensures InpParseNodeDataLine(line, lineNum) == Failure(FormattedRaise(ValueError(InpNodeFieldCount(lineNum, line)), line))
  {
    var fields := [a, b, c];
    assert Join(fields[2..], ',') == c;
    assert Join(fields[1..], ',') == b + "," + c;
    assert Join(fields, ',') == line;
    SplitJoin(fields, ',') by {
      assert forall i :: 0 <= i < |fields| ==> ',' !in fields[i];
    }
  }

  /** The node line `1,2,{x}` is upper-cased to `1,2,{X}`, whose field `{X}` makes formatting the message raise KeyError. */
  lemma NodeLineFieldRaisesKeyError(lineNum: int)
    ensures InpParseNodeDataLine("1,2,{X}", lineNum) == Failure(KeyError("X"))
  {
    var line := "1,2,{X}";
    assert line == "1" + "," + "2" + "," + "{X}";
    ThreeFieldNodeLine(line, "1", "2", "{X}", lineNum);
    NamedFieldExample();
    assert FormattedRaise(ValueError(InpNodeFieldCount(lineNum, line)), line) == KeyError("X");
  }

  /**
   * The node line `1,2,{a!}}` is upper-cased to `1,2,{A!}}`: the `}` after
   * `!` is the conversion, the next `}` closes the field, and formatting the
   * message raises KeyError for `A`.
   */
  lemma NodeLineConversionRaisesKeyError(lineNum: int)
    ensures InpParseNodeDataLine("1,2,{A!}}", lineNum) == Failure(KeyError("A"))
  {
    var line := "1,2,{A!}}";
    assert line == "1" + "," + "2" + "," + "{A!}}";
    ThreeFieldNodeLine(line, "1", "2", "{A!}}", lineNum);
    ConversionBraceExample();
    assert FormattedRaise(ValueError(InpNodeFieldCount(lineNum, line)), line) == KeyError("A");
  }

  /** `1,,2`: read_mesh reads the empty field as node 0, read_inp raises on it. */
  lemma EmptyFieldDiverges(lineNum: int)
    ensures ParseElementDataLine("1,,2", lineNum) == Success([1, 0, 2])
    ensures InpParseElementDataLine("1,,2", lineNum) == Failure(ValueError(NotAnInteger("")))
  {
    var fields := EmptyFieldSplit();
    EmptyFieldMesh(fields);
    var rest := fields[1..];
    assert ParseInt("").None?;
    assert rest[0] == "" && Strip(rest[0]) == "";
    assert StrictInts(rest) == Failure(ValueError(NotAnInteger("")));
    assert StrictInts(fields) == StrictInts(rest);
  }

  /** The fields of `1,,2`, the first and last read as 1 and 2. */
  lemma EmptyFieldSplit() returns (fields: seq<string>)
    ensures DataFields("1,,2") == fields && |fields| == 3 && fields[1] == ""
    ensures ParseInt(fields[0]) == Some(1) && ParseInt(fields[2]) == Some(2)
    ensures IntOrZero(fields[0]) == Some(1) && IntOrZero(fields[2]) == Some(2)
  {
    var one, two := ShowInt(1), ShowInt(2);
    assert one == "1" && two == "2";
    ParseShowInt(1);
    ParseShowInt(2);
    fields := [one, "", two];
    assert Join(fields[1..], ',') == ",2" by {
      assert fields[1..][1..] == [two];
    }
    assert Join(fields, ',') == "1,,2";
    SplitJoin(fields, ',');
  }

  /** read_mesh's reading of those fields, the empty one as 0. */
  lemma EmptyFieldMesh(fields: seq<string>)
    requires |fields| == 3 && fields[1] == ""
    requires IntOrZero(fields[0]) == Some(1) && IntOrZero(fields[2]) == Some(2)
    ensures IntsOrZero(fields) == Success([1, 0, 2])
  {
    var values := [1, 0, 2];
    assert IntOrZero(fields[1]) == Some(0);
    forall i | 0 <= i < 3
      ensures IntOrZero(fields[i]) == Some(values[i])
    {
      if i == 0 {
        assert values[i] == 1;
      } else if i == 1 {
        assert values[i] == 0;
      } else {
        assert values[i] == 2;
      }
    }
    IntsOrZeroPointwise(fields, values);
  }

  /** The comprehension gives the list of the fields' own readings when every field reads. */
  lemma IntsOrZeroPointwise(parts: seq<string>, values: seq<int>)
    requires |parts| == |values|
    requires forall i :: 0 <= i < |parts| ==> IntOrZero(parts[i]) == Some(values[i])
    ensures IntsOrZero(parts) == Success(values)
  {
    var r := IntsOrZero(parts);
    assert r.Success?;
    assert r.value == values;
  }

  /** Writing an element record and reading it back with read_inp gives the same integers. */
  lemma InpElementLineRoundTrip(values: seq<int>, continued: bool, lineNum: int)
    requires 1 <= |values| <= 16
    ensures InpParseElementDataLine(ElementLine(values, continued), lineNum) == Success(values)
  {
    var line := ElementLine(values, continued);
    if continued {
      DataFieldsContinued(values);
    } else {
      DataFieldsComplete(values);
    }
    ElementLineRoundTrip(values, continued, lineNum);
    InpElementAgreesWithMesh(line, lineNum);
  }

  // ---------------------------------------------------------------- line numbers

  /** Apart from the line number an error names, a line's effect does not depend on its number. */
  lemma InpLineStepIgnoresLineNum(st: InpState, d: InpData, line: string, n1: int, n2: int)
    requires InpConsistent(st, d)
    ensures ForgetLine(InpLineStep(st, d, line, n1)) == ForgetLine(InpLineStep(st, d, line, n2))
  {
    var s := SanitizeLine(line);
    SectionKeywordsExclusive(s);
    if (s == "" || IsKeyword(s)) && st.section != Outside {
    } else if InpIsKeywordWithData(s) {
      InpKeywordStepIgnoresLineNum(st, s, n1, n2);
    } else if st.section == Nodes {
      InpNodeStepIgnoresLineNum(st, d, s, n1, n2);
    } else if st.section == Elements {
      InpElementStepIgnoresLineNum(st, d, s, n1, n2);
    }
  }

  lemma InpNodeStepIgnoresLineNum(st: InpState, d: InpData, s: string, n1: int, n2: int)
    requires InpConsistent(st, d)
    ensures ForgetLine(InpNodeStep(st, d, s, n1)) == ForgetLine(InpNodeStep(st, d, s, n2))
  {
    assert ForgetLine(InpParseNodeDataLine(s, n1)) == ForgetLine(InpParseNodeDataLine(s, n2));
  }

  lemma InpElementStepIgnoresLineNum(st: InpState, d: InpData, s: string, n1: int, n2: int)
    requires InpConsistent(st, d) && st.section == Elements
    ensures ForgetLine(InpElementStep(st, d, s, n1)) == ForgetLine(InpElementStep(st, d, s, n2))
  {
    assert ForgetLine(InpParseElementDataLine(s, n1)) == ForgetLine(InpParseElementDataLine(s, n2));
  }

  lemma InpKeywordStepIgnoresLineNum(st: InpState, s: string, n1: int, n2: int)
    requires InpIsKeywordWithData(s)
    ensures ForgetLine(InpKeywordStep(st, s, n1)) == ForgetLine(InpKeywordStep(st, s, n2))
  {
  }

  /** Where the line counter starts affects nothing but the line number an error names. */
  lemma {:induction false} RunInpIgnoresLineNumbers(lines: seq<string>, n1: int, n2: int, st: InpState, d: InpData)
    requires InpConsistent(st, d)
    ensures ForgetLine(RunInp(lines, n1, st, d)) == ForgetLine(RunInp(lines, n2, st, d))
    decreases |lines|
  {
    if lines != [] {
      InpLineStepIgnoresLineNum(st, d, lines[0], n1, n2);
      var o := InpLineStep(st, d, lines[0], n1);
      if o.Success? {
        RunInpIgnoresLineNumbers(lines[1..], n1 + 1, n2 + 1, o.value.0, o.value.1);
      }
    }
  }
}
