/**
 * Properties of the read_mesh.py interpreter, stated over the step function
 * LineStep and the whole-file function Run of module MeshReader.
 */
module MeshProperties {
  import opened Results
  import opened Strings
  import opened Errors
  import opened MeshLines
  import opened MeshReader

  /** A data line: neither blank nor starting with `*`, and so neither a comment nor a keyword. */
  predicate IsDataLine(strippedLine: string) {
    strippedLine != "" && strippedLine[0] != '*'
  }

  /** A data line's upper-cased form is not a keyword and none of the keyword prefixes match it. */
  lemma DataLineIsNotKeyword(strippedLine: string)
    requires IsDataLine(strippedLine)
    ensures !IsComment(strippedLine)
    ensures !IsKeyword(Upper(strippedLine)) && !IsKeywordWithData(Upper(strippedLine))
    ensures !StartsWith(Upper(strippedLine), "*INCLUDE")
  {
    assert Upper(strippedLine)[0] == ToUpper(strippedLine[0]) != '*';
    SectionKeywordsExclusive(Upper(strippedLine));
  }

  /** A data line inside a section goes to that section's builder. */
  lemma DataLineDispatched(st: ParseState, m: MeshData, line: string, lineNum: int)
    requires Consistent(st, m) && IsDataLine(Strip(line))
    ensures st.section == NodeSection ==> LineStep(st, m, line, lineNum) == NodeStep(st, m, Strip(line), lineNum)
    ensures st.section == ElementSection ==> LineStep(st, m, line, lineNum) == ElementStep(st, m, Strip(line), lineNum)
    ensures st.section == ElementSetSection ==> LineStep(st, m, line, lineNum) == SetStep(st, m, Strip(line), lineNum)
  {
    DataLineIsNotKeyword(Strip(line));
  }

  // ---------------------------------------------------------------- classification

  /** A comment line changes neither the state nor the result maps. */
  lemma CommentLineIgnored(st: ParseState, m: MeshData, line: string, lineNum: int)
    requires Consistent(st, m) && IsComment(Strip(line))
    ensures LineStep(st, m, line, lineNum) == Success(Proceed(st, m))
  {
  }

  /**
   * Inside a section, a blank or keyword line only closes it: the maps are
   * unchanged and every per-section local is reset. This holds for section
   * keywords and `*INCLUDE` too, which are not acted on.
   */
  lemma BlankOrKeywordClosesSection(st: ParseState, m: MeshData, line: string, lineNum: int)
    requires Consistent(st, m) && st.section != NoSection
    requires Strip(line) == "" || IsKeyword(Upper(Strip(line)))
    ensures LineStep(st, m, line, lineNum) == Success(Proceed(Initial.(elementNumber := st.elementNumber), m))
  {
    assert !IsComment(Strip(line)) by {
      CommentIgnoresCase(Strip(line));
    }
  }

  /** Outside a section a data line is ignored. */
  lemma DataLineOutsideSectionIgnored(st: ParseState, m: MeshData, line: string, lineNum: int)
    requires Consistent(st, m) && st.section == NoSection && IsDataLine(Strip(line))
    ensures LineStep(st, m, line, lineNum) == Success(Proceed(st, m))
  {
    DataLineIsNotKeyword(Strip(line));
  }

  // ---------------------------------------------------------------- keyword lines

  /** A section keyword line ending in a comma raises ParserError naming its line number and stripped text. */
  lemma KeywordContinuationRejected(st: ParseState, m: MeshData, line: string, lineNum: int)
    requires Consistent(st, m) && st.section == NoSection
    requires IsKeywordWithData(Upper(Strip(line))) && EndsWith(Strip(line), ",")
    ensures LineStep(st, m, line, lineNum) == Failure(ParserError(KeywordContinuation, lineNum, Strip(line)))
  {
    SectionKeywordsExclusive(Upper(Strip(line)));
    CommentIgnoresCase(Strip(line));
    SectionKeywordIsNotInclude(Upper(Strip(line)));
  }

  /** `*ELEMENT` whose parameters have no `TYPE` key raises ParserError naming its line. */
  lemma ElementWithoutTypeRejected(st: ParseState, m: MeshData, line: string, lineNum: int)
    requires Consistent(st, m) && st.section == NoSection
    requires IsElementDefinition(Upper(Strip(line))) && !EndsWith(Strip(line), ",")
    requires KeywordLine(Strip(line)).Success? && "TYPE" !in KeywordLine(Strip(line)).value.1
    ensures LineStep(st, m, line, lineNum) == Failure(ParserError(ElementWithoutType, lineNum, Strip(line)))
  {
    var u := Upper(Strip(line));
    SectionKeywordsExclusive(u);
    CommentIgnoresCase(Strip(line));
    SectionKeywordIsNotInclude(u);
  }

  /** `*INCLUDE` without an `INPUT` key raises ParserError naming its line. */
  lemma IncludeWithoutInputRejected(st: ParseState, m: MeshData, line: string, lineNum: int)
    requires Consistent(st, m) && st.section == NoSection
    requires StartsWith(Upper(Strip(line)), "*INCLUDE")
    requires KeywordLine(Strip(line)).Success? && "INPUT" !in KeywordLine(Strip(line)).value.1
    ensures LineStep(st, m, line, lineNum) == Failure(ParserError(IncludeWithoutInput, lineNum, Strip(line)))
  {
    IncludeLineDispatched(st, m, line, lineNum);
  }

  /** Outside a section, an `*INCLUDE` line goes to the include branch. */
  lemma IncludeLineDispatched(st: ParseState, m: MeshData, line: string, lineNum: int)
    requires Consistent(st, m) && st.section == NoSection
    requires StartsWith(Upper(Strip(line)), "*INCLUDE")
    ensures LineStep(st, m, line, lineNum) == IncludeStep(Strip(line), lineNum)
  {
    CommentIgnoresCase(Strip(line));
    assert Upper(Strip(line))[1] == 'I';
  }

  /**
   * Outside a section, an accepted section keyword line opens its section and
   * leaves the maps alone: ELSET (from any section keyword) names the set,
   * GENERATE arms the flag, and an element section takes its TYPE. Parameter
   * keys are matched as written, without case folding.
   */
  lemma SectionOpened(st: ParseState, m: MeshData, line: string, lineNum: int)
    requires Consistent(st, m) && st.section == NoSection
    requires IsKeywordWithData(Upper(Strip(line))) && !EndsWith(Strip(line), ",")
    requires KeywordLine(Strip(line)).Success?
    requires IsElementDefinition(Upper(Strip(line))) ==> "TYPE" in KeywordLine(Strip(line)).value.1
    ensures var params := KeywordLine(Strip(line)).value.1;
      LineStep(st, m, line, lineNum) == Success(Proceed(ParseState(
        SectionOf(GetDataType(Upper(Strip(line))).value),
        None,
        st.elementNumber,
        if IsElementDefinition(Upper(Strip(line))) then params["TYPE"] else Text(""),
        if "ELSET" in params then params["ELSET"] else Text(""),
        "GENERATE" in params), m))
  {
    var u := Upper(Strip(line));
    SectionKeywordsExclusive(u);
    CommentIgnoresCase(Strip(line));
    SectionKeywordIsNotInclude(u);
  }

  /** No section keyword starts with `*INCLUDE`. */
  lemma SectionKeywordIsNotInclude(upperLine: string)
    requires IsKeywordWithData(upperLine)
    ensures !StartsWith(upperLine, "*INCLUDE")
  {
    assert upperLine[1] == 'N' || upperLine[1] == 'E';
  }

  // ---------------------------------------------------------------- node lines

  /** In a node section, a parsed node line stores the node, overwriting an earlier one with that number. */
  lemma NodeStored(st: ParseState, m: MeshData, line: string, lineNum: int)
    requires Consistent(st, m) && st.section == NodeSection && IsDataLine(Strip(line))
    requires ParseNodeDataLine(Strip(line), lineNum).Success?
    ensures var node := ParseNodeDataLine(Strip(line), lineNum).value;
      && LineStep(st, m, line, lineNum).Success?
      && LineStep(st, m, line, lineNum).value == Proceed(st, m.(nodes := m.nodes[node.0 := node.1]))
  {
    DataLineIsNotKeyword(Strip(line));
  }

  /** In a node section, a line that does not split into four fields raises ParserError naming it. */
  lemma NodeFieldCountRejected(st: ParseState, m: MeshData, line: string, lineNum: int)
    requires Consistent(st, m) && st.section == NodeSection && IsDataLine(Strip(line))
    requires |Split(Strip(line), ',')| != 4
    ensures LineStep(st, m, line, lineNum) == Failure(ParserError(NodeFieldCount, lineNum, Strip(line)))
  {
    DataLineIsNotKeyword(Strip(line));
  }

  // ---------------------------------------------------------------- element lines

  /**
   * After a line ending in a comma, the next element line's integers are
   * appended to the same element, the sets are untouched (only the line that
   * established the element number adds it to ELSET), and the element stays
   * pending exactly when this line also ends in a comma.
   */
  lemma ContinuationAppends(st: ParseState, m: MeshData, line: string, lineNum: int)
    requires Consistent(st, m) && st.section == ElementSection && st.pending.Some?
    requires IsDataLine(Strip(line)) && ParseElementDataLine(Strip(line), lineNum).Success?
    ensures var data := ParseElementDataLine(Strip(line), lineNum).value;
      var r := LineStep(st, m, line, lineNum);
      && r.Success? && r.value.Proceed?
      && r.value.mesh.nodes == m.nodes
      && r.value.mesh.sets == m.sets
      && r.value.mesh.elements.Keys == m.elements.Keys
      && r.value.mesh.elements[st.elementType]
           == m.elements[st.elementType][st.elementNumber := m.elements[st.elementType][st.elementNumber] + data]
      && (forall t :: t in m.elements && t != st.elementType ==> r.value.mesh.elements[t] == m.elements[t])
      && r.value.state == st.(pending := if EndsWith(Strip(line), ",") then Some(st.elementNumber) else None)
  {
    var s := Strip(line);
    var data := ParseElementDataLine(s, lineNum).value;
    var byNumber := m.elements[st.elementType];
    var elements := m.elements[st.elementType := byNumber[st.elementNumber := byNumber[st.elementNumber] + data]];
    var st' := st.(pending := if EndsWith(s, ",") then Some(st.elementNumber) else None);
    assert LineStep(st, m, line, lineNum) == Success(Proceed(st', m.(elements := elements))) by {
      DataLineDispatched(st, m, line, lineNum);
      ContinuationStep(st, m, s, lineNum, data);
    }
    StoreKeepsRest(m.elements, st.elementType, st.elementNumber, byNumber[st.elementNumber] + data);
  }

  lemma ContinuationStep(st: ParseState, m: MeshData, s: string, lineNum: int, data: seq<int>)
    requires Consistent(st, m) && st.section == ElementSection && st.pending.Some?
    requires ParseElementDataLine(s, lineNum) == Success(data)
    ensures var byNumber := m.elements[st.elementType];
      ElementStep(st, m, s, lineNum)
      == Success(Proceed(st.(pending := if EndsWith(s, ",") then Some(st.elementNumber) else None),
                         m.(elements := m.elements[st.elementType := byNumber[st.elementNumber := byNumber[st.elementNumber] + data]])))
  {
  }

  /** Storing one element under one type changes no other entry. */
  lemma StoreKeepsRest(elements: map<ParamValue, map<int, seq<int>>>, t: ParamValue, number: int, nodes: seq<int>)
    ensures var e := elements[t := ElementsOf(elements, t)[number := nodes]];
      && e.Keys == elements.Keys + {t}
      && (forall u :: u in elements && u != t ==> e[u] == elements[u])
      && forall k :: t in elements && k in elements[t] && k != number ==> k in e[t] && e[t][k] == elements[t][k]
  {
  }

  /**
   * With no continuation pending, an element line stores its first integer's
   * element with the remaining integers as its nodes, under the current TYPE,
   * and adds the number to the ELSET named on `*ELEMENT` when there is one.
   */
  lemma NewElementStored(st: ParseState, m: MeshData, line: string, lineNum: int)
    requires Consistent(st, m) && st.section == ElementSection && st.pending.None?
    requires IsDataLine(Strip(line)) && ParseElementDataLine(Strip(line), lineNum).Success?
    ensures var data := ParseElementDataLine(Strip(line), lineNum).value;
      var r := LineStep(st, m, line, lineNum);
      && r.Success? && r.value.Proceed?
      && r.value.mesh.nodes == m.nodes
      && r.value.mesh.elements == m.elements[st.elementType := ElementsOf(m.elements, st.elementType)[data[0] := data[1..]]]
      && (Truthy(st.elementSet) ==> r.value.mesh.sets == m.sets[st.elementSet := SetOf(m.sets, st.elementSet) + {data[0]}])
      && (!Truthy(st.elementSet) ==> r.value.mesh.sets == m.sets)
      && r.value.state == st.(elementNumber := data[0], pending := if EndsWith(Strip(line), ",") then Some(data[0]) else None)
  {
    DataLineDispatched(st, m, line, lineNum);
    NewElementStep(st, m, Strip(line), lineNum, ParseElementDataLine(Strip(line), lineNum).value);
  }

  lemma NewElementStep(st: ParseState, m: MeshData, s: string, lineNum: int, data: seq<int>)
    requires Consistent(st, m) && st.section == ElementSection && st.pending.None?
    requires ParseElementDataLine(s, lineNum) == Success(data)
    ensures |data| >= 1
    ensures var m1 := m.(elements := m.elements[st.elementType := ElementsOf(m.elements, st.elementType)[data[0] := data[1..]]]);
      ElementStep(st, m, s, lineNum)
      == Success(Proceed(st.(elementNumber := data[0], pending := if EndsWith(s, ",") then Some(data[0]) else None),
                         if Truthy(st.elementSet) then m1.(sets := AddToSet(m1.sets, st.elementSet, data[0])) else m1))
  {
  }

  /**
   * An element written over two lines, the first ending in a comma, is stored
   * with the nodes of both lines in order and is no longer pending.
   */
  lemma TwoLineElement(st: ParseState, m: MeshData, first: seq<int>, second: seq<int>, n: int)
      returns (r1: Action, r2: Action)
    requires Consistent(st, m) && st.section == ElementSection && st.pending.None?
    requires 1 <= |first| <= 16 && 1 <= |second| <= 16
    ensures LineStep(st, m, ElementLine(first, true), n) == Success(r1) && r1.Proceed?
    ensures Consistent(r1.state, r1.mesh)
    ensures LineStep(r1.state, r1.mesh, ElementLine(second, false), n + 1) == Success(r2) && r2.Proceed?
    ensures r2.state.pending.None?
    ensures st.elementType in r2.mesh.elements && first[0] in r2.mesh.elements[st.elementType]
    ensures r2.mesh.elements[st.elementType][first[0]] == first[1..] + second
  {
    r1 := FirstLineStored(st, m, first, n);
    var line2 := ElementLine(second, false);
    ElementLineIsData(second, false);
    ElementLineRoundTrip(second, false, n + 1);
    assert ParseElementDataLine(Strip(line2), n + 1).value == second;
    ContinuationAppends(r1.state, r1.mesh, line2, n + 1);
    r2 := LineStep(r1.state, r1.mesh, line2, n + 1).value;
    var t := st.elementType;
    var before := r1.mesh.elements[t];
    assert r2.mesh.elements[t] == before[first[0] := before[first[0]] + second];
  }

  /** The first line of a two-line element stores the element and leaves it pending. */
  lemma FirstLineStored(st: ParseState, m: MeshData, first: seq<int>, n: int) returns (r1: Action)
    requires Consistent(st, m) && st.section == ElementSection && st.pending.None?
    requires 1 <= |first| <= 16
    ensures LineStep(st, m, ElementLine(first, true), n) == Success(r1)
    ensures r1.Proceed? && Consistent(r1.state, r1.mesh)
    ensures r1.state.section == ElementSection && r1.state.pending == Some(first[0])
    ensures r1.state.elementNumber == first[0] && r1.state.elementType == st.elementType
    ensures r1.mesh.elements[st.elementType][first[0]] == first[1..]
  {
    var line1 := ElementLine(first, true);
    ElementLineIsData(first, true);
    ElementLineRoundTrip(first, true, n);
    NewElementStored(st, m, line1, n);
    r1 := LineStep(st, m, line1, n).value;
  }

  // ---------------------------------------------------------------- element-set lines

  /**
   * A comma-less element-set line takes the bare-reference branch even when
   * GENERATE is pending, and leaves the flag as it is: a set name replaces the
   * target by that set, anything else must be an integer, which is added.
   */
  lemma BareReferenceStep(st: ParseState, m: MeshData, line: string, lineNum: int)
    requires Consistent(st, m) && st.section == ElementSetSection
    requires IsDataLine(Strip(line)) && ',' !in Strip(line)
    ensures var s := Strip(line);
      var r := LineStep(st, m, line, lineNum);
      && (Text(s) in m.sets ==> r == Success(Proceed(st, m.(sets := m.sets[st.elementSet := m.sets[Text(s)]]))))
      && (Text(s) !in m.sets && ParseInt(s).Some? ==>
            r == Success(Proceed(st, m.(sets := m.sets[st.elementSet := SetOf(m.sets, st.elementSet) + {ParseInt(s).value}]))))
      && (Text(s) !in m.sets && ParseInt(s).None? ==> r == Failure(ValueError(NotAnInteger(s))))
  {
    DataLineIsNotKeyword(Strip(line));
  }

  /**
   * With GENERATE pending, a line `start, end[, step]` whose fields read as
   * integers (the step 1 when omitted, and not 0) replaces the target set by
   * the inclusive range from start to end by step (whose members
   * RangeSetMembers describes); the flag is then cleared.
   */
  lemma GenerateReplaces(st: ParseState, m: MeshData, line: string, lineNum: int, start: int, end: int, step: int)
    requires Consistent(st, m) && st.section == ElementSetSection && st.generate
    requires IsDataLine(Strip(line)) && 2 <= |Split(Strip(line), ',')| <= 3
    requires GenerateBounds(Split(Strip(line), ',')) == Success((start, end, step)) && step != 0
    ensures LineStep(st, m, line, lineNum)
         == Success(Proceed(st.(generate := false), m.(sets := m.sets[st.elementSet := RangeSet(start, end + 1, step)])))
  {
    var s := Strip(line);
    assert ',' in s by {
      var parts := Split(s, ',');
      assert Join(parts, ',') == s;
      assert s == parts[0] + [','] + Join(parts[1..], ',');
    }
    DataLineDispatched(st, m, line, lineNum);
    assert SetStep(st, m, s, lineNum) == GenerateStep(st, m, s, lineNum);
    GenerateStepRange(st, m, s, lineNum, start, end, step);
  }

  /** The GENERATE branch on a line whose fields read as integers, the step not 0. */
  lemma GenerateStepRange(st: ParseState, m: MeshData, s: string, lineNum: int, start: int, end: int, step: int)
    requires 2 <= |Split(s, ',')| <= 3
    requires GenerateBounds(Split(s, ',')) == Success((start, end, step)) && step != 0
    ensures GenerateStep(st, m, s, lineNum)
         == Success(Proceed(st.(generate := false), m.(sets := m.sets[st.elementSet := RangeSet(start, end + 1, step)])))
  {
    assert GenerateStep(st, m, s, lineNum) == GenerateRange(st, m, start, end, step);
  }

  /** With GENERATE pending, a comma line of other than 2 or 3 fields raises ParserError naming it. */
  lemma GenerateFieldCountRejected(st: ParseState, m: MeshData, line: string, lineNum: int)
    requires Consistent(st, m) && st.section == ElementSetSection && st.generate
    requires IsDataLine(Strip(line)) && ',' in Strip(line)
    requires !(2 <= |Split(Strip(line), ',')| <= 3)
    ensures LineStep(st, m, line, lineNum) == Failure(ParserError(GenerateFieldCount, lineNum, Strip(line)))
  {
    DataLineIsNotKeyword(Strip(line));
  }

  /** A GENERATE step of 0 is Python's `range` ValueError. */
  lemma GenerateZeroStepRejected(st: ParseState, m: MeshData, line: string, lineNum: int)
    requires Consistent(st, m) && st.section == ElementSetSection && st.generate
    requires IsDataLine(Strip(line))
    requires var parts := Split(Strip(line), ',');
      && |parts| == 3
      && ParseInt(parts[0]).Some? && ParseInt(parts[1]).Some? && ParseInt(parts[2]) == Some(0)
    ensures LineStep(st, m, line, lineNum) == Failure(ValueError(ZeroRangeStep))
  {
    DataLineDispatched(st, m, line, lineNum);
    var parts := Split(Strip(line), ',');
    assert ',' in Strip(line) by {
      assert Strip(line) == parts[0] + [','] + Join(parts[1..], ',');
    }
  }

  /** What a list of fields contributes to the target when none of them names it: the union of the fields' contributions. */
  function ListContribution(sets: map<ParamValue, set<int>>, parts: seq<string>): set<int>
  {
    if parts == [] then {} else PartContribution(sets, parts[0]) + ListContribution(sets, parts[1..])
  }

  /** Each field names an existing set or spells an integer. */
  predicate AllResolve(sets: map<ParamValue, set<int>>, parts: seq<string>) {
    forall i :: 0 <= i < |parts| ==> Text(parts[i]) in sets || ParseInt(parts[i]).Some?
  }

  /** A change to the target alone does not change what fields that do not name the target contribute. */
  lemma {:induction false} ContributionFrame(sets: map<ParamValue, set<int>>, next: map<ParamValue, set<int>>, target: ParamValue, parts: seq<string>)
    requires next.Keys == sets.Keys + {target}
    requires forall k :: k in sets && k != target ==> next[k] == sets[k]
    requires forall i :: 0 <= i < |parts| ==> Text(parts[i]) != target
    ensures ListContribution(next, parts) == ListContribution(sets, parts)
    decreases |parts|
  {
    if parts != [] {
      ContributionFrame(sets, next, target, parts[1..]);
      assert forall i :: 1 <= i < |parts| ==> parts[1..][i - 1] == parts[i];
    }
  }

  /** Creating the target does not change which fields that do not name it resolve. */
  lemma ResolveFrame(sets: map<ParamValue, set<int>>, next: map<ParamValue, set<int>>, target: ParamValue, parts: seq<string>)
    requires next.Keys == sets.Keys + {target}
    requires forall i :: 0 <= i < |parts| ==> Text(parts[i]) != target
    ensures AllResolve(next, parts) <==> AllResolve(sets, parts)
  {
  }

  /**
   * The loop over a list line's fields, when the target already exists or no
   * field names it: on success the target holds its old members together with
   * every field's contribution, whether a named set was copied into an empty
   * target or unioned into a non-empty one; every other set is unchanged.
   */
  lemma AddSetPartsUnion(sets: map<ParamValue, set<int>>, target: ParamValue, parts: seq<string>)
    requires target in sets || forall i :: 0 <= i < |parts| ==> Text(parts[i]) != target
    ensures AddSetParts(sets, target, parts).Success? ==>
      var r := AddSetParts(sets, target, parts).value;
      && sets.Keys <= r.Keys <= sets.Keys + {target}
      && (forall k :: k in sets && k != target ==> r[k] == sets[k])
      && SetOf(r, target) == SetOf(sets, target) + ListContribution(sets, parts)
  {
    AddSetPartsFrame(sets, target, parts);
    if target in sets {
      ExistingTargetUnion(sets, target, parts);
    } else {
      UnreferencedTargetUnion(sets, target, parts);
    }
  }

  /** Whatever the fields, the loop touches no set but the target. */
  lemma {:induction false} AddSetPartsFrame(sets: map<ParamValue, set<int>>, target: ParamValue, parts: seq<string>)
    ensures AddSetParts(sets, target, parts).Success? ==>
      var r := AddSetParts(sets, target, parts).value;
      && sets.Keys <= r.Keys <= sets.Keys + {target}
      && (forall k :: k in sets && k != target ==> r[k] == sets[k])
    decreases |parts|
  {
    if parts != [] {
      var first := AddSetPart(sets, target, parts[0]);
      if first.Success? {
        assert AddSetParts(sets, target, parts) == AddSetParts(first.value, target, parts[1..]);
        AddSetPartsFrame(first.value, target, parts[1..]);
      }
    }
  }

  /** The union over the fields when none of them names the target. */
  lemma UnreferencedTargetUnion(sets: map<ParamValue, set<int>>, target: ParamValue, parts: seq<string>)
    requires forall i :: 0 <= i < |parts| ==> Text(parts[i]) != target
    ensures AddSetParts(sets, target, parts).Success? ==>
      SetOf(AddSetParts(sets, target, parts).value, target) == SetOf(sets, target) + ListContribution(sets, parts)
  {
    if parts != [] && AddSetPart(sets, target, parts[0]).Success? {
      var next := FirstFieldAdded(sets, target, parts);
      var rest := parts[1..];
      assert forall i :: 0 <= i < |rest| ==> Text(rest[i]) != target by {
        assert forall i :: 0 <= i < |rest| ==> rest[i] == parts[i + 1];
      }
      ExistingTargetUnion(next, target, rest);
      ContributionFrame(sets, next, target, rest);
      var r := AddSetParts(next, target, rest);
      if r.Success? {
        calc {
          SetOf(r.value, target);
          next[target] + ListContribution(next, rest);
          SetOf(sets, target) + PartContribution(sets, parts[0]) + ListContribution(sets, rest);
          SetOf(sets, target) + ListContribution(sets, parts);
        }
      }
    } else if parts != [] {
      assert AddSetParts(sets, target, parts).Failure?;
    }
  }

  /** The first field of a list line, once added, leaves the rest of the loop to the remaining fields. */
  lemma FirstFieldAdded(sets: map<ParamValue, set<int>>, target: ParamValue, parts: seq<string>) returns (next: map<ParamValue, set<int>>)
    requires parts != [] && AddSetPart(sets, target, parts[0]).Success?
    ensures next == AddSetPart(sets, target, parts[0]).value
    ensures next.Keys == sets.Keys + {target}
    ensures forall k :: k in sets && k != target ==> next[k] == sets[k]
    ensures next[target] == SetOf(sets, target) + PartContribution(sets, parts[0])
    ensures AddSetParts(sets, target, parts) == AddSetParts(next, target, parts[1..])
    ensures ListContribution(sets, parts) == PartContribution(sets, parts[0]) + ListContribution(sets, parts[1..])
  {
    next := AddSetPart(sets, target, parts[0]).value;
  }

  /** The loop over the fields succeeds exactly when every field resolves, when the target already exists or no field names it. */
  lemma AddSetPartsResolves(sets: map<ParamValue, set<int>>, target: ParamValue, parts: seq<string>)
    requires target in sets || forall i :: 0 <= i < |parts| ==> Text(parts[i]) != target
    ensures AddSetParts(sets, target, parts).Success? <==> AllResolve(sets, parts)
  {
    if target in sets {
      ExistingTargetResolves(sets, target, parts);
    } else {
      UnreferencedTargetResolves(sets, target, parts);
    }
  }

  /** Success of the loop over the fields when none of them names the target. */
  lemma UnreferencedTargetResolves(sets: map<ParamValue, set<int>>, target: ParamValue, parts: seq<string>)
    requires forall i :: 0 <= i < |parts| ==> Text(parts[i]) != target
    ensures AddSetParts(sets, target, parts).Success? <==> AllResolve(sets, parts)
  {
    if parts != [] {
      AllResolveCons(sets, parts);
      var first := AddSetPart(sets, target, parts[0]);
      if first.Failure? {
        assert AddSetParts(sets, target, parts).Failure?;
      } else {
        var next := first.value;
        var rest := parts[1..];
        assert forall i :: 0 <= i < |rest| ==> Text(rest[i]) != target by {
          assert forall i :: 0 <= i < |rest| ==> rest[i] == parts[i + 1];
        }
        assert AddSetParts(sets, target, parts) == AddSetParts(next, target, rest);
        ExistingTargetResolves(next, target, rest);
        ResolveFrame(sets, next, target, rest);
      }
    }
  }

  /**
   * Once the target exists, a field naming it contributes the target's
   * current members, which are already there: growing the target therefore
   * changes nothing the remaining fields add to it.
   */
  lemma {:induction false} ContributionAbsorbed(sets: map<ParamValue, set<int>>, next: map<ParamValue, set<int>>, target: ParamValue, parts: seq<string>)
    requires target in sets && next.Keys == sets.Keys && sets[target] <= next[target]
    requires forall k :: k in sets && k != target ==> next[k] == sets[k]
    ensures next[target] + ListContribution(next, parts) == next[target] + ListContribution(sets, parts)
    decreases |parts|
  {
    if parts != [] {
      ContributionAbsorbed(sets, next, target, parts[1..]);
      if Text(parts[0]) == target {
        assert PartContribution(next, parts[0]) == next[target];
        assert PartContribution(sets, parts[0]) == sets[target];
      } else {
        assert PartContribution(next, parts[0]) == PartContribution(sets, parts[0]);
      }
    }
  }

  /** The union over the fields when the target already exists, a field naming the target included. */
  lemma {:induction false} ExistingTargetUnion(sets: map<ParamValue, set<int>>, target: ParamValue, parts: seq<string>)
    requires target in sets
    ensures AddSetParts(sets, target, parts).Success? ==>
      var r := AddSetParts(sets, target, parts).value;
      && r.Keys == sets.Keys
      && (forall k :: k in sets && k != target ==> r[k] == sets[k])
      && r[target] == sets[target] + ListContribution(sets, parts)
    decreases |parts|
  {
    if parts != [] {
      var first := AddSetPart(sets, target, parts[0]);
      if first.Success? {
        var next := first.value;
        assert next[target] == sets[target] + PartContribution(sets, parts[0]);
        assert AddSetParts(sets, target, parts) == AddSetParts(next, target, parts[1..]);
        ExistingTargetUnion(next, target, parts[1..]);
        ContributionAbsorbed(sets, next, target, parts[1..]);
        var r := AddSetParts(next, target, parts[1..]);
        if r.Success? {
          assert ListContribution(sets, parts) == PartContribution(sets, parts[0]) + ListContribution(sets, parts[1..]);
          assert r.value[target] == next[target] + ListContribution(next, parts[1..]);
        }
      }
    }
  }

  /** Success of the loop over the fields when the target already exists: the set of names never changes. */
  lemma {:induction false} ExistingTargetResolves(sets: map<ParamValue, set<int>>, target: ParamValue, parts: seq<string>)
    requires target in sets
    ensures AddSetParts(sets, target, parts).Success? <==> AllResolve(sets, parts)
    decreases |parts|
  {
    if parts != [] {
      AllResolveCons(sets, parts);
      var first := AddSetPart(sets, target, parts[0]);
      if first.Success? {
        var next := first.value;
        assert AddSetParts(sets, target, parts) == AddSetParts(next, target, parts[1..]);
        ExistingTargetResolves(next, target, parts[1..]);
        assert AllResolve(next, parts[1..]) <==> AllResolve(sets, parts[1..]);
      }
    }
  }

  /**
   * The one list line left out above: a field naming a target that does not
   * exist yet resolves once an earlier integer field has created it, so the
   * loop succeeds although that field named no set when the line began.
   */
  lemma FreshTargetSelfReference()
    ensures var r := AddSetParts(map[], Text("A"), ["1", "A"]);
      && !AllResolve(map[], ["1", "A"])
      && r == Success(map[Text("A") := {1}])
  {
    var none: map<ParamValue, set<int>> := map[];
    var parts := ["1", "A"];
    var one := map[Text("A") := {1}];
    assert ParseInt("1") == Some(1) by { ParseShowInt(1); assert ShowInt(1) == "1"; }
    assert AddSetPart(none, Text("A"), "1") == Success(one) by {
      assert Text("1") !in none;
      assert IntOf("1") == Success(1);
      var added := AddToSet(none, Text("A"), 1);
      assert added.Keys == one.Keys && added[Text("A")] == one[Text("A")];
      assert added == one;
    }
    assert AddSetPart(one, Text("A"), "A") == Success(one) by {
      assert Text("A") in one && |SetOf(one, Text("A"))| == 1;
      assert SetOf(one, Text("A")) + one[Text("A")] == {1};
      assert one[Text("A") := {1}] == one;
    }
    assert AddSetParts(none, Text("A"), parts) == AddSetParts(one, Text("A"), ["A"]);
    assert AddSetParts(one, Text("A"), ["A"]) == AddSetParts(one, Text("A"), []);
    assert ParseInt(parts[1]).None? && Text(parts[1]) !in none;
  }

  lemma AllResolveCons(sets: map<ParamValue, set<int>>, parts: seq<string>)
    requires parts != []
    ensures AllResolve(sets, parts) <==> (Text(parts[0]) in sets || ParseInt(parts[0]).Some?) && AllResolve(sets, parts[1..])
  {
    assert forall i :: 1 <= i < |parts| ==> parts[1..][i - 1] == parts[i];
  }

  /**
   * A list line outside GENERATE: its fields, after a trailing comma's empty
   * one is dropped, are all added to the target set, provided the target
   * already exists or none of them names it; nothing else changes.
   */
  lemma ListLineAdds(st: ParseState, m: MeshData, line: string, lineNum: int)
    requires Consistent(st, m) && st.section == ElementSetSection && !st.generate
    requires IsDataLine(Strip(line)) && ',' in Strip(line)
    requires st.elementSet in m.sets || forall i :: 0 <= i < |DataFields(Strip(line))| ==> Text(DataFields(Strip(line))[i]) != st.elementSet
    ensures var fields := DataFields(Strip(line));
      var r := LineStep(st, m, line, lineNum);
      && (r.Success? <==> AllResolve(m.sets, fields))
      && (r.Success? ==>
            && r.value.Proceed? && r.value.state == st
            && r.value.mesh.nodes == m.nodes && r.value.mesh.elements == m.elements
            && m.sets.Keys <= r.value.mesh.sets.Keys <= m.sets.Keys + {st.elementSet}
            && (forall k :: k in m.sets && k != st.elementSet ==> r.value.mesh.sets[k] == m.sets[k])
            && SetOf(r.value.mesh.sets, st.elementSet) == SetOf(m.sets, st.elementSet) + ListContribution(m.sets, fields))
  {
    DataLineDispatched(st, m, line, lineNum);
    assert LineStep(st, m, line, lineNum) == ListSetStep(st, m, Strip(line));
    AddSetPartsResolves(m.sets, st.elementSet, DataFields(Strip(line)));
    AddSetPartsUnion(m.sets, st.elementSet, DataFields(Strip(line)));
  }

  /** A written element line is its own stripped form and a data line. */
  lemma ElementLineIsData(values: seq<int>, continued: bool)
    requires 1 <= |values|
    ensures Strip(ElementLine(values, continued)) == ElementLine(values, continued)
    ensures IsDataLine(ElementLine(values, continued))
    ensures EndsWith(ElementLine(values, continued), ",") <==> continued
  {
    var shown := ShowAll(values);
    var joined := Join(shown, ',');
    var line := ElementLine(values, continued);
    assert joined[0] == shown[0][0];
    ShowIntFirst(values[0]);
    if !continued {
      JoinLast(shown, ',');
      var last := shown[|shown| - 1];
      assert line[|line| - 1] == last[|last| - 1];
      assert last[|last| - 1] in last;
    }
  }

  /** A written integer starts with a sign or a digit. */
  lemma ShowIntFirst(n: int)
    ensures ShowInt(n)[0] == '-' || IsDigit(ShowInt(n)[0])
  {
    if n >= 0 {
      assert IsDigit(ShowNat(n)[0]);
    }
  }
}
