/**
 * The line-level helpers of ccxmeshreader/read_mesh.py: classifying a
 * stripped line, reading keyword parameters, and parsing node and element
 * data lines. Everything here is a pure function of one line, except
 * ParseKeywordLine, which fills its dictionary in a loop as the source does.
 */
module MeshLines {
  import opened Results
  import opened Strings
  import opened Errors
  import opened MessageFormat

  /** A keyword parameter's value: the text after `=`, or Python's `True` for a bare flag. */
  datatype ParamValue = Text(text: string) | Flag

  /** Python truthiness of a parameter value: `''` is false, `True` and any other text are true. */
  predicate Truthy(v: ParamValue) {
    v.Flag? || v.text != ""
  }

  /** `strip_parts`: every field with its surrounding whitespace removed. */
  function StripParts(parts: seq<string>): (r: seq<string>)
    ensures |r| == |parts|
    ensures forall i :: 0 <= i < |parts| ==> r[i] == Strip(parts[i])
  {
    if parts == [] then [] else [Strip(parts[0])] + StripParts(parts[1..])
  }

  // ---------------------------------------------------------------- classification

  /** `is_comment`, applied to the stripped line in its original case. */
  predicate IsComment(strippedLine: string) {
    StartsWith(strippedLine, "**")
  }

  /** `is_keyword`, applied to the upper-cased stripped line. */
  predicate IsKeyword(upperLine: string) {
    StartsWith(upperLine, "*") && !IsComment(upperLine)
  }

  predicate IsNodeDefinition(upperLine: string) {
    StartsWith(upperLine, "*NODE")
    && !(StartsWith(upperLine, "*NODE FILE") || StartsWith(upperLine, "*NODE OUTPUT") || StartsWith(upperLine, "*NODE PRINT"))
  }

  predicate IsElementDefinition(upperLine: string) {
    StartsWith(upperLine, "*ELEMENT") && !StartsWith(upperLine, "*ELEMENT OUTPUT")
  }

  predicate IsElementSetDefinition(upperLine: string) {
    StartsWith(upperLine, "*ELSET")
  }

  /** `is_keyword_with_data`: one of the three section predicates holds. */
  predicate IsKeywordWithData(upperLine: string) {
    IsNodeDefinition(upperLine) || IsElementDefinition(upperLine) || IsElementSetDefinition(upperLine)
  }

  /** The keys of `get_predicate_by_data_type`, in its order. */
  datatype DataType = NodeData | ElementData | ElementSetData

  /** `get_data_type`: the first section predicate that holds, or `None`. */
  function GetDataType(upperLine: string): (r: Option<DataType>)
    ensures r.Some? <==> IsKeywordWithData(upperLine)
    ensures r == Some(NodeData) <==> IsNodeDefinition(upperLine)
    ensures r == Some(ElementData) <==> IsElementDefinition(upperLine)
    ensures r == Some(ElementSetData) <==> IsElementSetDefinition(upperLine)
  {
    SectionKeywordsExclusive(upperLine);
    if IsNodeDefinition(upperLine) then Some(NodeData)
    else if IsElementDefinition(upperLine) then Some(ElementData)
    else if IsElementSetDefinition(upperLine) then Some(ElementSetData)
    else None
  }

  /**
   * At most one section predicate holds of a line, each of them implies the
   * line is a keyword, and a keyword line is never a comment.
   */
  lemma SectionKeywordsExclusive(upperLine: string)
    ensures !(IsNodeDefinition(upperLine) && IsElementDefinition(upperLine))
    ensures !(IsNodeDefinition(upperLine) && IsElementSetDefinition(upperLine))
    ensures !(IsElementDefinition(upperLine) && IsElementSetDefinition(upperLine))
    ensures IsKeywordWithData(upperLine) ==> IsKeyword(upperLine)
  {
    if IsNodeDefinition(upperLine) {
      assert upperLine[1] == 'N';
    }
    if IsElementDefinition(upperLine) {
      assert upperLine[1] == 'E' && upperLine[3] == 'E';
    }
    if IsElementSetDefinition(upperLine) {
      assert upperLine[1] == 'E' && upperLine[3] == 'S';
    }
  }

  /** Upper-casing changes no asterisk, so a line is a comment exactly when its upper-cased form is. */
  lemma CommentIgnoresCase(strippedLine: string)
    ensures IsComment(Upper(strippedLine)) == IsComment(strippedLine)
  {
    if |strippedLine| >= 2 {
      assert Upper(strippedLine)[..2] == [ToUpper(strippedLine[0]), ToUpper(strippedLine[1])];
      assert strippedLine[..2] == [strippedLine[0], strippedLine[1]];
    }
  }

  // ---------------------------------------------------------------- keyword parameters

  /** The key a parameter field is stored under: the stripped text before `=`, or the whole, unstripped field for a bare flag. */
  function FieldKey(field: string): string
  {
    if '=' in field then Strip(Split(field, '=')[0]) else field
  }

  /** The value a parameter field stores: the stripped text after `=`, or `True` for a bare flag. */
  function FieldValue(field: string): ParamValue
  {
    if '=' in field then Text(Strip(Split(field, '=')[1])) else Flag
  }

  /** `key, value = part.split('=')` succeeds only when the field holds exactly one `=`. */
  predicate Unpacks(field: string) {
    '=' !in field || |Split(field, '=')| == 2
  }

  /** The loop of `parse_keyword_line` over the fields after the keyword, from a given dictionary. */
  function AddParams(fields: seq<string>, params: map<string, ParamValue>): (r: Result<map<string, ParamValue>, Error>)
    ensures r.Success? <==> forall i :: 0 <= i < |fields| ==> Unpacks(fields[i])
    ensures r.Failure? ==> r.error.ValueError? && r.error.cause.UnpackParameter?
    decreases |fields|
  {
    if fields == [] then Success(params)
    else if !Unpacks(fields[0]) then Failure(ValueError(UnpackParameter(fields[0])))
    else AddParams(fields[1..], params[FieldKey(fields[0]) := FieldValue(fields[0])])
  }

  /** No field after position `i` has the key of field `i`. */
  predicate LastWithKey(fields: seq<string>, i: int) {
    0 <= i < |fields| && forall j :: i < j < |fields| ==> FieldKey(fields[j]) != FieldKey(fields[i])
  }

  /** The keys of the dictionary the loop builds: the keys it started with and the fields' keys. */
  lemma {:induction false} AddParamsKeys(fields: seq<string>, params: map<string, ParamValue>)
    requires AddParams(fields, params).Success?
    ensures forall k :: k in AddParams(fields, params).value <==>
      k in params || exists i :: 0 <= i < |fields| && FieldKey(fields[i]) == k
    decreases |fields|
  {
    if fields != [] {
      var rest := fields[1..];
      var next := params[FieldKey(fields[0]) := FieldValue(fields[0])];
      AddParamsKeys(rest, next);
      forall k ensures k in AddParams(fields, params).value <==>
        k in params || exists i :: 0 <= i < |fields| && FieldKey(fields[i]) == k
      {
        if exists i :: 0 <= i < |rest| && FieldKey(rest[i]) == k {
          var i :| 0 <= i < |rest| && FieldKey(rest[i]) == k;
          assert fields[i + 1] == rest[i];
        }
        if exists i :: 0 <= i < |fields| && FieldKey(fields[i]) == k {
          var i :| 0 <= i < |fields| && FieldKey(fields[i]) == k;
          if i > 0 {
            assert rest[i - 1] == fields[i];
          }
        }
      }
    }
  }

  /** A starting entry whose key no field has is kept. */
  lemma {:induction false} AddParamsKeeps(fields: seq<string>, params: map<string, ParamValue>, k: string)
    requires AddParams(fields, params).Success?
    requires k in params && forall i :: 0 <= i < |fields| ==> FieldKey(fields[i]) != k
    ensures k in AddParams(fields, params).value && AddParams(fields, params).value[k] == params[k]
    decreases |fields|
  {
    if fields != [] {
      var rest := fields[1..];
      assert FieldKey(fields[0]) != k;
      forall j | 0 <= j < |rest| ensures FieldKey(rest[j]) != k {
        assert rest[j] == fields[j + 1];
      }
      AddParamsKeeps(rest, params[FieldKey(fields[0]) := FieldValue(fields[0])], k);
    }
  }

  /** Each field's value is stored under its key unless a later field has the same key: the last one wins. */
  lemma {:induction false} AddParamsLastWins(fields: seq<string>, params: map<string, ParamValue>, i: int)
    requires AddParams(fields, params).Success? && LastWithKey(fields, i)
    ensures FieldKey(fields[i]) in AddParams(fields, params).value
    ensures AddParams(fields, params).value[FieldKey(fields[i])] == FieldValue(fields[i])
    decreases |fields|
  {
    var f := fields[0];
    var rest := fields[1..];
    var next := params[FieldKey(f) := FieldValue(f)];
    if i == 0 {
      forall j | 0 <= j < |rest| ensures FieldKey(rest[j]) != FieldKey(f) {
        assert rest[j] == fields[j + 1];
      }
      AddParamsKeeps(rest, next, FieldKey(f));
    } else {
      assert rest[i - 1] == fields[i];
      assert LastWithKey(rest, i - 1) by {
        forall j | i - 1 < j < |rest| ensures FieldKey(rest[j]) != FieldKey(rest[i - 1]) {
          assert rest[j] == fields[j + 1];
        }
      }
      AddParamsLastWins(rest, next, i - 1);
    }
  }

  /** `parse_keyword_line` as a function: the keyword and its parameter dictionary. */
  function KeywordLine(line: string): (r: Result<(string, map<string, ParamValue>), Error>)
    ensures ',' !in line ==> r == Success((line, map[]))
  {
    if ',' !in line then Success((line, map[]))
    else
      var parts := Split(line, ',');
      var params := AddParams(parts[1..], map[]);
      if params.Failure? then Failure(params.error) else Success((parts[0], params.value))
  }

  /**
   * With a comma, the keyword is the text before the first comma, and the line
   * is accepted exactly when every later field unpacks.
   */
  lemma KeywordLineSplits(line: string)
    requires ',' in line
    ensures KeywordLine(line).Success? ==> KeywordLine(line).value.0 == line[..IndexOf(line, ',')]
    ensures KeywordLine(line).Success? <==> forall i :: 1 <= i < |Split(line, ',')| ==> Unpacks(Split(line, ',')[i])
  {
    var parts := Split(line, ',');
    var fields := parts[1..];
    if KeywordLine(line).Success? {
      forall i | 1 <= i < |parts| ensures Unpacks(parts[i]) {
        assert parts[i] == fields[i - 1];
      }
    } else {
      var j :| 0 <= j < |fields| && !Unpacks(fields[j]);
      assert fields[j] == parts[j + 1];
    }
  }

  /** With a comma, the dictionary's keys are exactly the keys of the fields after the keyword. */
  lemma KeywordLineKeys(line: string)
    requires ',' in line && KeywordLine(line).Success?
    ensures forall k :: k in KeywordLine(line).value.1 <==>
      exists j :: 1 <= j < |Split(line, ',')| && FieldKey(Split(line, ',')[j]) == k
  {
    var parts := Split(line, ',');
    var fields := parts[1..];
    AddParamsKeys(fields, map[]);
    var params := KeywordLine(line).value.1;
    assert params == AddParams(fields, map[]).value;
    forall k ensures k in params <==> exists j :: 1 <= j < |parts| && FieldKey(parts[j]) == k
    {
      if exists j :: 0 <= j < |fields| && FieldKey(fields[j]) == k {
        var j :| 0 <= j < |fields| && FieldKey(fields[j]) == k;
        assert parts[j + 1] == fields[j];
      }
      if exists j :: 1 <= j < |parts| && FieldKey(parts[j]) == k {
        var j :| 1 <= j < |parts| && FieldKey(parts[j]) == k;
        assert fields[j - 1] == parts[j];
      }
    }
  }

  /**
   * With a comma, each key holds the value of the last field that has it:
   * the stripped text after `=`, or `True` for a bare field.
   */
  lemma KeywordLineValue(line: string, i: int)
    requires ',' in line && KeywordLine(line).Success?
    requires 1 <= i < |Split(line, ',')| && LastWithKey(Split(line, ',')[1..], i - 1)
    ensures FieldKey(Split(line, ',')[i]) in KeywordLine(line).value.1
    ensures KeywordLine(line).value.1[FieldKey(Split(line, ',')[i])] == FieldValue(Split(line, ',')[i])
  {
    var parts := Split(line, ',');
    var fields := parts[1..];
    AddParamsLastWins(fields, map[], i - 1);
    assert fields[i - 1] == parts[i];
  }

  /** `parse_keyword_line`, filling the dictionary field by field as the source's loop does. */
  method ParseKeywordLine(line: string) returns (r: Result<(string, map<string, ParamValue>), Error>)
    ensures r == KeywordLine(line)
  {
    if ',' !in line {
      return Success((line, map[]));
    }
    var parts := Split(line, ',');
    var keyword := parts[0];
    var remaining := parts[1..];
    var parameters: map<string, ParamValue> := map[];
    for i := 0 to |remaining|
      invariant AddParams(remaining, map[]) == AddParams(remaining[i..], parameters)
    {
      var part := remaining[i];
      assert remaining[i..][1..] == remaining[i + 1..];
      if '=' in part {
        var pieces := StripParts(Split(part, '='));
        if |pieces| != 2 {
          return Failure(ValueError(UnpackParameter(part)));
        }
        parameters := parameters[pieces[0] := Text(pieces[1])];
      } else {
        parameters := parameters[part := Flag];
      }
    }
    assert remaining[|remaining|..] == [];
    return Success((keyword, parameters));
  }

  // ---------------------------------------------------------------- data lines

  /** The three coordinates of a node. */
  datatype Coordinates = Coordinates(x: real, y: real, z: real)

  /**
   * The four stripped fields of a node line read as an `int` and three
   * `float`s, raising ValueError at the first field, in order, that does not
   * parse. Both readers share this step.
   */
  function ParseNodeFields(p: seq<string>): (r: Result<(int, Coordinates), Error>)
    requires |p| == 4
    ensures r.Success? <==>
      ParseInt(p[0]).Some? && ParseFloat(p[1]).Some? && ParseFloat(p[2]).Some? && ParseFloat(p[3]).Some?
    ensures r.Success? ==>
      && ParseInt(p[0]) == Some(r.value.0)
      && ParseFloat(p[1]) == Some(r.value.1.x)
      && ParseFloat(p[2]) == Some(r.value.1.y)
      && ParseFloat(p[3]) == Some(r.value.1.z)
    ensures r.Failure? ==> r.error.ValueError? && (r.error.cause.NotAnInteger? || r.error.cause.NotAFloat?)
  {
    var number := ParseInt(p[0]);
    var x := ParseFloat(p[1]);
    var y := ParseFloat(p[2]);
    var z := ParseFloat(p[3]);
    if number.None? then Failure(ValueError(NotAnInteger(p[0])))
    else if x.None? then Failure(ValueError(NotAFloat(p[1])))
    else if y.None? then Failure(ValueError(NotAFloat(p[2])))
    else if z.None? then Failure(ValueError(NotAFloat(p[3])))
    else Success((number.value, Coordinates(x.value, y.value, z.value)))
  }

  /**
   * `parse_node_data_line` of read_mesh.py: a line that does not split into
   * exactly four comma fields raises ParserError naming the line; otherwise
   * the stripped fields are read by ParseNodeFields.
   */
  function ParseNodeDataLine(line: string, lineNum: int): (r: Result<(int, Coordinates), Error>)
    ensures |Split(line, ',')| != 4 <==> r == Failure(ParserError(NodeFieldCount, lineNum, line))
    ensures |Split(line, ',')| == 4 ==> r == ParseNodeFields(StripParts(Split(line, ',')))
  {
    var parts := Split(line, ',');
    if |parts| != 4 then Failure(ParserError(NodeFieldCount, lineNum, line))
    else ParseNodeFields(StripParts(parts))
  }

  /** The comma fields of a data line, without the empty last one a trailing comma leaves. */
  function DataFields(line: string): (fields: seq<string>)
    ensures |fields| >= 1
  {
    var parts := Split(line, ',');
    if EndsWith(line, ",") then
      assert line[|line| - 1] == ',';
      parts[..|parts| - 1]
    else parts
  }

  /** `int(part.strip() or 0)`: an empty field reads as 0. */
  function IntOrZero(part: string): Option<int>
  {
    var t := Strip(part);
    if t == "" then Some(0) else ParseInt(t)
  }

  /** The list comprehension of `parse_element_data_line`, raising at the first field that is not an integer. */
  function IntsOrZero(parts: seq<string>): (r: Result<seq<int>, Error>)
    ensures r.Success? <==> forall i :: 0 <= i < |parts| ==> IntOrZero(parts[i]).Some?
    ensures r.Success? ==> |r.value| == |parts| && forall i :: 0 <= i < |parts| ==> IntOrZero(parts[i]) == Some(r.value[i])
    ensures r.Failure? ==> r.error.ValueError? && r.error.cause.NotAnInteger?
    decreases |parts|
  {
    if parts == [] then Success([])
    else
      var first := IntOrZero(parts[0]);
      if first.None? then Failure(ValueError(NotAnInteger(Strip(parts[0]))))
      else
        var rest :- IntsOrZero(parts[1..]);
        assert forall i :: 1 <= i < |parts| ==> parts[i] == parts[1..][i - 1];
        Success([first.value] + rest)
  }

  /**
   * `parse_element_data_line` of read_mesh.py: at most 16 fields once a
   * trailing comma's empty field is dropped (more raise ValueError), each
   * read as an integer, an empty one as 0, in order.
   */
  function ParseElementDataLine(line: string, lineNum: int): (r: Result<seq<int>, Error>)
    ensures |DataFields(line)| > 16 ==> r == Failure(FormattedRaise(ValueError(ElementFieldLimit(lineNum, line)), line))
    ensures r.Success? <==> |DataFields(line)| <= 16 && forall i :: 0 <= i < |DataFields(line)| ==> IntOrZero(DataFields(line)[i]).Some?
    ensures r.Success? ==>
      && 1 <= |r.value| == |DataFields(line)| <= 16
      && forall i :: 0 <= i < |r.value| ==> IntOrZero(DataFields(line)[i]) == Some(r.value[i])
  {
    var fields := DataFields(line);
    if |fields| > 16 then Failure(FormattedRaise(ValueError(ElementFieldLimit(lineNum, line)), line))
    else IntsOrZero(fields)
  }

  // ---------------------------------------------------------------- writing lines back

  function ShowAll(values: seq<int>): (r: seq<string>)
    ensures |r| == |values|
    ensures forall i :: 0 <= i < |values| ==> r[i] == ShowInt(values[i])
  {
    if values == [] then [] else [ShowInt(values[0])] + ShowAll(values[1..])
  }

  /** An element record written out: its integers comma-separated, with a trailing comma when the next line continues it. */
  function ElementLine(values: seq<int>, continued: bool): string
  {
    Join(ShowAll(values), ',') + if continued then "," else ""
  }

  lemma {:induction false} JoinSnoc(fields: seq<string>, f: string, sep: char)
    requires |fields| >= 1
    ensures Join(fields + [f], sep) == Join(fields, sep) + [sep] + f
    decreases |fields|
  {
    if |fields| > 1 {
      assert (fields + [f])[1..] == fields[1..] + [f];
      JoinSnoc(fields[1..], f, sep);
    }
  }

  lemma JoinTrailingEmpty(fields: seq<string>, sep: char)
    requires |fields| >= 1
    ensures Join(fields + [""], sep) == Join(fields, sep) + [sep]
  {
    JoinSnoc(fields, "", sep);
  }

  /** A trailing separator splits off one empty last field. */
  lemma SplitTrailing(fields: seq<string>, sep: char)
    requires |fields| >= 1
    requires forall i :: 0 <= i < |fields| ==> sep !in fields[i]
    ensures Split(Join(fields, sep) + [sep], sep) == fields + [""]
  {
    JoinTrailingEmpty(fields, sep);
    assert forall i :: 0 <= i < |fields + [""]| ==> sep !in (fields + [""])[i];
    SplitJoin(fields + [""], sep);
  }

  /** A joined line ends with the last character of its last field. */
  lemma {:induction false} JoinLast(fields: seq<string>, sep: char)
    requires |fields| >= 1 && fields[|fields| - 1] != []
    ensures |Join(fields, sep)| >= 1
    ensures Join(fields, sep)[|Join(fields, sep)| - 1] == fields[|fields| - 1][|fields[|fields| - 1]| - 1]
    decreases |fields|
  {
    if |fields| > 1 {
      JoinLast(fields[1..], sep);
    }
  }

  /** With a trailing comma the record's fields are split back out, and the empty last field dropped. */
  lemma DataFieldsContinued(values: seq<int>)
    requires |values| >= 1
    ensures DataFields(ElementLine(values, true)) == ShowAll(values)
  {
    var shown := ShowAll(values);
    var line := Join(shown, ',') + [','];
    assert ElementLine(values, true) == line;
    assert EndsWith(line, ",") by {
      assert line[|line| - 1] == ',';
    }
    assert Split(line, ',') == shown + [""] by {
      SplitTrailing(shown, ',');
    }
    assert (shown + [""])[..|shown|] == shown;
  }

  /** Without a trailing comma the line ends in a digit, so every field is kept. */
  lemma DataFieldsComplete(values: seq<int>)
    requires |values| >= 1
    ensures DataFields(ElementLine(values, false)) == ShowAll(values)
  {
    var shown := ShowAll(values);
    var line := Join(shown, ',');
    assert ElementLine(values, false) == line;
    SplitJoin(shown, ',');
    var last := shown[|shown| - 1];
    JoinLast(shown, ',');
    assert last[|last| - 1] in last;
    assert !EndsWith(line, ",");
  }

  /** Every written integer reads back as itself. */
  lemma ShowAllReadsBack(values: seq<int>)
    ensures IntsOrZero(ShowAll(values)) == Success(values)
  {
    var shown := ShowAll(values);
    forall i | 0 <= i < |values| ensures IntOrZero(shown[i]) == Some(values[i]) {
      ParseShowInt(values[i]);
    }
    var r := IntsOrZero(shown);
    assert r.Success?;
    assert forall i :: 0 <= i < |values| ==> r.value[i] == values[i];
    assert r.value == values;
  }

  /** Writing an element record and parsing it back gives the same integers, with or without a trailing comma. */
  lemma ElementLineRoundTrip(values: seq<int>, continued: bool, lineNum: int)
    requires 1 <= |values| <= 16
    ensures ParseElementDataLine(ElementLine(values, continued), lineNum) == Success(values)
  {
    var line := ElementLine(values, continued);
    if continued {
      DataFieldsContinued(values);
    } else {
      DataFieldsComplete(values);
    }
    ShowAllReadsBack(values);
    assert ParseElementDataLine(line, lineNum) == IntsOrZero(DataFields(line));
  }

  /** A node line written with integer coordinates. */
  function NodeLine(number: int, x: int, y: int, z: int): string
  {
    Join([ShowInt(number), ShowInt(x), ShowInt(y), ShowInt(z)], ',')
  }

  /** Writing a node line and parsing it back gives the node number and its coordinates. */
  lemma NodeLineRoundTrip(number: int, x: int, y: int, z: int, lineNum: int)
    ensures ParseNodeDataLine(NodeLine(number, x, y, z), lineNum)
         == Success((number, Coordinates(x as real, y as real, z as real)))
  {
    var fields := [ShowInt(number), ShowInt(x), ShowInt(y), ShowInt(z)];
    SplitJoin(fields, ',');
    ParseShowInt(number);
    ParseFloatShowInt(x);
    ParseFloatShowInt(y);
    ParseFloatShowInt(z);
  }
}
