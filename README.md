# ccxmeshreader in Dafny

A verified model of the two CalculiX `.inp` readers of ccxmeshreader:

- `read_mesh` (ccxmeshreader/read_mesh.py). It reads a CalculiX input file one
  line at a time and builds three dictionaries:
  - node coordinates by node number;
  - element node lists by element type, then by element number;
  - element sets by name.

  It understands `*NODE`, `*ELEMENT` (with `TYPE`, `ELSET` and continuation
  lines), `*ELSET` (bare references, `GENERATE` ranges and lists) and
  `*INCLUDE`.
- `read_inp` (ccxinpreader/read_inp.py). This older reader handles only node
  and element sections and upper-cases whole lines.

Each reader is specified by two functions:

- a step function gives the effect of one line on the parse state and the result
  maps (`MeshReader.LineStep`, `InpReader.InpLineStep`);
- a run function folds the step over the file (`MeshReader.Run` over a cursor
  that splices in included files, `InpReader.RunInp` over a line sequence).

The source's `while` loops become `method`s (`MeshReader.ReadMesh`,
`InpReader.ReadInp`). Each drives a class whose fields are the loop's locals
and the result dictionaries (`MeshReader.LineInterpreter`,
`InpReader.InpInterpreter`), and each is proved to return exactly what the run
function gives. The lemmas state what the source promises about one line and
about whole files.

Several error messages paste the offending line into a template and then
format the result, so a brace in the line can make the formatting raise
first; `MessageFormat` models which exception is then raised.

Files:
- `results.dfy`: Option and Result.
- `errors.dfy`: the exceptions raised; results up to the line number an error names.
- `strings.dfy`: `strip`, `upper`, `split`, `int()`, `float()`.
- `mesh_lines.dfy`: the line helpers shared by both readers.
- `mesh_reader.dfy`: `read_mesh` itself.
- `mesh_properties.dfy`: what one line does in `read_mesh`.
- `mesh_runs.dfy`: whole runs of `read_mesh`.
- `inp_reader.dfy`: `read_inp` itself.
- `inp_properties.dfy`: properties of `read_inp` and how it differs from `read_mesh`.

Conventions:
- Files are sequences of lines.
- Included files form a map from the `INPUT` text to their lines.
- Python's `True` as a keyword parameter value is `ParamValue.Flag`.
- Coordinates are exact decimal numbers.

## Model

| member | source | states |
|---|---|---|
| Strings.Strip | ccxmeshreader/read_mesh.py:68 | the result has no surrounding whitespace, is the input when that had none, and is empty exactly when the input is all whitespace |
| Strings.StripRemovesSurroundings | ccxmeshreader/read_mesh.py:68 | the result is a contiguous run of the input with only whitespace before and after it, i.e. the input less its leading and trailing whitespace |
| Strings.StripUpper | ccxinpreader/read_inp.py:101-109 | stripping then upper-casing equals upper-casing then stripping |
| Strings.Split | ccxmeshreader/read_mesh.py:338 | `str.split` with a one-character separator: at least one field, two once the separator occurs, no field holds it, and joining the fields gives back the line |
| Strings.SplitJoin | ccxmeshreader/read_mesh.py:338 | splitting a joined line gives back fields that hold no separator |
| Strings.ParseShowInt | ccxmeshreader/read_mesh.py:220 | `int(str(n)) == n` |
| Strings.ParseFloatShowInt | ccxmeshreader/read_mesh.py:198-202 | `float(str(n))` is n |
| MeshLines.StripParts | ccxmeshreader/read_mesh.py:223-231 | same length, each field stripped |
| MeshLines.GetDataType | ccxmeshreader/read_mesh.py:311-323 | the data type is present exactly when a section predicate holds, and it is node, element or element_set exactly when the matching predicate holds |
| MeshLines.SectionKeywordsExclusive | ccxmeshreader/read_mesh.py:234-308 | at most one of the node, element and element-set predicates holds, and each implies the line is a keyword |
| MeshLines.CommentIgnoresCase | ccxmeshreader/read_mesh.py:249-258 | a stripped line is a comment exactly when its upper-cased form is one |
| MeshLines.AddParamsKeys | ccxmeshreader/read_mesh.py:341-346 | the loop over the fields succeeds exactly when every `=` field unpacks, and the keys are the starting keys plus the fields' keys |
| MeshLines.AddParamsKeeps | ccxmeshreader/read_mesh.py:341-346 | a starting entry no field mentions survives the loop |
| MeshLines.AddParamsLastWins | ccxmeshreader/read_mesh.py:341-346 | each key holds the value of the last field with that key |
| MeshLines.KeywordLineSplits | ccxmeshreader/read_mesh.py:335-340 | without a comma the line is the keyword and there are no parameters; with one the keyword is the text before the first comma, and the line is accepted exactly when every later field unpacks |
| MeshLines.KeywordLineKeys | ccxmeshreader/read_mesh.py:338-346 | the parameter keys are exactly the keys of the fields after the keyword |
| MeshLines.KeywordLineValue | ccxmeshreader/read_mesh.py:342-346 | the value under a key is the last such field's stripped text after `=`, or True for a bare field |
| MeshLines.ParseKeywordLine | ccxmeshreader/read_mesh.py:326-347 | the field-by-field loop returns what KeywordLine specifies |
| MeshLines.ParseNodeFields | ccxmeshreader/read_mesh.py:196-202 | succeeds exactly when the first field is an int and the other three are floats, returning those values; otherwise ValueError |
| MeshLines.ParseNodeDataLine | ccxmeshreader/read_mesh.py:181-202 | other than four comma fields raises ParserError naming the line number and line |
| MeshLines.IntsOrZero | ccxmeshreader/read_mesh.py:220 | succeeds exactly when every field is an int or blank, and each value is that int or 0 |
| MeshLines.ParseElementDataLine | ccxmeshreader/read_mesh.py:205-220 | more than 16 fields, after dropping a trailing comma's empty one, is ValueError naming the line unless formatting the message first raises on a `{` or `}` in the line (MessageFormat.FormattedRaise); otherwise one int per field, blank as 0 |
| MeshLines.ElementLineRoundTrip | ccxmeshreader/read_mesh.py:205-220 | an element record written out, with or without a trailing comma, parses back to the same integers |
| MeshLines.NodeLineRoundTrip | ccxmeshreader/read_mesh.py:181-202 | a node line written out parses back to its number and coordinates |
| MeshReader.Closed | ccxmeshreader/read_mesh.py:72-77 | closing resets the section, pending element, type, set and GENERATE flag, and keeps the last element number |
| MeshReader.AddToSet | ccxmeshreader/read_mesh.py:129-130 | `.add` on the defaultdict: the target gains the element and other sets are unchanged |
| MeshReader.IntOf | ccxmeshreader/read_mesh.py:138 | `int(token)` succeeds exactly when the token is an integer, with its value |
| MeshReader.RangeSetMembers | ccxmeshreader/read_mesh.py:149-160 | `range(start, stop, step)` holds exactly the values start + k*step, k >= 0, short of stop |
| MeshReader.GenerateBounds | ccxmeshreader/read_mesh.py:149-157 | two or three GENERATE fields read as start, end and step exactly when each is an int; the step is the third field, or 1 when there are two |
| MeshReader.GenerateRange | ccxmeshreader/read_mesh.py:152-160 | `range()` raises ValueError exactly when the step is 0 |
| MeshReader.AddSetPart | ccxmeshreader/read_mesh.py:165-176 | a listed field succeeds exactly when it names a set or is an int; the target gains that set or int and nothing else changes |
| MeshReader.KeywordStep | ccxmeshreader/read_mesh.py:92-111 | an accepted section keyword sets the section from the keyword and keeps the pending element and element number |
| MeshReader.NodeStep | ccxmeshreader/read_mesh.py:113-116 | a node line keeps the state consistent |
| MeshReader.ElementStep | ccxmeshreader/read_mesh.py:117-132 | an element line keeps the state consistent, including a stored pending element |
| MeshReader.SetStep | ccxmeshreader/read_mesh.py:133-176 | an element-set line keeps the state consistent |
| MeshReader.LineStep | ccxmeshreader/read_mesh.py:68-176 | a line that proceeds keeps the state consistent; a line that asks for a file is an `*INCLUDE` met outside any section |
| MeshReader.ReadLine | ccxmeshreader/read_mesh.py:59-67 | reading ends only when both files are exhausted; an included line keeps the primary file's lines, a primary line closes the included file |
| MeshReader.Advance | ccxmeshreader/read_mesh.py:57-177 | a pass that goes on keeps the state consistent and leaves strictly less to read |
| MeshReader.Follow | ccxmeshreader/read_mesh.py:78-86 | after a line's outcome, a pass that goes on keeps the state consistent and the primary lines still to read, and a line from an included file stays in that file |
| MeshReader.LineInterpreter.constructor | ccxmeshreader/read_mesh.py:40-55 | starts with empty dictionaries and the initial locals |
| MeshReader.LineInterpreter.CloseSection | ccxmeshreader/read_mesh.py:72-77 | the state becomes the closed state and the dictionaries are unchanged |
| MeshReader.LineInterpreter.Include | ccxmeshreader/read_mesh.py:78-91 | reports what IncludeStep gives |
| MeshReader.LineInterpreter.OpenSection | ccxmeshreader/read_mesh.py:92-111 | the fields become what KeywordStep gives, or its error is reported |
| MeshReader.LineInterpreter.AddNode | ccxmeshreader/read_mesh.py:113-116 | the fields become what NodeStep gives |
| MeshReader.LineInterpreter.AddElement | ccxmeshreader/read_mesh.py:117-132 | the fields become what ElementStep gives |
| MeshReader.LineInterpreter.AddBareReference | ccxmeshreader/read_mesh.py:134-139 | the fields become what BareSetStep gives |
| MeshReader.LineInterpreter.AddGenerated | ccxmeshreader/read_mesh.py:142-161 | the fields become what GenerateStep gives |
| MeshReader.LineInterpreter.AddListed | ccxmeshreader/read_mesh.py:162-176 | the field loop leaves the fields as ListSetStep gives |
| MeshReader.LineInterpreter.AddToElementSet | ccxmeshreader/read_mesh.py:133-176 | the fields become what SetStep gives |
| MeshReader.LineInterpreter.Step | ccxmeshreader/read_mesh.py:68-176 | the fields become what LineStep gives, and consistency is kept |
| MeshReader.LineInterpreter.Pass | ccxmeshreader/read_mesh.py:58-177 | one loop pass stops or goes on exactly as Advance says |
| MeshReader.ReadMesh | ccxmeshreader/read_mesh.py:21-178 | the loop returns exactly ReadMeshSpec: the dictionaries or the first error |
| MeshProperties.DataLineDispatched | ccxmeshreader/read_mesh.py:112-176 | inside a section, a data line goes to that section's builder |
| MeshProperties.CommentLineIgnored | ccxmeshreader/read_mesh.py:70-71 | a comment line changes nothing |
| MeshProperties.BlankOrKeywordClosesSection | ccxmeshreader/read_mesh.py:72-77 | inside a section, a blank or keyword line (section keywords and `*INCLUDE` included) only closes it |
| MeshProperties.DataLineOutsideSectionIgnored | ccxmeshreader/read_mesh.py:112 | outside a section a data line changes nothing |
| MeshProperties.KeywordContinuationRejected | ccxmeshreader/read_mesh.py:93-97 | a section keyword line ending in a comma raises ParserError naming it |
| MeshProperties.ElementWithoutTypeRejected | ccxmeshreader/read_mesh.py:104-111 | `*ELEMENT` without `TYPE` raises ParserError naming it |
| MeshProperties.IncludeWithoutInputRejected | ccxmeshreader/read_mesh.py:78-91 | `*INCLUDE` without `INPUT` raises ParserError naming it |
| MeshProperties.SectionOpened | ccxmeshreader/read_mesh.py:98-107 | an accepted section keyword opens its section: ELSET names the set, GENERATE arms the flag, TYPE sets the element type, keys are matched in their original case, and the maps are unchanged |
| MeshProperties.NodeStored | ccxmeshreader/read_mesh.py:114-116 | a node line stores its node, replacing an earlier one with that number |
| MeshProperties.NodeFieldCountRejected | ccxmeshreader/read_mesh.py:190-195 | a node line without four fields raises ParserError naming it |
| MeshProperties.ContinuationAppends | ccxmeshreader/read_mesh.py:120-132 | a continuation line extends the pending element, leaves the sets alone, and stays pending exactly when it ends in a comma |
| MeshProperties.NewElementStored | ccxmeshreader/read_mesh.py:124-132 | a new element line stores number and nodes under TYPE, adds the number to a non-empty ELSET, and is pending exactly when it ends in a comma |
| MeshProperties.TwoLineElement | ccxmeshreader/read_mesh.py:117-132 | an element written over two lines is stored with both lines' nodes in order and is no longer pending |
| MeshProperties.BareReferenceStep | ccxmeshreader/read_mesh.py:134-139 | a comma-less set line replaces the target with a named set or adds one integer, even with GENERATE armed |
| MeshProperties.GenerateReplaces | ccxmeshreader/read_mesh.py:142-161 | a GENERATE line whose fields read as start, end and a non-zero step (1 when there are two fields) replaces the target with `range(start, end + 1, step)`, whose members RangeSetMembers gives, and clears the flag |
| MeshProperties.GenerateFieldCountRejected | ccxmeshreader/read_mesh.py:143-148 | a GENERATE line of other than 2 or 3 fields raises ParserError naming it |
| MeshProperties.GenerateZeroStepRejected | ccxmeshreader/read_mesh.py:155-159 | a GENERATE step of 0 raises ValueError |
| MeshProperties.AddSetPartsResolves | ccxmeshreader/read_mesh.py:165-176 | when the target set already exists or no field names it, the field loop succeeds exactly when every field names a set or is an int |
| MeshProperties.AddSetPartsUnion | ccxmeshreader/read_mesh.py:165-176 | when the target set already exists (a field naming the target included) or no field names it, a successful field loop leaves the target holding its old members and the union of the fields' sets and integers, and every other set unchanged |
| MeshProperties.ListLineAdds | ccxmeshreader/read_mesh.py:162-176 | a list line, after a trailing comma's empty field is dropped, succeeds exactly when every field resolves and then adds all its fields to the target set and no other set name, when that set already exists or no field names it |
| MeshProperties.FreshTargetSelfReference | ccxmeshreader/read_mesh.py:165-176 | the case left out above: under a target that does not exist yet, the line `1,A` for target A succeeds with A = {1} although `A` named no set when the line began |
| MeshRuns.LineStepIgnoresLineNum | ccxmeshreader/read_mesh.py:68-176 | a line's effect does not depend on its number, apart from the number an error names |
| MeshRuns.RunAgrees | ccxmeshreader/read_mesh.py:57-177 | two runs over the same non-comment lines, with included files differing only in comments, end alike up to error line numbers, when no included file holds an `*INCLUDE` of its own, including the one either run may start inside |
| MeshRuns.RunWithoutComments | ccxmeshreader/read_mesh.py:57-177 | removing every comment line from every file leaves the run's outcome unchanged, line numbers included |
| MeshRuns.ReadMeshWithoutComments | ccxmeshreader/read_mesh.py:21-178 | `read_mesh` gives the same result on files with their comments removed |
| MeshRuns.RunIgnoresLineNumbers | ccxmeshreader/read_mesh.py:46-177 | where the counter starts affects only the line number an error names, when no included file holds an `*INCLUDE` of its own and the run starts outside an included file |
| MeshRuns.IncludeSplice | ccxmeshreader/read_mesh.py:59-86 | an accepted `*INCLUDE` of the primary file gives the same outcome as splicing the included lines in its place, up to the line number an error names, when no included file holds an `*INCLUDE` of its own |
| InpReader.SanitizeLine | ccxinpreader/read_inp.py:101-109 | the sanitized line is stripped and upper-case, and equals upper-casing then stripping |
| InpReader.InpGetDataType | ccxinpreader/read_inp.py:138-186 | node or element exactly when the matching predicate holds, and none otherwise |
| InpReader.InpParseNodeDataLine | ccxinpreader/read_inp.py:60-80 | other than four comma fields raises ValueError naming the line number and line unless formatting the message first raises on a `{` or `}` in the line (MessageFormat.FormattedRaise); otherwise the shared node-field reading |
| InpReader.StrictInts | ccxinpreader/read_inp.py:98 | succeeds exactly when every field is an int, with those values in order |
| InpReader.InpParseElementDataLine | ccxinpreader/read_inp.py:83-98 | more than 16 fields is ValueError naming the line unless formatting the message first raises on a `{` or `}` in the line (MessageFormat.FormattedRaise); otherwise succeeds exactly when every field is an int, blank ones included |
| InpReader.InpClosed | ccxinpreader/read_inp.py:23-26 | closing resets the section, pending element and type, and keeps the element number |
| InpReader.InpKeywordStep | ccxinpreader/read_inp.py:27-36 | an accepted keyword sets the section from the keyword and keeps the pending element and element number; a failure is the keyword line's own error, or, for an element keyword, the missing-TYPE ValueError unless formatting the message first raises on a `{` or `}` in the line (MessageFormat.FormattedRaise) |
| InpReader.InpLineStep | ccxinpreader/read_inp.py:22-54 | a successful line keeps the state consistent: a pending element is stored under the current type |
| InpReader.InpInterpreter.constructor | ccxinpreader/read_inp.py:11-20 | starts with empty dictionaries and the initial locals |
| InpReader.InpInterpreter.OpenSection | ccxinpreader/read_inp.py:27-36 | the fields become what InpKeywordStep gives, or its error is reported |
| InpReader.InpInterpreter.AddNode | ccxinpreader/read_inp.py:38-41 | the fields become what InpNodeStep gives |
| InpReader.InpInterpreter.AddElement | ccxinpreader/read_inp.py:42-54 | the fields become what InpElementStep gives |
| InpReader.InpInterpreter.Step | ccxinpreader/read_inp.py:22-54 | the fields become what InpLineStep gives, and consistency is kept |
| InpReader.ReadInp | ccxinpreader/read_inp.py:5-57 | the loop returns exactly ReadInpSpec: the dictionaries or the first error |
| InpProperties.InpLineIgnoresCase | ccxinpreader/read_inp.py:22 | upper-casing a line first changes nothing |
| InpProperties.RunInpIgnoresCase | ccxinpreader/read_inp.py:21-56 | a run over upper-cased lines ends exactly as the run over the lines |
| InpProperties.ReadInpIgnoresCase | ccxinpreader/read_inp.py:5-57 | `read_inp` gives the same result, or error, on an upper-cased copy of the file |
| InpProperties.InpCommentLine | ccxinpreader/read_inp.py:23-54 | a `**` line is ignored outside a section and raises inside one: it is not skipped |
| InpProperties.InpBlankOrKeywordCloses | ccxinpreader/read_inp.py:23-26 | inside a section, a blank or keyword line only closes it |
| InpProperties.InpSectionOpened | ccxinpreader/read_inp.py:27-36 | outside a section a node keyword opens nodes; an element keyword opens elements with its TYPE, or, when TYPE is missing, raises ValueError naming the line unless formatting the message first raises on a `{` or `}` in the line (MessageFormat.FormattedRaise), and that ValueError when the line holds no brace; a trailing comma is accepted |
| InpProperties.InpKeywordUnpackFails | ccxinpreader/read_inp.py:204-207 | a parameter with several `=` makes the keyword line fail with that error |
| InpProperties.InpNodeStored | ccxinpreader/read_inp.py:38-41 | a node line stores its node, replacing an earlier one |
| InpProperties.InpNodeFieldCountRejected | ccxinpreader/read_inp.py:69-73 | a node line without four fields raises ValueError naming the line number and line unless formatting the message first raises on a `{` or `}` in the line (MessageFormat.FormattedRaise), and that ValueError when the line holds no brace |
| InpProperties.InpContinuationAppends | ccxinpreader/read_inp.py:45-54 | a continuation line extends the pending element, which stays pending exactly when the line ends in a comma |
| InpProperties.InpContinuationKeepsRest | ccxinpreader/read_inp.py:45-48 | a continuation line leaves the nodes and the other element types unchanged |
| InpProperties.InpNewElementStored | ccxinpreader/read_inp.py:49-54 | a new element line stores number and nodes under TYPE, and is pending exactly when it ends in a comma |
| InpProperties.InpNewElementKeepsRest | ccxinpreader/read_inp.py:49-52 | a new element line adds only its type's key, and leaves the nodes, the other types and the other elements of its type unchanged |
| InpProperties.InpElementAgreesWithMesh | ccxinpreader/read_inp.py:83-98 | where `read_inp` reads an element line, `read_mesh` reads it the same way; with no blank field they agree on errors too |
| InpProperties.EmptyFieldDiverges | ccxinpreader/read_inp.py:98 | on `1,,2`, `read_mesh` reads [1, 0, 2] and `read_inp` raises |
| InpProperties.InpElementLineRoundTrip | ccxinpreader/read_inp.py:83-98 | an element record written out parses back to the same integers |
| InpProperties.InpLineStepIgnoresLineNum | ccxinpreader/read_inp.py:22-54 | a line's effect does not depend on its number, apart from the number an error names |
| InpProperties.RunInpIgnoresLineNumbers | ccxinpreader/read_inp.py:17-56 | where the counter starts affects only the line number an error names |
| InpProperties.ElementFieldLimitRaised | ccxinpreader/read_inp.py:95-97 | an element line of more than 16 fields fails in `read_inp` as in `read_mesh`: the ValueError naming the line when it holds no brace, otherwise the exception formatting raises |
| InpProperties.ThreeFieldNodeLine | ccxinpreader/read_inp.py:70-73 | a node line of three comma-free fields fails with the formatted field-count error, whatever the fields hold |
| InpProperties.NodeLineFieldRaisesKeyError | ccxinpreader/read_inp.py:71-73 | the node line `1,2,{X}` raises KeyError('X') rather than the field-count ValueError |
| InpProperties.NodeLineConversionRaisesKeyError | ccxinpreader/read_inp.py:71-73 | the node line `1,2,{A!}}` raises KeyError('A'): the `}` after `!` is the conversion and the next `}` closes the field |
| MessageFormat.Lookup | ccxinpreader/read_inp.py:71-73 | a field of the pasted line looks up `{}` as a second positional argument (IndexError), a number by switching to manual numbering (ValueError), and a name as a missing keyword (KeyError with that name) |
| MessageFormat.FieldFault | ccxinpreader/read_inp.py:71-73 | every replacement field of the pasted line raises: ValueError unless its name (with `[...]` skipped, braces inside included), an optional one-character conversion after `!` (a brace included) and an optional `:` spec close it, else its lookup's error |
| MessageFormat.FormatFault | ccxinpreader/read_inp.py:71-73 | scanning left to right, the first lone `}` or the first replacement field decides the exception; a line with neither, its braces all doubled, formats |
| MessageFormat.FormattedRaise | ccxinpreader/read_inp.py:71-73 | `raise ValueError(msg.format(line_num))` raises the intended error when the line formats, and otherwise the formatting's IndexError, KeyError or ValueError |
| MessageFormat.EscapeFormats | ccxinpreader/read_inp.py:71-73 | a text with every brace doubled formats without raising |
| MessageFormat.FormatSucceedsIffEscaped | ccxinpreader/read_inp.py:71-73 | formatting raises nothing exactly when the line is a text with its braces doubled |
| MessageFormat.NoBracesFormats | ccxinpreader/read_inp.py:71-73 | a line without braces formats, so the intended ValueError is raised |
| MessageFormat.FormatFaultExamples | ccxmeshreader/read_mesh.py:217-219 | `{}` raises IndexError, `{1}` ValueError, `1,2,{X}` KeyError('X'), `1,2,{A!}}` KeyError('A'), `{[}` ValueError, `{[{]}` IndexError, `1}` ValueError, and `{{1}}` formats |

## Where the model follows the code

- Inside a section, any keyword line only closes the section. This includes
  `*NODE`, `*ELEMENT`, `*ELSET` and `*INCLUDE` themselves
  (ccxmeshreader/read_mesh.py:72-77, ccxinpreader/read_inp.py:23-26). Such a
  line is not acted on, so a section keyword directly after another section's
  data is ignored.
- `read_inp` does not skip comments. A `**` line inside a section is read as
  data and raises (`InpProperties.InpCommentLine`).
- Keyword parameters in `read_mesh` are parsed from the original-case line, so
  `TYPE`, `ELSET`, `GENERATE` and `INPUT` match case-sensitively. `read_inp`
  parses the upper-cased line.
- Line numbers follow the code exactly:
  - a comment line is not counted in `read_mesh` (the `continue` at
    ccxmeshreader/read_mesh.py:71 skips the increment);
  - an included file's lines are numbered from 1;
  - after an included file, the primary file resumes at the `*INCLUDE` line's
    number plus 2.

## Left out

- File I/O (`open`, `readline`, `close`) and the parent-directory path join for `*INCLUDE`. Files are given as line sequences, and included files as a map keyed by the `INPUT` text; a missing key is the FileNotFound error.
- The empty pseudo-line `readline` returns at end of file, which only clears the locals before the loop ends.
- Nested includes: an `*INCLUDE` met inside an included file ends the model with a NestedInclude error. The source would replace the open included file with the new one.
- MeshReader.BareSetStep: `result['element_set_by_name'][element_set] = result['element_set_by_name'][stripped_line]` makes both names refer to one set object, so later additions to one show in the other. The model copies the set's value; aliasing is not modelled.
- Float semantics: `float()` is modelled as the exact decimal value of decimal or scientific notation. Rounding to binary floating point, `inf`, `nan` and underscores in numbers are not modelled.
- `int()` accepts ASCII digits with an optional sign and surrounding whitespace. Underscores and non-ASCII digits are not modelled.
- `strip()` and `upper()` act on ASCII whitespace and ASCII letters (plus the separators `\x1c`-`\x1f` for `strip`). Non-ASCII whitespace and case mappings are not modelled.
- Exception message text is not modelled. Each error records which check fired and, where the source names them, the line number and line.
- The messages that paste the line into a template and then call `format` (ccxmeshreader/read_mesh.py:217-219, ccxinpreader/read_inp.py:34-36, 71-73, 95-97) are modelled for which exception they raise, following how CPython 3 reads a format string: literal text, doubled braces, and a replacement field's name (with `[...]` skipped), one-character conversion and `:` spec. Fields numbered with non-ASCII digits are not modelled, and the "too many decimal digits" ValueError is merged with the numbering ValueError.
- ccxmeshreader/parser_error.py and ccxinpreader/parser_error.py are empty exception classes. They are not part of this model beyond the ParserError constructor.
- setup.py and the tests are not part of this model.
- Keywords other than `*NODE`, `*ELEMENT`, `*ELSET` and `*INCLUDE` (materials, for instance) are read by neither reader beyond closing a section, and are not modelled further.
- MeshProperties.ListLineAdds: does not cover a list line whose target set does not exist yet and one of whose fields names that target. Once an earlier integer field has created the target, such a field resolves to the target itself, so success no longer matches every field resolving when the line begins. MeshProperties.FreshTargetSelfReference shows one such line.
- MeshProperties.AddSetPartsUnion: the same case is not covered, for the same reason.
- MeshProperties.AddSetPartsResolves: the same case is not covered, for the same reason.
- MeshRuns.IncludeSplice: holds up to the line number an error names, and only when included files hold no `*INCLUDE` of their own. Included lines are numbered from 1 and the primary file resumes past the include line, so an error names a different number than it would in a spliced file.
- MeshRuns.RunIgnoresLineNumbers: holds up to the line number an error names, and only when included files hold no `*INCLUDE` of their own and the run starts outside an included file.
- MeshRuns.RunAgrees: holds up to the line number an error names, and only when included files, the open one included, hold no `*INCLUDE` of their own. Nested includes are not modelled (see above), and comment lines shift the numbers of later lines.
