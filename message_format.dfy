/**
 * The error messages read_inp.py and read_mesh.py's `parse_element_data_line`
 * build in two steps: the offending line is pasted after a template holding
 * one `{}`, and the result is formatted again with the line number. Any
 * brace in the line is then read by `str.format` as format syntax, so the
 * formatting itself may raise before the intended ValueError is. This module
 * models that second `str.format` call as CPython 3 reads a format string:
 * literal text up to a brace, then one replacement field read as a stream
 * (its name, an optional `!` conversion, an optional `:` spec), left to
 * right, so the first event that fails decides the exception.
 */
module MessageFormat {
  import opened Results
  import opened Errors
  import opened Strings

  /**
   * The index of the `}` closing a format spec, scanning from `i` with
   * `depth` braces open (a `{` inside the spec opens a nested one).
   */
  function SpecClose(s: string, i: nat, depth: nat): (r: Option<nat>)
    requires i <= |s| && 1 <= depth
    ensures r.Some? ==> i <= r.value < |s| && s[r.value] == '}'
    decreases |s| - i
  {
    if i == |s| then None
    else if s[i] == '{' then SpecClose(s, i + 1, depth + 1)
    else if s[i] == '}' then (if depth == 1 then Some(i) else SpecClose(s, i + 1, depth - 1))
    else SpecClose(s, i + 1, depth)
  }

  /** The index just past the `]` closing a bracketed key that starts at `i`, or the end. */
  function BracketEnd(c: string, i: nat): (r: nat)
    requires i <= |c|
    ensures i <= r <= |c|
    ensures r < |c| ==> 0 < r && c[r - 1] == ']'
    decreases |c| - i
  {
    if i == |c| then i
    else if c[i] == ']' then i + 1
    else BracketEnd(c, i + 1)
  }

  /**
   * Where a field's name ends: at its first `}`, `:` or `!` outside
   * brackets. None when a `{` outside brackets comes first ("unexpected '{'
   * in field name") or the text ends first ("expected '}' before end of
   * string"); a `[` skips to the next `]`, braces included.
   */
  function NameEnd(c: string, i: nat): (r: Option<nat>)
    requires i <= |c|
    ensures r.Some? ==> i <= r.value < |c| && (c[r.value] == '}' || c[r.value] == ':' || c[r.value] == '!')
    decreases |c| - i
  {
    if i == |c| then None
    else if c[i] == '{' then None
    else if c[i] == '}' || c[i] == ':' || c[i] == '!' then Some(i)
    else if c[i] == '[' then NameEnd(c, BracketEnd(c, i + 1))
    else NameEnd(c, i + 1)
  }

  /** The part of a field name before its first `.` or `[`: the argument it looks up. */
  function FirstPart(name: string): (r: string)
    ensures |r| <= |name| && r == name[..|r|]
    ensures forall i :: 0 <= i < |r| ==> r[i] != '.' && r[i] != '['
    ensures |r| < |name| ==> name[|r|] == '.' || name[|r|] == '['
  {
    if name == [] || name[0] == '.' || name[0] == '[' then []
    else [name[0]] + FirstPart(name[1..])
  }

  /**
   * Looking up a field of the pasted line, with the template's `{}` already
   * having taken the one positional argument: an automatic field asks for a
   * second argument, a numbered one switches from automatic numbering, and
   * a named one finds no keyword arguments.
   */
  function Lookup(first: string): (e: Error)
    ensures e == IndexError <==> first == []
    ensures e == ValueError(FieldNumbering) <==> first != [] && AllDigits(first)
    ensures e.KeyError? <==> first != [] && !AllDigits(first)
    ensures e.KeyError? ==> e.key == first
  {
    if first == [] then IndexError
    else if AllDigits(first) then ValueError(FieldNumbering)
    else KeyError(first)
  }

  /**
   * Whether the text after a field's name, which starts at `j` with the
   * `}`, `:` or `!` that ended the name, completes the field: `}` at once;
   * after `:` a spec closed by its own `}`; after `!` any one character as
   * the conversion, then `}`, or `:` and a closed spec.
   */
  predicate FieldCloses(f: string, j: nat)
    requires j < |f|
  {
    if f[j] == '}' then true
    else if f[j] == ':' then SpecClose(f, j + 1, 1).Some?
    else
      j + 2 < |f| && (f[j + 2] == '}' || (f[j + 2] == ':' && SpecClose(f, j + 3, 1).Some?))
  }

  /**
   * What the replacement field opened by a `{` raises, given the text after
   * that brace: a name, conversion or spec that does not parse is
   * ValueError, and a parsed field raises its lookup's error. No field of
   * the line can succeed, so every one raises.
   */
  function FieldFault(f: string): (e: Error)
    ensures e == IndexError || e.KeyError? || e == ValueError(FormatSyntax) || e == ValueError(FieldNumbering)
    ensures e != ValueError(FormatSyntax) ==> NameEnd(f, 0).Some? && FieldCloses(f, NameEnd(f, 0).value)
  {
    match NameEnd(f, 0)
    case None => ValueError(FormatSyntax)
    case Some(j) =>
      if FieldCloses(f, j) then Lookup(FirstPart(f[..j])) else ValueError(FormatSyntax)
  }

  /**
   * The exception formatting raises on the pasted line, or None when the
   * line formats to its own text with each doubled brace halved. The first
   * replacement field decides, since each one raises.
   */
  function FormatFault(s: string): (r: Option<Error>)
    ensures r.Some? ==> r.value == IndexError || r.value.KeyError? || r.value == ValueError(FormatSyntax) || r.value == ValueError(FieldNumbering)
    decreases |s|
  {
    if s == [] then None
    else if s[0] == '}' then
      if |s| >= 2 && s[1] == '}' then FormatFault(s[2..]) else Some(ValueError(FormatSyntax))
    else if s[0] == '{' then
      if |s| >= 2 && s[1] == '{' then FormatFault(s[2..]) else Some(FieldFault(s[1..]))
    else FormatFault(s[1..])
  }

  /** `raise ValueError(msg.format(line_num))` with the line pasted into `msg`: the intended error, unless formatting raises first. */
  function FormattedRaise(intended: Error, line: string): (e: Error)
    ensures FormatFault(line).None? ==> e == intended
    ensures FormatFault(line).Some? ==> e == FormatFault(line).value
    ensures e == intended || e == IndexError || e.KeyError? || e == ValueError(FormatSyntax) || e == ValueError(FieldNumbering)
  {
    match FormatFault(line)
    case None => intended
    case Some(fault) => fault
  }

  // ---------------------------------------------------------------- which lines format cleanly

  /** A text with every brace doubled: what `str.format` turns back into the text. */
  function Escape(t: string): (r: string)
    ensures |r| >= |t|
  {
    if t == [] then []
    else (if t[0] == '{' || t[0] == '}' then [t[0], t[0]] else [t[0]]) + Escape(t[1..])
  }

  /** Halves every doubled brace, reading left to right. */
  function Unescape(s: string): string
  {
    if s == [] then []
    else if (s[0] == '{' || s[0] == '}') && |s| >= 2 && s[1] == s[0] then [s[0]] + Unescape(s[2..])
    else [s[0]] + Unescape(s[1..])
  }

  /** A text with its braces doubled formats without raising. */
  lemma {:induction false} EscapeFormats(t: string)
    ensures FormatFault(Escape(t)).None?
  {
    if t != [] {
      EscapeFormats(t[1..]);
      var rest := Escape(t[1..]);
      if t[0] == '{' || t[0] == '}' {
        assert Escape(t) == [t[0], t[0]] + rest;
        assert Escape(t)[2..] == rest;
      } else {
        assert Escape(t) == [t[0]] + rest;
        assert Escape(t)[1..] == rest;
      }
    }
  }

  /** Formatting the pasted line raises nothing exactly when every brace in it is doubled. */
  lemma {:induction false} FormatSucceedsIffEscaped(s: string)
    ensures FormatFault(s).None? <==> Escape(Unescape(s)) == s
    decreases |s|
  {
    if Escape(Unescape(s)) == s {
      EscapeFormats(Unescape(s));
    }
    if s != [] && FormatFault(s).None? {
      if s[0] == '{' || s[0] == '}' {
        assert |s| >= 2 && s[1] == s[0];
        FormatSucceedsIffEscaped(s[2..]);
        assert Unescape(s) == [s[0]] + Unescape(s[2..]);
        assert Escape(Unescape(s)) == [s[0], s[0]] + Escape(Unescape(s[2..]));
        assert s == [s[0], s[0]] + s[2..];
      } else {
        FormatSucceedsIffEscaped(s[1..]);
        assert Unescape(s) == [s[0]] + Unescape(s[1..]);
        assert Escape(Unescape(s)) == [s[0]] + Escape(Unescape(s[1..]));
        assert s == [s[0]] + s[1..];
      }
    }
  }

  /** No `{` and no `}`: nothing `str.format` reads as syntax. */
  predicate HasNoBraces(s: string) {
    forall i :: 0 <= i < |s| ==> s[i] != '{' && s[i] != '}'
  }

  /** A line without braces formats cleanly, so the intended error is the one raised. */
  lemma {:induction false} NoBracesFormats(s: string)
    requires HasNoBraces(s)
    ensures FormatFault(s).None?
    decreases |s|
  {
    if s != [] {
      NoBracesFormats(s[1..]);
    }
  }

  /** `{}` asks for a second positional argument. */
  lemma AutomaticFieldExample()
    ensures FormatFault("{}") == Some(IndexError)
  {
    assert "{}"[1..] == "}";
    assert NameEnd("}", 0) == Some(0) && FirstPart([]) == [];
  }

  /** `{1}` switches from automatic to manual numbering. */
  lemma NumberedFieldExample()
    ensures FormatFault("{1}") == Some(ValueError(FieldNumbering))
  {
    assert "{1}"[1..] == "1}";
    assert "1}"[..1] == "1";
    assert NameEnd("1}", 0) == Some(1) && FirstPart("1") == "1" && AllDigits("1");
  }

  /** `{X}` after a node line's fields names a missing keyword argument. */
  lemma NamedFieldExample()
    ensures FormatFault("1,2,{X}") == Some(KeyError("X"))
  {
    assert "1,2,{X}"[4..] == "{X}";
    assert FormatFault("1,2,{X}") == FormatFault("{X}");
    assert "{X}"[1..] == "X}";
    assert "X}"[..1] == "X";
    assert NameEnd("X}", 0) == Some(1) && FirstPart("X") == "X" && !AllDigits("X");
  }

  /** After `!` any one character, a brace too, is the conversion; the lookup then fails. */
  lemma ConversionBraceExample()
    ensures FormatFault("1,2,{A!}}") == Some(KeyError("A"))
  {
    assert "1,2,{A!}}"[4..] == "{A!}}";
    assert FormatFault("1,2,{A!}}") == FormatFault("{A!}}");
    assert "{A!}}"[1..] == "A!}}";
    assert "A!}}"[..1] == "A";
    assert NameEnd("A!}}", 0) == Some(1) && FieldCloses("A!}}", 1);
    assert FirstPart("A") == "A" && !AllDigits("A");
  }

  /** A `[` in a name skips to the next `]`, so braces inside brackets belong to the name. */
  lemma BracketExamples()
    ensures FormatFault("{[}") == Some(ValueError(FormatSyntax))
    ensures FormatFault("{[{]}") == Some(IndexError)
  {
    assert "{[}"[1..] == "[}";
    assert BracketEnd("[}", 1) == 2;
    assert NameEnd("[}", 0) == None;
    assert "{[{]}"[1..] == "[{]}";
    assert BracketEnd("[{]}", 1) == 3;
    assert NameEnd("[{]}", 0) == Some(3);
    assert "[{]}"[..3] == "[{]" && FirstPart("[{]") == [];
  }

  /** A lone `}` is malformed; doubled braces are no field at all. */
  lemma BraceSyntaxExamples()
    ensures FormatFault("1}") == Some(ValueError(FormatSyntax))
    ensures FormatFault("{{1}}").None?
  {
    assert FormatFault("1}") == FormatFault("}");
    assert "{{1}}"[2..] == "1}}" && "1}}"[1..] == "}}" && "}}"[2..] == "";
  }

  /**
   * The first field decides: an automatic `{}` asks for a second argument,
   * `{1}` switches numbering, `{name}` is a missing keyword, a brace after
   * `!` is a conversion, a brace inside brackets is part of the name, a
   * lone brace is malformed, and a doubled brace is no field at all.
   */
  lemma FormatFaultExamples()
    ensures FormatFault("{}") == Some(IndexError)
    ensures FormatFault("{1}") == Some(ValueError(FieldNumbering))
    ensures FormatFault("1,2,{X}") == Some(KeyError("X"))
    ensures FormatFault("1,2,{A!}}") == Some(KeyError("A"))
    ensures FormatFault("{[}") == Some(ValueError(FormatSyntax))
    ensures FormatFault("{[{]}") == Some(IndexError)
    ensures FormatFault("1}") == Some(ValueError(FormatSyntax))
    ensures FormatFault("{{1}}").None?
  {
    AutomaticFieldExample();
    NumberedFieldExample();
    NamedFieldExample();
    ConversionBraceExample();
    BracketExamples();
    BraceSyntaxExamples();
  }
}
