/**
 * The generator of the completion schema: the tree of module types and
 * fields read from the build system's HTML reference, and the two writers
 * that print it, as `blueprints.xml` or as indented text.
 *
 * The HTML scanner that builds the tree and the command line are not
 * modelled. A writer's output stream is the text written to it so far, and
 * a Python exception is a `Failure` that stops the writer where it was.
 */
module ParseDoc {
  import opened Wrappers
  import opened Text
  import FieldsXml

  // ---------------------------------------------------------------- types

  /** Fields whose string lists name other modules. */
  const ReferencesField: seq<string> := ["required", "overrides", "defaults", "libs", "export_generated_headers",
    "export_header_lib_headers", "export_shared_lib_headers", "export_static_lib_headers", "generated_headers",
    "generated_sources"]

  /** Python `"%s" % v` of a value that may be `None`. */
  function Str(v: Option<string>): string {
    if v.Some? then v.value else "None"
  }

  /** The reference types the writer accepts. */
  predicate Supported(t: string) {
    t == "string" || t == "list of strings" || t == "bool" || t == "StaticSharedLibraryProperties"
    || t == "TestOptions" || t == "apexMultilibProperties" || t == "int64" || t == "codegenArchProperties"
    || t == "ApiToCheck" || t == "VersionProperties"
  }

  /** The types the converter produces. */
  predicate SchemaType(x: string) {
    x == "string" || x == "string[]" || x == "bool" || x == "number" || x == "blueprint[]"
  }

  /** No produced type can close the attribute it is written into. */
  lemma SchemaTypeQuoteFree(x: string)
    requires SchemaType(x)
    ensures '"' !in x
  {
  }

  /**
   * `convert_type_(name, type)`: the schema type of a reference type. A
   * string list names modules when the field is one of `ReferencesField` or
   * ends in `_libs`; a field without a name cannot be asked that and fails.
   */
  function ConvertType(name: Option<string>, t: Option<string>): (r: Result<Option<string>, string>)
    ensures t.None? ==> r == Success(None)
    ensures t.Some? && r.Success? ==> r.value.Some? && SchemaType(r.value.value)
  {
    if t.None? then Success(None)
    else
      var ty := t.value;
      if ty == "string" then Success(Some("string"))
      else if ty == "list of strings" then
        if name.Some? && name.value in ReferencesField then Success(Some("blueprint[]"))
        else if name.None? then Failure("'NoneType' object has no attribute 'endswith'")
        else if EndsWith(name.value, "_libs") then Success(Some("blueprint[]"))
        else Success(Some("string[]"))
      else if ty == "bool" then Success(Some("bool"))
      else if ty == "StaticSharedLibraryProperties" then Success(Some("string[]"))
      else if ty == "TestOptions" then Success(Some("string[]"))
      else if ty == "apexMultilibProperties" then Success(Some("string[]"))
      else if ty == "int64" then Success(Some("number"))
      else if ty == "codegenArchProperties" then Success(Some("string[]"))
      else if ty == "ApiToCheck" then Success(Some("string"))
      else if ty == "VersionProperties" then Success(Some("string[]"))
      else Failure("Not supported type: " + ty + " field: " + Str(name))
  }

  /** A string list is a list of module references exactly for the reference fields and the `_libs` fields. */
  lemma StringListType(name: string)
    ensures ConvertType(Some(name), Some("list of strings")) ==
      Success(Some(if name in ReferencesField || EndsWith(name, "_libs") then "blueprint[]" else "string[]"))
  {
  }

  /**
   * Conversion fails exactly for an unsupported type or a nameless string
   * list, and every type it produces is one the schema reader accepts.
   */
  lemma ConvertedTypeReadable(name: Option<string>, t: string, field: string, descr: string)
    ensures ConvertType(name, Some(t)).Failure? <==> !Supported(t) || (t == "list of strings" && name.None?)
    ensures ConvertType(name, Some(t)).Success? ==>
      FieldsXml.FieldOfType(ConvertType(name, Some(t)).value.value, field, descr).Some?
    ensures !Supported(t) ==> ConvertType(name, Some(t)) == Failure("Not supported type: " + t + " field: " + Str(name))
  {
  }

  // ---------------------------------------------------------------- escaping

  /** Python `s.replace(c, with)` for a one-character pattern. */
  function ReplaceChar(s: string, c: char, with: string): (r: string)
    ensures c !in with ==> c !in r
    ensures forall x :: x != c && x !in with ==> (x in r <==> x in s)
  {
    if s == [] then []
    else (if s[0] == c then with else [s[0]]) + ReplaceChar(s[1..], c, with)
  }

  /** A text without the pattern is returned as it is. */
  lemma {:induction false} ReplaceAbsent(s: string, c: char, with: string)
    requires c !in s
    ensures ReplaceChar(s, c, with) == s
  {
    if s != [] {
      ReplaceAbsent(s[1..], c, with);
    }
  }

  /** The `descr` attribute value: quotes become `&quot;`, then line breaks the two characters `\n`. */
  function Descr(desc: string): (r: string) {
    ReplaceChar(ReplaceChar(desc, '"', "&quot;"), '\n', "\\n")
  }

  /**
   * The escaped description can neither close the attribute nor break the
   * line; a description with neither character is written unchanged.
   */
  lemma DescrEscapes(desc: string)
    ensures '"' !in Descr(desc) && '\n' !in Descr(desc)
    ensures '"' !in desc && '\n' !in desc ==> Descr(desc) == desc
  {
    if '"' !in desc && '\n' !in desc {
      ReplaceAbsent(desc, '"', "&quot;");
      ReplaceAbsent(desc, '\n', "\\n");
    }
  }

  /** `s.replace(c, with)` of a concatenation is the concatenation of the replacements. */
  lemma {:induction false} ReplaceConcat(a: string, b: string, c: char, with: string)
    ensures ReplaceChar(a + b, c, with) == ReplaceChar(a, c, with) + ReplaceChar(b, c, with)
    decreases |a|
  {
    if a != [] {
      assert (a + b)[0] == a[0];
      assert (a + b)[1..] == a[1..] + b;
      ReplaceConcat(a[1..], b, c, with);
    } else {
      assert a + b == b;
    }
  }

  /**
   * Nothing else is escaped, so a description holding a quote and the same
   * description holding a literal `&quot;` in its place are written alike.
   */
  lemma DescrNotInjective(a: string, b: string)
    ensures Descr(a + "\"" + b) == Descr(a + "&quot;" + b)
  {
    var quote := "\"";
    var entity := "&quot;";
    assert ReplaceChar(quote, '"', entity) == entity by {
      assert quote[0] == '"' && quote[1..] == [];
    }
    assert '"' !in entity && '\n' !in entity;
    ReplaceAbsent(entity, '"', entity);
    ReplaceConcat(a, quote, '"', entity);
    ReplaceConcat(a + quote, b, '"', entity);
    ReplaceConcat(a, entity, '"', entity);
    ReplaceConcat(a + entity, b, '"', entity);
  }

  /** The number of double quotes in a text. */
  function Quotes(s: string): (n: nat)
    ensures n == 0 <==> '"' !in s
    ensures n <= |s|
  {
    if s == [] then 0 else (if s[0] == '"' then 1 else 0) + Quotes(s[1..])
  }

  lemma {:induction false} QuotesConcat(a: string, b: string)
    ensures Quotes(a + b) == Quotes(a) + Quotes(b)
    decreases |a|
  {
    if a != [] {
      assert (a + b)[0] == a[0];
      assert (a + b)[1..] == a[1..] + b;
      QuotesConcat(a[1..], b);
    } else {
      assert a + b == b;
    }
  }

  /** ` key="value"` with a quote-free value has exactly two quotes. */
  lemma QuotedAttribute(prefix: string, value: string)
    requires '"' !in prefix && '"' !in value
    ensures Quotes(prefix + "\"" + value + "\"") == 2
  {
    QuotesConcat(prefix, "\"");
    QuotesConcat(prefix + "\"", value);
    QuotesConcat(prefix + "\"" + value, "\"");
  }

  // ---------------------------------------------------------------- attributes

  /** The attribute `name="…"`, always present. */
  function NameAttribute(name: Option<string>): string {
    "name=\"" + Str(name) + "\""
  }

  /** The attribute ` type="…"` with the converted type, nothing without a type, or the conversion's error. */
  function TypeAttribute(name: Option<string>, t: Option<string>): Result<string, string> {
    var conv := ConvertType(name, t);
    if conv.Failure? then Failure(conv.error)
    else if t.Some? then Success(" type=\"" + Str(conv.value) + "\"")
    else Success("")
  }

  /** The attribute ` descr="…"` with the escaped description, or nothing without one. */
  function DescrAttribute(desc: Option<string>): string {
    if desc.Some? then " descr=\"" + Descr(desc.value) + "\"" else ""
  }

  /**
   * `format_field_(name, type, desc)`: the name attribute, then the type
   * attribute when there is a type, then the description attribute when
   * there is one; a type that cannot be converted raises its error.
   */
  function FormatField(name: Option<string>, t: Option<string>, desc: Option<string>): (r: Result<string, string>) {
    var typed := TypeAttribute(name, t);
    if typed.Failure? then Failure(typed.error)
    else Success(NameAttribute(name) + typed.value + DescrAttribute(desc))
  }

  /**
   * Formatting fails exactly when there is a type that does not convert;
   * otherwise the attributes start with the name and end with the escaped
   * description, and with neither type nor description they are the name alone.
   */
  lemma FormatFieldLayout(name: Option<string>, t: Option<string>, desc: Option<string>)
    ensures FormatField(name, t, desc).Failure? <==> t.Some? && ConvertType(name, t).Failure?
    ensures FormatField(name, t, desc).Success? ==>
      StartsWith(FormatField(name, t, desc).value, NameAttribute(name))
      && EndsWith(FormatField(name, t, desc).value, DescrAttribute(desc))
    ensures t.None? && desc.None? ==> FormatField(name, t, desc) == Success(NameAttribute(name))
  {
    var r := FormatField(name, t, desc);
    if r.Success? {
      var head := NameAttribute(name) + TypeAttribute(name, t).value;
      var tail := DescrAttribute(desc);
      assert r.value == head + tail;
      assert (head + tail)[..|NameAttribute(name)|] == NameAttribute(name);
      assert (head + tail)[|head + tail| - |tail|..] == tail;
    }
  }

  lemma NameAttributeQuotes(name: Option<string>)
    requires '"' !in Str(name)
    ensures Quotes(NameAttribute(name)) == 2
  {
    assert '"' !in "name=";
    assert NameAttribute(name) == "name=" + "\"" + Str(name) + "\"";
    QuotedAttribute("name=", Str(name));
  }

  lemma TypeAttributeQuotes(name: Option<string>, t: Option<string>)
    ensures TypeAttribute(name, t).Success? ==> Quotes(TypeAttribute(name, t).value) == if t.Some? then 2 else 0
  {
    if t.Some? && TypeAttribute(name, t).Success? {
      var ty := Str(ConvertType(name, t).value);
      SchemaTypeQuoteFree(ty);
      assert '"' !in " type=";
      assert TypeAttribute(name, t).value == " type=" + "\"" + ty + "\"";
      QuotedAttribute(" type=", ty);
    }
  }

  lemma DescrAttributeQuotes(desc: Option<string>)
    ensures Quotes(DescrAttribute(desc)) == if desc.Some? then 2 else 0
  {
    if desc.Some? {
      DescrEscapes(desc.value);
      assert '"' !in " descr=";
      assert DescrAttribute(desc) == " descr=" + "\"" + Descr(desc.value) + "\"";
      QuotedAttribute(" descr=", Descr(desc.value));
    }
  }

  /**
   * With a quote-free name, each attribute present contributes exactly one
   * pair of quotes, so the tag stays well formed whatever the description
   * holds.
   */
  lemma FormatFieldQuotes(name: Option<string>, t: Option<string>, desc: Option<string>)
    requires '"' !in Str(name)
    ensures FormatField(name, t, desc).Success? ==>
      Quotes(FormatField(name, t, desc).value) == 2 + (if t.Some? then 2 else 0) + (if desc.Some? then 2 else 0)
  {
    var typed := TypeAttribute(name, t);
    if typed.Success? {
      NameAttributeQuotes(name);
      TypeAttributeQuotes(name, t);
      DescrAttributeQuotes(desc);
      QuotesConcat(NameAttribute(name), typed.value);
      QuotesConcat(NameAttribute(name) + typed.value, DescrAttribute(desc));
    }
  }

  // ---------------------------------------------------------------- writers

  /** The calls printing a schema makes on a writer. */
  datatype WriterCall =
    | StartDocument
    | EndDocument
    | StartBlueprint(blueprint: string)
    | EndBlueprint
    | FieldCall(name: Option<string>, typeName: Option<string>, desc: Option<string>)
    | StartFieldsList(name: Option<string>, typeName: Option<string>, desc: Option<string>)
    | EndFieldsList

  const Indent := "    "

  /** Python `ident[:-4]`: the last four characters dropped, or nothing left of a shorter text. */
  function Dedent(ident: string): (r: string)
    ensures |r| == if |ident| >= 4 then |ident| - 4 else 0
    ensures r == ident[..|r|]
  {
    if |ident| >= 4 then ident[..|ident| - 4] else ""
  }

  /** How a call of the XML writer moves the nesting depth. */
  function Delta(c: WriterCall): int {
    match c
    case StartDocument => 1
    case StartBlueprint(_) => 1
    case StartFieldsList(_, _, _) => 1
    case EndDocument => -1
    case EndBlueprint => -1
    case EndFieldsList => -1
    case FieldCall(_, _, _) => 0
  }

  /** The XML writer's indent after one call. */
  function XmlIndent(ident: string, c: WriterCall): string {
    if Delta(c) == 1 then ident + Indent
    else if Delta(c) == -1 then Dedent(ident)
    else ident
  }

  /** The XML writer's indent after a sequence of calls. */
  function XmlIndentAfter(ident: string, calls: seq<WriterCall>): string
    decreases |calls|
  {
    if calls == [] then ident else XmlIndentAfter(XmlIndent(ident, calls[0]), calls[1..])
  }

  /** The net change of depth over a sequence of calls. */
  function Sum(calls: seq<WriterCall>): int {
    if calls == [] then 0 else Delta(calls[0]) + Sum(calls[1..])
  }

  /** Starting at depth `d`, no prefix of the calls closes more than it opened. */
  predicate NeverBelow(d: int, calls: seq<WriterCall>)
    decreases |calls|
  {
    calls == [] || (d + Delta(calls[0]) >= 0 && NeverBelow(d + Delta(calls[0]), calls[1..]))
  }

  /** Two texts of spaces of the same length are equal. */
  lemma SpacesEqual(s: string, n: nat)
    requires |s| == n && forall i :: 0 <= i < n ==> s[i] == ' '
    ensures s == Spaces(n)
  {
  }

  /** One call at depth `d` that does not go below zero leaves the indent of the new depth. */
  lemma XmlIndentStep(d: nat, c: WriterCall)
    requires d + Delta(c) >= 0
    ensures XmlIndent(Spaces(4 * d), c) == Spaces(4 * (d + Delta(c)))
  {
    var s := XmlIndent(Spaces(4 * d), c);
    SpacesEqual(s, 4 * (d + Delta(c)));
  }

  /**
   * From the indent of depth `d`, calls that never close more than they
   * opened leave the indent of depth `d` plus their net change; balanced
   * calls restore the indent.
   */
  lemma {:induction false} XmlIndentBalanced(d: nat, calls: seq<WriterCall>)
    requires NeverBelow(d, calls)
    decreases |calls|
    ensures d + Sum(calls) >= 0
    ensures XmlIndentAfter(Spaces(4 * d), calls) == Spaces(4 * (d + Sum(calls)))
  {
    if calls != [] {
      XmlIndentStep(d, calls[0]);
      XmlIndentBalanced(d + Delta(calls[0]), calls[1..]);
    }
  }

  /** Closing at the top level leaves the indent empty rather than failing. */
  lemma XmlCloseAtTop(c: WriterCall)
    requires Delta(c) == -1
    ensures XmlIndent("", c) == ""
  {
  }

  /** What the XML writer has written and its current indent. */
  datatype WriterState = WriterState(ident: string, out: string)

  /** One call of `XmlWriter`: the line it writes and its new indent. */
  function XmlStep(st: WriterState, c: WriterCall): (r: Result<WriterState, string>)
    ensures r.Success? ==> r.value.ident == XmlIndent(st.ident, c)
    ensures r.Success? ==> StartsWith(r.value.out, st.out)
    ensures r.Failure? <==> (c.FieldCall? || c.StartFieldsList?) && FormatField(c.name, c.typeName, c.desc).Failure?
  {
    var ident := XmlIndent(st.ident, c);
    match c
    case StartDocument => Success(WriterState(ident, st.out + "<blueprints>\n"))
    case EndDocument => Success(WriterState(ident, st.out + "</blueprints>\n"))
    case StartBlueprint(name) => Success(WriterState(ident, st.out + st.ident + "<blueprint name=\"" + name + "\">\n"))
    case EndBlueprint => Success(WriterState(ident, st.out + ident + "</blueprint>\n"))
    case FieldCall(name, t, desc) =>
      var attrs := FormatField(name, t, desc);
      if attrs.Failure? then Failure(attrs.error)
      else Success(WriterState(ident, st.out + st.ident + "<field " + attrs.value + "/>\n"))
    case StartFieldsList(name, t, desc) =>
      var attrs := FormatField(name, t, desc);
      if attrs.Failure? then Failure(attrs.error)
      else Success(WriterState(ident, st.out + st.ident + "<object-field " + attrs.value + ">\n"))
    case EndFieldsList => Success(WriterState(ident, st.out + ident + "</object-field>\n"))
  }

  /** The XML writer after a sequence of calls, stopped by the first error. */
  function XmlRun(st: WriterState, calls: seq<WriterCall>): (r: Result<WriterState, string>)
    ensures r.Success? ==> r.value.ident == XmlIndentAfter(st.ident, calls)
    decreases |calls|
  {
    if calls == [] then Success(st)
    else
      var next := XmlStep(st, calls[0]);
      if next.Failure? then Failure(next.error) else XmlRun(next.value, calls[1..])
  }

  /** `XmlWriter`: the stream it writes to and its indent. */
  class XmlWriter {
    var ident: string
    var out: string

    function State(): WriterState
      reads this
    {
      WriterState(ident, out)
    }

    constructor ()
      ensures State() == WriterState("", "")
    {
      ident := "";
      out := "";
    }

    method Start()
      modifies this
      ensures State() == XmlStep(old(State()), StartDocument).value
    {
      out := out + "<blueprints>\n";
      ident := ident + Indent;
    }

    method End()
      modifies this
      ensures State() == XmlStep(old(State()), EndDocument).value
    {
      out := out + "</blueprints>\n";
      ident := Dedent(ident);
    }

    method StartBlueprint(name: string)
      modifies this
      ensures State() == XmlStep(old(State()), WriterCall.StartBlueprint(name)).value
    {
      out := out + ident + "<blueprint name=\"" + name + "\">\n";
      ident := ident + Indent;
    }

    method EndBlueprint()
      modifies this
      ensures State() == XmlStep(old(State()), WriterCall.EndBlueprint).value
    {
      ident := Dedent(ident);
      out := out + ident + "</blueprint>\n";
    }

    /** `field(name, type, desc)`; an error leaves the writer as it was. */
    method Field(name: Option<string>, t: Option<string>, desc: Option<string>) returns (error: Option<string>)
      modifies this
      ensures XmlStep(old(State()), FieldCall(name, t, desc)).Failure? ==>
        error == Some(XmlStep(old(State()), FieldCall(name, t, desc)).error) && State() == old(State())
      ensures XmlStep(old(State()), FieldCall(name, t, desc)).Success? ==>
        error.None? && State() == XmlStep(old(State()), FieldCall(name, t, desc)).value
    {
      var attrs := FormatField(name, t, desc);
      if attrs.Failure? {
        return Some(attrs.error);
      }
      out := out + ident + "<field " + attrs.value + "/>\n";
      error := None;
    }

    /** `start_fields_list(name, type, desc)`; an error leaves the writer as it was. */
    method StartFieldsList(name: Option<string>, t: Option<string>, desc: Option<string>) returns (error: Option<string>)
      modifies this
      ensures XmlStep(old(State()), WriterCall.StartFieldsList(name, t, desc)).Failure? ==>
        error == Some(XmlStep(old(State()), WriterCall.StartFieldsList(name, t, desc)).error) && State() == old(State())
      ensures XmlStep(old(State()), WriterCall.StartFieldsList(name, t, desc)).Success? ==>
        error.None? && State() == XmlStep(old(State()), WriterCall.StartFieldsList(name, t, desc)).value
    {
      var attrs := FormatField(name, t, desc);
      if attrs.Failure? {
        return Some(attrs.error);
      }
      out := out + ident + "<object-field " + attrs.value + ">\n";
      ident := ident + Indent;
      error := None;
    }

    method EndFieldsList()
      modifies this
      ensures State() == XmlStep(old(State()), WriterCall.EndFieldsList).value
    {
      ident := Dedent(ident);
      out := out + ident + "</object-field>\n";
    }
  }

  /** The text writer's indent after one call: closing a module type resets it. */
  function TextIndent(ident: string, c: WriterCall): string {
    match c
    case StartBlueprint(_) => ident + Indent
    case StartFieldsList(_, _, _) => ident + Indent
    case EndBlueprint => ""
    case EndFieldsList => Dedent(ident)
    case _ => ident
  }

  /** One call of `TextWriter`, which prints to standard output and has no document start or end. */
  function TextStep(st: WriterState, c: WriterCall): (r: Result<WriterState, string>)
    ensures r.Success? ==> r.value.ident == TextIndent(st.ident, c)
    ensures r.Failure? <==> c.StartDocument? || c.EndDocument?
  {
    var ident := TextIndent(st.ident, c);
    match c
    case StartDocument => Failure("'TextWriter' object has no attribute 'start'")
    case EndDocument => Failure("'TextWriter' object has no attribute 'end'")
    case StartBlueprint(name) => Success(WriterState(ident, st.out + name + " {\n"))
    case EndBlueprint => Success(WriterState(ident, st.out + "}\n"))
    case FieldCall(name, t, desc) =>
      Success(WriterState(ident, st.out + st.ident + Str(name) + " (" + Str(t) + ";" + Str(desc) + ")\n"))
    case StartFieldsList(name, t, desc) =>
      Success(WriterState(ident, st.out + st.ident + Str(name) + " (" + Str(t) + ";" + Str(desc) + ") {\n"))
    case EndFieldsList => Success(WriterState(ident, st.out + ident + "}\n"))
  }

  /** The text writer's indent after a sequence of calls. */
  function TextIndentAfter(ident: string, calls: seq<WriterCall>): string
    decreases |calls|
  {
    if calls == [] then ident else TextIndentAfter(TextIndent(ident, calls[0]), calls[1..])
  }

  /** Calls ending with the end of a module type leave the text writer unindented, whatever came before. */
  lemma {:induction false} TextEndResets(ident: string, calls: seq<WriterCall>)
    ensures TextIndentAfter(ident, calls + [EndBlueprint]) == ""
    decreases |calls|
  {
    if calls != [] {
      assert (calls + [EndBlueprint])[1..] == calls[1..] + [EndBlueprint];
      TextEndResets(TextIndent(ident, calls[0]), calls[1..]);
    }
  }

  /** `TextWriter`: its indent and what it has printed. */
  class TextWriter {
    var ident: string
    var out: string

    function State(): WriterState
      reads this
    {
      WriterState(ident, out)
    }

    constructor ()
      ensures State() == WriterState("", "")
    {
      ident := "";
      out := "";
    }

    method StartBlueprint(name: string)
      modifies this
      ensures State() == TextStep(old(State()), WriterCall.StartBlueprint(name)).value
    {
      out := out + name + " {\n";
      ident := ident + Indent;
    }

    method EndBlueprint()
      modifies this
      ensures State() == TextStep(old(State()), WriterCall.EndBlueprint).value
    {
      ident := "";
      out := out + "}\n";
    }

    method Field(name: Option<string>, t: Option<string>, desc: Option<string>)
      modifies this
      ensures State() == TextStep(old(State()), FieldCall(name, t, desc)).value
    {
      out := out + ident + Str(name) + " (" + Str(t) + ";" + Str(desc) + ")\n";
    }

    method StartFieldsList(name: Option<string>, t: Option<string>, desc: Option<string>)
      modifies this
      ensures State() == TextStep(old(State()), WriterCall.StartFieldsList(name, t, desc)).value
    {
      out := out + ident + Str(name) + " (" + Str(t) + ";" + Str(desc) + ") {\n";
      ident := ident + Indent;
    }

    method EndFieldsList()
      modifies this
      ensures State() == TextStep(old(State()), WriterCall.EndFieldsList).value
    {
      ident := Dedent(ident);
      out := out + ident + "}\n";
    }
  }

  // ---------------------------------------------------------------- printing

  /** A field as `print` sees it: a plain field, or an object field with its children. */
  datatype FieldTree =
    | Plain(name: Option<string>, typeName: Option<string>, desc: Option<string>)
    | Object(name: Option<string>, typeName: Option<string>, desc: Option<string>, children: seq<FieldTree>)

  /** The calls `BlueprintField.print` makes. */
  function FieldCalls(f: FieldTree): seq<WriterCall>
    decreases f, 1
  {
    if f.Object? then
      [StartFieldsList(f.name, f.typeName, f.desc)] + FieldsCalls(f.children) + [EndFieldsList]
    else [FieldCall(f.name, f.typeName, f.desc)]
  }

  /** The calls printing each field in turn. */
  function FieldsCalls(fs: seq<FieldTree>): seq<WriterCall>
    decreases fs, 0
  {
    if fs == [] then [] else FieldCalls(fs[0]) + FieldsCalls(fs[1..])
  }

  /** The calls `Blueprint.print` makes. */
  function BlueprintCalls(name: string, fields: seq<FieldTree>): seq<WriterCall> {
    [StartBlueprint(name)] + FieldsCalls(fields) + [EndBlueprint]
  }

  lemma {:induction false} SumConcat(a: seq<WriterCall>, b: seq<WriterCall>)
    ensures Sum(a + b) == Sum(a) + Sum(b)
    decreases |a|
  {
    if a != [] {
      assert (a + b)[0] == a[0];
      assert (a + b)[1..] == a[1..] + b;
      SumConcat(a[1..], b);
    } else {
      assert a + b == b;
    }
  }

  lemma {:induction false} NeverBelowConcat(d: int, a: seq<WriterCall>, b: seq<WriterCall>)
    requires NeverBelow(d, a) && NeverBelow(d + Sum(a), b)
    ensures NeverBelow(d, a + b)
    decreases |a|
  {
    if a != [] {
      assert (a + b)[0] == a[0];
      assert (a + b)[1..] == a[1..] + b;
      NeverBelowConcat(d + Delta(a[0]), a[1..], b);
    } else {
      assert a + b == b;
    }
  }

  /** A printed field opens exactly what it closes, and never closes more than it opened. */
  lemma {:induction false} FieldCallsBalanced(d: nat, f: FieldTree)
    ensures Sum(FieldCalls(f)) == 0 && NeverBelow(d, FieldCalls(f))
    decreases f, 1
  {
    if f.Object? {
      var open: seq<WriterCall> := [StartFieldsList(f.name, f.typeName, f.desc)];
      var inner := FieldsCalls(f.children);
      FieldsCallsBalanced(d + 1, f.children);
      assert NeverBelow(d + 1 + Sum(inner), [EndFieldsList]);
      NeverBelowConcat(d + 1, inner, [EndFieldsList]);
      SumConcat(inner, [EndFieldsList]);
      assert NeverBelow(d, open + (inner + [EndFieldsList]));
      SumConcat(open, inner + [EndFieldsList]);
      assert FieldCalls(f) == open + (inner + [EndFieldsList]);
    }
  }

  lemma {:induction false} FieldsCallsBalanced(d: nat, fs: seq<FieldTree>)
    ensures Sum(FieldsCalls(fs)) == 0 && NeverBelow(d, FieldsCalls(fs))
    decreases fs, 0
  {
    if fs != [] {
      FieldCallsBalanced(d, fs[0]);
      FieldsCallsBalanced(d, fs[1..]);
      SumConcat(FieldCalls(fs[0]), FieldsCalls(fs[1..]));
      NeverBelowConcat(d, FieldCalls(fs[0]), FieldsCalls(fs[1..]));
    }
  }

  /** Printing a module type through the XML writer from any depth restores that depth's indent. */
  lemma XmlPrintRestoresIndent(d: nat, name: string, fields: seq<FieldTree>)
    ensures XmlIndentAfter(Spaces(4 * d), BlueprintCalls(name, fields)) == Spaces(4 * d)
  {
    BlueprintCallsBalanced(d, name, fields);
    XmlIndentBalanced(d, BlueprintCalls(name, fields));
  }

  /** A printed module type opens exactly what it closes, and never closes more than it opened. */
  lemma BlueprintCallsBalanced(d: nat, name: string, fields: seq<FieldTree>)
    ensures Sum(BlueprintCalls(name, fields)) == 0 && NeverBelow(d, BlueprintCalls(name, fields))
  {
    var open: seq<WriterCall> := [StartBlueprint(name)];
    var inner := FieldsCalls(fields);
    FieldsCallsBalanced(d + 1, fields);
    assert NeverBelow(d + 1 + Sum(inner), [EndBlueprint]);
    NeverBelowConcat(d + 1, inner, [EndBlueprint]);
    SumConcat(inner, [EndBlueprint]);
    assert NeverBelow(d, open + (inner + [EndBlueprint]));
    SumConcat(open, inner + [EndBlueprint]);
    assert BlueprintCalls(name, fields) == open + (inner + [EndBlueprint]);
  }

  /** A module type as `print` sees it. */
  datatype BlueprintTree = BlueprintTree(name: string, fields: seq<FieldTree>)

  /** The calls printing each module type in turn. */
  function BlueprintsCalls(bps: seq<BlueprintTree>): seq<WriterCall> {
    if bps == [] then [] else BlueprintCalls(bps[0].name, bps[0].fields) + BlueprintsCalls(bps[1..])
  }

  /** The calls writing the whole schema: the document element around every module type. */
  function DocumentCalls(bps: seq<BlueprintTree>): seq<WriterCall> {
    [StartDocument] + BlueprintsCalls(bps) + [EndDocument]
  }

  lemma {:induction false} BlueprintsCallsBalanced(d: nat, bps: seq<BlueprintTree>)
    ensures Sum(BlueprintsCalls(bps)) == 0 && NeverBelow(d, BlueprintsCalls(bps))
    decreases |bps|
  {
    if bps != [] {
      BlueprintCallsBalanced(d, bps[0].name, bps[0].fields);
      BlueprintsCallsBalanced(d, bps[1..]);
      SumConcat(BlueprintCalls(bps[0].name, bps[0].fields), BlueprintsCalls(bps[1..]));
      NeverBelowConcat(d, BlueprintCalls(bps[0].name, bps[0].fields), BlueprintsCalls(bps[1..]));
    }
  }

  /** Writing a whole schema indents each module type by one level and ends unindented. */
  lemma XmlDocumentIndent(bps: seq<BlueprintTree>)
    ensures XmlIndentAfter("", [StartDocument]) == Indent
    ensures XmlIndentAfter("", DocumentCalls(bps)) == ""
  {
    var open: seq<WriterCall> := [StartDocument];
    var inner := BlueprintsCalls(bps);
    BlueprintsCallsBalanced(1, bps);
    assert NeverBelow(1 + Sum(inner), [EndDocument]);
    NeverBelowConcat(1, inner, [EndDocument]);
    SumConcat(inner, [EndDocument]);
    assert NeverBelow(0, open + (inner + [EndDocument]));
    SumConcat(open, inner + [EndDocument]);
    assert DocumentCalls(bps) == open + (inner + [EndDocument]);
    XmlIndentBalanced(0, DocumentCalls(bps));
    assert Spaces(0) == "";
    assert "" + Indent == Indent;
  }

  /** Printing a module type through the text writer leaves it unindented, from any indent. */
  lemma TextPrintResets(ident: string, name: string, fields: seq<FieldTree>)
    ensures TextIndentAfter(ident, BlueprintCalls(name, fields)) == ""
  {
    TextEndResets(ident, [StartBlueprint(name)] + FieldsCalls(fields));
  }

  // ---------------------------------------------------------------- containers

  /** A description loses one leading `, ` left over from the reference's layout. */
  function TrimDesc(desc: string): (r: string)
    ensures StartsWith(desc, ", ") ==> ", " + r == desc
    ensures !StartsWith(desc, ", ") ==> r == desc
  {
    if StartsWith(desc, ", ") then desc[2..] else desc
  }

  /** Only one `, ` is removed. */
  lemma TrimDescOnce(d: string)
    ensures TrimDesc(", " + d) == d
    ensures TrimDesc(", , " + d) == ", " + d
  {
    assert StartsWith(", " + d, ", ");
    assert StartsWith(", , " + d, ", ");
    assert (", , " + d)[2..] == ", " + d;
  }

  /** `BlueprintField`: a field read from the reference, with its children once it has any. */
  class BlueprintField {
    const tag: map<string, string>
    const name: Option<string>
    const typeName: Option<string>
    const desc: Option<string>
    var isAutoAdded: bool
    var fields: Option<seq<BlueprintField>>

    constructor (tag: map<string, string>)
      ensures this.tag == tag
      ensures name == (if "name" in tag then Some(tag["name"]) else None)
      ensures typeName == (if "type" in tag then Some(tag["type"]) else None)
      ensures desc == (if "desc" in tag then Some(TrimDesc(tag["desc"])) else None)
      ensures !isAutoAdded && fields.None?
    {
      this.tag := tag;
      name := if "name" in tag then Some(tag["name"]) else None;
      typeName := if "type" in tag then Some(tag["type"]) else None;
      desc := if "desc" in tag then Some(TrimDesc(tag["desc"])) else None;
      isAutoAdded := false;
      fields := None;
    }

    /** `add(f)`: the first child creates the list; children keep their order. */
    method Add(f: BlueprintField)
      modifies this
      ensures fields == Some((if old(fields).Some? then old(fields).value else []) + [f])
      ensures isAutoAdded == old(isAutoAdded)
    {
      if fields.None? {
        fields := Some([]);
      }
      fields := Some(fields.value + [f]);
    }

    /** `last()`: the newest child; a field that never had a child has no list to measure. */
    function Last(): (r: Result<Option<BlueprintField>, string>)
      reads this
      ensures fields.None? <==> r.Failure?
      ensures r.Success? ==> r.value == LastOf(fields.value)
    {
      if fields.None? then Failure("object of type 'NoneType' has no len()") else Success(LastOf(fields.value))
    }

    /** `is_container()`: the reference marks object fields with the `accordion` class. */
    predicate IsContainer()
      reads this
    {
      "class" in tag && tag["class"] == "accordion"
    }

    /** `field(name)`: the first child with that name. */
    method Field(n: string) returns (r: Option<BlueprintField>)
      ensures fields.None? ==> r.None?
      ensures fields.Some? ==> r == FirstNamed(fields.value, n)
    {
      if fields.None? {
        return None;
      }
      r := Find(fields.value, n);
    }
  }

  /** `Blueprint`: a module type read from the reference and its fields. */
  class Blueprint {
    const name: string
    var isAutoAdded: bool
    var fields: seq<BlueprintField>

    constructor (name: string)
      ensures this.name == name && !isAutoAdded && fields == []
    {
      this.name := name;
      isAutoAdded := false;
      fields := [];
    }

    method Add(f: BlueprintField)
      modifies this
      ensures fields == old(fields) + [f] && isAutoAdded == old(isAutoAdded)
    {
      fields := fields + [f];
    }

    function Last(): (r: Option<BlueprintField>)
      reads this
      ensures r == LastOf(fields)
    {
      LastOf(fields)
    }

    method Field(n: string) returns (r: Option<BlueprintField>)
      ensures r == FirstNamed(fields, n)
    {
      r := Find(fields, n);
    }
  }

  /** The last element of a list, or nothing for an empty one. */
  function LastOf(fs: seq<BlueprintField>): (r: Option<BlueprintField>)
    ensures r.None? <==> fs == []
    ensures r.Some? ==> r.value == fs[|fs| - 1]
  {
    if fs == [] then None else Some(fs[|fs| - 1])
  }

  /** The newest addition is the last element. */
  lemma LastAfterAdd(fs: seq<BlueprintField>, f: BlueprintField)
    ensures LastOf(fs + [f]) == Some(f)
  {
  }

  /** The position of the first field named `n` at or after `from`, or `-1`. */
  function FirstIndexFrom(fs: seq<BlueprintField>, n: string, from: nat): (i: int)
    requires from <= |fs|
    ensures i == -1 || from <= i < |fs|
    ensures i == -1 <==> forall j :: from <= j < |fs| ==> fs[j].name != Some(n)
    ensures i != -1 ==> fs[i].name == Some(n) && forall j :: from <= j < i ==> fs[j].name != Some(n)
    decreases |fs| - from
  {
    if from == |fs| then -1
    else if fs[from].name == Some(n) then from
    else FirstIndexFrom(fs, n, from + 1)
  }

  /** The first field named `n`, if any. */
  function FirstNamed(fs: seq<BlueprintField>, n: string): Option<BlueprintField> {
    var i := FirstIndexFrom(fs, n, 0);
    if i == -1 then None else Some(fs[i])
  }

  /** The lookup finds a field exactly when one has the name, and then the earliest one. */
  lemma FirstNamedFound(fs: seq<BlueprintField>, n: string)
    ensures FirstNamed(fs, n).None? <==> forall j :: 0 <= j < |fs| ==> fs[j].name != Some(n)
    ensures FirstNamed(fs, n).Some? ==>
      exists i :: 0 <= i < |fs| && fs[i] == FirstNamed(fs, n).value && fs[i].name == Some(n)
                  && forall j :: 0 <= j < i ==> fs[j].name != Some(n)
  {
    var i := FirstIndexFrom(fs, n, 0);
    if i != -1 {
      assert fs[i] == FirstNamed(fs, n).value;
    }
  }

  /** The `for field in fields` loop of `field(name)`. */
  method Find(fs: seq<BlueprintField>, n: string) returns (r: Option<BlueprintField>)
    ensures r == FirstNamed(fs, n)
  {
    var i := 0;
    while i < |fs|
      invariant 0 <= i <= |fs|
      invariant FirstIndexFrom(fs, n, 0) == FirstIndexFrom(fs, n, i)
    {
      if fs[i].name == Some(n) {
        return Some(fs[i]);
      }
      i := i + 1;
    }
    return None;
  }
}
