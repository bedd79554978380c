/**
 * The reader of the completion schema (`blueprints.xml`): a stack machine
 * over the document's start and end tags. `<blueprint>` and `<object-field>`
 * open a frame, `<field>` adds a field to the innermost frame, and the end
 * tags close frames into module types and object fields.
 *
 * The XML pull parser is not modelled: the document is the sequence of
 * events it reports.
 */
module FieldsXml {
  import opened Wrappers
  import opened Schema

  /** A parser event: a start tag with its attributes, an end tag, or anything else. */
  datatype Event = Start(tag: string, attrs: map<string, string>) | End(tag: string) | Other

  /** A stack entry: the name of an open definition and the fields read into it so far. */
  datatype Frame = Frame(name: string, fields: seq<Field>)

  /** The reader's state: the stack and the module types read so far. */
  datatype Reader = Reader(stack: seq<Frame>, blueprints: seq<BlueprintInfo>)

  /** `parser.getAttributeValue(null, key)` */
  function Attr(attrs: map<string, string>, key: string): Option<string> {
    if key in attrs then Some(attrs[key]) else None
  }

  /** The field class of each supported `type` attribute. */
  function FieldOfType(typeName: string, name: string, descr: string): (f: Option<Field>)
    ensures f.Some? ==> f.value.name == name
  {
    if typeName == "string" then Some(StringField(name, descr))
    else if typeName == "string[]" then Some(StringListField(name, descr))
    else if typeName == "object[]" then Some(ObjectListField(name, descr))
    else if typeName == "bool" then Some(BooleanField(name, descr))
    else if typeName == "number" then Some(NumberField(name, descr))
    else if typeName == "blueprint[]" then Some(ReferencesListField(name, descr))
    else if typeName == "object" then Some(ObjectField(name, descr, []))
    else None
  }

  const SupportedTypes: set<string> := {"string", "string[]", "object[]", "bool", "number", "blueprint[]", "object"}

  /** The `type` attribute that names the field's class, for the classes the reader makes. */
  function TypeName(f: Field): Option<string> {
    match f
    case StringField(_, _) => Some("string")
    case StringListField(_, _) => Some("string[]")
    case ObjectListField(_, _) => Some("object[]")
    case BooleanField(_, _) => Some("bool")
    case NumberField(_, _) => Some("number")
    case ReferencesListField(_, _) => Some("blueprint[]")
    case ObjectField(_, _, _) => Some("object")
    case _ => None
  }

  /**
   * The type mapping is one to one: exactly the seven supported types give a
   * field, different types give different classes, and each class the
   * reader makes is read back from its own type name.
   */
  lemma TypeMapping(t: string, name: string, descr: string)
    ensures FieldOfType(t, name, descr).Some? <==> t in SupportedTypes
    ensures FieldOfType(t, name, descr).Some? ==> TypeName(FieldOfType(t, name, descr).value) == Some(t)
    ensures t == "object" ==> FieldOfType(t, name, descr) == Some(ObjectField(name, descr, []))
  {
  }

  lemma TypeNameRoundTrip(f: Field)
    requires TypeName(f).Some? && !f.ObjectField?
    ensures FieldOfType(TypeName(f).value, f.name, f.descr) == Some(f)
  {
  }

  /**
   * A `<field>` start tag: `name` and `type` are required, `descr` defaults
   * to the empty string, and the type must be supported.
   */
  function FieldOf(attrs: map<string, string>): (r: Result<Field, string>)
    ensures r.Success? ==> "name" in attrs && "type" in attrs && attrs["type"] in SupportedTypes
    ensures r.Success? ==> (r.value.name == attrs["name"]
                            && r.value.descr == (if "descr" in attrs then attrs["descr"] else ""))
  {
    match Attr(attrs, "name")
    case None => Failure("Missing field name")
    case Some(name) =>
      match Attr(attrs, "type")
      case None => Failure("Missing field type")
      case Some(t) =>
        var descr := if "descr" in attrs then attrs["descr"] else "";
        match FieldOfType(t, name, descr)
        case None => Failure("Unsupported field type")
        case Some(f) => Success(f)
  }

  /** `stack.last().second.add(field)`; the empty stack throws. */
  function AddField(stack: seq<Frame>, f: Field): (r: Result<seq<Frame>, string>)
    ensures r.Success? <==> stack != []
    ensures r.Success? ==> (|r.value| == |stack| && r.value[..|stack| - 1] == stack[..|stack| - 1]
                            && r.value[|stack| - 1] == Frame(stack[|stack| - 1].name, stack[|stack| - 1].fields + [f]))
  {
    if stack == [] then Failure("Empty stack")
    else
      var top := stack[|stack| - 1];
      Success(stack[..|stack| - 1] + [Frame(top.name, top.fields + [f])])
  }

  /** One event of the document. */
  function StepEvent(rd: Reader, e: Event): (r: Result<Reader, string>) {
    match e
    case Other => Success(rd)
    case Start(tag, attrs) =>
      if tag == "blueprints" then Success(rd)
      else if tag == "blueprint" then
        match Attr(attrs, "name")
        case None => Failure("Missing blueprint name")
        case Some(name) => Success(Reader(rd.stack + [Frame(name, [])], rd.blueprints))
      else if tag == "field" then
        match FieldOf(attrs)
        case Failure(err) => Failure(err)
        case Success(f) =>
          match AddField(rd.stack, f)
          case Failure(err) => Failure(err)
          case Success(stack) => Success(Reader(stack, rd.blueprints))
      else if tag == "object-field" then
        match Attr(attrs, "name")
        case None => Failure("Missing object-field name")
        case Some(name) => Success(Reader(rd.stack + [Frame(name, [])], rd.blueprints))
      else Failure("Unsupported tag")
    case End(tag) =>
      if tag == "blueprint" then
        if rd.stack == [] then Failure("Empty stack")
        else
          var top := rd.stack[|rd.stack| - 1];
          Success(Reader(rd.stack[..|rd.stack| - 1], rd.blueprints + [BlueprintInfo(top.name, "", top.fields)]))
      else if tag == "object-field" then
        if rd.stack == [] then Failure("Empty stack")
        else
          var top := rd.stack[|rd.stack| - 1];
          match AddField(rd.stack[..|rd.stack| - 1], ObjectField(top.name, "", top.fields))
          case Failure(err) => Failure(err)
          case Success(stack) => Success(Reader(stack, rd.blueprints))
      else Success(rd)
  }

  /** The events in order from a reader state; the first error ends the read. */
  function ReadFrom(rd: Reader, events: seq<Event>): (r: Result<Reader, string>)
    decreases |events|
  {
    if events == [] then Success(rd)
    else
      match StepEvent(rd, events[0])
      case Failure(err) => Failure(err)
      case Success(next) => ReadFrom(next, events[1..])
  }

  /** `read()` as a specification: the module types of the whole document. */
  function ReadAll(events: seq<Event>): (r: Result<seq<BlueprintInfo>, string>) {
    match ReadFrom(Reader([], []), events)
    case Failure(err) => Failure(err)
    case Success(rd) => Success(rd.blueprints)
  }

  /** `read()`: one pass over the events with a mutable stack and result list. */
  method Read(events: seq<Event>) returns (r: Result<seq<BlueprintInfo>, string>)
    ensures r == ReadAll(events)
  {
    var stack: seq<Frame> := [];
    var blueprints: seq<BlueprintInfo> := [];
    var i := 0;
    while i < |events|
      invariant 0 <= i <= |events|
      invariant ReadFrom(Reader([], []), events) == ReadFrom(Reader(stack, blueprints), events[i..])
      decreases |events| - i
    {
      var e := events[i];
      assert events[i..][0] == e && events[i..][1..] == events[i + 1..];
      match e {
        case Other =>
        case Start(tag, attrs) =>
          if tag == "blueprints" {
          } else if tag == "blueprint" {
            var name := Attr(attrs, "name");
            if name.None? {
              return Failure("Missing blueprint name");
            }
            stack := stack + [Frame(name.value, [])];
          } else if tag == "field" {
            var field := FieldOf(attrs);
            if field.Failure? {
              return Failure(field.error);
            }
            if stack == [] {
              return Failure("Empty stack");
            }
            var top := stack[|stack| - 1];
            stack := stack[..|stack| - 1] + [Frame(top.name, top.fields + [field.value])];
          } else if tag == "object-field" {
            var name := Attr(attrs, "name");
            if name.None? {
              return Failure("Missing object-field name");
            }
            stack := stack + [Frame(name.value, [])];
          } else {
            return Failure("Unsupported tag");
          }
        case End(tag) =>
          if tag == "blueprint" {
            if stack == [] {
              return Failure("Empty stack");
            }
            var info := stack[|stack| - 1];
            stack := stack[..|stack| - 1];
            blueprints := blueprints + [BlueprintInfo(info.name, "", info.fields)];
          } else if tag == "object-field" {
            if stack == [] {
              return Failure("Empty stack");
            }
            var info := stack[|stack| - 1];
            stack := stack[..|stack| - 1];
            if stack == [] {
              return Failure("Empty stack");
            }
            var top := stack[|stack| - 1];
            stack := stack[..|stack| - 1] + [Frame(top.name, top.fields + [ObjectField(info.name, "", info.fields)])];
          }
      }
      i := i + 1;
    }
    assert events[i..] == [];
    r := Success(blueprints);
  }

  // ---------------------------------------------------------------- writing

  /**
   * The events of a field as the schema file writes it: an `<object-field>`
   * element around its fields for an object field, an empty `<field>`
   * element otherwise.
   */
  function FieldEvents(f: Field): seq<Event>
    decreases f, 0
  {
    match f
    case ObjectField(name, _, fs) => [Start("object-field", map["name" := name])] + FieldsEvents(fs) + [End("object-field")]
    case _ =>
      var t := if TypeName(f).Some? then TypeName(f).value else "";
      [Start("field", map["name" := f.name, "type" := t, "descr" := f.descr]), End("field")]
  }

  function FieldsEvents(fs: seq<Field>): seq<Event>
    decreases fs, 1
  {
    if fs == [] then [] else FieldEvents(fs[0]) + FieldsEvents(fs[1..])
  }

  /** The events of a whole document listing the given module types. */
  function InfosEvents(infos: seq<BlueprintInfo>): seq<Event> {
    if infos == [] then []
    else [Start("blueprint", map["name" := infos[0].name])] + FieldsEvents(infos[0].fields) + [End("blueprint")]
         + InfosEvents(infos[1..])
  }

  function Document(infos: seq<BlueprintInfo>): seq<Event> {
    [Start("blueprints", map[])] + InfosEvents(infos) + [End("blueprints")]
  }

  /**
   * The fields a document can carry: every class has a type name, and an
   * object field (written as `<object-field>`) has no description, since the
   * reader gives it none.
   */
  predicate Writable(f: Field)
    decreases f, 0
  {
    match f
    case ObjectField(_, descr, fs) => descr == "" && AllWritable(fs)
    case _ => TypeName(f).Some?
  }

  predicate AllWritable(fs: seq<Field>)
    decreases fs, 1
  {
    forall i :: 0 <= i < |fs| ==> Writable(fs[i])
  }

  /** Reading two pieces of a document one after the other. */
  lemma {:induction false} ReadAppend(rd: Reader, a: seq<Event>, b: seq<Event>)
    ensures ReadFrom(rd, a + b) ==
      if ReadFrom(rd, a).Failure? then ReadFrom(rd, a) else ReadFrom(ReadFrom(rd, a).value, b)
    decreases |a|
  {
    if a == [] {
      assert a + b == b;
    } else {
      assert (a + b)[0] == a[0];
      assert (a + b)[1..] == a[1..] + b;
      var next := StepEvent(rd, a[0]);
      if next.Success? {
        ReadAppend(next.value, a[1..], b);
      }
    }
  }

  /** A field's events add exactly that field to the innermost open frame. */
  lemma {:induction false} FieldRoundTrip(below: seq<Frame>, top: Frame, f: Field, done: seq<BlueprintInfo>)
    requires Writable(f)
    ensures ReadFrom(Reader(below + [top], done), FieldEvents(f))
      == Success(Reader(below + [Frame(top.name, top.fields + [f])], done))
    decreases f, 0
  {
    var rd := Reader(below + [top], done);
    if f.ObjectField? {
      var name, fs := f.name, f.fields;
      var open := [Start("object-field", map["name" := name])];
      var inner := Reader(below + [top] + [Frame(name, [])], done);
      assert ReadFrom(rd, open) == Success(inner) by {
        assert open[1..] == [];
      }
      FieldsRoundTrip(below + [top], Frame(name, []), fs, done);
      assert [] + fs == fs;
      var filled := Reader(below + [top] + [Frame(name, fs)], done);
      assert ReadFrom(inner, FieldsEvents(fs)) == Success(filled);
      var close := [End("object-field")];
      assert ReadFrom(filled, close) == Success(Reader(below + [Frame(top.name, top.fields + [f])], done)) by {
        assert close[1..] == [];
        assert (below + [top] + [Frame(name, fs)])[..|below| + 1] == below + [top];
        assert (below + [top])[..|below|] == below;
      }
      ReadAppend(rd, open, FieldsEvents(fs));
      ReadAppend(rd, open + FieldsEvents(fs), close);
    } else {
      var t := TypeName(f).value;
      var attrs := map["name" := f.name, "type" := t, "descr" := f.descr];
      TypeNameRoundTrip(f);
      assert FieldOf(attrs) == Success(f);
      var evs := FieldEvents(f);
      assert evs == [Start("field", attrs), End("field")];
      assert (below + [top])[..|below|] == below;
      var rd1 := Reader(below + [Frame(top.name, top.fields + [f])], done);
      assert StepEvent(rd, evs[0]) == Success(rd1);
      assert StepEvent(rd1, evs[1]) == Success(rd1);
      assert evs[1..][1..] == [];
      assert ReadFrom(rd1, evs[1..]) == Success(rd1);
    }
  }

  lemma {:induction false} FieldsRoundTrip(below: seq<Frame>, top: Frame, fs: seq<Field>, done: seq<BlueprintInfo>)
    requires AllWritable(fs)
    ensures ReadFrom(Reader(below + [top], done), FieldsEvents(fs))
      == Success(Reader(below + [Frame(top.name, top.fields + fs)], done))
    decreases fs, 1
  {
    if fs == [] {
      assert top.fields + fs == top.fields;
    } else {
      var rd := Reader(below + [top], done);
      FieldRoundTrip(below, top, fs[0], done);
      var top' := Frame(top.name, top.fields + [fs[0]]);
      assert AllWritable(fs[1..]);
      FieldsRoundTrip(below, top', fs[1..], done);
      ReadAppend(rd, FieldEvents(fs[0]), FieldsEvents(fs[1..]));
      assert top.fields + [fs[0]] + fs[1..] == top.fields + fs;
    }
  }

  /**
   * Reading a document gives back the module types it was written from, in
   * document order, when each has no description (the reader gives it none)
   * and carries only writable fields.
   */
  lemma ReadDocument(infos: seq<BlueprintInfo>)
    requires forall i :: 0 <= i < |infos| ==> infos[i].desc == "" && AllWritable(infos[i].fields)
    ensures ReadAll(Document(infos)) == Success(infos)
  {
    InfosRoundTrip(infos, []);
    var doc := Document(infos);
    var open := [Start("blueprints", map[])];
    var close := [End("blueprints")];
    assert ReadFrom(Reader([], []), open) == Success(Reader([], [])) by {
      assert open[1..] == [];
    }
    assert ReadFrom(Reader([], infos), close) == Success(Reader([], infos)) by {
      assert close[1..] == [];
    }
    ReadAppend(Reader([], []), open, InfosEvents(infos));
    ReadAppend(Reader([], []), open + InfosEvents(infos), close);
    assert [] + infos == infos;
  }

  /** The events of one definition. */
  function InfoEvents(info: BlueprintInfo): seq<Event> {
    [Start("blueprint", map["name" := info.name])] + FieldsEvents(info.fields) + [End("blueprint")]
  }

  /** One written definition reads back as itself, appended to those read before it. */
  lemma InfoRoundTrip(info: BlueprintInfo, done: seq<BlueprintInfo>)
    requires info.desc == "" && AllWritable(info.fields)
    ensures ReadFrom(Reader([], done), InfoEvents(info)) == Success(Reader([], done + [info]))
  {
    var open := [Start("blueprint", map["name" := info.name])];
    var close := [End("blueprint")];
    var rd := Reader([], done);
    assert ReadFrom(rd, open) == Success(Reader([Frame(info.name, [])], done)) by {
      assert open[1..] == [];
      assert [] + [Frame(info.name, [])] == [Frame(info.name, [])];
      assert StepEvent(rd, open[0]) == Success(Reader([Frame(info.name, [])], done));
    }
    FieldsRoundTrip([], Frame(info.name, []), info.fields, done);
    assert [] + [Frame(info.name, [])] == [Frame(info.name, [])];
    assert [] + info.fields == info.fields;
    assert ReadFrom(Reader([Frame(info.name, info.fields)], done), close)
        == Success(Reader([], done + [info])) by {
      assert close[1..] == [];
      assert info == BlueprintInfo(info.name, "", info.fields);
    }
    ReadAppend(rd, open, FieldsEvents(info.fields));
    ReadAppend(rd, open + FieldsEvents(info.fields), close);
  }

  lemma {:induction false} InfosRoundTrip(infos: seq<BlueprintInfo>, done: seq<BlueprintInfo>)
    requires forall i :: 0 <= i < |infos| ==> infos[i].desc == "" && AllWritable(infos[i].fields)
    ensures ReadFrom(Reader([], done), InfosEvents(infos)) == Success(Reader([], done + infos))
    decreases |infos|
  {
    if infos == [] {
      assert done + infos == done;
    } else {
      var info := infos[0];
      assert InfosEvents(infos) == InfoEvents(info) + InfosEvents(infos[1..]);
      InfoRoundTrip(info, done);
      InfosRoundTrip(infos[1..], done + [info]);
      ReadAppend(Reader([], done), InfoEvents(info), InfosEvents(infos[1..]));
      assert done + [info] + infos[1..] == done + infos;
    }
  }

  /** An unknown start tag, or a `<field>` outside any definition, stops the read with an error. */
  lemma ReadErrors(tag: string, attrs: map<string, string>, rest: seq<Event>)
    ensures tag !in {"blueprints", "blueprint", "field", "object-field"} ==> ReadAll([Start(tag, attrs)] + rest).Failure?
    ensures tag == "field" ==> ReadAll([Start(tag, attrs)] + rest).Failure?
  {
    assert ([Start(tag, attrs)] + rest)[0] == Start(tag, attrs);
  }
}
