/**
 * The field schema that drives completion: the kinds of field a module type
 * accepts (the `BlueprintField` classes) and the per-type field lists
 * (`BlueprintInfo`).
 */
module Schema {
  import opened Wrappers

  /** A schema field; only `ObjectField` has fields of its own. */
  datatype Field =
    | BooleanField(name: string, descr: string)
    | StringField(name: string, descr: string)
    | NumberField(name: string, descr: string)
    | StringListField(name: string, descr: string)
    | LibraryField(name: string, descr: string)
    | LibrariesListField(name: string, descr: string)
    | ReferencesListField(name: string, descr: string)
    | ReferenceField(name: string, descr: string)
    | InterfaceField(name: string, descr: string)
    | ObjectListField(name: string, descr: string)
    | ObjectField(name: string, descr: string, fields: seq<Field>)

  /** The fields of one module type, as the schema reader produces them. */
  datatype BlueprintInfo = BlueprintInfo(name: string, desc: string, fields: seq<Field>)

  /** Kotlin `fields.firstOrNull { it.name == name }`. */
  function FirstNamed(fields: seq<Field>, name: string): (r: Option<Field>)
    ensures r.None? <==> forall i :: 0 <= i < |fields| ==> fields[i].name != name
    ensures r.Some? ==> exists i :: 0 <= i < |fields| && fields[i] == r.value && r.value.name == name
                                    && forall j :: 0 <= j < i ==> fields[j].name != name
  {
    if fields == [] then None
    else if fields[0].name == name then Some(fields[0])
    else
      var r := FirstNamed(fields[1..], name);
      if r.Some? then
        ghost var i :| 0 <= i < |fields[1..]| && fields[1..][i] == r.value && r.value.name == name
                       && forall j :: 0 <= j < i ==> fields[1..][j].name != name;
        assert fields[i + 1] == r.value;
        r
      else r
  }

  /** The lookup by a name that may be null: a null name matches no field. */
  function Lookup(fields: seq<Field>, name: Option<string>): (r: Option<Field>)
    ensures name.None? ==> r.None?
    ensures name.Some? ==> r == FirstNamed(fields, name.value)
  {
    if name.None? then None else FirstNamed(fields, name.value)
  }

  /**
   * `BlueprintAutocompletion.fields(name)`: the fields of the first module
   * type with that name, or none; a null name matches no type.
   */
  function FieldsOf(infos: seq<BlueprintInfo>, name: Option<string>): (fields: seq<Field>)
    ensures (forall i :: 0 <= i < |infos| ==> Some(infos[i].name) != name) ==> fields == []
    ensures forall i :: 0 <= i < |infos| && Some(infos[i].name) == name ==>
      (forall j :: 0 <= j < i ==> Some(infos[j].name) != name) ==> fields == infos[i].fields
  {
    if infos == [] then []
    else if Some(infos[0].name) == name then infos[0].fields
    else
      assert forall i :: 1 <= i < |infos| ==> infos[1..][i - 1] == infos[i];
      FieldsOf(infos[1..], name)
  }

  /** Kotlin `fields.filter { it.name !in used }`. */
  function Unused(fields: seq<Field>, used: seq<string>): (r: seq<Field>)
    ensures |r| <= |fields|
    ensures forall f :: f in r <==> f in fields && f.name !in used
  {
    if fields == [] then []
    else (if fields[0].name !in used then [fields[0]] else []) + Unused(fields[1..], used)
  }

  /** Filtering keeps the schema order. */
  lemma {:induction false} UnusedAppend(a: seq<Field>, b: seq<Field>, used: seq<string>)
    ensures Unused(a + b, used) == Unused(a, used) + Unused(b, used)
    decreases |a|
  {
    if a == [] {
      assert a + b == b;
    } else {
      var head := if a[0].name !in used then [a[0]] else [];
      assert (a + b)[0] == a[0];
      assert (a + b)[1..] == a[1..] + b;
      assert Unused(a + b, used) == head + Unused(a[1..] + b, used);
      UnusedAppend(a[1..], b, used);
      assert Unused(a, used) == head + Unused(a[1..], used);
    }
  }

  /**
   * Descending the schema along a path of field names: `path` holds the
   * names innermost first, so the last name is looked up first. Each step
   * must name an object field; `None` when a step is missing or is not one.
   */
  function Descend(fields: seq<Field>, path: seq<Option<string>>): (r: Option<seq<Field>>)
    ensures path == [] ==> r == Some(fields)
    decreases |path|
  {
    if path == [] then Some(fields)
    else
      match Lookup(fields, path[|path| - 1])
      case Some(ObjectField(_, _, inner)) => Descend(inner, path[..|path| - 1])
      case _ => None
  }

  /** A step that is absent, or is not an object field, ends the descent with nothing. */
  lemma DescendStops(fields: seq<Field>, path: seq<Option<string>>)
    requires path != []
    requires var f := Lookup(fields, path[|path| - 1]); f.None? || !f.value.ObjectField?
    ensures Descend(fields, path) == None
  {
  }

  /** Descending through an outer name, then through the inner path. */
  lemma DescendOuter(fields: seq<Field>, inner: seq<Option<string>>, outer: string, o: Field)
    requires FirstNamed(fields, outer) == Some(o) && o.ObjectField?
    ensures Descend(fields, inner + [Some(outer)]) == Descend(o.fields, inner)
  {
    assert (inner + [Some(outer)])[..|inner|] == inner;
  }
}
