/**
 * Field-name completion inside a module definition or an object: which
 * schema fields are proposed, and what accepting a proposal inserts into the
 * document and where it leaves the caret.
 *
 * The built-in schema (`BLUEPRINT_FIEDLS`) is a parameter: a map from module
 * type name to its fields.
 */
module Completion {
  import opened Wrappers
  import opened Text
  import opened Psi
  import opened Schema
  import opened PsiUtils

  /** A proposed field name with the indent level its insert handler uses. */
  datatype Proposal = Proposal(field: Field, ident: nat)

  // ---------------------------------------------------------------- proposals

  /** The fields not yet used, in schema order, each with the given indent level. */
  function Proposals(fields: seq<Field>, used: seq<string>, ident: nat): (r: seq<Proposal>)
    ensures forall p :: p in r <==> p.field in fields && p.field.name !in used && p.ident == ident
  {
    var kept := Unused(fields, used);
    var r := seq(|kept|, i requires 0 <= i < |kept| => Proposal(kept[i], ident));
    assert forall p :: p in r ==> p.field in kept && p.ident == ident;
    assert forall i :: 0 <= i < |kept| ==> r[i] == Proposal(kept[i], ident);
    r
  }

  /** The texts of the field-name elements among `ns`, in order. */
  function FieldNameTexts(ns: seq<Node>): (r: seq<string>)
    ensures forall i :: 0 <= i < |ns| && ns[i].Composite? && ns[i].kind == FieldName ==> NodeText(ns[i]) in r
    ensures forall s :: s in r ==> exists i :: 0 <= i < |ns| && ns[i].Composite? && ns[i].kind == FieldName && NodeText(ns[i]) == s
  {
    if ns == [] then []
    else
      var rest := FieldNameTexts(ns[1..]);
      assert forall i :: 1 <= i < |ns| ==> ns[i] == ns[1..][i - 1];
      (if ns[0].Composite? && ns[0].kind == FieldName then [NodeText(ns[0])] else []) + rest
  }

  /** The field names already written anywhere under a members element, nested objects included. */
  function UsedNames(members: Node): seq<string> {
    FieldNameTexts(Preorder(members))
  }

  /** The subtree of a child lies within the subtree of its parent. */
  lemma {:induction false} PreorderOfHas(ns: seq<Node>, i: nat)
    requires i < |ns|
    ensures forall x :: x in Preorder(ns[i]) ==> x in PreorderOf(ns)
    decreases |ns|
  {
    if i > 0 {
      PreorderOfHas(ns[1..], i - 1);
      assert ns[1..][i - 1] == ns[i];
    }
  }

  /**
   * A name written in an object nested under the members counts as used for
   * the members themselves.
   */
  lemma NestedNamesUsed(members: Node, i: nat)
    requires members.Composite? && i < |members.children|
    ensures forall s :: s in UsedNames(members.children[i]) ==> s in UsedNames(members)
  {
    PreorderOfHas(members.children, i);
    forall s | s in UsedNames(members.children[i])
      ensures s in UsedNames(members)
    {
      var ns := Preorder(members.children[i]);
      var j :| 0 <= j < |ns| && ns[j].Composite? && ns[j].kind == FieldName && NodeText(ns[j]) == s;
      var all := Preorder(members);
      assert all == [members] + PreorderOf(members.children);
      assert ns[j] in PreorderOf(members.children);
      assert ns[j] in all;
      var k :| 0 <= k < |all| && all[k] == ns[j];
    }
  }

  /**
   * `addBlueprintFieldCompletion`: the unused fields of the definition's
   * module type at indent level 1; nothing for an unnamed definition or an
   * unknown type.
   */
  function BlueprintCompletions(name: Option<string>, used: seq<string>, table: map<string, seq<Field>>): (r: seq<Proposal>)
    ensures (name.None? || name.value !in table) ==> r == []
    ensures name.Some? && name.value in table ==>
      forall p :: p in r <==> p.field in table[name.value] && p.field.name !in used && p.ident == 1
  {
    if name.None? || name.value !in table then [] else Proposals(table[name.value], used, 1)
  }

  /**
   * `addObjectFieldCompletion` as a specification: the path from the object
   * up to its module definition; the definition's fields; then one step into
   * an object field per enclosing pair, outermost first. The indent level is
   * the number of those steps. Nothing is proposed when the path is empty,
   * the type is unknown, or a step is missing or not an object field.
   */
  function ObjectCompletions(above: seq<Node>, used: seq<string>, table: map<string, seq<Field>>): (r: Result<seq<Proposal>, string>) {
    match PathOf(above)
    case Failure(e) => Failure(e)
    case Success(path) =>
      if path == [] then Success([])
      else
        var root := path[|path| - 1];
        if root.None? || root.value !in table then Success([])
        else
          match Descend(table[root.value], path[..|path| - 1])
          case None => Success([])
          case Some(fields) => Success(Proposals(fields, used, |path| - 1))
  }

  /** `addObjectFieldCompletion`: the parent walk, then the pops down the schema. */
  method AddObjectFieldCompletion(above: seq<Node>, used: seq<string>, table: map<string, seq<Field>>)
    returns (r: Result<seq<Proposal>, string>)
    ensures r == ObjectCompletions(above, used, table)
  {
    var collected := CollectPath(above);
    if collected.Failure? {
      return Failure(collected.error);
    }
    var path := collected.value;
    if path == [] {
      return Success([]);
    }
    var root := path[|path| - 1];
    if root.None? || root.value !in table {
      return Success([]);
    }
    var ident := |path| - 1;
    var fields := WalkDown(table[root.value], path[..|path| - 1]);
    if fields.None? {
      return Success([]);
    }
    r := Success(Proposals(fields.value, used, ident));
  }

  /** The nearest members or object element, the node itself first (`findFirstParent`). */
  function FirstContainer(chain: seq<Node>): (r: Option<nat>)
    ensures r.Some? ==> r.value < |chain| && chain[r.value].Composite? && chain[r.value].kind in {Members, Object}
    ensures r.Some? ==> forall j :: 0 <= j < r.value ==> !(chain[j].Composite? && chain[j].kind in {Members, Object})
    ensures r.None? ==> forall j :: 0 <= j < |chain| ==> !(chain[j].Composite? && chain[j].kind in {Members, Object})
  {
    if chain == [] then None
    else if chain[0].Composite? && chain[0].kind in {Members, Object} then Some(0)
    else
      match FirstContainer(chain[1..])
      case None => None
      case Some(k) => Some(k + 1)
  }

  /**
   * `addCompletions`: `chain` is the caret's element followed by its
   * ancestors. In an empty object, nothing is used yet; in members, the
   * names already written are excluded and the members' parent decides
   * between module fields and object fields.
   */
  function Completions(chain: seq<Node>, table: map<string, seq<Field>>): (r: Result<seq<Proposal>, string>) {
    match FirstContainer(chain)
    case None => Success([])
    case Some(k) =>
      if chain[k].kind == Object then ObjectCompletions(chain[k + 1..], [], table)
      else if k + 1 < |chain| && chain[k + 1].Composite? && chain[k + 1].kind == Blueprint then
        Success(BlueprintCompletions(GetBlueprintName(chain[k + 1]), UsedNames(chain[k]), table))
      else if k + 1 < |chain| && chain[k + 1].Composite? && chain[k + 1].kind == Object then
        ObjectCompletions(chain[k + 2..], UsedNames(chain[k]), table)
      else Success([])
  }

  /**
   * In the members of a definition, the proposals are exactly the fields of
   * its type whose names are not written anywhere in those members.
   */
  lemma ModuleMembersCompletion(members: Node, t: Token, rest: seq<Node>, above: seq<Node>,
                                table: map<string, seq<Field>>)
    requires members.Composite? && members.kind == Members
    requires t.text in table
    ensures var bp := Composite(Blueprint, [Composite(BlueprintType, [Leaf(t)])] + rest);
      var r := Completions([members, bp] + above, table);
      r.Success? && forall p :: p in r.value <==>
        p.field in table[t.text] && p.field.name !in UsedNames(members) && p.ident == 1
  {
    ParsedBlueprintName(t, rest);
  }

  /**
   * In the members of an object held by a module field, the proposals are
   * the unused fields of that object field at indent level 1, and nothing
   * when the module field is missing from the schema or is not an object
   * field.
   */
  lemma ObjectMembersCompletion(members: Node, obj: Node, pair: Node, outerMembers: Node,
                                t: Token, rest: seq<Node>, table: map<string, seq<Field>>)
    requires members.Composite? && members.kind == Members
    requires obj.Composite? && obj.kind == Object
    requires pair.Composite? && pair.kind == Pair && FieldNameOf(pair).Some?
    requires outerMembers.Composite? && outerMembers.kind == Members
    requires t.text in table
    ensures var bp := Composite(Blueprint, [Composite(BlueprintType, [Leaf(t)])] + rest);
      var o := FirstNamed(table[t.text], FieldNameOf(pair).value);
      Completions([members, obj, pair, outerMembers, bp], table)
      == if o.Some? && o.value.ObjectField? then Success(Proposals(o.value.fields, UsedNames(members), 1))
         else Success([])
  {
    var bp := Composite(Blueprint, [Composite(BlueprintType, [Leaf(t)])] + rest);
    MembersInObject(members, obj, [pair, outerMembers, bp], table);
    assert [members, obj] + [pair, outerMembers, bp] == [members, obj, pair, outerMembers, bp];
    PairPath(pair, outerMembers, t, rest);
    OneStepCompletions([pair, outerMembers, bp], UsedNames(members), table, FieldNameOf(pair).value, t.text);
  }

  /** Object completion one step below a module definition of a known type. */
  lemma OneStepCompletions(above: seq<Node>, used: seq<string>, table: map<string, seq<Field>>, name: string, root: string)
    requires PathOf(above) == Success([Some(name), Some(root)]) && root in table
    ensures var o := FirstNamed(table[root], name);
      ObjectCompletions(above, used, table)
      == if o.Some? && o.value.ObjectField? then Success(Proposals(o.value.fields, used, 1)) else Success([])
  {
    var path := [Some(name), Some(root)];
    assert path[..1] == [Some(name)];
    assert [Some(name)][..0] == [];
  }

  /** In the members of an object, completion is object completion from the object's parent, excluding the used names. */
  lemma MembersInObject(members: Node, obj: Node, above: seq<Node>, table: map<string, seq<Field>>)
    requires members.Composite? && members.kind == Members
    requires obj.Composite? && obj.kind == Object
    ensures Completions([members, obj] + above, table) == ObjectCompletions(above, UsedNames(members), table)
  {
    var chain := [members, obj] + above;
    assert chain[0] == members && chain[1] == obj;
    assert chain[2..] == above;
  }

  /** A name already written is never proposed again. */
  lemma UsedNeverProposed(chain: seq<Node>, table: map<string, seq<Field>>, k: nat)
    requires FirstContainer(chain) == Some(k) && chain[k].kind == Members
    requires Completions(chain, table).Success?
    ensures forall p :: p in Completions(chain, table).value ==> p.field.name !in UsedNames(chain[k])
  {
    var used := UsedNames(chain[k]);
    if k + 1 < |chain| && chain[k + 1].Composite? && chain[k + 1].kind == Blueprint {
      assert Completions(chain, table) == Success(BlueprintCompletions(GetBlueprintName(chain[k + 1]), used, table));
    } else if k + 1 < |chain| && chain[k + 1].Composite? && chain[k + 1].kind == Object {
      assert Completions(chain, table) == ObjectCompletions(chain[k + 2..], used, table);
      ObjectCompletionsExclude(chain[k + 2..], used, table);
    } else {
      assert Completions(chain, table) == Success([]);
    }
  }

  /** An object's proposals leave out the names already used. */
  lemma ObjectCompletionsExclude(above: seq<Node>, used: seq<string>, table: map<string, seq<Field>>)
    requires ObjectCompletions(above, used, table).Success?
    ensures forall p :: p in ObjectCompletions(above, used, table).value ==> p.field.name !in used
  {
  }

  // ---------------------------------------------------------------- insertion

  /** Kotlin `padStart(length)`: spaces in front up to `length` characters. */
  function PadStart(s: string, length: nat): (r: string)
    ensures |s| >= length ==> r == s
    ensures |s| < length ==> (|r| == length && r[length - |s|..] == s
                              && forall i :: 0 <= i < length - |s| ==> r[i] == ' ')
  {
    if |s| >= length then s else Spaces(length - |s|) + s
  }

  /**
   * What accepting a field inserts after its name, and the caret: `caretEnd`
   * and `caretStart` count back from the end of the insertion; the caret
   * goes to `caretEnd`, and when the two differ the text between them is
   * selected.
   */
  datatype Insertion = Insertion(suffix: string, caretEnd: nat, caretStart: nat)

  /**
   * The insertion of each field class: the default value of the field
   * between `": "` and `","`, with the caret inside quotes and brackets, on
   * the blank line of a new object, and over the default of a boolean or a
   * number; nothing for an object list.
   */
  function InsertionFor(field: Field, ident: nat): (r: Insertion)
    ensures |r.suffix| >= 3 && r.suffix[..2] == ": " && r.suffix[|r.suffix| - 1] == ','
    ensures 1 <= r.caretEnd <= r.caretStart <= |r.suffix| - 2
  {
    match field
    case StringField(_, _) => Insertion(": \"\",", 2, 2)
    case InterfaceField(_, _) => Insertion(": \"\",", 2, 2)
    case ReferenceField(_, _) => Insertion(": \"\",", 2, 2)
    case LibraryField(_, _) => Insertion(": \"\",", 2, 2)
    case StringListField(_, _) => Insertion(": [  ],", 3, 3)
    case LibrariesListField(_, _) => Insertion(": [  ],", 3, 3)
    case ReferencesListField(_, _) => Insertion(": [  ],", 3, 3)
    case ObjectField(_, _, _) =>
      Insertion(": {\n" + Spaces((ident + 1) * 4) + "\n" + Spaces(ident * 4) + "},", ident * 4 + 3, ident * 4 + 3)
    case BooleanField(_, _) => Insertion(": true,", 1, 5)
    case NumberField(_, _) => Insertion(": 0,", 1, 2)
    case ObjectListField(_, _) => Insertion(": ,", 1, 1)
  }

  /** The text before the caret and the text after it. */
  function BeforeCaret(ins: Insertion): string
    requires ins.caretEnd <= |ins.suffix|
  {
    ins.suffix[..|ins.suffix| - ins.caretEnd]
  }

  function AfterCaret(ins: Insertion): string
    requires ins.caretEnd <= |ins.suffix|
  {
    ins.suffix[|ins.suffix| - ins.caretEnd..]
  }

  /** The selected text, when the caret offsets differ. */
  function Selected(ins: Insertion): Option<string>
    requires ins.caretEnd <= ins.caretStart <= |ins.suffix|
  {
    if ins.caretStart == ins.caretEnd then None
    else Some(ins.suffix[|ins.suffix| - ins.caretStart..|ins.suffix| - ins.caretEnd])
  }

  /** A text field gets empty quotes with the caret between them and nothing selected. */
  lemma CaretInQuotes(field: Field, ident: nat)
    requires field.StringField? || field.InterfaceField? || field.ReferenceField? || field.LibraryField?
    ensures var ins := InsertionFor(field, ident);
      BeforeCaret(ins) == ": \"" && AfterCaret(ins) == "\"," && Selected(ins).None?
  {
  }

  /** A list field gets `[  ]` with the caret between the two spaces. */
  lemma CaretInBrackets(field: Field, ident: nat)
    requires field.StringListField? || field.LibrariesListField? || field.ReferencesListField?
    ensures var ins := InsertionFor(field, ident);
      BeforeCaret(ins) == ": [ " && AfterCaret(ins) == " ]," && Selected(ins).None?
  {
  }

  /** A boolean or number field gets its default value, selected, with the caret after it. */
  lemma DefaultSelected(field: Field, ident: nat)
    requires field.BooleanField? || field.NumberField?
    ensures var ins := InsertionFor(field, ident);
      AfterCaret(ins) == "," &&
      Selected(ins) == Some(if field.BooleanField? then "true" else "0")
  {
    var ins := InsertionFor(field, ident);
    if field.BooleanField? {
      assert ins.suffix[2..6] == "true";
    } else {
      assert ins.suffix[2..3] == "0";
    }
  }

  /**
   * An object field gets braces around a blank line indented one level
   * deeper than the closing brace, with the caret at the end of that line.
   */
  lemma CaretOnObjectLine(field: Field, ident: nat)
    requires field.ObjectField?
    ensures var ins := InsertionFor(field, ident);
      BeforeCaret(ins) == ": {\n" + Spaces((ident + 1) * 4) &&
      AfterCaret(ins) == "\n" + Spaces(ident * 4) + "}," && Selected(ins).None?
  {
    var ins := InsertionFor(field, ident);
    var head := ": {\n" + Spaces((ident + 1) * 4);
    var tail := "\n" + Spaces(ident * 4) + "},";
    assert ins.suffix == head + tail;
    assert |tail| == ins.caretEnd;
  }

  /** `handleInsert`: the suffix built in a string builder, and the caret offsets. */
  method BuildInsertion(field: Field, ident: nat) returns (suffix: string, caretEnd: int, caretStart: int)
    ensures caretEnd >= 0 && caretStart >= 0
    ensures Insertion(suffix, caretEnd, caretStart) == InsertionFor(field, ident)
  {
    suffix := ": ";
    caretStart := 0;
    caretEnd := 0;
    match field {
      case StringField(_, _) | InterfaceField(_, _) | ReferenceField(_, _) | LibraryField(_, _) =>
        suffix := suffix + "\"\"";
        caretEnd := 1;
        caretStart := caretEnd;
        assert suffix + "," == ": \"\",";
      case StringListField(_, _) | LibrariesListField(_, _) | ReferencesListField(_, _) =>
        suffix := suffix + "[  ]";
        caretEnd := 2;
        caretStart := caretEnd;
        assert suffix + "," == ": [  ],";
      case ObjectField(_, _, _) =>
        var body := ObjectBody(ident);
        suffix := suffix + body;
        caretEnd := ident * 4 + 2;
        caretStart := caretEnd;
        assert suffix + "," == ": {\n" + Spaces((ident + 1) * 4) + "\n" + Spaces(ident * 4) + "},";
      case BooleanField(_, _) =>
        suffix := suffix + "true";
        caretEnd := 0;
        caretStart := 4;
        assert suffix + "," == ": true,";
      case NumberField(_, _) =>
        suffix := suffix + "0";
        caretEnd := 0;
        caretStart := 1;
        assert suffix + "," == ": 0,";
      case ObjectListField(_, _) =>
        assert suffix + "," == ": ,";
    }
    suffix := suffix + ",";
    caretEnd := caretEnd + 1;
    caretStart := caretStart + 1;
  }

  /** The braces of a new object: `{`, a blank line one level deeper, and `}` at this level. */
  method ObjectBody(ident: nat) returns (body: string)
    ensures body == "{\n" + Spaces((ident + 1) * 4) + "\n" + Spaces(ident * 4) + "}"
  {
    body := "{\n";
    body := body + PadStart("\n", (ident + 1) * 4 + 1);
    body := body + PadStart("}", ident * 4 + 1);
    PaddedLines(ident);
  }

  lemma PaddedLines(ident: nat)
    ensures PadStart("\n", (ident + 1) * 4 + 1) == Spaces((ident + 1) * 4) + "\n"
    ensures PadStart("}", ident * 4 + 1) == Spaces(ident * 4) + "}"
  {
    var a := PadStart("\n", (ident + 1) * 4 + 1);
    assert a == Spaces((ident + 1) * 4) + "\n";
    if ident > 0 {
      assert PadStart("}", ident * 4 + 1) == Spaces(ident * 4) + "}";
    } else {
      assert Spaces(0) + "}" == "}";
    }
  }

  /** The editor state the insert handler changes. */
  class Editor {
    var text: string
    /** The end of the completed name; it moves past text inserted there. */
    var tail: nat
    var caret: nat
    /** The selected range, start then end. */
    var selection: Option<(nat, nat)>

    predicate Valid()
      reads this
    {
      tail <= |text| && caret <= |text|
    }

    constructor (text: string, tail: nat)
      requires tail <= |text|
      ensures Valid()
      ensures this.text == text && this.tail == tail && this.caret == tail && this.selection.None?
    {
      this.text := text;
      this.tail := tail;
      this.caret := tail;
      this.selection := None;
    }

    /**
     * The insert handler of a proposal: the suffix goes in at the tail, the
     * caret moves `caretEnd` back from the new tail, and the text between
     * the two caret offsets is selected when they differ.
     */
    method HandleInsert(p: Proposal)
      requires Valid()
      modifies this
      ensures Valid()
      ensures var ins := InsertionFor(p.field, p.ident);
        && text == old(text)[..old(tail)] + ins.suffix + old(text)[old(tail)..]
        && tail == old(tail) + |ins.suffix|
        && caret == tail - ins.caretEnd
        && selection == (if ins.caretStart != ins.caretEnd then Some((tail - ins.caretStart, tail - ins.caretEnd))
                         else old(selection))
    {
      var suffix, caretEnd, caretStart := BuildInsertion(p.field, p.ident);
      text := text[..tail] + suffix + text[tail..];
      tail := tail + |suffix|;
      caret := tail - caretEnd;
      if caretStart != caretEnd {
        selection := Some((tail - caretStart, tail - caretEnd));
      }
    }
  }

  /**
   * After the insertion the caret sits right after the text before it, and
   * any selection covers exactly the default value.
   */
  lemma InsertedAroundCaret(before: string, after: string, p: Proposal)
    ensures var ins := InsertionFor(p.field, p.ident);
      var text := before + ins.suffix + after;
      var caret := |before| + |ins.suffix| - ins.caretEnd;
      text[..caret] == before + BeforeCaret(ins) && text[caret..] == AfterCaret(ins) + after
  {
    var ins := InsertionFor(p.field, p.ident);
    var k := |ins.suffix| - ins.caretEnd;
    assert ins.suffix == ins.suffix[..k] + ins.suffix[k..];
    assert before + ins.suffix + after == (before + ins.suffix[..k]) + (ins.suffix[k..] + after);
  }
}
