/**
 * Queries over the parsed tree used by the evaluator, the editor and
 * completion: child lookup by element type, the value of a string
 * expression, the name of a module definition, and the schema field a pair
 * stands for.
 *
 * A node's parents are given as the list of its ancestors, nearest first
 * (the `parent` chain of the PSI).
 */
module PsiUtils {
  import opened Wrappers
  import opened Text
  import opened Psi
  import opened Schema

  /** The node has one of the element types in `kinds` (token or element). */
  predicate HasKindIn(n: Node, kinds: set<ElementType>) {
    (n.Leaf? && n.token.kind in kinds) || (n.Composite? && n.kind in kinds)
  }

  /**
   * The first of `ns`, at or after `from`, with an element type in `kinds`:
   * a sibling walk (`nextSibling`), or `findChildByType` from the first child.
   */
  function FindKind(ns: seq<Node>, from: nat, kinds: set<ElementType>): (r: Option<nat>)
    ensures r.Some? ==> from <= r.value < |ns| && HasKindIn(ns[r.value], kinds)
    ensures r.Some? ==> forall j :: from <= j < r.value ==> !HasKindIn(ns[j], kinds)
    ensures r.None? ==> forall j :: from <= j < |ns| ==> !HasKindIn(ns[j], kinds)
    decreases |ns| - from
  {
    if from >= |ns| then None
    else if HasKindIn(ns[from], kinds) then Some(from)
    else FindKind(ns, from + 1, kinds)
  }

  /** The first child of element type `k` (the generated PSI accessors). */
  function ChildOfKind(n: Node, k: ElementType): (r: Option<Node>)
    ensures r.Some? ==> n.Composite? || n.Error?
    ensures r.Some? ==> r.value in n.Children() && r.value.Is(k)
  {
    match FindKind(n.Children(), 0, {k})
    case Some(i) => Some(n.Children()[i])
    case None => None
  }

  /** The texts of the STRING tokens among `ns`, in order. */
  function StringTexts(ns: seq<Node>): (r: seq<string>)
    ensures |r| <= |ns|
  {
    if ns == [] then []
    else (if ns[0].Is(String) then [NodeText(ns[0])] else []) + StringTexts(ns[1..])
  }

  lemma {:induction false} StringTextsAppend(a: seq<Node>, b: seq<Node>)
    ensures StringTexts(a + b) == StringTexts(a) + StringTexts(b)
    decreases |a|
  {
    if a == [] {
      assert a + b == b;
    } else {
      assert (a + b)[0] == a[0];
      assert (a + b)[1..] == a[1..] + b;
      StringTextsAppend(a[1..], b);
    }
  }

  /**
   * `getValue` of a string expression: the raw text of its STRING children,
   * quotes included, joined by `joinToString`'s default separator `", "`.
   */
  function GetValue(n: Node): (r: string) {
    Join(StringTexts(n.Children()), ", ")
  }

  /**
   * The expression `"a" + "b"` as the parser builds it has the value
   * `"a", "b"`: the `+` token is skipped, the quotes stay and the pieces are
   * separated by a comma and a space.
   */
  lemma GetValueOfSum(a: string, plus: string, b: string)
    ensures GetValue(Composite(StringExpr, [Leaf(Token(String, a)), Leaf(Token(Plus, plus)), Leaf(Token(String, b))]))
      == a + ", " + b
  {
    var ch := [Leaf(Token(String, a)), Leaf(Token(Plus, plus)), Leaf(Token(String, b))];
    assert ch[1..][1..] == [Leaf(Token(String, b))];
    TokenText(Token(String, a), String);
    TokenText(Token(String, b), String);
    assert StringTexts(ch[1..][1..]) == [b];
    assert StringTexts(ch) == [a, b];
  }

  /** A single string literal evaluates to its own text, quotes included. */
  lemma GetValueOfLiteral(s: string)
    ensures GetValue(Composite(StringExpr, [Leaf(Token(String, s))])) == s
  {
    TokenText(Token(String, s), String);
  }

  /** Every node of a subtree, in preorder (`PsiTreeUtil.collectElements`). */
  function Preorder(n: Node): (r: seq<Node>)
    ensures |r| >= 1 && r[0] == n
    decreases n, 1
  {
    match n
    case Leaf(_) => [n]
    case Composite(_, ch) => [n] + PreorderOf(ch)
    case Error(ch) => [n] + PreorderOf(ch)
  }

  function PreorderOf(ns: seq<Node>): seq<Node>
    decreases ns, 0
  {
    if ns == [] then [] else Preorder(ns[0]) + PreorderOf(ns[1..])
  }

  /** A BLUEPRINT_TYPE element (the `BlueprintBlueprintType` PSI class). */
  predicate IsTypeElement(n: Node) {
    n.Composite? && n.kind == BlueprintType
  }

  /** The text of the first BLUEPRINT_TYPE element among `ns`. */
  function FirstTypeName(ns: seq<Node>): (r: Option<string>)
    ensures r.None? <==> forall i :: 0 <= i < |ns| ==> !IsTypeElement(ns[i])
  {
    if ns == [] then None
    else if IsTypeElement(ns[0]) then Some(NodeText(ns[0]))
    else FirstTypeName(ns[1..])
  }

  /** `getBlueprintName`: the text of the first BLUEPRINT_TYPE element in the definition. */
  function GetBlueprintName(n: Node): Option<string> {
    FirstTypeName(Preorder(n))
  }

  /** A definition as the parser builds it is named by the token of its type element. */
  lemma ParsedBlueprintName(t: Token, rest: seq<Node>)
    ensures GetBlueprintName(Composite(Blueprint, [Composite(BlueprintType, [Leaf(t)])] + rest)) == Some(t.text)
  {
    var ty := Composite(BlueprintType, [Leaf(t)]);
    var n := Composite(Blueprint, [ty] + rest);
    assert n.Children()[1..] == rest;
    assert PreorderOf(n.Children()) == Preorder(ty) + PreorderOf(rest);
    var all := [n] + (Preorder(ty) + PreorderOf(rest));
    assert Preorder(n) == all;
    assert all[1..][0] == ty;
    TokenText(t, BlueprintType);
    assert FirstTypeName(all[1..]) == Some(t.text);
    assert FirstTypeName(all) == FirstTypeName(all[1..]);
  }

  /**
   * `getFieldBlueprint` of a field name: the parent of its nearest enclosing
   * MEMBERS element when that parent is a module definition, else none.
   */
  function GetFieldBlueprint(ancestors: seq<Node>): (r: Option<Node>)
    ensures r.Some? ==> r.value.Composite? && r.value.kind == Blueprint
  {
    match FindComposite(ancestors, 0, Members)
    case None => None
    case Some(i) =>
      if i + 1 < |ancestors| && ancestors[i + 1].Composite? && ancestors[i + 1].kind == Blueprint
      then Some(ancestors[i + 1]) else None
  }

  /** The first composite element of type `k` among `ns` from `from` (`getParentOfType`). */
  function FindComposite(ns: seq<Node>, from: nat, k: ElementType): (r: Option<nat>)
    ensures r.Some? ==> from <= r.value < |ns| && ns[r.value].Composite? && ns[r.value].kind == k
    ensures r.Some? ==> forall j :: from <= j < r.value ==> !(ns[j].Composite? && ns[j].kind == k)
    ensures r.None? ==> forall j :: from <= j < |ns| ==> !(ns[j].Composite? && ns[j].kind == k)
    decreases |ns| - from
  {
    if from >= |ns| then None
    else if ns[from].Composite? && ns[from].kind == k then Some(from)
    else FindComposite(ns, from + 1, k)
  }

  /** `isBlueprintField`. */
  predicate IsBlueprintField(ancestors: seq<Node>) {
    GetFieldBlueprint(ancestors).Some?
  }

  /**
   * A field name is a module field exactly when the nearest MEMBERS above it
   * sits directly in a module definition; the field names of a nested object
   * are not.
   */
  lemma IsBlueprintFieldIff(ancestors: seq<Node>)
    ensures IsBlueprintField(ancestors) <==>
      exists i :: 0 <= i < |ancestors| - 1 && ancestors[i].Composite? && ancestors[i].kind == Members
        && (forall j :: 0 <= j < i ==> !(ancestors[j].Composite? && ancestors[j].kind == Members))
        && ancestors[i + 1].Composite? && ancestors[i + 1].kind == Blueprint
  {
    var r := FindComposite(ancestors, 0, Members);
    if IsBlueprintField(ancestors) {
      var i := r.value;
      assert 0 <= i < |ancestors| - 1 && ancestors[i].Composite? && ancestors[i].kind == Members
        && (forall j :: 0 <= j < i ==> !(ancestors[j].Composite? && ancestors[j].kind == Members))
        && ancestors[i + 1].Composite? && ancestors[i + 1].kind == Blueprint;
    } else {
      forall i | 0 <= i < |ancestors| - 1 && ancestors[i].Composite? && ancestors[i].kind == Members
        && (forall j :: 0 <= j < i ==> !(ancestors[j].Composite? && ancestors[j].kind == Members))
        ensures !(ancestors[i + 1].Composite? && ancestors[i + 1].kind == Blueprint)
      {
        assert r == Some(i);
      }
    }
  }

  /** The text of a pair's FIELD_NAME (`pair.fieldName.text`); none when it has none. */
  function FieldNameOf(pair: Node): Option<string> {
    match ChildOfKind(pair, FieldName)
    case Some(f) => Some(NodeText(f))
    case None => None
  }

  /**
   * The names on the way from a node up to its module definition, nearest
   * first: the field name of every enclosing pair, then the definition's
   * name (null when it has none). The walk stops at the first definition;
   * a pair without a field name throws.
   */
  function PathOf(ancestors: seq<Node>): (r: Result<seq<Option<string>>, string>)
    decreases |ancestors|
  {
    if ancestors == [] then Success([])
    else if ancestors[0].Composite? && ancestors[0].kind == Blueprint then
      Success([GetBlueprintName(ancestors[0])])
    else if ancestors[0].Composite? && ancestors[0].kind == Pair then
      match FieldNameOf(ancestors[0])
      case None => Failure("pair without a field name")
      case Some(name) => Prefixed([Some(name)], PathOf(ancestors[1..]))
    else PathOf(ancestors[1..])
  }

  /**
   * `getFieldDef` as a specification: the schema field named by the pair's
   * field name, looked up in the fields reached from its module type through
   * the enclosing pairs, outermost first. Errors are the exceptions the
   * source throws: a pair without a field name, and a path with no entry to
   * pop.
   */
  function FieldDef(pair: Node, ancestors: seq<Node>, infos: seq<BlueprintInfo>): (r: Result<Option<Field>, string>) {
    match FieldNameOf(pair)
    case None => Failure("pair without a field name")
    case Some(name) =>
      match PathOf(ancestors)
      case Failure(e) => Failure(e)
      case Success(path) =>
        if path == [] then Failure("empty path")
        else
          match Descend(FieldsOf(infos, path[|path| - 1]), path[..|path| - 1])
          case None => Success(None)
          case Some(fields) => Success(FirstNamed(fields, name))
  }

  /**
   * The walk up the parents that collects the path: a pair adds its field
   * name, the module definition adds its name and ends the walk.
   */
  method CollectPath(ancestors: seq<Node>) returns (r: Result<seq<Option<string>>, string>)
    ensures r == PathOf(ancestors)
  {
    var path: seq<Option<string>> := [];
    var i := 0;
    assert ancestors[0..] == ancestors;
    PrefixedEmpty(PathOf(ancestors));
    while i < |ancestors|
      invariant 0 <= i <= |ancestors|
      invariant PathOf(ancestors) == Prefixed(path, PathOf(ancestors[i..]))
      decreases |ancestors| - i
    {
      var node := ancestors[i];
      assert ancestors[i..][1..] == ancestors[i + 1..];
      if node.Composite? && node.kind == Blueprint {
        PrefixedConcat<Option<string>, string>(path, [GetBlueprintName(node)], Success([]));
        path := path + [GetBlueprintName(node)];
        break;
      }
      if node.Composite? && node.kind == Pair {
        var field := FieldNameOf(node);
        if field.None? {
          return Failure("pair without a field name");
        }
        PrefixedConcat(path, [field], PathOf(ancestors[i + 1..]));
        path := path + [field];
      }
      i := i + 1;
    }
    assert PathOf(ancestors) == Success(path) by {
      if i == |ancestors| {
        assert ancestors[i..] == [];
        assert path + [] == path;
      }
    }
    r := Success(path);
  }

  /**
   * The loop that pops the path name by name, stepping into the named
   * object field each time, and gives up on a name that is missing or is
   * not an object field.
   */
  method WalkDown(fields: seq<Field>, path: seq<Option<string>>) returns (r: Option<seq<Field>>)
    ensures r == Descend(fields, path)
  {
    var fs, rest := fields, path;
    while rest != []
      invariant Descend(fields, path) == Descend(fs, rest)
      decreases |rest|
    {
      var fieldName := rest[|rest| - 1];
      rest := rest[..|rest| - 1];
      var field := Lookup(fs, fieldName);
      if field.None? || !field.value.ObjectField? {
        return None;
      }
      fs := field.value.fields;
    }
    r := Some(fs);
  }

  /** `getFieldDef`: collects the path, then pops it from the module type down. */
  method GetFieldDef(pair: Node, ancestors: seq<Node>, infos: seq<BlueprintInfo>) returns (r: Result<Option<Field>, string>)
    ensures r == FieldDef(pair, ancestors, infos)
  {
    var nameOf := FieldNameOf(pair);
    if nameOf.None? {
      return Failure("pair without a field name");
    }
    var name := nameOf.value;
    var collected := CollectPath(ancestors);
    if collected.Failure? {
      return Failure(collected.error);
    }
    var path := collected.value;
    if path == [] {
      return Failure("empty path");
    }
    var fields := WalkDown(FieldsOf(infos, path[|path| - 1]), path[..|path| - 1]);
    if fields.None? {
      return Success(None);
    }
    r := Success(FirstNamed(fields.value, name));
  }

  /**
   * A field directly in a module definition is looked up among the fields of
   * that module type.
   */
  lemma FieldDefTopLevel(pair: Node, members: Node, t: Token, rest: seq<Node>, above: seq<Node>, infos: seq<BlueprintInfo>)
    requires FieldNameOf(pair).Some?
    requires members.Composite? && members.kind == Members
    ensures var bp := Composite(Blueprint, [Composite(BlueprintType, [Leaf(t)])] + rest);
      FieldDef(pair, [members, bp] + above, infos)
      == Success(FirstNamed(FieldsOf(infos, Some(t.text)), FieldNameOf(pair).value))
  {
    var bp := Composite(Blueprint, [Composite(BlueprintType, [Leaf(t)])] + rest);
    var anc := [members, bp] + above;
    assert anc[1..][0] == bp;
    ParsedBlueprintName(t, rest);
    assert PathOf(anc[1..]) == Success([Some(t.text)]);
    assert PathOf(anc) == Success([Some(t.text)]);
  }

  /**
   * A field of an object held by a module field is looked up among the
   * fields of that object field, and has no definition when the outer field
   * is not an object field.
   */
  lemma FieldDefNested(pair: Node, inner: Node, outer: Node, outerMembers: Node, t: Token, rest: seq<Node>,
                       infos: seq<BlueprintInfo>)
    requires FieldNameOf(pair).Some? && FieldNameOf(outer).Some?
    requires inner.Composite? && inner.kind == Members
    requires outer.Composite? && outer.kind == Pair
    requires outerMembers.Composite? && outerMembers.kind == Members
    ensures var bp := Composite(Blueprint, [Composite(BlueprintType, [Leaf(t)])] + rest);
      var top := FieldsOf(infos, Some(t.text));
      var o := FirstNamed(top, FieldNameOf(outer).value);
      FieldDef(pair, [inner, outer, outerMembers, bp], infos)
      == if o.Some? && o.value.ObjectField? then Success(FirstNamed(o.value.fields, FieldNameOf(pair).value))
         else Success(None)
  {
    var bp := Composite(Blueprint, [Composite(BlueprintType, [Leaf(t)])] + rest);
    var anc := [inner, outer, outerMembers, bp];
    PairPath(outer, outerMembers, t, rest);
    assert anc[1..] == [outer, outerMembers, bp];
    assert PathOf(anc) == PathOf(anc[1..]);
    OneStepFieldDef(pair, anc, infos, FieldNameOf(outer).value, t.text);
  }

  /** The path from a pair in a module definition's members up to the definition. */
  lemma PairPath(pair: Node, outerMembers: Node, t: Token, rest: seq<Node>)
    requires pair.Composite? && pair.kind == Pair && FieldNameOf(pair).Some?
    requires outerMembers.Composite? && outerMembers.kind == Members
    ensures var bp := Composite(Blueprint, [Composite(BlueprintType, [Leaf(t)])] + rest);
      PathOf([pair, outerMembers, bp]) == Success([Some(FieldNameOf(pair).value), Some(t.text)])
  {
    var bp := Composite(Blueprint, [Composite(BlueprintType, [Leaf(t)])] + rest);
    var above := [pair, outerMembers, bp];
    ParsedBlueprintName(t, rest);
    assert above[1..][1..] == [bp];
    assert PathOf(above[1..][1..]) == Success([Some(t.text)]);
    assert PathOf(above[1..]) == Success([Some(t.text)]);
    assert [Some(FieldNameOf(pair).value)] + [Some(t.text)] == [Some(FieldNameOf(pair).value), Some(t.text)];
  }

  /** The definition of a field one step below a module definition. */
  lemma OneStepFieldDef(pair: Node, ancestors: seq<Node>, infos: seq<BlueprintInfo>, outer: string, root: string)
    requires FieldNameOf(pair).Some?
    requires PathOf(ancestors) == Success([Some(outer), Some(root)])
    ensures var o := FirstNamed(FieldsOf(infos, Some(root)), outer);
      FieldDef(pair, ancestors, infos)
      == if o.Some? && o.value.ObjectField? then Success(FirstNamed(o.value.fields, FieldNameOf(pair).value))
         else Success(None)
  {
    var path := [Some(outer), Some(root)];
    assert path[..1] == [Some(outer)];
    assert [Some(outer)][..0] == [];
  }
}
