/**
 * Evaluation of a parsed Blueprint file: the top-level items are visited in
 * order with a variable table (`=` stores, `+=` concatenates), member lists
 * and values are evaluated to `AnyValue`s, and every module definition goes
 * through the factory.
 *
 * What the source throws (a missing accessor, a concatenation of values of
 * different kinds) is a `Failure`, which ends the whole evaluation.
 */
module Evaluate {
  import opened Wrappers
  import opened Text
  import opened Psi
  import opened Values
  import opened Records
  import opened PsiUtils
  import Factory

  /** The element types `nextValueNode` stops at. */
  const ValueKinds: set<ElementType> := {StringExpr, String, ArrayExpr, Object, Bool, Number, Link, VariableRefExpr}

  /** `nextValueNode` from the sibling at `from`: the first node that holds a value. */
  function NextValueNode(sibs: seq<Node>, from: nat): (r: Option<nat>)
    ensures r.Some? ==> from <= r.value < |sibs| && HasKindIn(sibs[r.value], ValueKinds)
    ensures r.Some? ==> forall j :: from <= j < r.value ==> !HasKindIn(sibs[j], ValueKinds)
    ensures r.None? ==> forall j :: from <= j < |sibs| ==> !HasKindIn(sibs[j], ValueKinds)
  {
    FindKind(sibs, from, ValueKinds)
  }

  /** `nextValueNode` as the sibling walk the source performs. */
  method FindValueNode(sibs: seq<Node>, from: nat) returns (r: Option<nat>)
    ensures r == NextValueNode(sibs, from)
  {
    var i := from;
    while i < |sibs|
      invariant from <= i
      invariant FindKind(sibs, from, ValueKinds) == FindKind(sibs, i, ValueKinds)
      decreases |sibs| - i
    {
      if HasKindIn(sibs[i], ValueKinds) {
        return Some(i);
      }
      i := i + 1;
    }
    return None;
  }

  /** Kotlin `trim('"', '\'')`: every leading and trailing quote character removed. */
  function TrimQuoteChars(s: string): (r: string)
    ensures |r| <= |s|
    ensures r == [] || (r[0] != '"' && r[0] != '\'' && r[|r| - 1] != '"' && r[|r| - 1] != '\'')
    ensures (s == [] || (s[0] != '"' && s[0] != '\'' && s[|s| - 1] != '"' && s[|s| - 1] != '\'')) ==> r == s
    decreases |s|
  {
    if |s| > 0 && (s[0] == '"' || s[0] == '\'') then TrimQuoteChars(s[1..])
    else if |s| > 0 && (s[|s| - 1] == '"' || s[|s| - 1] == '\'') then TrimQuoteChars(s[..|s| - 1])
    else s
  }

  /**
   * `nodeToValue(parent.firstChild.nextValueNode())`: the value of the first
   * child of `parent` that holds one, or the opaque value when none does.
   */
  function ValueAt(parent: Node, vars: map<string, AnyValue>): (r: Result<AnyValue, string>)
    decreases parent, 3
  {
    if parent.Leaf? then Success(Unknown)
    else
      match NextValueNode(parent.children, 0)
      case None => Success(Unknown)
      case Some(i) => Eval(parent.children[i], vars)
  }

  /**
   * `nodeToValue`: the value of one node. Anything it cannot evaluate (a
   * number that is not an `Int`, an undefined variable, an object without
   * members, any other node) is the opaque `Unknown`.
   */
  function Eval(n: Node, vars: map<string, AnyValue>): (r: Result<AnyValue, string>)
    decreases n, 2
  {
    if n.Is(Number) then
      Success(match ToIntOrNull(NodeText(n)) case Some(i) => Int(i) case None => Unknown)
    else if n.Is(StringExpr) then Success(Str(GetValue(n)))
    else if n.Is(String) || n.Is(Link) then Success(Str(TrimQuoteChars(NodeText(n))))
    else if n.Is(Bool) then Success(Boolean(Trim(NodeText(n)) == "true"))
    else if n.Is(Object) then
      match FindKind(n.Children(), 0, {Members})
      case None => Success(Unknown)
      case Some(i) =>
        match MembersValue(n.children[i], 0, map[], vars)
        case Failure(e) => Failure(e)
        case Success(m) => Success(Obj(m))
    else if n.Is(ArrayExpr) then
      match ArraysValue(n, 0, [], vars)
      case Failure(e) => Failure(e)
      case Success(items) => Success(List(items))
    else if n.Is(VariableRefExpr) then
      Success(if NodeText(n) in vars then vars[NodeText(n)] else Unknown)
    else Success(Unknown)
  }

  /**
   * `createObject`: the pairs of a MEMBERS element from child `i` on, folded
   * into `acc`; each pair stores the value of its VALUE under the text of its
   * FIELD_NAME, the accessors of both throwing when they are missing.
   */
  function MembersValue(members: Node, i: nat, acc: map<string, AnyValue>, vars: map<string, AnyValue>)
    : (r: Result<map<string, AnyValue>, string>)
    decreases members, 1, |members.Children()| - i
  {
    if i >= |members.Children()| then Success(acc)
    else if !members.children[i].Is(Pair) then MembersValue(members, i + 1, acc, vars)
    else
      var pair := members.children[i];
      match PairEntry(pair, vars)
      case Failure(e) => Failure(e)
      case Success((key, v)) => MembersValue(members, i + 1, acc[key := v], vars)
  }

  /** The field name and value of one pair. */
  function PairEntry(pair: Node, vars: map<string, AnyValue>): (r: Result<(string, AnyValue), string>)
    decreases pair, 0
  {
    match FindKind(pair.Children(), 0, {Value})
    case None => Failure("pair without a value")
    case Some(vi) =>
      match FindKind(pair.children, 0, {FieldName})
      case None => Failure("pair without a field name")
      case Some(ki) =>
        var value := pair.children[vi];
        match ValueAt(value, vars)
        case Failure(e) => Failure(e)
        case Success(v) => Success((NodeText(pair.children[ki]), v))
  }

  /**
   * The array-expression fold: the elements of every ARRAY child from child
   * `i` on, appended to `acc`; an array without ELEMENTS adds nothing.
   */
  function ArraysValue(expr: Node, i: nat, acc: seq<AnyValue>, vars: map<string, AnyValue>)
    : (r: Result<seq<AnyValue>, string>)
    decreases expr, 1, |expr.Children()| - i
  {
    if i >= |expr.Children()| then Success(acc)
    else if !expr.children[i].Is(Array) then ArraysValue(expr, i + 1, acc, vars)
    else
      var arrayNode := expr.children[i];
      match ArrayItems(arrayNode, vars)
      case Failure(e) => Failure(e)
      case Success(items) => ArraysValue(expr, i + 1, acc + items, vars)
  }

  /** `fillArray` for one array: the values of its elements, or nothing when it has no ELEMENTS. */
  function ArrayItems(arrayNode: Node, vars: map<string, AnyValue>): (r: Result<seq<AnyValue>, string>)
    decreases arrayNode, 0, 0
  {
    match FindKind(arrayNode.Children(), 0, {Elements})
    case None => Success([])
    case Some(ei) => ElementValues(arrayNode.children[ei], 0, vars)
  }

  /** The values of the ARRAY_ELEMENT children of an ELEMENTS element, from child `i` on. */
  function ElementValues(elements: Node, i: nat, vars: map<string, AnyValue>): (r: Result<seq<AnyValue>, string>)
    decreases elements, 0, |elements.Children()| - i
  {
    if i >= |elements.Children()| then Success([])
    else if !elements.children[i].Is(ArrayElement) then ElementValues(elements, i + 1, vars)
    else
      var item := elements.children[i];
      match ValueAt(item, vars)
      case Failure(e) => Failure(e)
      case Success(v) =>
        match ElementValues(elements, i + 1, vars)
        case Failure(e) => Failure(e)
        case Success(rest) => Success([v] + rest)
  }

  /**
   * `concat`: a missing left operand gives the right one; lists append,
   * strings concatenate and `Int`s add with 32-bit wrap-around; any other
   * pairing throws.
   */
  function Concat(left: Option<AnyValue>, right: AnyValue): (r: Result<AnyValue, string>)
  {
    match left
    case None => Success(right)
    case Some(List(a)) =>
      if right.List? then Success(List(a + right.items)) else Failure("Can't concatenate array and non array")
    case Some(Str(a)) =>
      if right.Str? then Success(Str(a + right.s)) else Failure("Can't concatenate string and non string")
    case Some(Int(a)) =>
      if right.Int? then Success(Int(Wrap32(a + right.i))) else Failure("Can't concatenate int and non int")
    case Some(_) => Failure("Can't concatenate values")
  }

  /** Concatenation succeeds exactly for operands of the same list, string or `Int` kind. */
  lemma ConcatKinds(left: AnyValue, right: AnyValue)
    ensures Concat(Some(left), right).Success? <==>
      (left.List? && right.List?) || (left.Str? && right.Str?) || (left.Int? && right.Int?)
    ensures Concat(Some(left), right).Success? ==>
      var v := Concat(Some(left), right).value;
      && (left.List? ==> v == List(left.items + right.items))
      && (left.Str? ==> v == Str(left.s + right.s))
      && (left.Int? ==> v.Int? && IsInt32(v.i) && (IsInt32(left.i + right.i) ==> v.i == left.i + right.i))
  {
  }

  /** Concatenating three strings or three lists does not depend on grouping. */
  lemma ConcatAssociative(a: AnyValue, b: AnyValue, c: AnyValue)
    requires (a.Str? && b.Str? && c.Str?) || (a.List? && b.List? && c.List?)
    ensures var ab := Concat(Some(a), b).value;
      var bc := Concat(Some(b), c).value;
      Concat(Some(ab), c) == Concat(Some(a), bc)
  {
    if a.Str? {
      assert (a.s + b.s) + c.s == a.s + (b.s + c.s);
    } else {
      assert (a.items + b.items) + c.items == a.items + (b.items + c.items);
    }
  }

  // ------------------------------------------------------------ variables

  /**
   * `createVariable` as a specification: from the VARIABLE_NAME, the first
   * `=` or `+=` sibling, then the first VALUE sibling from there; when any
   * of them is missing the table is unchanged. `+=` on a name already in the
   * table stores the concatenation, anything else stores the value.
   */
  function VariableStep(node: Node, table: map<string, AnyValue>): (r: Result<map<string, AnyValue>, string>) {
    var ch := node.Children();
    match FindKind(ch, 0, {VariableName})
    case None => Success(table)
    case Some(ni) =>
      match FindKind(ch, ni, {Equals, PlusEquals})
      case None => Success(table)
      case Some(oi) =>
        match FindKind(ch, oi, {Value})
        case None => Success(table)
        case Some(vi) => Store(table, NodeText(ch[ni]), ch[oi].Is(PlusEquals), ValueAt(ch[vi], table))
  }

  /** The table after storing an evaluated value under `name`, concatenating for `+=` on a known name. */
  function Store(table: map<string, AnyValue>, name: string, add: bool, value: Result<AnyValue, string>)
    : (r: Result<map<string, AnyValue>, string>)
  {
    match value
    case Failure(e) => Failure(e)
    case Success(v) =>
      if add && name in table then
        match Concat(Some(table[name]), v)
        case Failure(e) => Failure(e)
        case Success(c) => Success(table[name := c])
      else Success(table[name := v])
  }

  /** `nodeToValue(value.firstChild.nextValueNode(), table)` for a VALUE element. */
  method ValueOf(value: Node, table: map<string, AnyValue>) returns (r: Result<AnyValue, string>)
    ensures r == ValueAt(value, table)
  {
    if value.Leaf? {
      return Success(Unknown);
    }
    var at := FindValueNode(value.children, 0);
    if at.None? {
      return Success(Unknown);
    }
    r := Eval(value.children[at.value], table);
  }

  /**
   * `createVariable`: walks the siblings from the name to the operator and
   * from the operator to the value, then stores into the table.
   */
  method CreateVariable(node: Node, table: map<string, AnyValue>) returns (r: Result<map<string, AnyValue>, string>)
    ensures r == VariableStep(node, table)
  {
    var ch := node.Children();
    var nameAt := FindKind(ch, 0, {VariableName});
    if nameAt.None? {
      return Success(table);
    }
    var ni := nameAt.value;
    var opAt, doAdd := FindOperator(ch, ni);
    if opAt.None? {
      return Success(table);
    }
    var current := opAt.value;
    var valueAt := NextValue(ch, current);
    if valueAt.None? {
      return Success(table);
    }
    var value := ValueOf(ch[valueAt.value], table);
    r := Store(table, NodeText(ch[ni]), doAdd, value);
  }

  /** The walk from the name to the first `=` or `+=` sibling, noting which one it is. */
  method FindOperator(ch: seq<Node>, from: nat) returns (r: Option<nat>, doAdd: bool)
    requires from <= |ch|
    ensures r == FindKind(ch, from, {Equals, PlusEquals})
    ensures r.Some? ==> doAdd == ch[r.value].Is(PlusEquals)
  {
    var current := from;
    doAdd := false;
    while true
      invariant from <= current <= |ch|
      invariant FindKind(ch, from, {Equals, PlusEquals}) == FindKind(ch, current, {Equals, PlusEquals})
      invariant !doAdd
      decreases |ch| - current
    {
      if current == |ch| {
        return None, doAdd;
      }
      if ch[current].Is(Equals) {
        break;
      }
      if ch[current].Is(PlusEquals) {
        doAdd := true;
        break;
      }
      current := current + 1;
    }
    r := Some(current);
  }

  /** The walk from the operator to the first VALUE sibling. */
  method NextValue(ch: seq<Node>, from: nat) returns (r: Option<nat>)
    requires from <= |ch|
    ensures r == FindKind(ch, from, {Value})
  {
    var current := from;
    while current < |ch|
      invariant from <= current <= |ch|
      invariant FindKind(ch, from, {Value}) == FindKind(ch, current, {Value})
    {
      if ch[current].Is(Value) {
        return Some(current);
      }
      current := current + 1;
    }
    return None;
  }

  /** `+=` on a known name concatenates, `=` (or `+=` on a new name) stores: a variable as the parser builds it. */
  lemma ParsedVariable(nameTok: Token, opTok: Token, v: Node, table: map<string, AnyValue>)
    requires nameTok.kind == VariableName && (opTok.kind == Equals || opTok.kind == PlusEquals)
    requires HasKindIn(v, ValueKinds)
    ensures var node := Composite(Variable, [Leaf(nameTok), Leaf(opTok), Composite(Value, [v])]);
      VariableStep(node, table) ==
        match Eval(v, table)
        case Failure(e) => Failure(e)
        case Success(value) =>
          if opTok.kind == PlusEquals && nameTok.text in table then
            match Concat(Some(table[nameTok.text]), value)
            case Failure(e) => Failure(e)
            case Success(c) => Success(table[nameTok.text := c])
          else Success(table[nameTok.text := value])
  {
    var node := Composite(Variable, [Leaf(nameTok), Leaf(opTok), Composite(Value, [v])]);
    var ch := node.Children();
    assert FindKind(ch, 0, {VariableName}) == Some(0);
    assert FindKind(ch, 0, {Equals, PlusEquals}) == Some(1);
    assert FindKind(ch, 1, {Value}) == Some(2);
    assert NextValueNode([v], 0) == Some(0);
    TokenText(nameTok, Variable);
  }

  /** A variable whose operator or value the parser reported missing leaves the table as it was. */
  lemma IncompleteVariable(nameTok: Token, rest: seq<Node>, table: map<string, AnyValue>)
    requires nameTok.kind == VariableName
    requires (forall i :: 0 <= i < |rest| ==> !HasKindIn(rest[i], {Equals, PlusEquals}))
          || (forall i :: 0 <= i < |rest| ==> !HasKindIn(rest[i], {Value}))
    ensures VariableStep(Composite(Variable, [Leaf(nameTok)] + rest), table) == Success(table)
  {
    var ch := [Leaf(nameTok)] + rest;
    assert forall i :: 1 <= i < |ch| ==> ch[i] == rest[i - 1];
    assert FindKind(ch, 0, {VariableName}) == Some(0);
  }

  /** A variable reference is the stored value of the whole reference text, or the opaque value. */
  lemma VariableReference(t: Token, vars: map<string, AnyValue>)
    ensures Eval(Composite(VariableRefExpr, [Leaf(t)]), vars) == if t.text in vars then Success(vars[t.text]) else Success(Unknown)
  {
    var n := Composite(VariableRefExpr, [Leaf(t)]);
    assert n.Is(VariableRefExpr);
    assert Eval(n, vars) == Success(if NodeText(n) in vars then vars[NodeText(n)] else Unknown);
    TokenText(t, VariableRefExpr);
  }

  /**
   * Scalars: a BOOL is true exactly when its trimmed text is `true`; a
   * NUMBER that is not an `Int` is the opaque value; a STRING or LINK loses
   * its quotes.
   */
  lemma ScalarValues(t: Token, vars: map<string, AnyValue>)
    ensures t.kind == Bool ==> Eval(Leaf(t), vars) == Success(Boolean(Trim(t.text) == "true"))
    ensures t.kind == Number ==>
      Eval(Leaf(t), vars) == Success(if ToIntOrNull(t.text).Some? then Int(ToIntOrNull(t.text).value) else Unknown)
    ensures t.kind == String || t.kind == Link ==> Eval(Leaf(t), vars) == Success(Str(TrimQuoteChars(t.text)))
    ensures !HasKindIn(Leaf(t), ValueKinds) ==> Eval(Leaf(t), vars) == Success(Unknown)
  {
    if t.kind == Bool {
      BoolLeaf(t, vars);
    } else if t.kind == Number {
      NumberLeaf(t, vars);
    } else if t.kind == String || t.kind == Link {
      QuotedLeaf(t, vars);
    } else if !HasKindIn(Leaf(t), ValueKinds) {
      OtherLeaf(t, vars);
    }
  }

  /** A BOOL leaf. */
  lemma BoolLeaf(t: Token, vars: map<string, AnyValue>)
    requires t.kind == Bool
    ensures Eval(Leaf(t), vars) == Success(Boolean(Trim(t.text) == "true"))
  {
    var n := Leaf(t);
    assert n.Is(Bool) && !n.Is(Number) && !n.Is(StringExpr) && !n.Is(String) && !n.Is(Link);
    TokenText(t, Value);
  }

  /** A NUMBER leaf. */
  lemma NumberLeaf(t: Token, vars: map<string, AnyValue>)
    requires t.kind == Number
    ensures Eval(Leaf(t), vars) == Success(if ToIntOrNull(t.text).Some? then Int(ToIntOrNull(t.text).value) else Unknown)
  {
    TokenText(t, Value);
  }

  /** A STRING or LINK leaf. */
  lemma QuotedLeaf(t: Token, vars: map<string, AnyValue>)
    requires t.kind == String || t.kind == Link
    ensures Eval(Leaf(t), vars) == Success(Str(TrimQuoteChars(t.text)))
  {
    TokenText(t, Value);
  }

  /** A leaf of no value kind. */
  lemma OtherLeaf(t: Token, vars: map<string, AnyValue>)
    requires !HasKindIn(Leaf(t), ValueKinds)
    ensures Eval(Leaf(t), vars) == Success(Unknown)
  {
  }

  /** A number with a non-digit in it, such as `1x`, evaluates to the opaque value. */
  lemma NonNumber(text: string, i: nat, vars: map<string, AnyValue>)
    requires 0 < i < |text| && !IsDigit(text[i])
    ensures Eval(Leaf(Token(Number, text)), vars) == Success(Unknown)
  {
    ScalarValues(Token(Number, text), vars);
    ToIntOrNullRejects(text, i);
  }

  /**
   * An array element written as a bare name (VARIABLE_NAME) is not looked up:
   * `nextValueNode` does not stop at it, so it is the opaque value.
   */
  lemma ElementNameIsUnknown(t: Token, vars: map<string, AnyValue>)
    requires t.kind == VariableName
    ensures ValueAt(Composite(ArrayElement, [Leaf(t)]), vars) == Success(Unknown)
  {
    assert !HasKindIn(Leaf(t), ValueKinds);
  }

  /** `acc` put in front of a successful list of values; a failure passes through. */
  function Prepend(acc: seq<AnyValue>, r: Result<seq<AnyValue>, string>): Result<seq<AnyValue>, string> {
    match r
    case Failure(e) => Failure(e)
    case Success(items) => Success(acc + items)
  }

  lemma PrependTwice(a: seq<AnyValue>, b: seq<AnyValue>, r: Result<seq<AnyValue>, string>)
    ensures Prepend(a + b, r) == Prepend(a, Prepend(b, r))
  {
    if r.Success? {
      assert (a + b) + r.value == a + (b + r.value);
    }
  }

  /** One array child of the expression: its items are appended, or its failure ends the walk. */
  lemma ArraysValueAtArray(expr: Node, i: nat, acc: seq<AnyValue>, vars: map<string, AnyValue>)
    requires i < |expr.Children()| && expr.children[i].Is(Array)
    ensures ArraysValue(expr, i, acc, vars) ==
      match ArrayItems(expr.children[i], vars)
      case Failure(e) => Failure(e)
      case Success(items) => ArraysValue(expr, i + 1, acc + items, vars)
  {
  }

  /**
   * The values gathered so far only ever stay in front: walking the
   * expression from child `i` with `acc` already gathered gives `acc`
   * followed by what the walk from `i` alone gives, or the same failure.
   */
  lemma {:induction false} ArraysValueAcc(expr: Node, i: nat, acc: seq<AnyValue>, vars: map<string, AnyValue>)
    ensures ArraysValue(expr, i, acc, vars) == Prepend(acc, ArraysValue(expr, i, [], vars))
    decreases |expr.Children()| - i
  {
    if i < |expr.Children()| {
      if !expr.children[i].Is(Array) {
        ArraysValueAcc(expr, i + 1, acc, vars);
      } else {
        ArraysValueAtArray(expr, i, acc, vars);
        ArraysValueAtArray(expr, i, [], vars);
        var items := ArrayItems(expr.children[i], vars);
        if items.Success? {
          assert [] + items.value == items.value;
          ArraysValueAcc(expr, i + 1, acc + items.value, vars);
          ArraysValueAcc(expr, i + 1, items.value, vars);
          PrependTwice(acc, items.value, ArraysValue(expr, i + 1, [], vars));
        }
      }
    } else {
      assert acc + [] == acc;
    }
  }

  /**
   * `[a…] + [b…]` is one flat list: the elements of the first array, then
   * those of the second.
   */
  lemma ArraySum(a: Node, plus: Token, b: Node, vars: map<string, AnyValue>)
    requires a.Composite? && a.kind == Array && b.Composite? && b.kind == Array && plus.kind == Plus
    requires ArrayItems(a, vars).Success? && ArrayItems(b, vars).Success?
    ensures Eval(Composite(ArrayExpr, [a, Leaf(plus), b]), vars) ==
      Success(List(ArrayItems(a, vars).value + ArrayItems(b, vars).value))
  {
    var expr := Composite(ArrayExpr, [a, Leaf(plus), b]);
    var ia := ArrayItems(a, vars).value;
    var ib := ArrayItems(b, vars).value;
    EvalArrayExpr(expr, vars);
    assert ArraysValue(expr, 3, ia + ib, vars) == Success(ia + ib);
    assert ArraysValue(expr, 2, ia, vars) == Success(ia + ib);
    assert ArraysValue(expr, 1, ia, vars) == Success(ia + ib);
    assert [] + ia == ia;
    assert ArraysValue(expr, 0, [], vars) == Success(ia + ib);
  }

  lemma EvalArrayExpr(n: Node, vars: map<string, AnyValue>)
    requires n.Composite? && n.kind == ArrayExpr
    ensures Eval(n, vars) ==
      match ArraysValue(n, 0, [], vars)
      case Failure(e) => Failure(e)
      case Success(items) => Success(List(items))
  {
  }

  /** An array without elements (`[]`) adds nothing to a concatenation. */
  lemma EmptyArray(open: Token, close: Token, vars: map<string, AnyValue>)
    requires open.kind == ArrayStart && close.kind == ArrayEnd
    ensures ArrayItems(Composite(Array, [Leaf(open), Leaf(close)]), vars) == Success([])
  {
    assert FindKind([Leaf(open), Leaf(close)], 0, {Elements}) == None;
  }

  /** No later pair has the field name `key`. */
  ghost predicate NoLaterKey(members: Node, j: nat, key: string, vars: map<string, AnyValue>) {
    forall l :: j < l < |members.Children()| && members.Children()[l].Is(Pair) ==>
      match PairEntry(members.Children()[l], vars)
      case Success(e) => e.0 != key
      case Failure(_) => true
  }

  /** A key that no pair from `i` on sets keeps the value it had. */
  lemma {:induction false} MembersKeep(members: Node, i: nat, acc: map<string, AnyValue>, vars: map<string, AnyValue>, key: string)
    requires i > 0 && NoLaterKey(members, i - 1, key, vars)
    requires MembersValue(members, i, acc, vars).Success?
    ensures var m := MembersValue(members, i, acc, vars).value;
      (key in m <==> key in acc) && (key in acc ==> m[key] == acc[key])
    decreases |members.Children()| - i
  {
    if i < |members.Children()| {
      assert NoLaterKey(members, i, key, vars);
      if !members.children[i].Is(Pair) {
        MembersKeep(members, i + 1, acc, vars, key);
      } else {
        var e := PairEntry(members.children[i], vars).value;
        assert e.0 != key;
        MembersKeep(members, i + 1, acc[e.0 := e.1], vars, key);
      }
    }
  }

  /** In an object, the last pair with a given field name decides its value. */
  lemma {:induction false} MembersLastWins(members: Node, i: nat, acc: map<string, AnyValue>, vars: map<string, AnyValue>, j: nat)
    requires i <= j < |members.Children()| && members.Children()[j].Is(Pair)
    requires MembersValue(members, i, acc, vars).Success?
    ensures PairEntry(members.Children()[j], vars).Success?
    ensures var e := PairEntry(members.Children()[j], vars).value;
      NoLaterKey(members, j, e.0, vars) ==>
        var m := MembersValue(members, i, acc, vars).value;
        e.0 in m && m[e.0] == e.1
    decreases j - i
  {
    if i < j {
      if !members.children[i].Is(Pair) {
        MembersLastWins(members, i + 1, acc, vars, j);
      } else {
        var e := PairEntry(members.children[i], vars).value;
        MembersLastWins(members, i + 1, acc[e.0 := e.1], vars, j);
      }
    } else {
      var e := PairEntry(members.children[j], vars).value;
      if NoLaterKey(members, j, e.0, vars) {
        MembersKeep(members, j + 1, acc[e.0 := e.1], vars, e.0);
      }
    }
  }

  // ------------------------------------------------------------ the file

  /**
   * `createBlueprint` as a specification: the text of the first
   * BLUEPRINT_TYPE child names the module type (no record without one), the
   * first MEMBERS child gives the member map (empty without one), and the
   * factory makes the record.
   */
  function BlueprintOf(item: Node, vars: map<string, AnyValue>, path: Path): (r: Result<Option<Record>, string>) {
    match FindKind(item.Children(), 0, {BlueprintType})
    case None => Success(None)
    case Some(ti) =>
      match MembersOf(item, vars)
      case Failure(e) => Failure(e)
      case Success(members) => Success(Factory.Blueprint(NodeText(item.children[ti]), members, path))
  }

  /** `element.members?.let { createObject(it, variables) } ?: emptyMap()` */
  function MembersOf(item: Node, vars: map<string, AnyValue>): (r: Result<map<string, AnyValue>, string>) {
    match FindKind(item.Children(), 0, {Members})
    case None => Success(map[])
    case Some(mi) => MembersValue(item.children[mi], 0, map[], vars)
  }

  /** `createBlueprint`, handing the member map to the factory. */
  method CreateBlueprint(item: Node, vars: map<string, AnyValue>, path: Path) returns (r: Result<Option<Record>, string>)
    ensures r == BlueprintOf(item, vars, path)
  {
    var ti := FindKind(item.Children(), 0, {BlueprintType});
    if ti.None? {
      return Success(None);
    }
    var members := MembersOf(item, vars);
    if members.Failure? {
      return Failure(members.error);
    }
    var record := Factory.Create(NodeText(item.children[ti.value]), members.value, path);
    r := Success(record);
  }

  /** What `toBlueprints` holds between items: the records so far and the variable table. */
  datatype State = State(blueprints: seq<Record>, variables: map<string, AnyValue>)

  /** One top-level item: a definition adds its record, a variable updates the table, anything else is skipped. */
  function Step(st: State, item: Node, path: Path): (r: Result<State, string>) {
    if item.Is(Blueprint) then
      match BlueprintOf(item, st.variables, path)
      case Failure(e) => Failure(e)
      case Success(None) => Success(st)
      case Success(Some(rec)) => Success(State(st.blueprints + [rec], st.variables))
    else if item.Is(Variable) then
      match VariableStep(item, st.variables)
      case Failure(e) => Failure(e)
      case Success(t) => Success(State(st.blueprints, t))
    else Success(st)
  }

  /** The items in order, from no records and an empty table. */
  function Run(items: seq<Node>, path: Path): (r: Result<State, string>)
    decreases |items|
  {
    if items == [] then Success(State([], map[]))
    else
      match Run(items[..|items| - 1], path)
      case Failure(e) => Failure(e)
      case Success(st) => Step(st, items[|items| - 1], path)
  }

  /** `toBlueprints`: the records of the file's items, in order. */
  function Blueprints(file: Node, path: Path): (r: Result<seq<Record>, string>) {
    match Run(file.Children(), path)
    case Failure(e) => Failure(e)
    case Success(st) => Success(st.blueprints)
  }

  /** `toBlueprints`: one pass over the file's children with a mutable table and result list. */
  method ToBlueprints(file: Node, path: Path) returns (r: Result<seq<Record>, string>)
    ensures r == Blueprints(file, path)
  {
    var items := file.Children();
    var result: seq<Record> := [];
    var variables: map<string, AnyValue> := map[];
    var i := 0;
    assert items[..0] == [];
    while i < |items|
      invariant 0 <= i <= |items|
      invariant Run(items[..i], path) == Success(State(result, variables))
      decreases |items| - i
    {
      RunStep(items, i, path);
      var next := StepItem(items[i], result, variables, path);
      if next.Failure? {
        RunFails(items, i + 1, path);
        return Failure(next.error);
      }
      result, variables := next.value.blueprints, next.value.variables;
      i := i + 1;
    }
    assert items[..i] == items;
    r := Success(result);
  }

  /** One child of the file: a definition appends its record, a variable updates the table. */
  method StepItem(node: Node, result: seq<Record>, variables: map<string, AnyValue>, path: Path)
    returns (r: Result<State, string>)
    ensures r == Step(State(result, variables), node, path)
  {
    if node.Is(Blueprint) {
      var b := CreateBlueprint(node, variables, path);
      if b.Failure? {
        return Failure(b.error);
      }
      if b.value.Some? {
        return Success(State(result + [b.value.value], variables));
      }
    } else if node.Is(Variable) {
      var t := CreateVariable(node, variables);
      if t.Failure? {
        return Failure(t.error);
      }
      return Success(State(result, t.value));
    }
    r := Success(State(result, variables));
  }

  lemma RunStep(items: seq<Node>, i: nat, path: Path)
    requires i < |items|
    ensures Run(items[..i + 1], path) ==
      if Run(items[..i], path).Failure? then Run(items[..i], path) else Step(Run(items[..i], path).value, items[i], path)
  {
    assert items[..i + 1][..i] == items[..i];
  }

  /** An item that throws ends the run: the error is the result of the whole file. */
  lemma {:induction false} RunFails(items: seq<Node>, k: nat, path: Path)
    requires k <= |items| && Run(items[..k], path).Failure?
    ensures Run(items, path) == Run(items[..k], path)
    decreases |items| - k
  {
    if k < |items| {
      RunStep(items, k, path);
      RunFails(items, k + 1, path);
    } else {
      assert items[..k] == items;
    }
  }

  /** Running more items never changes the records already made, and needs the earlier run to succeed. */
  lemma {:induction false} RunExtends(xs: seq<Node>, ys: seq<Node>, path: Path)
    requires Run(xs + ys, path).Success?
    ensures Run(xs, path).Success?
    ensures var before := Run(xs, path).value.blueprints;
      var after := Run(xs + ys, path).value.blueprints;
      |before| <= |after| && after[..|before|] == before
    decreases |ys|
  {
    if ys == [] {
      assert xs + ys == xs;
    } else {
      var all := xs + ys;
      var zs := xs + ys[..|ys| - 1];
      assert all[..|all| - 1] == zs;
      RunExtends(xs, ys[..|ys| - 1], path);
      StepKeeps(Run(zs, path).value, all[|all| - 1], path);
      var before := Run(xs, path).value.blueprints;
      var mid := Run(zs, path).value.blueprints;
      var after := Run(all, path).value.blueprints;
      assert after[..|before|] == after[..|mid|][..|before|];
    }
  }

  /** One item never changes the records already made. */
  lemma StepKeeps(st: State, item: Node, path: Path)
    requires Step(st, item, path).Success?
    ensures var after := Step(st, item, path).value.blueprints;
      |st.blueprints| <= |after| && after[..|st.blueprints|] == st.blueprints
  {
  }

  /**
   * A definition sees exactly the variables defined before it: its record is
   * the one the factory makes from the table of the earlier items, at the
   * position after the earlier records, whatever follows it.
   */
  lemma BlueprintSeesEarlierVariables(items: seq<Node>, k: nat, path: Path)
    requires k < |items| && items[k].Is(Blueprint)
    requires Run(items, path).Success?
    ensures Run(items[..k], path).Success?
    ensures var before := Run(items[..k], path).value;
      match BlueprintOf(items[k], before.variables, path)
      case Success(Some(rec)) =>
        |before.blueprints| < |Run(items, path).value.blueprints|
        && Run(items, path).value.blueprints[|before.blueprints|] == rec
      case Success(None) => true
      case Failure(_) => false
  {
    var pre := items[..k + 1];
    assert items == pre + items[k + 1..];
    RunExtends(pre, items[k + 1..], path);
    RunStep(items, k, path);
    var before := Run(items[..k], path).value;
    BlueprintStep(before, items[k], path);
    match BlueprintOf(items[k], before.variables, path)
    case Success(Some(rec)) =>
      var mid := Run(pre, path).value.blueprints;
      assert mid == before.blueprints + [rec];
      var after := Run(items, path).value.blueprints;
      assert after[..|mid|] == mid;
      assert after[|before.blueprints|] == mid[|before.blueprints|];
    case _ =>
  }

  /** One definition as a step of the run. */
  lemma BlueprintStep(st: State, item: Node, path: Path)
    requires item.Is(Blueprint)
    ensures var b := BlueprintOf(item, st.variables, path);
      && (b.Failure? ==> Step(st, item, path).Failure?)
      && (b == Success(None) ==> Step(st, item, path) == Success(st))
      && (b.Success? && b.value.Some? ==> Step(st, item, path) == Success(State(st.blueprints + [b.value.value], st.variables)))
  {
  }

  /** Assignments in file order: the second of two `=` to one name wins, and a `+=` appends to it. */
  lemma VariablesInOrder(a: Node, b: Node, path: Path)
    requires a.Is(Variable) && b.Is(Variable)
    ensures Run([a, b], path) ==
      match VariableStep(a, map[])
      case Failure(e) => Failure(e)
      case Success(t) =>
        match VariableStep(b, t)
        case Failure(e) => Failure(e)
        case Success(t') => Success(State([], t'))
  {
    assert [a, b][..1] == [a];
    assert [a][..0] == [];
    assert !a.Is(Blueprint) && !b.Is(Blueprint);
    assert Run([a], path) == Step(State([], map[]), a, path);
    RunStep([a, b], 1, path);
  }
}
