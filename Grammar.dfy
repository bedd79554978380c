/**
 * The Blueprint grammar as functions over the significant tokens: one
 * function per rule of the generated parser, each returning whether the rule
 * matched, the nodes it built and the position after it.
 *
 * The PSI builder helpers are modelled by their documented effect only:
 *  - a failing section that is not pinned rolls back (no nodes, same position);
 *  - a pinned rule (blueprint, variable) succeeds once its first token is
 *    consumed, and every missing part becomes an empty error element;
 *  - a rule with a recovery predicate (members, elements, pair) then skips
 *    tokens up to its stop set, and the skipped tokens form one error element
 *    after the rule's own node.
 */
module Grammar {
  import opened Psi

  datatype Parsed = Parsed(ok: bool, nodes: seq<Node>, next: nat)

  predicate At(toks: seq<Token>, pos: nat, k: ElementType) {
    pos < |toks| && toks[pos].kind == k
  }

  /** The result lies between `pos` and the end of the input. */
  predicate Spans(toks: seq<Token>, pos: nat, r: Parsed) {
    pos <= r.next <= |toks|
  }

  /** The nodes hold exactly the tokens from `pos` up to `r.next`, in order. */
  predicate Covers(toks: seq<Token>, pos: nat, r: Parsed) {
    pos <= r.next <= |toks| && LeavesOf(r.nodes) == toks[pos..r.next]
  }

  /** A failed section leaves no trace. */
  predicate RolledBack(pos: nat, r: Parsed) {
    !r.ok ==> r.nodes == [] && r.next == pos
  }

  /** No token from `a` up to `b` has kind `k`. */
  predicate Avoids(toks: seq<Token>, a: nat, b: nat, k: ElementType) {
    forall i :: a <= i < b && i < |toks| ==> toks[i].kind != k
  }

  function Fail(pos: nat): Parsed {
    Parsed(false, [], pos)
  }

  function Done(pos: nat): Parsed {
    Parsed(true, [], pos)
  }

  /**
   * One more round of a repetition: when the whole run is what has been
   * gathered followed by the run from here, and the run from here is one
   * round followed by the run after it, the whole run is what has been
   * gathered plus that round, followed by the run after it.
   */
  lemma Extend(whole: Parsed, gathered: seq<Node>, here: Parsed, first: seq<Node>, second: seq<Node>, rest: Parsed)
    requires whole == Parsed(true, gathered + here.nodes, here.next)
    requires here == Parsed(true, first + (second + rest.nodes), rest.next)
    ensures whole == Parsed(true, (gathered + (first + second)) + rest.nodes, rest.next)
  {
    assert gathered + (first + (second + rest.nodes)) == (gathered + (first + second)) + rest.nodes;
  }

  /** A repetition that stops here has gathered everything. */
  lemma Stop(whole: Parsed, gathered: seq<Node>, pos: nat)
    requires whole == Parsed(true, gathered + Done(pos).nodes, Done(pos).next)
    ensures whole == Parsed(true, gathered, pos)
  {
    assert gathered + [] == gathered;
  }

  /** Tokens turned back into leaves. */
  function LeafNodes(ts: seq<Token>): seq<Node> {
    if ts == [] then [] else [Leaf(ts[0])] + LeafNodes(ts[1..])
  }

  /** Turning tokens into leaves one more token at a time. */
  lemma {:induction false} LeafNodesSnoc(ts: seq<Token>, t: Token)
    ensures LeafNodes(ts + [t]) == LeafNodes(ts) + [Leaf(t)]
    decreases |ts|
  {
    if ts == [] {
      assert LeafNodes([t]) == [Leaf(t)] + LeafNodes([]);
    } else {
      assert (ts + [t])[1..] == ts[1..] + [t];
      LeafNodesSnoc(ts[1..], t);
    }
  }

  // ---------------------------------------------------------------- recovery

  /** Where error recovery stops: the first token at or after `pos` whose kind is in `stop`, or the end. */
  function SkipUntil(toks: seq<Token>, pos: nat, stop: set<ElementType>): (end: nat)
    requires pos <= |toks|
    ensures pos <= end <= |toks|
    ensures end == |toks| || toks[end].kind in stop
    decreases |toks| - pos
  {
    if pos == |toks| || toks[pos].kind in stop then pos else SkipUntil(toks, pos + 1, stop)
  }

  /** The recovery after a rule: skipped tokens form one error element. */
  function Recover(toks: seq<Token>, pos: nat, a: Parsed, stop: set<ElementType>): (r: Parsed)
    requires Spans(toks, pos, a)
    ensures Spans(toks, pos, r) && r.ok == a.ok
    ensures r.next == |toks| || toks[r.next].kind in stop
  {
    var end := SkipUntil(toks, a.next, stop);
    if end == a.next then a
    else
      var e := Error(LeafNodes(toks[a.next..end]));
      Parsed(a.ok, a.nodes + [e], end)
  }

  // ---------------------------------------------------------------- rules

  /**
   * The rules of the generated parser, used only to rank them for
   * termination. The `*` repetitions (the `_1` helper functions of the
   * parser) are rules of their own, and so are the bodies of the rules with
   * a recovery predicate, before their recovery runs.
   */
  datatype Rule =
    | RuleArrayElement | RuleElementsTail | RuleElementsBody | RuleElements | RuleArray | RuleArrayTail | RuleArrayExpr | RuleStringTail | RuleStringExpr | RuleValue | RuleObject | RuleVariableRefExpr | RuleMembers | RuleMembersBody | RuleMembersTail | RulePair | RulePairBody | RuleBlueprint | RuleVariable | RuleItem | RuleItems

  /** Orders the rules that call each other at the same position. */
  function Rank(rule: Rule): nat {
    match rule
    case RuleArrayElement => 0
    case RuleElementsTail => 0
    case RuleElementsBody => 1
    case RuleElements => 2
    case RuleArray => 3
    case RuleArrayTail => 0
    case RuleArrayExpr => 4
    case RuleStringTail => 0
    case RuleStringExpr => 0
    case RuleValue => 5
    case RuleObject => 4
    case RuleVariableRefExpr => 4
    case RuleMembers => 3
    case RuleMembersBody => 2
    case RuleMembersTail => 0
    case RulePair => 1
    case RulePairBody => 0
    case RuleBlueprint => 0
    case RuleVariable => 0
    case RuleItem => 1
    case RuleItems => 2
  }

  /** The token kinds array_element accepts. */
  predicate IsElementKind(k: ElementType) {
    k == String || k == Bool || k == Number || k == VariableName || k == Link
  }

  /** array_element ::= STRING | BOOL | NUMBER | VARIABLE_NAME | LINK */
  function ArrayElementRule(toks: seq<Token>, pos: nat): (r: Parsed)
    requires pos <= |toks|
    ensures Spans(toks, pos, r) && RolledBack(pos, r)
    ensures r.ok <==> pos < |toks| && IsElementKind(toks[pos].kind)
    ensures r.ok ==> r.next == pos + 1
    decreases |toks| - pos, Rank(RuleArrayElement), 0
  {
    if pos < |toks| && IsElementKind(toks[pos].kind) then
      Parsed(true, [Composite(ArrayElement, [Leaf(toks[pos])])], pos + 1)
    else Fail(pos)
  }

  /** `(ELEMENT_SEPARATOR array_element)*` */
  function ElementsTail(toks: seq<Token>, pos: nat): (r: Parsed)
    requires pos <= |toks|
    ensures Spans(toks, pos, r) && r.ok
    decreases |toks| - pos, Rank(RuleElementsTail), 0
  {
    if !At(toks, pos, ElementSeparator) then Done(pos)
    else
      var item := ArrayElementRule(toks, pos + 1);
      if !item.ok then Done(pos)
      else
        var rest := ElementsTail(toks, item.next);
        Parsed(true, [Leaf(toks[pos])] + (item.nodes + rest.nodes), rest.next)
  }

  /** elements ::= array_element (ELEMENT_SEPARATOR array_element)* ELEMENT_SEPARATOR?, recovering until `]` */
  function ElementsRule(toks: seq<Token>, pos: nat): (r: Parsed)
    requires pos <= |toks|
    ensures Spans(toks, pos, r)
    ensures r.ok ==> pos < r.next
    decreases |toks| - pos, Rank(RuleElements), 0
  {
    Recover(toks, pos, ElementsBody(toks, pos), {ArrayEnd})
  }

  /** The elements rule before its recovery. */
  function ElementsBody(toks: seq<Token>, pos: nat): (r: Parsed)
    requires pos <= |toks|
    ensures Spans(toks, pos, r) && RolledBack(pos, r)
    ensures r.ok ==> pos < r.next
    decreases |toks| - pos, Rank(RuleElementsBody), 0
  {
    var first := ArrayElementRule(toks, pos);
    if !first.ok then Fail(pos)
    else
      var tail := ElementsTail(toks, first.next);
      var items := first.nodes + tail.nodes;
      if At(toks, tail.next, ElementSeparator) then
        Parsed(true, [Composite(Elements, items + [Leaf(toks[tail.next])])], tail.next + 1)
      else
        Parsed(true, [Composite(Elements, items)], tail.next)
  }

  /** array ::= ARRAY_START elements? ARRAY_END */
  function ArrayRule(toks: seq<Token>, pos: nat): (r: Parsed)
    requires pos <= |toks|
    ensures Spans(toks, pos, r) && RolledBack(pos, r)
    ensures r.ok ==> pos < r.next
    decreases |toks| - pos, Rank(RuleArray), 0
  {
    if !At(toks, pos, ArrayStart) then Fail(pos)
    else
      var elems := ElementsRule(toks, pos + 1);
      if !At(toks, elems.next, ArrayEnd) then Fail(pos)
      else
        var ch := [Leaf(toks[pos])] + elems.nodes + [Leaf(toks[elems.next])];
        Parsed(true, [Composite(Array, ch)], elems.next + 1)
  }

  /** `(PLUS array)*` */
  function ArrayTail(toks: seq<Token>, pos: nat): (r: Parsed)
    requires pos <= |toks|
    ensures Spans(toks, pos, r) && r.ok
    decreases |toks| - pos, Rank(RuleArrayTail), 0
  {
    if !At(toks, pos, Plus) then Done(pos)
    else
      var arr := ArrayRule(toks, pos + 1);
      if !arr.ok then Done(pos)
      else
        var rest := ArrayTail(toks, arr.next);
        Parsed(true, [Leaf(toks[pos])] + (arr.nodes + rest.nodes), rest.next)
  }

  /** array_expr ::= array (PLUS array)* */
  function ArrayExprRule(toks: seq<Token>, pos: nat): (r: Parsed)
    requires pos <= |toks|
    ensures Spans(toks, pos, r) && RolledBack(pos, r)
    ensures r.ok ==> pos < r.next
    decreases |toks| - pos, Rank(RuleArrayExpr), 0
  {
    var first := ArrayRule(toks, pos);
    if !first.ok then Fail(pos)
    else
      var tail := ArrayTail(toks, first.next);
      Parsed(true, [Composite(ArrayExpr, first.nodes + tail.nodes)], tail.next)
  }

  /** `(PLUS STRING)*` */
  function StringTail(toks: seq<Token>, pos: nat): (r: Parsed)
    requires pos <= |toks|
    ensures Spans(toks, pos, r) && r.ok
    decreases |toks| - pos, Rank(RuleStringTail), 0
  {
    if At(toks, pos, Plus) && At(toks, pos + 1, String) then
      var rest := StringTail(toks, pos + 2);
      Parsed(true, [Leaf(toks[pos])] + ([Leaf(toks[pos + 1])] + rest.nodes), rest.next)
    else Done(pos)
  }

  /** string_expr ::= STRING (PLUS STRING)* */
  function StringExprRule(toks: seq<Token>, pos: nat): (r: Parsed)
    requires pos <= |toks|
    ensures Spans(toks, pos, r) && RolledBack(pos, r)
    ensures r.ok ==> pos < r.next
    decreases |toks| - pos, Rank(RuleStringExpr), 0
  {
    if !At(toks, pos, String) then Fail(pos)
    else
      var tail := StringTail(toks, pos + 1);
      Parsed(true, [Composite(StringExpr, [Leaf(toks[pos])] + tail.nodes)], tail.next)
  }

  /** field_name ::= FIELD_NAME and blueprint_type ::= BLUEPRINT_TYPE: one token wrapped in an element of the same type. */
  function SingleTokenRule(toks: seq<Token>, pos: nat, k: ElementType): (r: Parsed)
    requires pos <= |toks|
    ensures Spans(toks, pos, r) && RolledBack(pos, r)
    ensures r.ok <==> At(toks, pos, k)
    ensures r.ok ==> r.next == pos + 1
  {
    if !At(toks, pos, k) then Fail(pos)
    else
      Parsed(true, [Composite(k, [Leaf(toks[pos])])], pos + 1)
  }

  /** A VALUE element around what an alternative of the value rule matched. */
  function AsValue(toks: seq<Token>, pos: nat, a: Parsed): (r: Parsed)
    requires Spans(toks, pos, a) && a.ok && pos < a.next
    ensures Spans(toks, pos, r) && r.ok && pos < r.next
  {
    Parsed(true, [Composite(Value, a.nodes)], a.next)
  }

  /** value ::= string_expr | array_expr | object | BOOL | NUMBER | variable_ref_expr */
  function ValueRule(toks: seq<Token>, pos: nat): (r: Parsed)
    requires pos <= |toks|
    ensures Spans(toks, pos, r) && RolledBack(pos, r)
    ensures r.ok ==> pos < r.next
    decreases |toks| - pos, Rank(RuleValue), 0
  {
    var s := StringExprRule(toks, pos);
    if s.ok then AsValue(toks, pos, s)
    else
      var a := ArrayExprRule(toks, pos);
      if a.ok then AsValue(toks, pos, a)
      else
        var o := ObjectRule(toks, pos);
        if o.ok then AsValue(toks, pos, o)
        else if At(toks, pos, Bool) || At(toks, pos, Number) then
          AsValue(toks, pos, Parsed(true, [Leaf(toks[pos])], pos + 1))
        else
          var v := VariableRefExprRule(toks, pos);
          if v.ok then AsValue(toks, pos, v) else Fail(pos)
  }

  /** object ::= OBJECT_START members? OBJECT_END */
  function ObjectRule(toks: seq<Token>, pos: nat): (r: Parsed)
    requires pos <= |toks|
    ensures Spans(toks, pos, r) && RolledBack(pos, r)
    ensures r.ok ==> pos < r.next
    decreases |toks| - pos, Rank(RuleObject), 0
  {
    if !At(toks, pos, ObjectStart) then Fail(pos)
    else
      var members := MembersRule(toks, pos + 1);
      if !At(toks, members.next, ObjectEnd) then Fail(pos)
      else
        var ch := [Leaf(toks[pos])] + members.nodes + [Leaf(toks[members.next])];
        Parsed(true, [Composite(Object, ch)], members.next + 1)
  }

  /** variable_ref_expr ::= VARIABLE_VALUE (PLUS value)? */
  function VariableRefExprRule(toks: seq<Token>, pos: nat): (r: Parsed)
    requires pos <= |toks|
    ensures Spans(toks, pos, r) && RolledBack(pos, r)
    ensures r.ok ==> pos < r.next
    decreases |toks| - pos, Rank(RuleVariableRefExpr), 0
  {
    if !At(toks, pos, VariableValue) then Fail(pos)
    else
      var v := if At(toks, pos + 1, Plus) then ValueRule(toks, pos + 2) else Fail(pos + 2);
      if v.ok then
        var ch := [Leaf(toks[pos])] + ([Leaf(toks[pos + 1])] + v.nodes);
        Parsed(true, [Composite(VariableRefExpr, ch)], v.next)
      else
        Parsed(true, [Composite(VariableRefExpr, [Leaf(toks[pos])])], pos + 1)
  }

  /** members ::= pair (ELEMENT_SEPARATOR pair)* ELEMENT_SEPARATOR?, recovering until `}` */
  function MembersRule(toks: seq<Token>, pos: nat): (r: Parsed)
    requires pos <= |toks|
    ensures Spans(toks, pos, r)
    ensures r.ok ==> pos < r.next
    decreases |toks| - pos, Rank(RuleMembers), 0
  {
    Recover(toks, pos, MembersBody(toks, pos), {ObjectEnd})
  }

  /** The members rule before its recovery. */
  function MembersBody(toks: seq<Token>, pos: nat): (r: Parsed)
    requires pos <= |toks|
    ensures Spans(toks, pos, r) && RolledBack(pos, r)
    ensures r.ok ==> pos < r.next
    decreases |toks| - pos, Rank(RuleMembersBody), 0
  {
    var first := PairRule(toks, pos);
    if !first.ok then Fail(pos)
    else
      var tail := MembersTail(toks, first.next);
      var items := first.nodes + tail.nodes;
      if At(toks, tail.next, ElementSeparator) then
        Parsed(true, [Composite(Members, items + [Leaf(toks[tail.next])])], tail.next + 1)
      else
        Parsed(true, [Composite(Members, items)], tail.next)
  }

  /** `(ELEMENT_SEPARATOR pair)*` */
  function MembersTail(toks: seq<Token>, pos: nat): (r: Parsed)
    requires pos <= |toks|
    ensures Spans(toks, pos, r) && r.ok
    decreases |toks| - pos, Rank(RuleMembersTail), 0
  {
    if !At(toks, pos, ElementSeparator) then Done(pos)
    else
      var item := PairRule(toks, pos + 1);
      if !item.ok then Done(pos)
      else
        var rest := MembersTail(toks, item.next);
        Parsed(true, [Leaf(toks[pos])] + (item.nodes + rest.nodes), rest.next)
  }

  /** The tokens that end pair recovery (whitespace never reaches the parser). */
  const PairStop: set<ElementType> := {WhiteSpace, ElementSeparator, ObjectEnd}

  /** pair ::= field_name EQUALS value, recovering until whitespace, `,` or `}` */
  function PairRule(toks: seq<Token>, pos: nat): (r: Parsed)
    requires pos <= |toks|
    ensures Spans(toks, pos, r)
    ensures r.ok ==> pos < r.next
    decreases |toks| - pos, Rank(RulePair), 0
  {
    Recover(toks, pos, PairBody(toks, pos), PairStop)
  }

  /** The pair rule before its recovery. */
  function PairBody(toks: seq<Token>, pos: nat): (r: Parsed)
    requires pos <= |toks|
    ensures Spans(toks, pos, r) && RolledBack(pos, r)
    ensures r.ok ==> pos < r.next
    decreases |toks| - pos, Rank(RulePairBody), 0
  {
    var name := SingleTokenRule(toks, pos, FieldName);
    if !(name.ok && At(toks, pos + 1, Equals)) then Fail(pos)
    else
      var v := ValueRule(toks, pos + 2);
      if !v.ok then Fail(pos)
      else
        var ch := name.nodes + ([Leaf(toks[pos + 1])] + v.nodes);
        Parsed(true, [Composite(Pair, ch)], v.next)
  }

  /** A required token of a pinned rule: when missing it is reported as an empty error element. */
  function Expect(toks: seq<Token>, pos: nat, kinds: set<ElementType>): (r: Parsed)
    requires pos <= |toks|
    ensures Spans(toks, pos, r) && r.ok && |r.nodes| == 1
    ensures pos < |toks| && toks[pos].kind in kinds ==> r.next == pos + 1 && r.nodes[0] == Leaf(toks[pos])
    ensures !(pos < |toks| && toks[pos].kind in kinds) ==> r.next == pos && r.nodes[0] == Error([])
  {
    if pos < |toks| && toks[pos].kind in kinds then
      Parsed(true, [Leaf(toks[pos])], pos + 1)
    else
      Parsed(true, [Error([])], pos)
  }

  /** blueprint ::= blueprint_type OBJECT_START members? OBJECT_END, pinned on its type */
  function BlueprintRule(toks: seq<Token>, pos: nat): (r: Parsed)
    requires pos <= |toks|
    ensures Spans(toks, pos, r) && RolledBack(pos, r)
    ensures r.ok ==> pos < r.next
    decreases |toks| - pos, Rank(RuleBlueprint), 0
  {
    var typ := SingleTokenRule(toks, pos, BlueprintType);
    if !typ.ok then Fail(pos)
    else
      var open := Expect(toks, pos + 1, {ObjectStart});
      var members := MembersRule(toks, open.next);
      var close := Expect(toks, members.next, {ObjectEnd});
      var ch := typ.nodes + open.nodes + members.nodes + close.nodes;
      Parsed(true, [Composite(Blueprint, ch)], close.next)
  }

  /** variable ::= VARIABLE_NAME (PLUS_EQUALS | EQUALS) value, pinned on its name */
  function VariableRule(toks: seq<Token>, pos: nat): (r: Parsed)
    requires pos <= |toks|
    ensures Spans(toks, pos, r) && RolledBack(pos, r)
    ensures r.ok ==> pos < r.next
    decreases |toks| - pos, Rank(RuleVariable), 0
  {
    if !At(toks, pos, VariableName) then Fail(pos)
    else
      var op := Expect(toks, pos + 1, {PlusEquals, Equals});
      var v := ValueRule(toks, op.next);
      var value := if v.ok then v else Expect(toks, op.next, {});
      var ch := [Leaf(toks[pos])] + op.nodes + value.nodes;
      Parsed(true, [Composite(Variable, ch)], value.next)
  }

  /** item_ ::= blueprint | variable | COMMENT | WHITE_SPACE */
  function ItemRule(toks: seq<Token>, pos: nat): (r: Parsed)
    requires pos <= |toks|
    ensures Spans(toks, pos, r) && RolledBack(pos, r)
    ensures r.ok ==> pos < r.next
    decreases |toks| - pos, Rank(RuleItem), 0
  {
    var b := BlueprintRule(toks, pos);
    if b.ok then b
    else
      var v := VariableRule(toks, pos);
      if v.ok then v
      else if At(toks, pos, Comment) || At(toks, pos, WhiteSpace) then
        Parsed(true, [Leaf(toks[pos])], pos + 1)
      else Fail(pos)
  }

  /**
   * `item_*`: items until one fails; like the generated loop it also stops
   * on an item that consumed nothing.
   */
  function Items(toks: seq<Token>, pos: nat): (r: Parsed)
    requires pos <= |toks|
    ensures Spans(toks, pos, r) && r.ok
    decreases |toks| - pos, Rank(RuleItems), 0
  {
    var item := ItemRule(toks, pos);
    if !item.ok || item.next == pos then Done(pos)
    else
      var rest := Items(toks, item.next);
      Parsed(true, item.nodes + rest.nodes, rest.next)
  }

  /** items unfolded once, for proofs that walk the file item by item. */
  lemma ItemsUnfold(toks: seq<Token>, pos: nat, item: Parsed)
    requires pos <= |toks| && item == ItemRule(toks, pos)
    ensures !item.ok || item.next == pos ==> Items(toks, pos) == Done(pos)
    ensures item.ok && item.next != pos ==>
      Items(toks, pos) == Parsed(true, [] + (item.nodes + Items(toks, item.next).nodes), Items(toks, item.next).next)
  {
    assert [] + (item.nodes + Items(toks, item.next).nodes) == item.nodes + Items(toks, item.next).nodes;
  }

  /**
   * The file: its items, then whatever is left over as one error element
   * (the root section recovers with a condition that always holds).
   */
  function ParseFile(toks: seq<Token>): (file: Node)
    ensures file.Composite? && file.kind == File
  {
    var rest := Recover(toks, 0, Items(toks, 0), {});
    Composite(File, rest.nodes)
  }
}
