/**
 * Every rule of the grammar keeps its tokens: the leaves of the nodes it
 * builds are exactly the tokens from its start up to where it stops, in
 * order, and so the file tree holds the whole token stream (error recovery
 * and the root's leftover element lose nothing).
 */
module GrammarLeaves {
  import opened Psi
  import opened Grammar
  import opened GrammarFacts

  // ---------------------------------------------------------------- helpers

  lemma Join(toks: seq<Token>, a: nat, b: nat, c: nat, xs: seq<Node>, ys: seq<Node>)
    requires a <= b <= c <= |toks|
    requires LeavesOf(xs) == toks[a..b] && LeavesOf(ys) == toks[b..c]
    ensures LeavesOf(xs + ys) == toks[a..c]
  {
    LeavesOfAppend(xs, ys);
    assert toks[a..c] == toks[a..b] + toks[b..c];
  }

  lemma LeafAt(toks: seq<Token>, i: nat)
    requires i < |toks|
    ensures LeavesOf([Leaf(toks[i])]) == toks[i..i + 1]
  {
    LeavesOfSingle(Leaf(toks[i]));
  }

  lemma Wrapped(k: ElementType, ns: seq<Node>)
    ensures LeavesOf([Composite(k, ns)]) == LeavesOf(ns)
  {
    LeavesOfSingle(Composite(k, ns));
  }

  lemma ErrorWrapped(ns: seq<Node>)
    ensures LeavesOf([Error(ns)]) == LeavesOf(ns)
  {
    LeavesOfSingle(Error(ns));
  }

  lemma {:induction false} LeafNodesLeaves(ts: seq<Token>)
    ensures LeavesOf(LeafNodes(ts)) == ts
    decreases |ts|
  {
    if ts != [] {
      var ns := LeafNodes(ts);
      assert ns == [Leaf(ts[0])] + LeafNodes(ts[1..]);
      LeafNodesLeaves(ts[1..]);
      LeavesOfAppend([Leaf(ts[0])], LeafNodes(ts[1..]));
      LeavesOfSingle(Leaf(ts[0]));
      assert ts == [ts[0]] + ts[1..];
    }
  }

  lemma RecoverCovers(toks: seq<Token>, pos: nat, a: Parsed, stop: set<ElementType>)
    requires Covers(toks, pos, a)
    ensures Covers(toks, pos, Recover(toks, pos, a, stop))
  {
    var end := SkipUntil(toks, a.next, stop);
    if end != a.next {
      var skipped := LeafNodes(toks[a.next..end]);
      LeafNodesLeaves(toks[a.next..end]);
      ErrorWrapped(skipped);
      Join(toks, pos, a.next, end, a.nodes, [Error(skipped)]);
    }
  }

  // ---------------------------------------------------------------- rules

  lemma {:induction false} ArrayElementCovers(toks: seq<Token>, pos: nat)
    requires pos <= |toks|
    ensures Covers(toks, pos, ArrayElementRule(toks, pos))
    decreases |toks| - pos, Rank(RuleArrayElement), 0
  {
    if ArrayElementRule(toks, pos).ok {
      LeafAt(toks, pos);
      Wrapped(ArrayElement, [Leaf(toks[pos])]);
    }
  }

  lemma {:induction false} ElementsTailCovers(toks: seq<Token>, pos: nat)
    requires pos <= |toks|
    ensures Covers(toks, pos, ElementsTail(toks, pos))
    decreases |toks| - pos, Rank(RuleElementsTail), 0
  {
    if At(toks, pos, ElementSeparator) {
      var item := ArrayElementRule(toks, pos + 1);
      if item.ok {
        var rest := ElementsTail(toks, item.next);
        ArrayElementCovers(toks, pos + 1);
        ElementsTailCovers(toks, item.next);
        LeafAt(toks, pos);
        Join(toks, pos + 1, item.next, rest.next, item.nodes, rest.nodes);
        Join(toks, pos, pos + 1, rest.next, [Leaf(toks[pos])], item.nodes + rest.nodes);
      }
    }
  }

  /** The elements before the optional trailing separator. */
  lemma {:induction false} ElementItemsCovers(toks: seq<Token>, pos: nat, first: Parsed)
    requires pos < |toks| && first.ok && first.next == pos + 1 && Covers(toks, pos, first)
    ensures var tail := ElementsTail(toks, pos + 1);
      LeavesOf(first.nodes + tail.nodes) == toks[pos..tail.next]
    decreases |toks| - pos, 0, 0
  {
    var tail := ElementsTail(toks, pos + 1);
    ElementsTailCovers(toks, pos + 1);
    Join(toks, pos, pos + 1, tail.next, first.nodes, tail.nodes);
  }

  lemma {:induction false} ElementsBodyCovers(toks: seq<Token>, pos: nat)
    requires pos <= |toks|
    ensures Covers(toks, pos, ElementsBody(toks, pos))
    decreases |toks| - pos, Rank(RuleElementsBody), 0
  {
    var first := ArrayElementRule(toks, pos);
    if first.ok {
      var tail := ElementsTail(toks, first.next);
      var items := first.nodes + tail.nodes;
      ArrayElementCovers(toks, pos);
      ElementItemsCovers(toks, pos, first);
      if At(toks, tail.next, ElementSeparator) {
        LeafAt(toks, tail.next);
        Join(toks, pos, tail.next, tail.next + 1, items, [Leaf(toks[tail.next])]);
        Wrapped(Elements, items + [Leaf(toks[tail.next])]);
      } else {
        Wrapped(Elements, items);
      }
    }
  }

  lemma {:induction false} ElementsCovers(toks: seq<Token>, pos: nat)
    requires pos <= |toks|
    ensures Covers(toks, pos, ElementsRule(toks, pos))
    decreases |toks| - pos, Rank(RuleElements), 0
  {
    ElementsBodyCovers(toks, pos);
    RecoverCovers(toks, pos, ElementsBody(toks, pos), {ArrayEnd});
  }

  /** The open token, the inner nodes and the close token of a bracketed rule. */
  lemma Bracketed(toks: seq<Token>, pos: nat, inner: Parsed)
    requires Covers(toks, pos + 1, inner) && inner.next < |toks|
    ensures LeavesOf([Leaf(toks[pos])] + inner.nodes + [Leaf(toks[inner.next])]) == toks[pos..inner.next + 1]
  {
    LeafAt(toks, pos);
    LeafAt(toks, inner.next);
    Join(toks, pos, pos + 1, inner.next, [Leaf(toks[pos])], inner.nodes);
    Join(toks, pos, inner.next, inner.next + 1, [Leaf(toks[pos])] + inner.nodes, [Leaf(toks[inner.next])]);
  }

  lemma {:induction false} ArrayCovers(toks: seq<Token>, pos: nat)
    requires pos <= |toks|
    ensures Covers(toks, pos, ArrayRule(toks, pos))
    decreases |toks| - pos, Rank(RuleArray), 0
  {
    if At(toks, pos, ArrayStart) {
      var elems := ElementsRule(toks, pos + 1);
      if At(toks, elems.next, ArrayEnd) {
        ElementsCovers(toks, pos + 1);
        Bracketed(toks, pos, elems);
        Wrapped(Array, [Leaf(toks[pos])] + elems.nodes + [Leaf(toks[elems.next])]);
      }
    }
  }

  lemma {:induction false} ArrayTailCovers(toks: seq<Token>, pos: nat)
    requires pos <= |toks|
    ensures Covers(toks, pos, ArrayTail(toks, pos))
    decreases |toks| - pos, Rank(RuleArrayTail), 0
  {
    if At(toks, pos, Plus) {
      var arr := ArrayRule(toks, pos + 1);
      if arr.ok {
        var rest := ArrayTail(toks, arr.next);
        ArrayCovers(toks, pos + 1);
        ArrayTailCovers(toks, arr.next);
        LeafAt(toks, pos);
        Join(toks, pos + 1, arr.next, rest.next, arr.nodes, rest.nodes);
        Join(toks, pos, pos + 1, rest.next, [Leaf(toks[pos])], arr.nodes + rest.nodes);
      }
    }
  }

  lemma {:induction false} ArrayExprCovers(toks: seq<Token>, pos: nat)
    requires pos <= |toks|
    ensures Covers(toks, pos, ArrayExprRule(toks, pos))
    decreases |toks| - pos, Rank(RuleArrayExpr), 0
  {
    var first := ArrayRule(toks, pos);
    if first.ok {
      var tail := ArrayTail(toks, first.next);
      ArrayCovers(toks, pos);
      ArrayTailCovers(toks, first.next);
      Join(toks, pos, first.next, tail.next, first.nodes, tail.nodes);
      Wrapped(ArrayExpr, first.nodes + tail.nodes);
    }
  }

  lemma {:induction false} StringTailCovers(toks: seq<Token>, pos: nat)
    requires pos <= |toks|
    ensures Covers(toks, pos, StringTail(toks, pos))
    decreases |toks| - pos, Rank(RuleStringTail), 0
  {
    if At(toks, pos, Plus) && At(toks, pos + 1, String) {
      var rest := StringTail(toks, pos + 2);
      StringTailCovers(toks, pos + 2);
      LeafAt(toks, pos);
      LeafAt(toks, pos + 1);
      Join(toks, pos + 1, pos + 2, rest.next, [Leaf(toks[pos + 1])], rest.nodes);
      Join(toks, pos, pos + 1, rest.next, [Leaf(toks[pos])], [Leaf(toks[pos + 1])] + rest.nodes);
    }
  }

  lemma {:induction false} StringExprCovers(toks: seq<Token>, pos: nat)
    requires pos <= |toks|
    ensures Covers(toks, pos, StringExprRule(toks, pos))
    decreases |toks| - pos, Rank(RuleStringExpr), 0
  {
    if At(toks, pos, String) {
      var tail := StringTail(toks, pos + 1);
      StringTailCovers(toks, pos + 1);
      LeafAt(toks, pos);
      Join(toks, pos, pos + 1, tail.next, [Leaf(toks[pos])], tail.nodes);
      Wrapped(StringExpr, [Leaf(toks[pos])] + tail.nodes);
    }
  }

  lemma SingleTokenCovers(toks: seq<Token>, pos: nat, k: ElementType)
    requires pos <= |toks|
    ensures Covers(toks, pos, SingleTokenRule(toks, pos, k))
  {
    if At(toks, pos, k) {
      LeafAt(toks, pos);
      Wrapped(k, [Leaf(toks[pos])]);
    }
  }

  lemma AsValueCovers(toks: seq<Token>, pos: nat, a: Parsed)
    requires Covers(toks, pos, a) && a.ok && pos < a.next
    ensures Covers(toks, pos, AsValue(toks, pos, a))
  {
    Wrapped(Value, a.nodes);
  }

  lemma {:induction false} ValueCovers(toks: seq<Token>, pos: nat)
    requires pos <= |toks|
    ensures Covers(toks, pos, ValueRule(toks, pos))
    decreases |toks| - pos, Rank(RuleValue), 0
  {
    var s := StringExprRule(toks, pos);
    if s.ok {
      StringExprCovers(toks, pos);
      AsValueCovers(toks, pos, s);
      assert ValueRule(toks, pos) == AsValue(toks, pos, s);
      return;
    }
    var a := ArrayExprRule(toks, pos);
    if a.ok {
      ArrayExprCovers(toks, pos);
      AsValueCovers(toks, pos, a);
      assert ValueRule(toks, pos) == AsValue(toks, pos, a);
      return;
    }
    var o := ObjectRule(toks, pos);
    if o.ok {
      ObjectCovers(toks, pos);
      AsValueCovers(toks, pos, o);
      assert ValueRule(toks, pos) == AsValue(toks, pos, o);
      return;
    }
    if At(toks, pos, Bool) || At(toks, pos, Number) {
      LeafAt(toks, pos);
      AsValueCovers(toks, pos, Parsed(true, [Leaf(toks[pos])], pos + 1));
      assert ValueRule(toks, pos) == AsValue(toks, pos, Parsed(true, [Leaf(toks[pos])], pos + 1));
      return;
    }
    var v := VariableRefExprRule(toks, pos);
    if v.ok {
      VariableRefExprCovers(toks, pos);
      AsValueCovers(toks, pos, v);
      assert ValueRule(toks, pos) == AsValue(toks, pos, v);
    }
  }

  lemma {:induction false} ObjectCovers(toks: seq<Token>, pos: nat)
    requires pos <= |toks|
    ensures Covers(toks, pos, ObjectRule(toks, pos))
    decreases |toks| - pos, Rank(RuleObject), 0
  {
    if At(toks, pos, ObjectStart) {
      var members := MembersRule(toks, pos + 1);
      if At(toks, members.next, ObjectEnd) {
        MembersCovers(toks, pos + 1);
        Bracketed(toks, pos, members);
        Wrapped(Object, [Leaf(toks[pos])] + members.nodes + [Leaf(toks[members.next])]);
      }
    }
  }

  lemma {:induction false} VariableRefExprCovers(toks: seq<Token>, pos: nat)
    requires pos <= |toks|
    ensures Covers(toks, pos, VariableRefExprRule(toks, pos))
    decreases |toks| - pos, Rank(RuleVariableRefExpr), 0
  {
    if At(toks, pos, VariableValue) {
      LeafAt(toks, pos);
      if At(toks, pos + 1, Plus) && ValueRule(toks, pos + 2).ok {
        var v := ValueRule(toks, pos + 2);
        ValueCovers(toks, pos + 2);
        LeafAt(toks, pos + 1);
        Join(toks, pos + 1, pos + 2, v.next, [Leaf(toks[pos + 1])], v.nodes);
        Join(toks, pos, pos + 1, v.next, [Leaf(toks[pos])], [Leaf(toks[pos + 1])] + v.nodes);
        Wrapped(VariableRefExpr, [Leaf(toks[pos])] + ([Leaf(toks[pos + 1])] + v.nodes));
      } else {
        Wrapped(VariableRefExpr, [Leaf(toks[pos])]);
      }
    }
  }

  lemma {:induction false} MembersCovers(toks: seq<Token>, pos: nat)
    requires pos <= |toks|
    ensures Covers(toks, pos, MembersRule(toks, pos))
    decreases |toks| - pos, Rank(RuleMembers), 0
  {
    MembersBodyCovers(toks, pos);
    RecoverCovers(toks, pos, MembersBody(toks, pos), {ObjectEnd});
  }

  lemma {:induction false} MembersBodyCovers(toks: seq<Token>, pos: nat)
    requires pos <= |toks|
    ensures Covers(toks, pos, MembersBody(toks, pos))
    decreases |toks| - pos, Rank(RuleMembersBody), 0
  {
    var first := PairRule(toks, pos);
    if first.ok {
      var tail := MembersTail(toks, first.next);
      var items := first.nodes + tail.nodes;
      PairCovers(toks, pos);
      MembersTailCovers(toks, first.next);
      Join(toks, pos, first.next, tail.next, first.nodes, tail.nodes);
      if At(toks, tail.next, ElementSeparator) {
        LeafAt(toks, tail.next);
        Join(toks, pos, tail.next, tail.next + 1, items, [Leaf(toks[tail.next])]);
        Wrapped(Members, items + [Leaf(toks[tail.next])]);
      } else {
        Wrapped(Members, items);
      }
    }
  }

  lemma {:induction false} MembersTailCovers(toks: seq<Token>, pos: nat)
    requires pos <= |toks|
    ensures Covers(toks, pos, MembersTail(toks, pos))
    decreases |toks| - pos, Rank(RuleMembersTail), 0
  {
    if At(toks, pos, ElementSeparator) {
      var item := PairRule(toks, pos + 1);
      if item.ok {
        var rest := MembersTail(toks, item.next);
        PairCovers(toks, pos + 1);
        MembersTailCovers(toks, item.next);
        LeafAt(toks, pos);
        Join(toks, pos + 1, item.next, rest.next, item.nodes, rest.nodes);
        Join(toks, pos, pos + 1, rest.next, [Leaf(toks[pos])], item.nodes + rest.nodes);
      }
    }
  }

  lemma {:induction false} PairCovers(toks: seq<Token>, pos: nat)
    requires pos <= |toks|
    ensures Covers(toks, pos, PairRule(toks, pos))
    decreases |toks| - pos, Rank(RulePair), 0
  {
    PairBodyCovers(toks, pos);
    RecoverCovers(toks, pos, PairBody(toks, pos), PairStop);
  }

  lemma {:induction false} PairBodyCovers(toks: seq<Token>, pos: nat)
    requires pos <= |toks|
    ensures Covers(toks, pos, PairBody(toks, pos))
    decreases |toks| - pos, Rank(RulePairBody), 0
  {
    var name := SingleTokenRule(toks, pos, FieldName);
    if name.ok && At(toks, pos + 1, Equals) {
      var v := ValueRule(toks, pos + 2);
      if v.ok {
        SingleTokenCovers(toks, pos, FieldName);
        ValueCovers(toks, pos + 2);
        LeafAt(toks, pos + 1);
        Join(toks, pos + 1, pos + 2, v.next, [Leaf(toks[pos + 1])], v.nodes);
        Join(toks, pos, pos + 1, v.next, name.nodes, [Leaf(toks[pos + 1])] + v.nodes);
        Wrapped(Pair, name.nodes + ([Leaf(toks[pos + 1])] + v.nodes));
      }
    }
  }

  lemma ExpectCovers(toks: seq<Token>, pos: nat, kinds: set<ElementType>)
    requires pos <= |toks|
    ensures Covers(toks, pos, Expect(toks, pos, kinds))
  {
    if pos < |toks| && toks[pos].kind in kinds {
      LeafAt(toks, pos);
    } else {
      ErrorWrapped([]);
    }
  }

  lemma {:induction false} BlueprintCovers(toks: seq<Token>, pos: nat)
    requires pos <= |toks|
    ensures Covers(toks, pos, BlueprintRule(toks, pos))
    decreases |toks| - pos, Rank(RuleBlueprint), 0
  {
    var typ := SingleTokenRule(toks, pos, BlueprintType);
    if typ.ok {
      var open := Expect(toks, pos + 1, {ObjectStart});
      var members := MembersRule(toks, open.next);
      var close := Expect(toks, members.next, {ObjectEnd});
      SingleTokenCovers(toks, pos, BlueprintType);
      ExpectCovers(toks, pos + 1, {ObjectStart});
      MembersCovers(toks, open.next);
      ExpectCovers(toks, members.next, {ObjectEnd});
      Join(toks, pos, pos + 1, open.next, typ.nodes, open.nodes);
      Join(toks, pos, open.next, members.next, typ.nodes + open.nodes, members.nodes);
      Join(toks, pos, members.next, close.next, typ.nodes + open.nodes + members.nodes, close.nodes);
      Wrapped(Blueprint, typ.nodes + open.nodes + members.nodes + close.nodes);
    }
  }

  lemma {:induction false} VariableCovers(toks: seq<Token>, pos: nat)
    requires pos <= |toks|
    ensures Covers(toks, pos, VariableRule(toks, pos))
    decreases |toks| - pos, Rank(RuleVariable), 0
  {
    if At(toks, pos, VariableName) {
      var op := Expect(toks, pos + 1, {PlusEquals, Equals});
      var v := ValueRule(toks, op.next);
      var value := if v.ok then v else Expect(toks, op.next, {});
      LeafAt(toks, pos);
      ExpectCovers(toks, pos + 1, {PlusEquals, Equals});
      ValueCovers(toks, op.next);
      ExpectCovers(toks, op.next, {});
      Join(toks, pos, pos + 1, op.next, [Leaf(toks[pos])], op.nodes);
      Join(toks, pos, op.next, value.next, [Leaf(toks[pos])] + op.nodes, value.nodes);
      Wrapped(Variable, [Leaf(toks[pos])] + op.nodes + value.nodes);
    }
  }

  lemma {:induction false} ItemCovers(toks: seq<Token>, pos: nat)
    requires pos <= |toks|
    ensures Covers(toks, pos, ItemRule(toks, pos))
    decreases |toks| - pos, Rank(RuleItem), 0
  {
    BlueprintCovers(toks, pos);
    VariableCovers(toks, pos);
    if pos < |toks| {
      LeafAt(toks, pos);
    }
  }

  lemma {:induction false} ItemsCovers(toks: seq<Token>, pos: nat)
    requires pos <= |toks|
    ensures Covers(toks, pos, Items(toks, pos))
    decreases |toks| - pos, Rank(RuleItems), 0
  {
    var item := ItemRule(toks, pos);
    if item.ok && item.next != pos {
      var rest := Items(toks, item.next);
      ItemCovers(toks, pos);
      ItemsCovers(toks, item.next);
      Join(toks, pos, item.next, rest.next, item.nodes, rest.nodes);
    }
  }

  /** Parsing loses no token: the file tree's leaves are the parser's input. */
  lemma ParseFileKeepsTokens(toks: seq<Token>)
    ensures Leaves(ParseFile(toks)) == toks
  {
    ItemsCovers(toks, 0);
    RecoverCovers(toks, 0, Items(toks, 0), {});
    assert toks[0..|toks|] == toks;
  }

  /** The text of the file tree is the text of the significant tokens. */
  lemma ParseFileText(raw: seq<Token>)
    ensures NodeText(ParseFile(Significant(raw))) == TextOf(Significant(raw))
  {
    ParseFileKeepsTokens(Significant(raw));
  }
}
