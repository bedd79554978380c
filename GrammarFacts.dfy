/** Properties of the Blueprint grammar functions. */
module GrammarFacts {
  import opened Psi
  import opened Grammar

  /**
   * Every node is an `item` or a separator, and a separator comes right after
   * an `item` and nowhere else.
   */
  predicate Alternates(ns: seq<Node>, item: ElementType) {
    && (forall i :: 0 <= i < |ns| ==> ns[i].Is(item) || ns[i].Is(ElementSeparator))
    && (forall i :: 0 <= i < |ns| - 1 ==> (ns[i + 1].Is(ElementSeparator) <==> ns[i].Is(item)))
  }

  // ------------------------------------------------------------ recovery

  /** Error recovery skips only tokens outside its stop set. */
  lemma {:induction false} SkipUntilSkips(toks: seq<Token>, pos: nat, stop: set<ElementType>)
    requires pos <= |toks|
    ensures forall i :: pos <= i < SkipUntil(toks, pos, stop) ==> toks[i].kind !in stop
    decreases |toks| - pos
  {
    if pos < |toks| && toks[pos].kind !in stop {
      SkipUntilSkips(toks, pos + 1, stop);
    }
  }

  /** Recovery after a rule keeps the rule's own nodes and skips only tokens outside the stop set. */
  lemma RecoverSkips(toks: seq<Token>, pos: nat, a: Parsed, stop: set<ElementType>)
    requires Spans(toks, pos, a)
    ensures var r := Recover(toks, pos, a, stop);
      && r.nodes[..|a.nodes|] == a.nodes
      && forall i :: a.next <= i < r.next ==> toks[i].kind !in stop
  {
    SkipUntilSkips(toks, a.next, stop);
  }

  // ------------------------------------------------------------ string_expr

  /** `(PLUS STRING)*` takes PLUS STRING pairs and stops where no such pair follows. */
  lemma {:induction false} StringTailShape(toks: seq<Token>, pos: nat)
    requires pos <= |toks|
    ensures var r := StringTail(toks, pos);
      && !(At(toks, r.next, Plus) && At(toks, r.next + 1, String))
      && (r.next - pos) % 2 == 0
      && forall i :: pos <= i < r.next ==> toks[i].kind == (if (i - pos) % 2 == 0 then Plus else String)
    decreases |toks| - pos
  {
    if At(toks, pos, Plus) && At(toks, pos + 1, String) {
      StringTailShape(toks, pos + 2);
    }
  }

  /**
   * A string expression is STRING (PLUS STRING)*; a PLUS that is not followed by
   * a STRING is left for the caller.
   */
  lemma StringExprShape(toks: seq<Token>, pos: nat)
    requires pos <= |toks|
    ensures var r := StringExprRule(toks, pos);
      r.ok ==>
        && !(At(toks, r.next, Plus) && At(toks, r.next + 1, String))
        && (r.next - pos) % 2 == 1
        && forall i :: pos <= i < r.next ==> toks[i].kind == (if (i - pos) % 2 == 0 then String else Plus)
  {
    if At(toks, pos, String) {
      StringTailShape(toks, pos + 1);
      var t := StringTail(toks, pos + 1);
      forall i | pos <= i < t.next
        ensures toks[i].kind == (if (i - pos) % 2 == 0 then String else Plus)
      {
        if i > pos {
          assert (i - pos) % 2 == 0 <==> (i - (pos + 1)) % 2 == 1;
        }
      }
    }
  }

  // ------------------------------------------------------------ array_expr

  /** Where `(PLUS array)*` ends: here unless a PLUS and an array follow, else where the rest ends. */
  lemma ArrayTailNext(toks: seq<Token>, pos: nat)
    requires pos <= |toks|
    ensures !(At(toks, pos, Plus) && ArrayRule(toks, pos + 1).ok) ==> ArrayTail(toks, pos).next == pos
    ensures At(toks, pos, Plus) && ArrayRule(toks, pos + 1).ok ==>
      ArrayTail(toks, pos).next == ArrayTail(toks, ArrayRule(toks, pos + 1).next).next
  {
  }

  /** `(PLUS array)*` stops only where no PLUS followed by an array comes next. */
  lemma {:induction false} ArrayTailStops(toks: seq<Token>, pos: nat)
    requires pos <= |toks|
    ensures var r := ArrayTail(toks, pos); !(At(toks, r.next, Plus) && ArrayRule(toks, r.next + 1).ok)
    decreases |toks| - pos
  {
    ArrayTailNext(toks, pos);
    if At(toks, pos, Plus) && ArrayRule(toks, pos + 1).ok {
      ArrayTailStops(toks, ArrayRule(toks, pos + 1).next);
    }
  }

  /** An array expression leaves a trailing PLUS that is not followed by an array unconsumed. */
  lemma ArrayExprStops(toks: seq<Token>, pos: nat)
    requires pos <= |toks|
    ensures var r := ArrayExprRule(toks, pos); r.ok ==> !(At(toks, r.next, Plus) && ArrayRule(toks, r.next + 1).ok)
  {
    ArrayExprNext(toks, pos);
    if ArrayRule(toks, pos).ok {
      ArrayTailStops(toks, ArrayRule(toks, pos).next);
    }
  }

  /** An array expression matches when its first array does, and ends where the tail after it ends. */
  lemma ArrayExprNext(toks: seq<Token>, pos: nat)
    requires pos <= |toks|
    ensures ArrayExprRule(toks, pos).ok <==> ArrayRule(toks, pos).ok
    ensures ArrayRule(toks, pos).ok ==> ArrayExprRule(toks, pos).next == ArrayTail(toks, ArrayRule(toks, pos).next).next
  {
  }

  // ------------------------------------------------------------ elements and array

  /** Two alternating runs joined where the pattern continues form one alternating run. */
  lemma AlternatesConcat(xs: seq<Node>, ys: seq<Node>, item: ElementType)
    requires Alternates(xs, item) && Alternates(ys, item)
    requires xs != [] && ys != [] ==> (ys[0].Is(ElementSeparator) <==> xs[|xs| - 1].Is(item))
    ensures Alternates(xs + ys, item)
  {
    var all := xs + ys;
    forall i | 0 <= i < |all|
      ensures all[i] == if i < |xs| then xs[i] else ys[i - |xs|]
    {
    }
  }

  /** Separator, item, separator, item, ...: a run that starts with a separator and ends with an item. */
  predicate SeparatedRun(ns: seq<Node>, item: ElementType) {
    && (ns != [] ==> ns[0].Is(ElementSeparator) && ns[|ns| - 1].Is(item))
    && Alternates(ns, item)
  }

  /** A separator and an item in front of a separated run extend it. */
  lemma SeparatedRunCons(sep: Node, x: Node, rest: seq<Node>, item: ElementType)
    requires sep.Is(ElementSeparator) && x.Is(item) && !x.Is(ElementSeparator)
    requires SeparatedRun(rest, item)
    ensures SeparatedRun([sep, x] + rest, item)
  {
    var unit := [sep, x];
    AlternatesConcat(unit, rest, item);
    if rest != [] {
      assert (unit + rest)[|unit + rest| - 1] == rest[|rest| - 1];
    }
  }

  /** `(ELEMENT_SEPARATOR array_element)*`: separator, element, separator, element, ... */
  lemma {:induction false} ElementsTailShape(toks: seq<Token>, pos: nat)
    requires pos <= |toks|
    ensures SeparatedRun(ElementsTail(toks, pos).nodes, ArrayElement)
    decreases |toks| - pos
  {
    if At(toks, pos, ElementSeparator) && ArrayElementRule(toks, pos + 1).ok {
      var item := ArrayElementRule(toks, pos + 1);
      assert item == ArrayElementRule(toks, pos + 1);
      var x := Composite(ArrayElement, [Leaf(toks[pos + 1])]);
      assert item.nodes == [x];
      var rest := ElementsTail(toks, pos + 2);
      assert rest == ElementsTail(toks, pos + 2);
      ElementsTailShape(toks, pos + 2);
      assert ElementsTail(toks, pos).nodes == [Leaf(toks[pos]), x] + rest.nodes;
      SeparatedRunCons(Leaf(toks[pos]), x, rest.nodes, ArrayElement);
    } else {
      assert ElementsTail(toks, pos) == Done(pos);
    }
  }

  /**
   * `(ELEMENT_SEPARATOR array_element)*` takes no `]` and stops only where no
   * separator followed by an element comes next.
   */
  lemma {:induction false} ElementsTailStops(toks: seq<Token>, pos: nat)
    requires pos <= |toks|
    ensures var r := ElementsTail(toks, pos);
      && Avoids(toks, pos, r.next, ArrayEnd)
      && !(At(toks, r.next, ElementSeparator) && ArrayElementRule(toks, r.next + 1).ok)
  {
    ElementsTailAvoids(toks, pos);
    ElementsTailEnds(toks, pos);
  }

  /** The separated elements take no `]`. */
  lemma {:induction false} ElementsTailAvoids(toks: seq<Token>, pos: nat)
    requires pos <= |toks|
    ensures Avoids(toks, pos, ElementsTail(toks, pos).next, ArrayEnd)
    decreases |toks| - pos
  {
    ElementsTailNext(toks, pos);
    if At(toks, pos, ElementSeparator) && ArrayElementRule(toks, pos + 1).ok {
      ElementsTailAvoids(toks, pos + 2);
      AvoidsPair(toks, pos, ArrayEnd);
      AvoidsJoin(toks, pos, pos + 2, ElementsTail(toks, pos).next, ArrayEnd);
    }
  }

  /** The separated elements stop where no separator and element follow. */
  lemma {:induction false} ElementsTailEnds(toks: seq<Token>, pos: nat)
    requires pos <= |toks|
    ensures var e := ElementsTail(toks, pos).next; !(At(toks, e, ElementSeparator) && ArrayElementRule(toks, e + 1).ok)
    decreases |toks| - pos
  {
    ElementsTailNext(toks, pos);
    if At(toks, pos, ElementSeparator) && ArrayElementRule(toks, pos + 1).ok {
      ElementsTailEnds(toks, pos + 2);
    }
  }

  /** Where `(ELEMENT_SEPARATOR array_element)*` ends: here, or two tokens on where the rest ends. */
  lemma ElementsTailNext(toks: seq<Token>, pos: nat)
    requires pos <= |toks|
    ensures !(At(toks, pos, ElementSeparator) && ArrayElementRule(toks, pos + 1).ok) ==> ElementsTail(toks, pos).next == pos
    ensures At(toks, pos, ElementSeparator) && ArrayElementRule(toks, pos + 1).ok ==>
      pos + 2 <= |toks| && toks[pos + 1].kind != ArrayEnd && ElementsTail(toks, pos).next == ElementsTail(toks, pos + 2).next
  {
  }

  /** Two tokens of another kind avoid `k`. */
  lemma AvoidsPair(toks: seq<Token>, pos: nat, k: ElementType)
    requires pos + 2 <= |toks| && toks[pos].kind != k && toks[pos + 1].kind != k
    ensures Avoids(toks, pos, pos + 2, k)
  {
  }

  lemma AvoidsJoin(toks: seq<Token>, a: nat, b: nat, c: nat, k: ElementType)
    requires a <= b <= c
    requires Avoids(toks, a, b, k) && Avoids(toks, b, c, k)
    ensures Avoids(toks, a, c, k)
  {
  }

  /**
   * The elements node alternates element, separator, element, ..., so no two
   * separators are adjacent and at most one trails the last element.
   */
  lemma ElementsShape(toks: seq<Token>, pos: nat)
    requires pos <= |toks|
    ensures var r := ElementsBody(toks, pos);
      r.ok ==>
        && r.nodes[0].Composite? && r.nodes[0].children != []
        && r.nodes[0].children[0].Is(ArrayElement)
        && Alternates(r.nodes[0].children, ArrayElement)
  {
    var first := ArrayElementRule(toks, pos);
    assert first == ArrayElementRule(toks, pos);
    if first.ok {
      var tail := ElementsTail(toks, first.next);
      assert tail == ElementsTail(toks, pos + 1);
      ElementsTailShape(toks, first.next);
      var items := first.nodes + tail.nodes;
      assert first.nodes == [Composite(ArrayElement, [Leaf(toks[pos])])];
      AlternatesConcat(first.nodes, tail.nodes, ArrayElement);
      assert items[|items| - 1].Is(ArrayElement) by {
        if tail.nodes != [] {
          assert items[|items| - 1] == tail.nodes[|tail.nodes| - 1];
        }
      }
      if At(toks, tail.next, ElementSeparator) {
        AlternatesConcat(items, [Leaf(toks[tail.next])], ArrayElement);
      }
    }
  }

  /** The tokens an elements rule takes never include `]`. */
  lemma ElementsAvoidArrayEnd(toks: seq<Token>, pos: nat)
    requires pos <= |toks|
    ensures Avoids(toks, pos, ElementsRule(toks, pos).next, ArrayEnd)
  {
    var body := ElementsBody(toks, pos);
    RecoverSkips(toks, pos, body, {ArrayEnd});
    ElementsBodyNext(toks, pos);
    if body.ok {
      ElementsTailStops(toks, pos + 1);
    }
  }

  /** Where the elements body ends: after the first element, its tail and a trailing separator. */
  lemma ElementsBodyNext(toks: seq<Token>, pos: nat)
    requires pos <= |toks|
    ensures ElementsRule(toks, pos) == Recover(toks, pos, ElementsBody(toks, pos), {ArrayEnd})
    ensures ElementsBody(toks, pos).ok ==>
      && ArrayElementRule(toks, pos).ok && pos < |toks| && toks[pos].kind != ArrayEnd
      && var t := ElementsTail(toks, pos + 1).next;
         ElementsBody(toks, pos).next == if At(toks, t, ElementSeparator) then t + 1 else t
  {
  }

  /** An array is `[`, then the elements rule, then `]` where the elements stop. */
  lemma ArrayRuleOk(toks: seq<Token>, pos: nat)
    requires pos <= |toks|
    ensures !At(toks, pos, ArrayStart) ==> !ArrayRule(toks, pos).ok
    ensures At(toks, pos, ArrayStart) ==>
      (ArrayRule(toks, pos).ok <==> At(toks, ElementsRule(toks, pos + 1).next, ArrayEnd))
  {
  }

  /** The elements rule recovers up to the end or to a `]`. */
  lemma ElementsStop(toks: seq<Token>, pos: nat)
    requires pos <= |toks|
    ensures var e := ElementsRule(toks, pos).next; pos <= e <= |toks| && (e == |toks| || toks[e].kind == ArrayEnd)
  {
    ElementsBodyNext(toks, pos);
  }

  /** When no `]` lies in `(pos, e)` and `e` is the end or a `]`, a `]` is at `e` exactly when one follows `pos`. */
  lemma FirstArrayEnd(toks: seq<Token>, pos: nat, e: nat)
    requires pos < e <= |toks| && Avoids(toks, pos + 1, e, ArrayEnd)
    requires e == |toks| || toks[e].kind == ArrayEnd
    ensures At(toks, e, ArrayEnd) <==> exists j :: pos < j < |toks| && toks[j].kind == ArrayEnd
  {
    if exists j :: pos < j < |toks| && toks[j].kind == ArrayEnd {
      var j :| pos < j < |toks| && toks[j].kind == ArrayEnd;
      assert e <= j;
    }
  }

  /** An array matches exactly when it opens with `[` and some `]` follows. */
  lemma ArrayClosesIff(toks: seq<Token>, pos: nat)
    requires pos <= |toks|
    ensures ArrayRule(toks, pos).ok <==> At(toks, pos, ArrayStart) && exists j :: pos < j < |toks| && toks[j].kind == ArrayEnd
  {
    ArrayRuleOk(toks, pos);
    if At(toks, pos, ArrayStart) {
      ElementsAvoidArrayEnd(toks, pos + 1);
      ElementsStop(toks, pos + 1);
      FirstArrayEnd(toks, pos, ElementsRule(toks, pos + 1).next);
    }
  }

  // ------------------------------------------------------------ value

  /** The token each alternative of value needs first. */
  lemma ValueAlternativesStart(toks: seq<Token>, pos: nat)
    requires pos <= |toks|
    ensures StringExprRule(toks, pos).ok <==> At(toks, pos, String)
    ensures ArrayExprRule(toks, pos).ok ==> At(toks, pos, ArrayStart)
    ensures ObjectRule(toks, pos).ok ==> At(toks, pos, ObjectStart)
    ensures VariableRefExprRule(toks, pos).ok <==> At(toks, pos, VariableValue)
  {
    ArrayExprNext(toks, pos);
    ArrayRuleOk(toks, pos);
  }

  /** What value makes of the results of its alternatives, taken in order. */
  function ValueOf(toks: seq<Token>, pos: nat, s: Parsed, a: Parsed, o: Parsed, v: Parsed): Parsed
    requires pos <= |toks|
  {
    if s.ok then Parsed(true, [Composite(Value, s.nodes)], s.next)
    else if a.ok then Parsed(true, [Composite(Value, a.nodes)], a.next)
    else if o.ok then Parsed(true, [Composite(Value, o.nodes)], o.next)
    else if At(toks, pos, Bool) || At(toks, pos, Number) then Parsed(true, [Composite(Value, [Leaf(toks[pos])])], pos + 1)
    else if v.ok then Parsed(true, [Composite(Value, v.nodes)], v.next)
    else Fail(pos)
  }

  /** value unfolded once, with each alternative's rule named directly. */
  lemma ValueUnfold(toks: seq<Token>, pos: nat)
    requires pos <= |toks|
    ensures ValueRule(toks, pos) ==
      ValueOf(toks, pos, StringExprRule(toks, pos), ArrayExprRule(toks, pos), ObjectRule(toks, pos), VariableRefExprRule(toks, pos))
  {
  }

  /** The ordered choice of value, alternative by alternative. */
  lemma ValueChoice(toks: seq<Token>, pos: nat)
    requires pos <= |toks|
    ensures var r := ValueRule(toks, pos);
      var s := StringExprRule(toks, pos);
      var a := ArrayExprRule(toks, pos);
      var o := ObjectRule(toks, pos);
      var v := VariableRefExprRule(toks, pos);
      && (r.ok <==> s.ok || a.ok || o.ok || At(toks, pos, Bool) || At(toks, pos, Number) || v.ok)
      && (s.ok ==> r.nodes == [Composite(Value, s.nodes)])
      && (!s.ok && a.ok ==> r.nodes == [Composite(Value, a.nodes)])
      && (!s.ok && !a.ok && o.ok ==> r.nodes == [Composite(Value, o.nodes)])
      && (!s.ok && !a.ok && !o.ok && (At(toks, pos, Bool) || At(toks, pos, Number)) ==>
            r.nodes == [Composite(Value, [Leaf(toks[pos])])] && r.next == pos + 1)
      && (!s.ok && !a.ok && !o.ok && !At(toks, pos, Bool) && !At(toks, pos, Number) && v.ok ==>
            r.nodes == [Composite(Value, v.nodes)])
  {
    ValueUnfold(toks, pos);
  }

  /**
   * value is an ordered choice whose alternatives start with distinct tokens,
   * so the first token decides which alternative wins: it matches only at a
   * token that starts one of them, always at a string, a BOOL, a NUMBER or a
   * variable reference, and at `[` or `{` exactly when the array expression
   * or the object does.
   */
  lemma ValueDispatch(toks: seq<Token>, pos: nat)
    requires pos <= |toks|
    ensures var r := ValueRule(toks, pos);
      && (r.ok ==> pos < |toks| && toks[pos].kind in {String, ArrayStart, ObjectStart, Bool, Number, VariableValue})
      && (At(toks, pos, String) ==> r.ok && r.nodes == [Composite(Value, StringExprRule(toks, pos).nodes)])
      && ((At(toks, pos, Bool) || At(toks, pos, Number)) ==> r.ok && r.next == pos + 1 && r.nodes == [Composite(Value, [Leaf(toks[pos])])])
      && (At(toks, pos, VariableValue) ==> r.ok && r.nodes == [Composite(Value, VariableRefExprRule(toks, pos).nodes)])
      && (At(toks, pos, ArrayStart) ==> r.ok == ArrayExprRule(toks, pos).ok)
      && (At(toks, pos, ArrayStart) && r.ok ==> r.nodes == [Composite(Value, ArrayExprRule(toks, pos).nodes)])
      && (At(toks, pos, ObjectStart) ==> r.ok == ObjectRule(toks, pos).ok)
      && (At(toks, pos, ObjectStart) && r.ok ==> r.nodes == [Composite(Value, ObjectRule(toks, pos).nodes)])
  {
    ValueAlternativesStart(toks, pos);
    ValueChoice(toks, pos);
  }

  // ------------------------------------------------------------ pinned rules

  /**
   * Once BLUEPRINT_TYPE is consumed the blueprint rule succeeds; a missing `{`
   * is reported as an error element in its place, and a missing `}` can only
   * happen at the end of the input.
   */
  lemma BlueprintPinned(toks: seq<Token>, pos: nat)
    requires pos <= |toks|
    ensures var r := BlueprintRule(toks, pos);
      && (r.ok <==> At(toks, pos, BlueprintType))
      && (r.ok ==>
        && |r.nodes| == 1 && r.nodes[0].Composite? && r.nodes[0].kind == Blueprint
        && |r.nodes[0].children| >= 3
        && (r.nodes[0].children[1] == Error([]) <==> !At(toks, pos + 1, ObjectStart))
        && (r.nodes[0].children[|r.nodes[0].children| - 1] == Error([]) ==> r.next == |toks|))
  {
    if At(toks, pos, BlueprintType) {
      var open := Expect(toks, pos + 1, {ObjectStart});
      var members := MembersRule(toks, open.next);
      var close := Expect(toks, members.next, {ObjectEnd});
      var typ := SingleTokenRule(toks, pos, BlueprintType);
      assert |typ.nodes| == 1;
      var ch := typ.nodes + open.nodes + members.nodes + close.nodes;
      assert BlueprintRule(toks, pos).nodes == [Composite(Blueprint, ch)];
      assert ch[1] == open.nodes[0];
      assert ch[|ch| - 1] == close.nodes[0];
    }
  }

  /**
   * Once VARIABLE_NAME is consumed the variable rule succeeds; a missing
   * operator and a missing value are reported as error elements.
   */
  lemma VariablePinned(toks: seq<Token>, pos: nat)
    requires pos <= |toks|
    ensures VariableRule(toks, pos).ok <==> At(toks, pos, VariableName)
    ensures var r := VariableRule(toks, pos);
      r.ok ==>
        && |r.nodes| == 1 && r.nodes[0].Composite? && r.nodes[0].kind == Variable
        && |r.nodes[0].children| >= 3
        && (r.nodes[0].children[1] == Error([]) <==> !(At(toks, pos + 1, PlusEquals) || At(toks, pos + 1, Equals)))
  {
    if At(toks, pos, VariableName) {
      var op := Expect(toks, pos + 1, {PlusEquals, Equals});
      assert op.nodes[0] == Error([]) <==> !(At(toks, pos + 1, PlusEquals) || At(toks, pos + 1, Equals));
      var v := ValueRule(toks, op.next);
      ValueSingle(toks, op.next);
      var value := if v.ok then v else Expect(toks, op.next, {});
      var ch := [Leaf(toks[pos])] + op.nodes + value.nodes;
      assert VariableRule(toks, pos) == Parsed(true, [Composite(Variable, ch)], value.next);
      ThreeChildren(Leaf(toks[pos]), op.nodes, value.nodes);
    } else {
      assert VariableRule(toks, pos) == Fail(pos);
    }
  }

  lemma ThreeChildren(a: Node, xs: seq<Node>, ys: seq<Node>)
    requires |xs| == 1 && ys != []
    ensures |[a] + xs + ys| >= 3 && ([a] + xs + ys)[1] == xs[0]
  {
  }

  /** A matched value is one VALUE element. */
  lemma ValueSingle(toks: seq<Token>, pos: nat)
    requires pos <= |toks|
    ensures ValueRule(toks, pos).ok ==> |ValueRule(toks, pos).nodes| == 1
  {
    ValueUnfold(toks, pos);
  }
}
