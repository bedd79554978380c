/**
 * The generated recursive-descent parser: one method per rule, all advancing
 * one shared cursor over the significant tokens, with the `*` repetitions as
 * loops that stop on a failed iteration. Each method is proved to compute
 * exactly what the grammar function of the same rule describes, so the
 * properties proved about the grammar hold for the parser.
 */
module Parser {
  import opened Psi
  import opened Grammar
  import GrammarLeaves
  import GrammarFacts

  class BlueprintParser {
    /** The tokens the builder hands out, trivia already skipped. */
    const toks: seq<Token>
    /** The builder's current position. */
    var pos: nat

    constructor(input: seq<Token>)
      ensures toks == input && pos == 0
    {
      toks := input;
      pos := 0;
    }

    /** consumeToken: takes the next token when it has kind `k`. */
    method Consume(k: ElementType) returns (ok: bool)
      requires pos <= |toks|
      modifies this
      ensures ok <==> At(toks, old(pos), k)
      ensures pos == if ok then old(pos) + 1 else old(pos)
    {
      ok := At(toks, pos, k);
      if ok {
        pos := pos + 1;
      }
    }

    /**
     * The recovery of a section that ended at the current position: skips
     * tokens until one of kind in `stop` and wraps them in an error element.
     */
    method RecoverUntil(ghost start: nat, ok: bool, nodes: seq<Node>, stop: set<ElementType>) returns (nodes': seq<Node>)
      requires start <= pos <= |toks|
      modifies this
      ensures pos <= |toks|
      ensures Parsed(ok, nodes', pos) == Recover(toks, start, Parsed(ok, nodes, old(pos)), stop)
    {
      var from := pos;
      var end := from;
      var skipped: seq<Node> := [];
      while end < |toks| && toks[end].kind !in stop
        invariant pos == from <= end <= |toks|
        invariant SkipUntil(toks, from, stop) == SkipUntil(toks, end, stop)
        invariant skipped == LeafNodes(toks[from..end])
        decreases |toks| - end
      {
        LeafNodesSnoc(toks[from..end], toks[end]);
        assert toks[from..end + 1] == toks[from..end] + [toks[end]];
        skipped := skipped + [Leaf(toks[end])];
        end := end + 1;
      }
      if end == from {
        nodes' := nodes;
      } else {
        nodes' := nodes + [Error(skipped)];
        pos := end;
      }
    }

    /** array_element */
    method ParseArrayElement() returns (ok: bool, nodes: seq<Node>)
      requires pos <= |toks|
      modifies this
      ensures pos <= |toks| && Parsed(ok, nodes, pos) == ArrayElementRule(toks, old(pos))
    {
      var start := pos;
      ok := Consume(String);
      if !ok { ok := Consume(Bool); }
      if !ok { ok := Consume(Number); }
      if !ok { ok := Consume(VariableName); }
      if !ok { ok := Consume(Link); }
      nodes := if ok then [Composite(ArrayElement, [Leaf(toks[start])])] else [];
    }

    /** `(ELEMENT_SEPARATOR array_element)*`: separator-element pairs until one fails */
    method ParseElementsTail() returns (tail: seq<Node>)
      requires pos <= |toks|
      modifies this
      ensures pos <= |toks| && Parsed(true, tail, pos) == ElementsTail(toks, old(pos))
    {
      ghost var t0 := pos;
      tail := [];
      while true
        invariant t0 <= pos <= |toks|
        invariant ElementsTail(toks, t0) == Parsed(true, tail + ElementsTail(toks, pos).nodes, ElementsTail(toks, pos).next)
        decreases |toks| - pos
      {
        var c := pos;
        var sep := Consume(ElementSeparator);
        if !sep {
          assert ElementsTail(toks, c) == Done(c);
          Stop(ElementsTail(toks, t0), tail, c);
          break;
        }
        var itemOk, item := ParseArrayElement();
        if !itemOk {
          pos := c;
          assert ElementsTail(toks, c) == Done(c);
          Stop(ElementsTail(toks, t0), tail, c);
          break;
        }
        ghost var rest := ElementsTail(toks, pos);
        assert ElementsTail(toks, c) == Parsed(true, [Leaf(toks[c])] + (item + rest.nodes), rest.next);
        Extend(ElementsTail(toks, t0), tail, ElementsTail(toks, c), [Leaf(toks[c])], item, rest);
        tail := tail + ([Leaf(toks[c])] + item);
      }
    }

    /** elements, with its recovery until `]` */
    method ParseElements() returns (ok: bool, nodes: seq<Node>)
      requires pos <= |toks|
      modifies this
      ensures pos <= |toks| && Parsed(ok, nodes, pos) == ElementsRule(toks, old(pos))
    {
      var start := pos;
      var first;
      ok, first := ParseArrayElement();
      nodes := [];
      if ok {
        var tail := ParseElementsTail();
        var items := first + tail;
        if At(toks, pos, ElementSeparator) {
          items := items + [Leaf(toks[pos])];
          pos := pos + 1;
        }
        nodes := [Composite(Elements, items)];
      }
      assert Parsed(ok, nodes, pos) == ElementsBody(toks, start);
      nodes := RecoverUntil(start, ok, nodes, {ArrayEnd});
    }

    /** array */
    method ParseArray() returns (ok: bool, nodes: seq<Node>)
      requires pos <= |toks|
      modifies this
      ensures pos <= |toks| && Parsed(ok, nodes, pos) == ArrayRule(toks, old(pos))
    {
      var start := pos;
      ok := Consume(ArrayStart);
      nodes := [];
      if ok {
        var _, elems := ParseElements();
        var close := pos;
        ok := Consume(ArrayEnd);
        if ok {
          nodes := [Composite(Array, [Leaf(toks[start])] + elems + [Leaf(toks[close])])];
        } else {
          pos := start;
        }
      }
    }

    /** `(PLUS array)*` */
    method ParseArrayTail() returns (tail: seq<Node>)
      requires pos <= |toks|
      modifies this
      ensures pos <= |toks| && Parsed(true, tail, pos) == ArrayTail(toks, old(pos))
    {
      ghost var t0 := pos;
      tail := [];
      while true
        invariant t0 <= pos <= |toks|
        invariant ArrayTail(toks, t0) == Parsed(true, tail + ArrayTail(toks, pos).nodes, ArrayTail(toks, pos).next)
        decreases |toks| - pos
      {
        var c := pos;
        var plus := Consume(Plus);
        if !plus {
          assert ArrayTail(toks, c) == Done(c);
          Stop(ArrayTail(toks, t0), tail, c);
          break;
        }
        var arrOk, arr := ParseArray();
        if !arrOk {
          pos := c;
          assert ArrayTail(toks, c) == Done(c);
          Stop(ArrayTail(toks, t0), tail, c);
          break;
        }
        ghost var rest := ArrayTail(toks, pos);
        assert ArrayTail(toks, c) == Parsed(true, [Leaf(toks[c])] + (arr + rest.nodes), rest.next);
        Extend(ArrayTail(toks, t0), tail, ArrayTail(toks, c), [Leaf(toks[c])], arr, rest);
        tail := tail + ([Leaf(toks[c])] + arr);
      }
    }

    /** array_expr */
    method ParseArrayExpr() returns (ok: bool, nodes: seq<Node>)
      requires pos <= |toks|
      modifies this
      ensures pos <= |toks| && Parsed(ok, nodes, pos) == ArrayExprRule(toks, old(pos))
    {
      var first;
      ok, first := ParseArray();
      nodes := [];
      if ok {
        var tail := ParseArrayTail();
        nodes := [Composite(ArrayExpr, first + tail)];
      }
    }

    /** `(PLUS STRING)*` */
    method ParseStringTail() returns (tail: seq<Node>)
      requires pos <= |toks|
      modifies this
      ensures pos <= |toks| && Parsed(true, tail, pos) == StringTail(toks, old(pos))
    {
      ghost var t0 := pos;
      tail := [];
      while At(toks, pos, Plus) && At(toks, pos + 1, String)
        invariant t0 <= pos <= |toks|
        invariant StringTail(toks, t0) == Parsed(true, tail + StringTail(toks, pos).nodes, StringTail(toks, pos).next)
        decreases |toks| - pos
      {
        ghost var rest := StringTail(toks, pos + 2);
        var plus, str := Leaf(toks[pos]), Leaf(toks[pos + 1]);
        assert StringTail(toks, pos) == Parsed(true, [plus] + ([str] + rest.nodes), rest.next);
        Extend(StringTail(toks, t0), tail, StringTail(toks, pos), [plus], [str], rest);
        tail := tail + ([plus] + [str]);
        pos := pos + 2;
      }
      assert StringTail(toks, pos) == Done(pos);
      Stop(StringTail(toks, t0), tail, pos);
    }

    /** string_expr */
    method ParseStringExpr() returns (ok: bool, nodes: seq<Node>)
      requires pos <= |toks|
      modifies this
      ensures pos <= |toks| && Parsed(ok, nodes, pos) == StringExprRule(toks, old(pos))
    {
      var start := pos;
      ok := Consume(String);
      nodes := [];
      if ok {
        var tail := ParseStringTail();
        nodes := [Composite(StringExpr, [Leaf(toks[start])] + tail)];
      }
    }

    /** A rule whose node wraps a single token of the same type (field_name, blueprint_type). */
    method ParseSingleToken(k: ElementType) returns (ok: bool, nodes: seq<Node>)
      requires pos <= |toks|
      modifies this
      ensures pos <= |toks| && Parsed(ok, nodes, pos) == SingleTokenRule(toks, old(pos), k)
    {
      var start := pos;
      ok := Consume(k);
      nodes := if ok then [Composite(k, [Leaf(toks[start])])] else [];
    }

    /** value: the first alternative that matches wins */
    method ParseValue() returns (ok: bool, nodes: seq<Node>)
      requires pos <= |toks|
      modifies this
      ensures pos <= |toks| && Parsed(ok, nodes, pos) == ValueRule(toks, old(pos))
      decreases |toks| - pos, 5
    {
      var start := pos;
      var inner;
      ok, inner := ParseStringExpr();
      if !ok {
        ok, inner := ParseArrayExpr();
        if !ok {
          ok, inner := ParseObject();
          if !ok {
            ok := Consume(Bool);
            if !ok { ok := Consume(Number); }
            if ok {
              inner := [Leaf(toks[start])];
            } else {
              ok, inner := ParseVariableRefExpr();
            }
          }
        }
      }
      nodes := if ok then [Composite(Value, inner)] else [];
      GrammarFacts.ValueUnfold(toks, start);
    }

    /** object */
    method ParseObject() returns (ok: bool, nodes: seq<Node>)
      requires pos <= |toks|
      modifies this
      ensures pos <= |toks| && Parsed(ok, nodes, pos) == ObjectRule(toks, old(pos))
      decreases |toks| - pos, 4
    {
      var start := pos;
      ok := Consume(ObjectStart);
      nodes := [];
      if ok {
        var _, members := ParseMembers();
        var close := pos;
        ok := Consume(ObjectEnd);
        if ok {
          nodes := [Composite(Object, [Leaf(toks[start])] + members + [Leaf(toks[close])])];
        } else {
          pos := start;
        }
      }
    }

    /** variable_ref_expr */
    method ParseVariableRefExpr() returns (ok: bool, nodes: seq<Node>)
      requires pos <= |toks|
      modifies this
      ensures pos <= |toks| && Parsed(ok, nodes, pos) == VariableRefExprRule(toks, old(pos))
      decreases |toks| - pos, 4
    {
      var start := pos;
      ok := Consume(VariableValue);
      nodes := [];
      if ok {
        var plus := Consume(Plus);
        var vOk := false;
        var v := [];
        if plus {
          vOk, v := ParseValue();
        }
        if vOk {
          nodes := [Composite(VariableRefExpr, [Leaf(toks[start])] + ([Leaf(toks[start + 1])] + v))];
        } else {
          pos := start + 1;
          nodes := [Composite(VariableRefExpr, [Leaf(toks[start])])];
        }
      }
    }

    /** `(ELEMENT_SEPARATOR pair)*` */
    method ParseMembersTail() returns (tail: seq<Node>)
      requires pos <= |toks|
      modifies this
      ensures pos <= |toks| && Parsed(true, tail, pos) == MembersTail(toks, old(pos))
      decreases |toks| - pos, 2
    {
      ghost var t0 := pos;
      tail := [];
      while true
        invariant t0 <= pos <= |toks|
        invariant MembersTail(toks, t0) == Parsed(true, tail + MembersTail(toks, pos).nodes, MembersTail(toks, pos).next)
        decreases |toks| - pos
      {
        var c := pos;
        var sep := Consume(ElementSeparator);
        if !sep {
          assert MembersTail(toks, c) == Done(c);
          Stop(MembersTail(toks, t0), tail, c);
          break;
        }
        var itemOk, item := ParsePair();
        if !itemOk {
          pos := c;
          assert MembersTail(toks, c) == Done(c);
          Stop(MembersTail(toks, t0), tail, c);
          break;
        }
        ghost var rest := MembersTail(toks, pos);
        assert MembersTail(toks, c) == Parsed(true, [Leaf(toks[c])] + (item + rest.nodes), rest.next);
        Extend(MembersTail(toks, t0), tail, MembersTail(toks, c), [Leaf(toks[c])], item, rest);
        tail := tail + ([Leaf(toks[c])] + item);
      }
    }

    /** members, with its recovery until `}` */
    method ParseMembers() returns (ok: bool, nodes: seq<Node>)
      requires pos <= |toks|
      modifies this
      ensures pos <= |toks| && Parsed(ok, nodes, pos) == MembersRule(toks, old(pos))
      decreases |toks| - pos, 3
    {
      var start := pos;
      var first;
      ok, first := ParsePair();
      nodes := [];
      if ok {
        var tail := ParseMembersTail();
        var items := first + tail;
        if At(toks, pos, ElementSeparator) {
          items := items + [Leaf(toks[pos])];
          pos := pos + 1;
        }
        nodes := [Composite(Members, items)];
      } else {
        // the failed section is rolled back, with the pair's own recovery
        pos := start;
      }
      assert Parsed(ok, nodes, pos) == MembersBody(toks, start);
      nodes := RecoverUntil(start, ok, nodes, {ObjectEnd});
    }

    /** pair, with its recovery until whitespace, `,` or `}` */
    method ParsePair() returns (ok: bool, nodes: seq<Node>)
      requires pos <= |toks|
      modifies this
      ensures pos <= |toks| && Parsed(ok, nodes, pos) == PairRule(toks, old(pos))
      decreases |toks| - pos, 1
    {
      var start := pos;
      ok, nodes := ParsePairBody();
      nodes := RecoverUntil(start, ok, nodes, PairStop);
    }

    /** The pair before its recovery: name, `=` and a value, or nothing consumed. */
    method ParsePairBody() returns (ok: bool, nodes: seq<Node>)
      requires pos <= |toks|
      modifies this
      ensures old(pos) <= pos <= |toks| && Parsed(ok, nodes, pos) == PairBody(toks, old(pos))
      decreases |toks| - pos, 0
    {
      var start := pos;
      var name;
      ok, name := ParseSingleToken(FieldName);
      if ok {
        ok := Consume(Equals);
        if ok {
          var v;
          ok, v := ParseValue();
          if ok {
            nodes := [Composite(Pair, name + ([Leaf(toks[start + 1])] + v))];
          }
        }
      }
      if !ok {
        pos := start;
        nodes := [];
      }
    }

    /** A required token of a pinned rule; when missing, an empty error element takes its place. */
    method ExpectToken(kinds: set<ElementType>) returns (nodes: seq<Node>)
      requires pos <= |toks|
      modifies this
      ensures pos <= |toks| && Parsed(true, nodes, pos) == Expect(toks, old(pos), kinds)
    {
      if pos < |toks| && toks[pos].kind in kinds {
        nodes := [Leaf(toks[pos])];
        pos := pos + 1;
      } else {
        nodes := [Error([])];
      }
    }

    /** blueprint, pinned on its type */
    method ParseBlueprint() returns (ok: bool, nodes: seq<Node>)
      requires pos <= |toks|
      modifies this
      ensures pos <= |toks| && Parsed(ok, nodes, pos) == BlueprintRule(toks, old(pos))
    {
      var typ;
      ok, typ := ParseSingleToken(BlueprintType);
      nodes := [];
      if ok {
        var open := ExpectToken({ObjectStart});
        var _, members := ParseMembers();
        var close := ExpectToken({ObjectEnd});
        nodes := [Composite(Blueprint, typ + open + members + close)];
      }
    }

    /** variable, pinned on its name */
    method ParseVariable() returns (ok: bool, nodes: seq<Node>)
      requires pos <= |toks|
      modifies this
      ensures pos <= |toks| && Parsed(ok, nodes, pos) == VariableRule(toks, old(pos))
    {
      var start := pos;
      ok := Consume(VariableName);
      nodes := [];
      if ok {
        var op := ExpectToken({PlusEquals, Equals});
        var vOk, v := ParseValue();
        if !vOk {
          v := ExpectToken({});
        }
        nodes := [Composite(Variable, [Leaf(toks[start])] + op + v)];
      }
    }

    /** item_ */
    method ParseItem() returns (ok: bool, nodes: seq<Node>)
      requires pos <= |toks|
      modifies this
      ensures pos <= |toks| && Parsed(ok, nodes, pos) == ItemRule(toks, old(pos))
    {
      var start := pos;
      ok, nodes := ParseBlueprint();
      if !ok {
        ok, nodes := ParseVariable();
        if !ok {
          ok := Consume(Comment);
          if !ok { ok := Consume(WhiteSpace); }
          nodes := if ok then [Leaf(toks[start])] else [];
        }
      }
    }

    /** blueprintFile: items until one fails or consumes nothing */
    method BlueprintFile() returns (items: seq<Node>)
      requires pos <= |toks|
      modifies this
      ensures pos <= |toks| && Parsed(true, items, pos) == Items(toks, old(pos))
    {
      ghost var t0 := pos;
      items := [];
      while true
        invariant t0 <= pos <= |toks|
        invariant Items(toks, t0) == Parsed(true, items + Items(toks, pos).nodes, Items(toks, pos).next)
        decreases |toks| - pos
      {
        var c := pos;
        var ok, item := ParseItem();
        ItemsUnfold(toks, c, Parsed(ok, item, pos));
        if !ok || pos == c {
          Stop(Items(toks, t0), items, c);
          pos := c;
          break;
        }
        ghost var rest := Items(toks, pos);
        Extend(Items(toks, t0), items, Items(toks, c), [], item, rest);
        assert [] + item == item;
        items := items + item;
      }
    }

    /** The root: the file's items, then the leftover tokens as one error element. */
    method ParseRoot() returns (file: Node)
      requires pos == 0
      modifies this
      ensures file == ParseFile(toks)
    {
      var items := BlueprintFile();
      items := RecoverUntil(0, true, items, {});
      file := Composite(File, items);
    }
  }

  /** Parses a whole token stream with a fresh parser. */
  method ParseTokens(toks: seq<Token>) returns (file: Node)
    ensures file == ParseFile(toks)
    ensures Leaves(file) == toks
  {
    var parser := new BlueprintParser(toks);
    file := parser.ParseRoot();
    GrammarLeaves.ParseFileKeepsTokens(toks);
  }
}
