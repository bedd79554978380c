/**
 * The syntax tree the Blueprint parser builds: element types (the constants of
 * the generated BlueprintTypes class plus the platform's BAD_CHARACTER and the
 * file root), tokens, and nodes.
 */
module Psi {

  datatype ElementType =
    // token types
    | ArrayEnd | ArrayStart | Bool | Comment | ElementSeparator | Equals | Link | Number
    | ObjectEnd | ObjectStart | Plus | PlusEquals | String | VariableName | VariableValue
    | WhiteSpace | BadCharacter
    // element types; BLUEPRINT_TYPE and FIELD_NAME are also used as token types
    | Array | ArrayElement | ArrayExpr | Blueprint | BlueprintType | Elements | FieldName
    | Members | Object | Pair | StringExpr | Value | Variable | VariableRefExpr
    // the root of a parsed file
    | File

  /** The name of the Kotlin/Java constant that holds the element type. */
  function ConstantName(k: ElementType): string {
    match k
    case ArrayEnd => "ARRAY_END"
    case ArrayStart => "ARRAY_START"
    case Bool => "BOOL"
    case Comment => "COMMENT"
    case ElementSeparator => "ELEMENT_SEPARATOR"
    case Equals => "EQUALS"
    case Link => "LINK"
    case Number => "NUMBER"
    case ObjectEnd => "OBJECT_END"
    case ObjectStart => "OBJECT_START"
    case Plus => "PLUS"
    case PlusEquals => "PLUS_EQUALS"
    case String => "STRING"
    case VariableName => "VARIABLE_NAME"
    case VariableValue => "VARIABLE_VALUE"
    case WhiteSpace => "WHITE_SPACE"
    case BadCharacter => "BAD_CHARACTER"
    case Array => "ARRAY"
    case ArrayElement => "ARRAY_ELEMENT"
    case ArrayExpr => "ARRAY_EXPR"
    case Blueprint => "BLUEPRINT"
    case BlueprintType => "BLUEPRINT_TYPE"
    case Elements => "ELEMENTS"
    case FieldName => "FIELD_NAME"
    case Members => "MEMBERS"
    case Object => "OBJECT"
    case Pair => "PAIR"
    case StringExpr => "STRING_EXPR"
    case Value => "VALUE"
    case Variable => "VARIABLE"
    case VariableRefExpr => "VARIABLE_REF_EXPR"
    case File => "FILE"
  }

  /** Whitespace and comments, which the parser definition declares as trivia. */
  predicate IsTrivia(k: ElementType) {
    k == WhiteSpace || k == Comment
  }

  /** A lexer token: its element type and the text it covers. */
  datatype Token = Token(kind: ElementType, text: string)

  /**
   * A tree node: a token leaf, a composite element, or an error element
   * holding the tokens an error recovery skipped (none for "X expected").
   */
  datatype Node =
    | Leaf(token: Token)
    | Composite(kind: ElementType, children: seq<Node>)
    | Error(children: seq<Node>)
  {
    predicate Is(k: ElementType) {
      (Leaf? && token.kind == k) || (Composite? && kind == k)
    }

    function Children(): seq<Node> {
      if Leaf? then [] else children
    }
  }

  /** The tokens under a node, left to right. */
  function Leaves(n: Node): seq<Token>
    decreases n
  {
    match n
    case Leaf(t) => [t]
    case Composite(_, ch) => LeavesOf(ch)
    case Error(ch) => LeavesOf(ch)
  }

  function LeavesOf(ns: seq<Node>): seq<Token>
    decreases ns
  {
    if ns == [] then [] else Leaves(ns[0]) + LeavesOf(ns[1..])
  }

  lemma {:induction false} LeavesOfAppend(xs: seq<Node>, ys: seq<Node>)
    ensures LeavesOf(xs + ys) == LeavesOf(xs) + LeavesOf(ys)
    decreases |xs|
  {
    if xs == [] {
      assert xs + ys == ys;
    } else {
      assert (xs + ys)[0] == xs[0];
      assert (xs + ys)[1..] == xs[1..] + ys;
      LeavesOfAppend(xs[1..], ys);
    }
  }

  lemma LeavesOfSingle(n: Node)
    ensures LeavesOf([n]) == Leaves(n)
  {
    assert [n][1..] == [];
  }

  /** The text of a node: its tokens' texts concatenated (PSI `getText`). */
  function TextOf(ts: seq<Token>): string {
    if ts == [] then "" else ts[0].text + TextOf(ts[1..])
  }

  function NodeText(n: Node): string {
    TextOf(Leaves(n))
  }

  /** A token, alone or wrapped in one element, has the token's text. */
  lemma TokenText(t: Token, k: ElementType)
    ensures NodeText(Leaf(t)) == t.text
    ensures NodeText(Composite(k, [Leaf(t)])) == t.text
  {
    assert [t][1..] == [];
    assert TextOf([t]) == t.text;
    LeavesOfSingle(Leaf(t));
    assert Leaves(Composite(k, [Leaf(t)])) == LeavesOf([Leaf(t)]) == [t];
  }

  /** The token stream the parser sees: trivia is skipped by the PSI builder. */
  function Significant(raw: seq<Token>): (r: seq<Token>)
    ensures |r| <= |raw|
    ensures forall i :: 0 <= i < |r| ==> !IsTrivia(r[i].kind)
    ensures (forall i :: 0 <= i < |raw| ==> !IsTrivia(raw[i].kind)) ==> r == raw
    ensures forall i :: 0 <= i < |r| ==> r[i] in raw
    ensures forall i :: 0 <= i < |raw| && !IsTrivia(raw[i].kind) ==> raw[i] in r
  {
    if raw == [] then []
    else
      var rest := Significant(raw[1..]);
      assert forall i :: 1 <= i < |raw| ==> raw[i] == raw[1..][i - 1];
      if IsTrivia(raw[0].kind) then rest
      else [raw[0]] + rest
  }

  /** A single token survives exactly when it is not trivia. */
  lemma SignificantSingle(t: Token)
    ensures Significant([t]) == if IsTrivia(t.kind) then [] else [t]
  {
    assert [t][1..] == [];
  }

  lemma {:induction false} SignificantAppend(a: seq<Token>, b: seq<Token>)
    ensures Significant(a + b) == Significant(a) + Significant(b)
    decreases |a|
  {
    if a == [] {
      assert a + b == b;
    } else {
      assert (a + b)[0] == a[0];
      assert (a + b)[1..] == a[1..] + b;
      SignificantAppend(a[1..], b);
    }
  }
}
