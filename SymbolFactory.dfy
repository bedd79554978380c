/** The mapping from the lexer's token kinds to the parser's element types. */
module SymbolFactory {
  import Psi
  import opened Wrappers

  /** The kinds of token the lexer reports. */
  datatype Token =
    | ArrayEnd | ObjectStart | Plus | BlueprintType | ObjectEnd | PlusEquals | VariableValue
    | VariableName | Equals | String | Eof | Number | Link | Comment | Error | Bool
    | ElementSeparator | FieldName | WhiteSpace | ArrayStart

  /** The enum constant's own name. */
  function TokenName(t: Token): string {
    match t
    case ArrayEnd => "ARRAY_END"
    case ObjectStart => "OBJECT_START"
    case Plus => "PLUS"
    case BlueprintType => "BLUEPRINT_TYPE"
    case ObjectEnd => "OBJECT_END"
    case PlusEquals => "PLUS_EQUALS"
    case VariableValue => "VARIABLE_VALUE"
    case VariableName => "VARIABLE_NAME"
    case Equals => "EQUALS"
    case String => "STRING"
    case Eof => "EOF"
    case Number => "NUMBER"
    case Link => "LINK"
    case Comment => "COMMENT"
    case Error => "ERROR"
    case Bool => "BOOL"
    case ElementSeparator => "ELEMENT_SEPARATOR"
    case FieldName => "FIELD_NAME"
    case WhiteSpace => "WHITE_SPACE"
    case ArrayStart => "ARRAY_START"
  }

  /**
   * The element type of a token. The text argument is accepted and ignored;
   * end of file becomes whitespace and a lexer error becomes BAD_CHARACTER.
   */
  function Create(t: Token, text: string): (e: Psi.ElementType)
    ensures t == Eof ==> e == Psi.WhiteSpace
    ensures t == Error ==> e == Psi.BadCharacter
    ensures t != Eof && t != Error ==> Psi.ConstantName(e) == TokenName(t)
  {
    match t
    case Comment => Psi.Comment
    case ArrayEnd => Psi.ArrayEnd
    case ObjectStart => Psi.ObjectStart
    case Plus => Psi.Plus
    case BlueprintType => Psi.BlueprintType
    case ObjectEnd => Psi.ObjectEnd
    case VariableName => Psi.VariableName
    case VariableValue => Psi.VariableValue
    case Equals => Psi.Equals
    case PlusEquals => Psi.PlusEquals
    case String => Psi.String
    case Eof => Psi.WhiteSpace
    case Number => Psi.Number
    case Link => Psi.Link
    case Error => Psi.BadCharacter
    case Bool => Psi.Bool
    case ElementSeparator => Psi.ElementSeparator
    case FieldName => Psi.FieldName
    case WhiteSpace => Psi.WhiteSpace
    case ArrayStart => Psi.ArrayStart
  }

  /** The factory never asks the lexer adapter to skip spaces. */
  function SkipSpaces(): (skip: bool)
    ensures !skip
  {
    false
  }

  /** The element type depends on the token kind alone. */
  lemma CreateIgnoresText(t: Token, a: string, b: string)
    ensures Create(t, a) == Create(t, b)
  {
  }

  /** End of file and whitespace collide: the mapping is not injective. */
  lemma CreateNotInjective()
    ensures exists a: Token, b: Token :: a != b && Create(a, "") == Create(b, "")
  {
    assert Create(Eof, "") == Create(WhiteSpace, "");
  }

  /** The token kind an element type comes from, reading whitespace as the lexer's own. */
  function Origin(e: Psi.ElementType): Option<Token> {
    match e
    case Comment => Some(Comment)
    case ArrayEnd => Some(ArrayEnd)
    case ObjectStart => Some(ObjectStart)
    case Plus => Some(Plus)
    case BlueprintType => Some(BlueprintType)
    case ObjectEnd => Some(ObjectEnd)
    case VariableName => Some(VariableName)
    case VariableValue => Some(VariableValue)
    case Equals => Some(Equals)
    case PlusEquals => Some(PlusEquals)
    case String => Some(String)
    case Number => Some(Number)
    case Link => Some(Link)
    case BadCharacter => Some(Error)
    case Bool => Some(Bool)
    case ElementSeparator => Some(ElementSeparator)
    case FieldName => Some(FieldName)
    case WhiteSpace => Some(WhiteSpace)
    case ArrayStart => Some(ArrayStart)
    case _ => None
  }

  /** Apart from end of file, the token kind is recovered from its element type. */
  lemma OriginOfCreate(t: Token, text: string)
    ensures t != Eof ==> Origin(Create(t, text)) == Some(t)
    ensures t == Eof ==> Origin(Create(t, text)) == Some(WhiteSpace)
  {
  }

  /** That collision is the only one. */
  lemma CreateInjectiveOtherwise(a: Token, b: Token, ta: string, tb: string)
    requires a != b && Create(a, ta) == Create(b, tb)
    ensures (a == Eof && b == WhiteSpace) || (a == WhiteSpace && b == Eof)
  {
    OriginOfCreate(a, ta);
    OriginOfCreate(b, tb);
  }

  /** Every token becomes a token type of the tree, never an element type. */
  lemma CreateYieldsTokenTypes(t: Token, text: string)
    ensures Create(t, text) in {Psi.ArrayEnd, Psi.ArrayStart, Psi.Bool, Psi.Comment,
      Psi.ElementSeparator, Psi.Equals, Psi.Link, Psi.Number, Psi.ObjectEnd, Psi.ObjectStart,
      Psi.Plus, Psi.PlusEquals, Psi.String, Psi.VariableName, Psi.VariableValue,
      Psi.WhiteSpace, Psi.BadCharacter, Psi.BlueprintType, Psi.FieldName}
  {
  }

  /** A lexed token as the parser receives it. */
  function Lexed(t: Token, text: string): (r: Psi.Token)
    ensures r.text == text && r.kind == Create(t, text)
  {
    Psi.Token(Create(t, text), text)
  }
}
