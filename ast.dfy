/**
 * Shared syntax values. A token is a (kind, text) pair as the lexer yields
 * it; end of input is the token ("", ""). A node carries a type, a value
 * (names, operator-free leaves), the source line of the statement it belongs
 * to, and its children. STMT_LIST and PROCEDURE nodes carry line 0, and
 * nodes built without a value carry "".
 */
module Ast {

  datatype Token = Token(kind: string, text: string)

  const EOF: Token := Token("", "")

  /** A token the lexer produced from the text: never the end-of-input token. */
  type Lexeme = t: Token | t.kind != "" witness Token("NAME", "x")

  datatype Node = Node(nodeType: string, value: string, line: int, children: seq<Node>)
}
