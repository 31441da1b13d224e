/**
 * The part of a `@babel/parser` result that the selector expressions read.
 * The parser itself is not modelled: callers supply it as a function from
 * source text to `ParseOutcome`.
 */
module BabelAst {

  /** An expression node; `OtherNode` is any node type the selectors do not handle, with its JSON text. */
  datatype Node =
    | LogicalNode(operator: string, left: Node, right: Node)
    | UnaryNode(operator: string, argument: Node)
    | IdentifierNode(name: string)
    | BinaryNode(operator: string, left: Node, right: Node)
    | NumericLiteralNode(number: int)
    | StringLiteralNode(value: string)
    | OtherNode(json: string)

  /** A statement of `program.body`. */
  datatype Statement = ExpressionStatement(expression: Node) | OtherStatement(kind: string)

  /**
   * `program`: its statements and the values of its directives (a program
   * that is a lone string literal, such as `'a b'`, parses as a directive).
   */
  datatype Program = Program(body: seq<Statement>, directives: seq<string>)

  /** `parser.parse(text)` returns a program or throws a syntax error with a message. */
  datatype ParseOutcome = Parsed(program: Program) | SyntaxError(message: string)

  /** `body.findIndex(item => item.type === 'ExpressionStatement')` */
  function FirstExpression(body: seq<Statement>): (r: int)
    ensures -1 <= r < |body|
    ensures r == -1 <==> forall i :: 0 <= i < |body| ==> !body[i].ExpressionStatement?
    ensures r >= 0 ==> body[r].ExpressionStatement? && forall i :: 0 <= i < r ==> !body[i].ExpressionStatement?
  {
    if |body| == 0 then -1
    else if body[0].ExpressionStatement? then 0
    else
      var k := FirstExpression(body[1..]);
      assert forall i :: 1 <= i < |body| ==> body[i] == body[1..][i - 1];
      if k == -1 then -1 else k + 1
  }
}
