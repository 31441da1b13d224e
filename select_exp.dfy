/**
 * `StringSelectExp` (`src/expressions/select-exp.ts`): a selector expression
 * such as `a && (b || !c)` is parsed once, on its first test, into an
 * evaluation tree, which then tests tag strings.
 */
module SelectExp {
  import opened Wrappers
  import opened JsString
  import opened JsNumber
  import opened BabelAst
  import opened SelectTree

  /** The code the selectors call without it being part of this model. */
  datatype Externals = Externals(parse: string -> ParseOutcome, minimatch: Matcher)

  /** `transform(ast)`: the left operand is transformed before the right one. */
  function Transform(ast: Node): Result<Expression, SelectError> {
    match ast
    case LogicalNode(op, l, r) =>
      var a := Transform(l);
      if a.Err? then Err(a.error)
      else
        var b := Transform(r);
        if b.Err? then Err(b.error) else Ok(LogicalExpression(op, a.value, b.value))
    case UnaryNode(op, x) =>
      var a := Transform(x);
      if a.Err? then Err(a.error) else Ok(UnaryExpression(op, a.value))
    case IdentifierNode(name) => Ok(Identifier(name))
    case BinaryNode(op, l, r) =>
      var a := Transform(l);
      if a.Err? then Err(a.error)
      else
        var b := Transform(r);
        if b.Err? then Err(b.error) else Ok(BinaryExpression(op, a.value, b.value))
    case NumericLiteralNode(n) => Ok(Identifier(NumberToString(n)))
    case StringLiteralNode(v) => Ok(Identifier(v))
    case OtherNode(_) => Err(UnsupportedAst(ast))
  }

  /** The AST contains only node types `transform` handles. */
  predicate Transformable(ast: Node) {
    match ast
    case LogicalNode(_, l, r) => Transformable(l) && Transformable(r)
    case UnaryNode(_, x) => Transformable(x)
    case BinaryNode(_, l, r) => Transformable(l) && Transformable(r)
    case OtherNode(_) => false
    case _ => true
  }

  /** The AST node a tree is transformed from when every pattern is written as an identifier. */
  function ToNode(e: Expression): Node {
    match e
    case LogicalExpression(op, l, r) => LogicalNode(op, ToNode(l), ToNode(r))
    case UnaryExpression(op, x) => UnaryNode(op, ToNode(x))
    case Identifier(p) => IdentifierNode(p)
    case BinaryExpression(op, l, r) => BinaryNode(op, ToNode(l), ToNode(r))
  }

  /**
   * `transform` fails exactly on an AST with an unsupported node type, and then
   * with that node; operators are not checked here but when the tree runs.
   */
  lemma {:induction false} TransformFails(ast: Node)
    ensures Transform(ast).Ok? <==> Transformable(ast)
    ensures Transform(ast).Err? ==> Transform(ast).error.UnsupportedAst? && Transform(ast).error.node.OtherNode?
  {
    match ast
    case LogicalNode(_, l, r) =>
      TransformFails(l);
      TransformFails(r);
    case UnaryNode(_, x) =>
      TransformFails(x);
    case BinaryNode(_, l, r) =>
      TransformFails(l);
      TransformFails(r);
    case _ =>
  }

  /** Transforming keeps the shape of the AST: the node of a tree transforms back into the tree. */
  lemma {:induction false} TransformToNode(e: Expression)
    ensures Transform(ToNode(e)) == Ok(e)
  {
    match e
    case LogicalExpression(_, l, r) =>
      TransformToNode(l);
      TransformToNode(r);
    case UnaryExpression(_, x) =>
      TransformToNode(x);
    case Identifier(_) =>
    case BinaryExpression(_, l, r) =>
      TransformToNode(l);
      TransformToNode(r);
  }

  /** A number in the expression stands for the tag written as that number. */
  lemma NumberIsTag(n: int, testStr: string, mm: Matcher)
    ensures Transform(NumericLiteralNode(n)) == Ok(Identifier(NumberToString(n)))
    ensures ParseInt(Transform(NumericLiteralNode(n)).value.pattern) == Int(n)
  {
    ParseNumberToString(n);
  }

  /**
   * The tree `buildParser` builds from a parsed program: the first expression
   * statement; failing that, a lone quoted tag (a directive) as one pattern;
   * failing that, no expression.
   */
  function BuildTree(program: Program): Result<Expression, SelectError> {
    var first := FirstExpression(program.body);
    if first != -1 then Transform(program.body[first].expression)
    else if |program.directives| > 0 then Ok(Identifier(program.directives[0]))
    else Err(NoExpression)
  }

  /** `buildParser` on a parse outcome: every failure is rethrown wrapped in `ParseFailed`. */
  function Build(outcome: ParseOutcome): (r: Result<Expression, SelectError>)
    ensures r.Err? ==> r.error.ParseFailed?
    ensures r.Err? <==> outcome.SyntaxError? || BuildTree(outcome.program).Err?
    ensures r.Ok? ==> outcome.Parsed? && BuildTree(outcome.program) == r
  {
    match outcome
    case SyntaxError(message) => Err(ParseFailed(Syntax(message)))
    case Parsed(program) =>
      var tree := BuildTree(program);
      if tree.Err? then Err(ParseFailed(tree.error)) else tree
  }

  /** The first `test` of a new selector: build the tree, then run it. */
  function FirstTest(exp: string, ext: Externals, testStr: string): Result<bool, SelectError> {
    match Build(ext.parse(exp))
    case Err(e) => Err(e)
    case Ok(t) => Run(t, testStr, ext.minimatch)
  }

  /**
   * A later `test`: once the text has parsed, the parse result is kept and the
   * parser is not built again, so a tree that failed to build leaves `false`.
   */
  function LaterTest(exp: string, ext: Externals, testStr: string): Result<bool, SelectError> {
    match ext.parse(exp)
    case SyntaxError(_) => FirstTest(exp, ext, testStr)
    case Parsed(program) =>
      var tree := BuildTree(program);
      if tree.Err? then Ok(false) else Run(tree.value, testStr, ext.minimatch)
  }

  /**
   * Keeping the parse result is transparent when the tree builds and when the
   * text does not parse; it turns a failed build after a successful parse into
   * `false` for every later test.
   */
  lemma LaterTestAgrees(exp: string, ext: Externals, testStr: string)
    ensures Build(ext.parse(exp)).Ok? ==> LaterTest(exp, ext, testStr) == FirstTest(exp, ext, testStr)
    ensures ext.parse(exp).SyntaxError? ==> LaterTest(exp, ext, testStr) == FirstTest(exp, ext, testStr)
    ensures ext.parse(exp).Parsed? && Build(ext.parse(exp)).Err? ==>
      FirstTest(exp, ext, testStr).Err? && LaterTest(exp, ext, testStr) == Ok(false)
  {
  }

  class StringSelectExp {
    const exp: string
    const ext: Externals
    var parseResult: Option<Program>
    var testExpression: Option<Expression>

    /** The kept parse result is the text's parse, and the tree is present exactly when it built. */
    predicate Valid()
      reads this
    {
      (parseResult.Some? ==> ext.parse(exp) == Parsed(parseResult.value)) &&
      testExpression == (if parseResult.Some? then BuildTree(parseResult.value).ToOption() else None)
    }

    constructor(exp: string, ext: Externals)
      ensures this.exp == exp && this.ext == ext
      ensures parseResult == None && testExpression == None
      ensures Valid()
    {
      this.exp := exp;
      this.ext := ext;
      parseResult := None;
      testExpression := None;
    }

    /** `buildParser()`: `err` is the error it throws. */
    method BuildParser() returns (err: Option<SelectError>)
      requires Valid()
      modifies this
      ensures Valid()
      ensures err == if Build(ext.parse(exp)).Err? then Some(Build(ext.parse(exp)).error) else None
      ensures parseResult == if ext.parse(exp).Parsed? then Some(ext.parse(exp).program) else old(parseResult)
      ensures testExpression == if Build(ext.parse(exp)).Ok? then Some(Build(ext.parse(exp)).value) else old(testExpression)
    {
      var outcome := ext.parse(exp);
      if outcome.SyntaxError? {
        return Some(ParseFailed(Syntax(outcome.message)));
      }
      parseResult := Some(outcome.program);
      var tree := BuildTree(outcome.program);
      if tree.Err? {
        return Some(ParseFailed(tree.error));
      }
      testExpression := Some(tree.value);
      return None;
    }

    /** `test(testStr)`: `Err` is a thrown error. */
    method Test(testStr: string) returns (r: Result<bool, SelectError>)
      requires Valid()
      modifies this
      ensures Valid()
      ensures r == if old(parseResult).None? then FirstTest(exp, ext, testStr) else LaterTest(exp, ext, testStr)
      ensures parseResult == if ext.parse(exp).Parsed? then Some(ext.parse(exp).program) else None
    {
      if parseResult.None? {
        var err := BuildParser();
        if err.Some? {
          return Err(err.value);
        }
      }
      match testExpression
      case None => r := Ok(false);
      case Some(t) => r := Run(t, testStr, ext.minimatch);
    }
  }

  /** Two tests on one selector: the first builds the tree, the second reuses what the first kept. */
  method TestTwice(exp: string, ext: Externals, s1: string, s2: string) returns (r1: Result<bool, SelectError>, r2: Result<bool, SelectError>)
    ensures r1 == FirstTest(exp, ext, s1)
    ensures Build(ext.parse(exp)).Ok? ==> r2 == Run(Build(ext.parse(exp)).value, s2, ext.minimatch)
    ensures ext.parse(exp).Parsed? && Build(ext.parse(exp)).Err? ==> r1.Err? && r2 == Ok(false)
    ensures ext.parse(exp).SyntaxError? ==> r2 == r1
  {
    var sel := new StringSelectExp(exp, ext);
    r1 := sel.Test(s1);
    r2 := sel.Test(s2);
    LaterTestAgrees(exp, ext, s2);
  }
}
