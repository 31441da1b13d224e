/**
 * `TagSelectExp` (`src/expressions/tag-select-exp.ts`), the older selector the
 * legacy timeline filter uses. Its expression classes behave exactly as those
 * of `StringSelectExp` and share their model (`SelectTree`); it differs in
 * building the tree: a quoted tag is neither a string literal nor a directive
 * it can use.
 */
module TagSelectExp {
  import opened Wrappers
  import opened BabelAst
  import opened JsNumber
  import opened SelectTree
  import SelectExp

  /** `transform(ast)` of the older selector: no case for string literals. */
  function Transform(ast: Node): Result<Expression, SelectError> {
    match ast
    case LogicalNode(op, l, r) =>
      var a := Transform(l);
      if a.Err? then Err(a.error)
      else
        var b := Transform(r);
        if b.Err? then Err(b.error) else Ok(LogicalExpression(op, a.value, b.value))
    case UnaryNode(op, x) =>
      var a := Transform(x);
      if a.Err? then Err(a.error) else Ok(UnaryExpression(op, a.value))
    case IdentifierNode(name) => Ok(Identifier(name))
    case BinaryNode(op, l, r) =>
      var a := Transform(l);
      if a.Err? then Err(a.error)
      else
        var b := Transform(r);
        if b.Err? then Err(b.error) else Ok(BinaryExpression(op, a.value, b.value))
    case NumericLiteralNode(n) => Ok(Identifier(NumberToString(n)))
    case _ => Err(UnsupportedAst(ast))
  }

  /** The AST has no string literal. */
  predicate NoStringLiteral(ast: Node) {
    match ast
    case LogicalNode(_, l, r) => NoStringLiteral(l) && NoStringLiteral(r)
    case UnaryNode(_, x) => NoStringLiteral(x)
    case BinaryNode(_, l, r) => NoStringLiteral(l) && NoStringLiteral(r)
    case StringLiteralNode(_) => false
    case _ => true
  }

  /**
   * Both transforms agree on an AST without string literals; with one, the
   * older transform fails where the newer one may succeed.
   */
  lemma {:induction false} TransformsAgree(ast: Node)
    ensures NoStringLiteral(ast) ==> Transform(ast) == SelectExp.Transform(ast)
    ensures !NoStringLiteral(ast) ==> Transform(ast).Err?
  {
    match ast
    case LogicalNode(_, l, r) =>
      TransformsAgree(l);
      TransformsAgree(r);
    case UnaryNode(_, x) =>
      TransformsAgree(x);
    case BinaryNode(_, l, r) =>
      TransformsAgree(l);
      TransformsAgree(r);
    case _ =>
  }

  /** The tree of the first expression statement, if there is one. */
  function BuildTree(program: Program): Result<Expression, SelectError> {
    var first := FirstExpression(program.body);
    if first == -1 then Err(NoExpression) else Transform(program.body[first].expression)
  }

  /** `buildParser`: every failure is rethrown wrapped in `ParseFailed`. */
  function Build(outcome: ParseOutcome): (r: Result<Expression, SelectError>)
    ensures r.Err? ==> r.error.ParseFailed?
    ensures r.Err? <==> outcome.SyntaxError? || BuildTree(outcome.program).Err?
  {
    match outcome
    case SyntaxError(message) => Err(ParseFailed(Syntax(message)))
    case Parsed(program) =>
      var tree := BuildTree(program);
      if tree.Err? then Err(ParseFailed(tree.error)) else tree
  }

  /**
   * The two selectors build the same tree from a program whose first
   * expression statement has no string literal; from a program with only a
   * directive (a lone quoted tag) the older one finds no expression.
   */
  lemma BuildsAgree(program: Program)
    ensures FirstExpression(program.body) != -1 && NoStringLiteral(program.body[FirstExpression(program.body)].expression) ==>
      Build(Parsed(program)) == SelectExp.Build(Parsed(program))
    ensures FirstExpression(program.body) == -1 ==>
      Build(Parsed(program)) == Err(ParseFailed(NoExpression)) &&
      (|program.directives| > 0 <==> SelectExp.Build(Parsed(program)).Ok?)
  {
    var first := FirstExpression(program.body);
    if first != -1 {
      TransformsAgree(program.body[first].expression);
    }
  }

  /** The first `test`: build the tree, then run it. */
  function FirstTest(exp: string, ext: SelectExp.Externals, testStr: string): Result<bool, SelectError> {
    var tree := Build(ext.parse(exp));
    if tree.Err? then Err(tree.error) else Run(tree.value, testStr, ext.minimatch)
  }

  /** A later `test`, reusing the kept parse result. */
  function LaterTest(exp: string, ext: SelectExp.Externals, testStr: string): Result<bool, SelectError> {
    match ext.parse(exp)
    case SyntaxError(_) => FirstTest(exp, ext, testStr)
    case Parsed(program) =>
      var tree := BuildTree(program);
      if tree.Err? then Ok(false) else Run(tree.value, testStr, ext.minimatch)
  }

  /** Keeping the parse result turns a failed build into `false` for later tests, and changes nothing else. */
  lemma LaterTestAgrees(exp: string, ext: SelectExp.Externals, testStr: string)
    ensures Build(ext.parse(exp)).Ok? || ext.parse(exp).SyntaxError? ==>
      LaterTest(exp, ext, testStr) == FirstTest(exp, ext, testStr)
    ensures ext.parse(exp).Parsed? && Build(ext.parse(exp)).Err? ==>
      FirstTest(exp, ext, testStr).Err? && LaterTest(exp, ext, testStr) == Ok(false)
  {
  }

  class TagSelectExp {
    const exp: string
    const ext: SelectExp.Externals
    var parseResult: Option<Program>
    var testExpression: Option<Expression>

    predicate Valid()
      reads this
    {
      (parseResult.Some? ==> ext.parse(exp) == Parsed(parseResult.value)) &&
      testExpression == (if parseResult.Some? then BuildTree(parseResult.value).ToOption() else None)
    }

    constructor(exp: string, ext: SelectExp.Externals)
      ensures this.exp == exp && this.ext == ext
      ensures parseResult == None && testExpression == None
      ensures Valid()
    {
      this.exp := exp;
      this.ext := ext;
      parseResult := None;
      testExpression := None;
    }

    /** `buildParser()`: `err` is the error it throws. */
    method BuildParser() returns (err: Option<SelectError>)
      requires Valid()
      modifies this
      ensures Valid()
      ensures err == if Build(ext.parse(exp)).Err? then Some(Build(ext.parse(exp)).error) else None
      ensures parseResult == if ext.parse(exp).Parsed? then Some(ext.parse(exp).program) else old(parseResult)
      ensures testExpression == if Build(ext.parse(exp)).Ok? then Some(Build(ext.parse(exp)).value) else old(testExpression)
    {
      var outcome := ext.parse(exp);
      if outcome.SyntaxError? {
        return Some(ParseFailed(Syntax(outcome.message)));
      }
      parseResult := Some(outcome.program);
      var tree := BuildTree(outcome.program);
      if tree.Err? {
        return Some(ParseFailed(tree.error));
      }
      testExpression := Some(tree.value);
      return None;
    }

    /** `test(testStr)`: `Err` is a thrown error. */
    method Test(testStr: string) returns (r: Result<bool, SelectError>)
      requires Valid()
      modifies this
      ensures Valid()
      ensures r == if old(parseResult).None? then FirstTest(exp, ext, testStr) else LaterTest(exp, ext, testStr)
      ensures parseResult == if ext.parse(exp).Parsed? then Some(ext.parse(exp).program) else None
    {
      if parseResult.None? {
        var err := BuildParser();
        if err.Some? {
          return Err(err.value);
        }
      }
      match testExpression
      case None => r := Ok(false);
      case Some(t) => r := Run(t, testStr, ext.minimatch);
    }
  }
}
