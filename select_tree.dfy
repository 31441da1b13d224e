/**
 * The evaluation tree of a selector expression (`src/expressions/select-exp.ts`
 * and its older copy `src/expressions/tag-select-exp.ts`, whose tree classes
 * are identical): logical `&&`/`||`, unary `!`, tag patterns, and `a/b`
 * hierarchical tags. A tag string such as `'a;b/c;d'` is checked by matching
 * each of its `;`-separated tags against the patterns.
 */
module SelectTree {
  import opened Wrappers
  import opened JsString
  import opened BabelAst

  /** The errors the selectors throw; each comment gives the thrown message. */
  datatype SelectError =
    | /** `不支持的ast类型: ${JSON.stringify(ast)}` */ UnsupportedAst(node: Node)
    | /** `不支持的运算符` */ UnsupportedLogical(operator: string)
    | /** `不支持的UnaryExpression运算符: ${operator}` */ UnsupportedUnary(operator: string)
    | /** `unsupported Binary operator: ${operator}` */ UnsupportedBinary(operator: string)
    | /** `表达式解析失败: 未找到表达式` */ NoExpression
    | /** the parser's own syntax error message */ Syntax(message: string)
    | /** `表达式解析失败: ${cause.message}`: `buildParser` rethrows every error it catches */ ParseFailed(cause: SelectError)
    | /** a JavaScript `TypeError`: the property `name` is missing or not a function where it is called */ TypeError(name: string)

  /** `minimatch(tag, pattern)`, supplied by the caller. */
  type Matcher = (string, string) -> bool

  datatype Expression =
    | LogicalExpression(operator: string, left: Expression, right: Expression)
    | UnaryExpression(operator: string, expression: Expression)
    | Identifier(pattern: string)
    | BinaryExpression(operator: string, left: Expression, right: Expression)

  /** `getPattern()`: the expression written back without spaces or parentheses. */
  function GetPattern(e: Expression): string {
    match e
    case LogicalExpression(op, l, r) => GetPattern(l) + op + GetPattern(r)
    case UnaryExpression(op, x) => op + GetPattern(x)
    case Identifier(p) => p
    case BinaryExpression(op, l, r) => GetPattern(l) + op + GetPattern(r)
  }

  /** `tags.some(tag => minimatch(tag, pattern))` */
  function SomeMatches(tags: seq<string>, pattern: string, mm: Matcher): (r: bool)
    ensures r <==> exists i :: 0 <= i < |tags| && mm(tags[i], pattern)
  {
    if |tags| == 0 then false
    else if mm(tags[0], pattern) then true
    else
      assert forall i :: 1 <= i < |tags| ==> tags[i] == tags[1..][i - 1];
      SomeMatches(tags[1..], pattern, mm)
  }

  /** `Identifier.run`: some `;`-separated tag of `testStr` matches `pattern`. */
  function MatchesTag(pattern: string, testStr: string, mm: Matcher): bool {
    SomeMatches(Split(testStr, ';'), pattern, mm)
  }

  /**
   * `run(testStr)`. `&&` and `||` evaluate their right side only when the left
   * side does not decide; an unsupported operator throws when its node is run.
   */
  function Run(e: Expression, testStr: string, mm: Matcher): Result<bool, SelectError> {
    match e
    case LogicalExpression(op, l, r) =>
      if op == "&&" then
        match Run(l, testStr, mm)
        case Err(x) => Err(x)
        case Ok(b) => if b then Run(r, testStr, mm) else Ok(false)
      else if op == "||" then
        match Run(l, testStr, mm)
        case Err(x) => Err(x)
        case Ok(b) => if b then Ok(true) else Run(r, testStr, mm)
      else Err(UnsupportedLogical(op))
    case UnaryExpression(op, x) =>
      if op == "!" then
        match Run(x, testStr, mm)
        case Err(err) => Err(err)
        case Ok(b) => Ok(!b)
      else Err(UnsupportedUnary(op))
    case Identifier(p) => Ok(MatchesTag(p, testStr, mm))
    case BinaryExpression(op, _, _) =>
      if op == "/" then Ok(MatchesTag(GetPattern(e), testStr, mm))
      else Err(UnsupportedBinary(op))
  }

  /** Every operator in the tree is one `run` supports. */
  predicate Supported(e: Expression) {
    match e
    case LogicalExpression(op, l, r) => (op == "&&" || op == "||") && Supported(l) && Supported(r)
    case UnaryExpression(op, x) => op == "!" && Supported(x)
    case Identifier(_) => true
    case BinaryExpression(op, _, _) => op == "/"
  }

  /**
   * The boolean meaning of a selector over a set of tags: a pattern holds when
   * some tag matches it, and a `/` node is one pattern, its text.
   */
  predicate Holds(e: Expression, tags: set<string>, mm: Matcher) {
    match e
    case LogicalExpression(op, l, r) =>
      if op == "&&" then Holds(l, tags, mm) && Holds(r, tags, mm) else Holds(l, tags, mm) || Holds(r, tags, mm)
    case UnaryExpression(_, x) => !Holds(x, tags, mm)
    case Identifier(p) => exists t :: t in tags && mm(t, p)
    case BinaryExpression(_, _, _) => exists t :: t in tags && mm(t, GetPattern(e))
  }

  /** The set of `;`-separated tags of a tag string. */
  function TagSet(testStr: string): set<string> {
    set i | 0 <= i < |Split(testStr, ';')| :: Split(testStr, ';')[i]
  }

  lemma MatchesTagSet(pattern: string, testStr: string, mm: Matcher)
    ensures MatchesTag(pattern, testStr, mm) <==> exists t :: t in TagSet(testStr) && mm(t, pattern)
  {
    var tags := Split(testStr, ';');
    if MatchesTag(pattern, testStr, mm) {
      var i :| 0 <= i < |tags| && mm(tags[i], pattern);
      assert tags[i] in TagSet(testStr);
    }
  }

  /**
   * A tree whose operators are all supported never throws, and its result is
   * its meaning over the set of tags: the order and repetition of the tags
   * in the string do not matter.
   */
  lemma {:induction false} RunSupported(e: Expression, testStr: string, mm: Matcher)
    requires Supported(e)
    ensures Run(e, testStr, mm) == Ok(Holds(e, TagSet(testStr), mm))
  {
    match e
    case LogicalExpression(op, l, r) =>
      RunSupported(l, testStr, mm);
      RunSupported(r, testStr, mm);
    case UnaryExpression(op, x) =>
      RunSupported(x, testStr, mm);
    case Identifier(p) =>
      MatchesTagSet(p, testStr, mm);
    case BinaryExpression(op, _, _) =>
      MatchesTagSet(GetPattern(e), testStr, mm);
  }

  /** A thrown error comes from a node whose operator `run` does not support. */
  lemma {:induction false} RunErrUnsupported(e: Expression, testStr: string, mm: Matcher)
    requires Run(e, testStr, mm).Err?
    ensures !Supported(e)
  {
    match e
    case LogicalExpression(op, l, r) =>
      if op == "&&" || op == "||" {
        if Run(l, testStr, mm).Err? {
          RunErrUnsupported(l, testStr, mm);
        } else {
          RunErrUnsupported(r, testStr, mm);
        }
      }
    case UnaryExpression(op, x) =>
      if op == "!" {
        RunErrUnsupported(x, testStr, mm);
      }
    case Identifier(_) =>
    case BinaryExpression(_, _, _) =>
  }

  /** The right side of `&&` is not run when the left side is false, so it may even be unsupported. */
  lemma AndShortCircuits(l: Expression, r: Expression, testStr: string, mm: Matcher)
    requires Run(l, testStr, mm) == Ok(false)
    ensures Run(LogicalExpression("&&", l, r), testStr, mm) == Ok(false)
  {
  }

  /** A pattern without glob syntax that `minimatch` matches only against itself. */
  predicate Plain(p: string) {
    forall k :: 0 <= k < |p| ==> p[k] !in "*?[]{}()!+@#\\"
  }

  /** `minimatch` behaves as string equality on plain patterns. */
  ghost predicate LiteralGlob(mm: Matcher) {
    forall t, p :: Plain(p) ==> (mm(t, p) <==> t == p)
  }

  /** With a plain pattern a tag test is membership of the pattern among the tags. */
  lemma PlainPatternIsMembership(pattern: string, testStr: string, mm: Matcher)
    requires LiteralGlob(mm) && Plain(pattern)
    ensures Run(Identifier(pattern), testStr, mm) == Ok(pattern in Split(testStr, ';'))
  {
    var tags := Split(testStr, ';');
    if pattern in tags {
      var i :| 0 <= i < |tags| && tags[i] == pattern;
      assert mm(tags[i], pattern);
    }
  }

  /** `a/b` tests the hierarchical tag `a/b` as one pattern. */
  lemma HierarchicalTag(a: string, b: string, testStr: string, mm: Matcher)
    ensures Run(BinaryExpression("/", Identifier(a), Identifier(b)), testStr, mm) == Ok(MatchesTag(a + "/" + b, testStr, mm))
  {
    assert GetPattern(BinaryExpression("/", Identifier(a), Identifier(b))) == a + "/" + b;
  }
}
