/**
 * The selector cases of `src/expressions/__tests__/tag-select.test.ts`, with
 * the parser's output for each expression written out and with `minimatch`
 * matching plain tags literally. Each case is one selector applied in turn,
 * so its first test builds the tree and the later ones reuse it.
 */
module SelectExpCases {
  import opened Wrappers
  import opened JsString
  import opened BabelAst
  import opened SelectTree
  import opened SelectExp

  /** A program holding the one expression statement `e`. */
  function Single(e: Node): Program {
    Program([ExpressionStatement(e)], [])
  }

  function Id(name: string): Node {
    IdentifierNode(name)
  }

  /** The tag string of some separator-free tags. */
  predicate TagList(parts: seq<string>) {
    |parts| >= 1 && forall i :: 0 <= i < |parts| ==> ';' !in parts[i]
  }

  /** A plain tag pattern tests membership among the tags of the string. */
  lemma Tag(p: string, parts: seq<string>, mm: Matcher)
    requires LiteralGlob(mm) && Plain(p) && TagList(parts)
    ensures Run(Identifier(p), Join(parts, ';'), mm) == Ok(p in parts)
  {
    SplitJoin(parts, ';');
    PlainPatternIsMembership(p, Join(parts, ';'), mm);
  }

  /** Every operator supported and every pattern plain. */
  predicate PlainTree(e: Expression) {
    Supported(e) &&
    match e
    case LogicalExpression(_, l, r) => PlainTree(l) && PlainTree(r)
    case UnaryExpression(_, x) => PlainTree(x)
    case Identifier(p) => Plain(p)
    case BinaryExpression(_, _, _) => Plain(GetPattern(e))
  }

  /** The meaning of a plain tree over a list of tags. */
  predicate Eval(e: Expression, tags: seq<string>) {
    match e
    case LogicalExpression(op, l, r) =>
      if op == "&&" then Eval(l, tags) && Eval(r, tags) else Eval(l, tags) || Eval(r, tags)
    case UnaryExpression(_, x) => !Eval(x, tags)
    case Identifier(p) => p in tags
    case BinaryExpression(_, _, _) => GetPattern(e) in tags
  }

  /** Run on a plain tree is its meaning over the tags. */
  lemma {:induction false} RunPlain(e: Expression, parts: seq<string>, mm: Matcher)
    requires LiteralGlob(mm) && PlainTree(e) && TagList(parts)
    ensures Run(e, Join(parts, ';'), mm) == Ok(Eval(e, parts))
  {
    match e
    case LogicalExpression(_, l, r) =>
      RunPlain(l, parts, mm);
      RunPlain(r, parts, mm);
    case UnaryExpression(_, x) =>
      RunPlain(x, parts, mm);
    case Identifier(p) =>
      Tag(p, parts, mm);
    case BinaryExpression(_, _, _) =>
      Tag(GetPattern(e), parts, mm);
  }

  /**
   * A selector whose text parses to a plain expression statement (possibly
   * followed by others), applied first and later to a tag string.
   */
  lemma Case(exp: string, tree: Expression, more: seq<Statement>, parts: seq<string>, ext: Externals)
    requires LiteralGlob(ext.minimatch) && PlainTree(tree) && TagList(parts)
    requires ext.parse(exp) == Parsed(Program([ExpressionStatement(ToNode(tree))] + more, []))
    ensures FirstTest(exp, ext, Join(parts, ';')) == Ok(Eval(tree, parts))
    ensures LaterTest(exp, ext, Join(parts, ';')) == Ok(Eval(tree, parts))
  {
    TransformToNode(tree);
    assert FirstExpression(([ExpressionStatement(ToNode(tree))] + more)) == 0;
    RunPlain(tree, parts, ext.minimatch);
  }

  const Sample := ["南明史", "书籍", "其他", "读书笔记"]

  const NoBook := ["南明史", "其他"]

  const NoOther := ["南明史", "书籍", "读书笔记"]

  const WithOtherA := ["南明史", "书籍", "其他/a", "读书笔记"]

  const Neither := ["南明史", "读书笔记"]

  const BookOnly := ["南明史", "书籍"]

  const BookOther := ["南明史", "书籍", "其他"]

  const OtherBook := ["其他", "书籍"]

  const NotesBook := ["读书笔记", "书籍"]

  /** The tag strings of the cases. */
  lemma SampleTags()
    ensures TagList(Sample) && Join(Sample, ';') == "南明史;书籍;其他;读书笔记"
  {
  }

  lemma NoBookTags()
    ensures TagList(NoBook) && Join(NoBook, ';') == "南明史;其他"
  {
  }

  lemma NoOtherTags()
    ensures TagList(NoOther) && Join(NoOther, ';') == "南明史;书籍;读书笔记"
  {
  }

  lemma WithOtherATags()
    ensures TagList(WithOtherA) && Join(WithOtherA, ';') == "南明史;书籍;其他/a;读书笔记"
  {
  }

  lemma NeitherTags()
    ensures TagList(Neither) && Join(Neither, ';') == "南明史;读书笔记"
  {
  }

  lemma BookOnlyTags()
    ensures TagList(BookOnly) && Join(BookOnly, ';') == "南明史;书籍"
  {
  }

  lemma BookOtherTags()
    ensures TagList(BookOther) && Join(BookOther, ';') == "南明史;书籍;其他"
  {
  }

  lemma OtherBookTags()
    ensures TagList(OtherBook) && Join(OtherBook, ';') == "其他;书籍"
  {
  }

  lemma NotesBookTags()
    ensures TagList(NotesBook) && Join(NotesBook, ';') == "读书笔记;书籍"
  {
  }

  /**
   * A quoted tag such as `'书籍'` parses to a directive and no statement; it
   * selects like the bare tag.
   */
  lemma QuotedTag(ext: Externals, tag: string, parts: seq<string>)
    requires LiteralGlob(ext.minimatch) && Plain(tag) && TagList(parts)
    requires ext.parse("'" + tag + "'") == Parsed(Program([], [tag]))
    ensures FirstTest("'" + tag + "'", ext, Join(parts, ';')) == Ok(tag in parts)
  {
    assert BuildTree(Program([], [tag])) == Ok(Identifier(tag));
    Tag(tag, parts, ext.minimatch);
  }

  /** The tags of the cases have no glob syntax. */
  lemma PlainTags()
    ensures Plain("书籍")
    ensures Plain("其他")
    ensures Plain("读书笔记")
    ensures Plain("南明史")
    ensures Plain("书籍1")
    ensures Plain("其他/a")
  {
    PlainTagBook();
    PlainTagOther();
    PlainTagNotes();
    PlainTagNanming();
    PlainTagBook1();
    PlainTagOtherA();
  }

  lemma PlainTagBook()
    ensures Plain("书籍")
  {
  }

  lemma PlainTagOther()
    ensures Plain("其他")
  {
  }

  lemma PlainTagNotes()
    ensures Plain("读书笔记")
  {
  }

  lemma PlainTagNanming()
    ensures Plain("南明史")
  {
  }

  lemma PlainTagBook1()
    ensures Plain("书籍1")
  {
  }

  lemma PlainTagOtherA()
    ensures Plain("其他/a")
  {
  }

  const BookTagTree := Identifier("书籍")

  lemma BookTagTreeFacts()
    ensures ToNode(BookTagTree) == Id("书籍")
  {
  }

  lemma BookTagPlain()
    ensures PlainTree(BookTagTree)
  {
    PlainTags();
  }

  lemma BookTagOnSample()
    ensures Eval(BookTagTree, Sample)
  {
    assert ("书籍" in Sample) == true;
  }

  /** `书籍` selects the sample tags. */
  lemma BookTag(ext: Externals)
    requires LiteralGlob(ext.minimatch)
    requires ext.parse("书籍") == Parsed(Program([ExpressionStatement(Id("书籍"))], []))
    ensures FirstTest("书籍", ext, "南明史;书籍;其他;读书笔记") == Ok(true)
  {
    BookTagTreeFacts();
    BookTagPlain();
    BookTagOnSample();
    SampleTags();
    Case("书籍", BookTagTree, [], Sample, ext);
  }

  const MissingTagTree := Identifier("书籍1")

  lemma MissingTagTreeFacts()
    ensures ToNode(MissingTagTree) == Id("书籍1")
  {
  }

  lemma MissingTagPlain()
    ensures PlainTree(MissingTagTree)
  {
    PlainTags();
  }

  lemma MissingTagOnSample()
    ensures !Eval(MissingTagTree, Sample)
  {
    assert ("书籍1" in Sample) == false;
  }

  /** `书籍1` is no tag of the sample. */
  lemma MissingTag(ext: Externals)
    requires LiteralGlob(ext.minimatch)
    requires ext.parse("书籍1") == Parsed(Program([ExpressionStatement(Id("书籍1"))], []))
    ensures FirstTest("书籍1", ext, "南明史;书籍;其他;读书笔记") == Ok(false)
  {
    MissingTagTreeFacts();
    MissingTagPlain();
    MissingTagOnSample();
    SampleTags();
    Case("书籍1", MissingTagTree, [], Sample, ext);
  }

  const FirstStatementTree := Identifier("书籍1")

  lemma FirstStatementTreeFacts()
    ensures ToNode(FirstStatementTree) == Id("书籍1")
  {
  }

  lemma FirstStatementPlain()
    ensures PlainTree(FirstStatementTree)
  {
    PlainTags();
  }

  lemma FirstStatementOnSample()
    ensures !Eval(FirstStatementTree, Sample)
  {
    assert ("书籍1" in Sample) == false;
  }

  /** Of `书籍1;书籍2`, two statements, only the first is the selector. */
  lemma FirstStatement(ext: Externals)
    requires LiteralGlob(ext.minimatch)
    requires ext.parse("书籍1;书籍2") == Parsed(Program([ExpressionStatement(Id("书籍1"))] + [ExpressionStatement(Id("书籍2"))], []))
    ensures FirstTest("书籍1;书籍2", ext, "南明史;书籍;其他;读书笔记") == Ok(false)
  {
    FirstStatementTreeFacts();
    FirstStatementPlain();
    FirstStatementOnSample();
    SampleTags();
    Case("书籍1;书籍2", FirstStatementTree, [ExpressionStatement(Id("书籍2"))], Sample, ext);
  }

  const NotBookTree := UnaryExpression("!", Identifier("书籍"))

  lemma NotBookTreeFacts()
    ensures ToNode(NotBookTree) == UnaryNode("!", Id("书籍"))
  {
  }

  lemma NotBookPlain()
    ensures PlainTree(NotBookTree)
  {
    PlainTags();
    assert PlainTree(Identifier("书籍"));
  }

  lemma NotBookOnSample()
    ensures !Eval(NotBookTree, Sample)
  {
    assert ("书籍" in Sample) == true;
  }

  lemma NotBookOnNoBook()
    ensures Eval(NotBookTree, NoBook)
  {
    assert ("书籍" in NoBook) == false;
  }

  /** `!书籍` */
  lemma NotBook(ext: Externals)
    requires LiteralGlob(ext.minimatch)
    requires ext.parse("!书籍") == Parsed(Program([ExpressionStatement(UnaryNode("!", Id("书籍")))], []))
    ensures FirstTest("!书籍", ext, "南明史;书籍;其他;读书笔记") == Ok(false)
    ensures LaterTest("!书籍", ext, "南明史;其他") == Ok(true)
  {
    NotBookTreeFacts();
    NotBookPlain();
    NotBookOnSample();
    NotBookOnNoBook();
    SampleTags();
    NoBookTags();
    Case("!书籍", NotBookTree, [], Sample, ext);
    Case("!书籍", NotBookTree, [], NoBook, ext);
  }

  const Condition1Tree := LogicalExpression("&&", Identifier("书籍"), Identifier("其他"))

  lemma Condition1TreeFacts()
    ensures ToNode(Condition1Tree) == LogicalNode("&&", Id("书籍"), Id("其他"))
  {
  }

  lemma Condition1Plain()
    ensures PlainTree(Condition1Tree)
  {
    PlainTags();
    assert PlainTree(Identifier("书籍"));
    assert PlainTree(Identifier("其他"));
  }

  lemma Condition1OnSample()
    ensures Eval(Condition1Tree, Sample)
  {
    assert ("书籍" in Sample) == true;
    assert ("其他" in Sample) == true;
  }

  lemma Condition1OnNoOther()
    ensures !Eval(Condition1Tree, NoOther)
  {
    assert ("书籍" in NoOther) == true;
    assert ("其他" in NoOther) == false;
  }

  /** `书籍 && 其他` */
  lemma Condition1(ext: Externals)
    requires LiteralGlob(ext.minimatch)
    requires ext.parse("书籍 && 其他") == Parsed(Program([ExpressionStatement(LogicalNode("&&", Id("书籍"), Id("其他")))], []))
    ensures FirstTest("书籍 && 其他", ext, "南明史;书籍;其他;读书笔记") == Ok(true)
    ensures LaterTest("书籍 && 其他", ext, "南明史;书籍;读书笔记") == Ok(false)
  {
    Condition1TreeFacts();
    Condition1Plain();
    Condition1OnSample();
    Condition1OnNoOther();
    SampleTags();
    NoOtherTags();
    Case("书籍 && 其他", Condition1Tree, [], Sample, ext);
    Case("书籍 && 其他", Condition1Tree, [], NoOther, ext);
  }

  const Condition2Tree := LogicalExpression("||", Identifier("书籍"), Identifier("其他"))

  lemma Condition2TreeFacts()
    ensures ToNode(Condition2Tree) == LogicalNode("||", Id("书籍"), Id("其他"))
  {
  }

  lemma Condition2Plain()
    ensures PlainTree(Condition2Tree)
  {
    PlainTags();
    assert PlainTree(Identifier("书籍"));
    assert PlainTree(Identifier("其他"));
  }

  lemma Condition2OnSample()
    ensures Eval(Condition2Tree, Sample)
  {
    assert ("书籍" in Sample) == true;
    assert ("其他" in Sample) == true;
  }

  lemma Condition2OnNoOther()
    ensures Eval(Condition2Tree, NoOther)
  {
    assert ("书籍" in NoOther) == true;
    assert ("其他" in NoOther) == false;
  }

  /** `书籍 || 其他` */
  lemma Condition2(ext: Externals)
    requires LiteralGlob(ext.minimatch)
    requires ext.parse("书籍 || 其他") == Parsed(Program([ExpressionStatement(LogicalNode("||", Id("书籍"), Id("其他")))], []))
    ensures FirstTest("书籍 || 其他", ext, "南明史;书籍;其他;读书笔记") == Ok(true)
    ensures LaterTest("书籍 || 其他", ext, "南明史;书籍;读书笔记") == Ok(true)
  {
    Condition2TreeFacts();
    Condition2Plain();
    Condition2OnSample();
    Condition2OnNoOther();
    SampleTags();
    NoOtherTags();
    Case("书籍 || 其他", Condition2Tree, [], Sample, ext);
    Case("书籍 || 其他", Condition2Tree, [], NoOther, ext);
  }

  const Condition3Tree := UnaryExpression("!", Identifier("其他"))

  lemma Condition3TreeFacts()
    ensures ToNode(Condition3Tree) == UnaryNode("!", Id("其他"))
  {
  }

  lemma Condition3Plain()
    ensures PlainTree(Condition3Tree)
  {
    PlainTags();
    assert PlainTree(Identifier("其他"));
  }

  lemma Condition3OnSample()
    ensures !Eval(Condition3Tree, Sample)
  {
    assert ("其他" in Sample) == true;
  }

  lemma Condition3OnNoOther()
    ensures Eval(Condition3Tree, NoOther)
  {
    assert ("其他" in NoOther) == false;
  }

  /** `!其他` */
  lemma Condition3(ext: Externals)
    requires LiteralGlob(ext.minimatch)
    requires ext.parse("!其他") == Parsed(Program([ExpressionStatement(UnaryNode("!", Id("其他")))], []))
    ensures FirstTest("!其他", ext, "南明史;书籍;其他;读书笔记") == Ok(false)
    ensures LaterTest("!其他", ext, "南明史;书籍;读书笔记") == Ok(true)
  {
    Condition3TreeFacts();
    Condition3Plain();
    Condition3OnSample();
    Condition3OnNoOther();
    SampleTags();
    NoOtherTags();
    Case("!其他", Condition3Tree, [], Sample, ext);
    Case("!其他", Condition3Tree, [], NoOther, ext);
  }

  const Condition4Tree := LogicalExpression("&&", Identifier("书籍"), UnaryExpression("!", BinaryExpression("/", Identifier("其他"), Identifier("a"))))

  lemma Condition4TreeFacts()
    ensures ToNode(Condition4Tree) == LogicalNode("&&", Id("书籍"), UnaryNode("!", BinaryNode("/", Id("其他"), Id("a"))))
  {
    assert ToNode(BinaryExpression("/", Identifier("其他"), Identifier("a"))) == BinaryNode("/", Id("其他"), Id("a"));
    assert ToNode(UnaryExpression("!", BinaryExpression("/", Identifier("其他"), Identifier("a")))) == UnaryNode("!", BinaryNode("/", Id("其他"), Id("a")));
  }

  lemma Condition4Plain()
    ensures PlainTree(Condition4Tree)
  {
    PlainTags();
    assert PlainTree(Identifier("书籍"));
    assert PlainTree(Identifier("其他"));
    assert PlainTree(Identifier("a"));
    assert GetPattern(BinaryExpression("/", Identifier("其他"), Identifier("a"))) == "其他/a";
    assert PlainTree(BinaryExpression("/", Identifier("其他"), Identifier("a")));
    assert PlainTree(UnaryExpression("!", BinaryExpression("/", Identifier("其他"), Identifier("a"))));
  }

  lemma Condition4OnWithOtherA()
    ensures !Eval(Condition4Tree, WithOtherA)
  {
    assert GetPattern(BinaryExpression("/", Identifier("其他"), Identifier("a"))) == "其他/a";
    assert ("书籍" in WithOtherA) == true;
    assert ("其他/a" in WithOtherA) == true;
  }

  lemma Condition4OnNoOther()
    ensures Eval(Condition4Tree, NoOther)
  {
    assert GetPattern(BinaryExpression("/", Identifier("其他"), Identifier("a"))) == "其他/a";
    assert ("书籍" in NoOther) == true;
    assert ("其他/a" in NoOther) == false;
  }

  /** `书籍 && !(其他/a)`: a hierarchical tag after `!` is written in parentheses and is one pattern. */
  lemma Condition4(ext: Externals)
    requires LiteralGlob(ext.minimatch)
    requires ext.parse("书籍 && !(其他/a)") == Parsed(Program([ExpressionStatement(LogicalNode("&&", Id("书籍"), UnaryNode("!", BinaryNode("/", Id("其他"), Id("a")))))], []))
    ensures FirstTest("书籍 && !(其他/a)", ext, "南明史;书籍;其他/a;读书笔记") == Ok(false)
    ensures LaterTest("书籍 && !(其他/a)", ext, "南明史;书籍;读书笔记") == Ok(true)
  {
    Condition4TreeFacts();
    Condition4Plain();
    Condition4OnWithOtherA();
    Condition4OnNoOther();
    NoOtherTags();
    WithOtherATags();
    Case("书籍 && !(其他/a)", Condition4Tree, [], WithOtherA, ext);
    Case("书籍 && !(其他/a)", Condition4Tree, [], NoOther, ext);
  }

  const Condition5Tree := LogicalExpression("||", Identifier("书籍"), UnaryExpression("!", Identifier("其他")))

  lemma Condition5TreeFacts()
    ensures ToNode(Condition5Tree) == LogicalNode("||", Id("书籍"), UnaryNode("!", Id("其他")))
  {
    assert ToNode(UnaryExpression("!", Identifier("其他"))) == UnaryNode("!", Id("其他"));
  }

  lemma Condition5Plain()
    ensures PlainTree(Condition5Tree)
  {
    PlainTags();
    assert PlainTree(Identifier("书籍"));
    assert PlainTree(Identifier("其他"));
    assert PlainTree(UnaryExpression("!", Identifier("其他")));
  }

  lemma Condition5OnSample()
    ensures Eval(Condition5Tree, Sample)
  {
    assert ("书籍" in Sample) == true;
    assert ("其他" in Sample) == true;
  }

  lemma Condition5OnNeither()
    ensures Eval(Condition5Tree, Neither)
  {
    assert ("书籍" in Neither) == false;
    assert ("其他" in Neither) == false;
  }

  /** `书籍 || !其他` */
  lemma Condition5(ext: Externals)
    requires LiteralGlob(ext.minimatch)
    requires ext.parse("书籍 || !其他") == Parsed(Program([ExpressionStatement(LogicalNode("||", Id("书籍"), UnaryNode("!", Id("其他"))))], []))
    ensures FirstTest("书籍 || !其他", ext, "南明史;书籍;其他;读书笔记") == Ok(true)
    ensures LaterTest("书籍 || !其他", ext, "南明史;读书笔记") == Ok(true)
  {
    Condition5TreeFacts();
    Condition5Plain();
    Condition5OnSample();
    Condition5OnNeither();
    SampleTags();
    NeitherTags();
    Case("书籍 || !其他", Condition5Tree, [], Sample, ext);
    Case("书籍 || !其他", Condition5Tree, [], Neither, ext);
  }

  const Condition6Tree := LogicalExpression("&&", Identifier("书籍"), LogicalExpression("||", Identifier("其他"), Identifier("读书笔记")))

  lemma Condition6TreeFacts()
    ensures ToNode(Condition6Tree) == LogicalNode("&&", Id("书籍"), LogicalNode("||", Id("其他"), Id("读书笔记")))
  {
    assert ToNode(LogicalExpression("||", Identifier("其他"), Identifier("读书笔记"))) == LogicalNode("||", Id("其他"), Id("读书笔记"));
  }

  lemma Condition6Plain()
    ensures PlainTree(Condition6Tree)
  {
    PlainTags();
    assert PlainTree(Identifier("书籍"));
    assert PlainTree(Identifier("其他"));
    assert PlainTree(Identifier("读书笔记"));
    assert PlainTree(LogicalExpression("||", Identifier("其他"), Identifier("读书笔记")));
  }

  lemma Condition6OnBookOnly()
    ensures !Eval(Condition6Tree, BookOnly)
  {
    assert ("书籍" in BookOnly) == true;
    assert ("其他" in BookOnly) == false;
    assert ("读书笔记" in BookOnly) == false;
  }

  lemma Condition6OnBookOther()
    ensures Eval(Condition6Tree, BookOther)
  {
    assert ("书籍" in BookOther) == true;
    assert ("其他" in BookOther) == true;
    assert ("读书笔记" in BookOther) == false;
  }

  lemma Condition6OnNoOther()
    ensures Eval(Condition6Tree, NoOther)
  {
    assert ("书籍" in NoOther) == true;
    assert ("其他" in NoOther) == false;
    assert ("读书笔记" in NoOther) == true;
  }

  /** `书籍 && (其他 || 读书笔记)` */
  lemma Condition6(ext: Externals)
    requires LiteralGlob(ext.minimatch)
    requires ext.parse("书籍 && (其他 || 读书笔记)") == Parsed(Program([ExpressionStatement(LogicalNode("&&", Id("书籍"), LogicalNode("||", Id("其他"), Id("读书笔记"))))], []))
    ensures FirstTest("书籍 && (其他 || 读书笔记)", ext, "南明史;书籍") == Ok(false)
    ensures LaterTest("书籍 && (其他 || 读书笔记)", ext, "南明史;书籍;其他") == Ok(true)
    ensures LaterTest("书籍 && (其他 || 读书笔记)", ext, "南明史;书籍;读书笔记") == Ok(true)
  {
    Condition6TreeFacts();
    Condition6Plain();
    Condition6OnBookOnly();
    Condition6OnBookOther();
    Condition6OnNoOther();
    NoOtherTags();
    BookOnlyTags();
    BookOtherTags();
    Case("书籍 && (其他 || 读书笔记)", Condition6Tree, [], BookOnly, ext);
    Case("书籍 && (其他 || 读书笔记)", Condition6Tree, [], BookOther, ext);
    Case("书籍 && (其他 || 读书笔记)", Condition6Tree, [], NoOther, ext);
  }

  const Condition7Tree := LogicalExpression("&&", Identifier("书籍"), LogicalExpression("||", Identifier("其他"), LogicalExpression("&&", Identifier("读书笔记"), Identifier("南明史"))))

  lemma Condition7TreeFacts()
    ensures ToNode(Condition7Tree) == LogicalNode("&&", Id("书籍"), LogicalNode("||", Id("其他"), LogicalNode("&&", Id("读书笔记"), Id("南明史"))))
  {
    assert ToNode(LogicalExpression("&&", Identifier("读书笔记"), Identifier("南明史"))) == LogicalNode("&&", Id("读书笔记"), Id("南明史"));
    assert ToNode(LogicalExpression("||", Identifier("其他"), LogicalExpression("&&", Identifier("读书笔记"), Identifier("南明史")))) == LogicalNode("||", Id("其他"), LogicalNode("&&", Id("读书笔记"), Id("南明史")));
  }

  lemma Condition7Plain()
    ensures PlainTree(Condition7Tree)
  {
    PlainTags();
    assert PlainTree(Identifier("书籍"));
    assert PlainTree(Identifier("其他"));
    assert PlainTree(Identifier("读书笔记"));
    assert PlainTree(Identifier("南明史"));
    assert PlainTree(LogicalExpression("&&", Identifier("读书笔记"), Identifier("南明史")));
    assert PlainTree(LogicalExpression("||", Identifier("其他"), LogicalExpression("&&", Identifier("读书笔记"), Identifier("南明史"))));
  }

  lemma Condition7OnOtherBook()
    ensures Eval(Condition7Tree, OtherBook)
  {
    assert ("书籍" in OtherBook) == true;
    assert ("其他" in OtherBook) == true;
    assert ("南明史" in OtherBook) == false;
    assert ("读书笔记" in OtherBook) == false;
  }

  lemma Condition7OnBookOnly()
    ensures !Eval(Condition7Tree, BookOnly)
  {
    assert ("书籍" in BookOnly) == true;
    assert ("其他" in BookOnly) == false;
    assert ("南明史" in BookOnly) == true;
    assert ("读书笔记" in BookOnly) == false;
  }

  lemma Condition7OnNotesBook()
    ensures !Eval(Condition7Tree, NotesBook)
  {
    assert ("书籍" in NotesBook) == true;
    assert ("其他" in NotesBook) == false;
    assert ("南明史" in NotesBook) == false;
    assert ("读书笔记" in NotesBook) == true;
  }

  lemma Condition7OnNoOther()
    ensures Eval(Condition7Tree, NoOther)
  {
    assert ("书籍" in NoOther) == true;
    assert ("其他" in NoOther) == false;
    assert ("南明史" in NoOther) == true;
    assert ("读书笔记" in NoOther) == true;
  }

  /** `书籍 && (其他 || (读书笔记 && 南明史))` */
  lemma Condition7(ext: Externals)
    requires LiteralGlob(ext.minimatch)
    requires ext.parse("书籍 && (其他 || (读书笔记 && 南明史))") == Parsed(Program([ExpressionStatement(LogicalNode("&&", Id("书籍"), LogicalNode("||", Id("其他"), LogicalNode("&&", Id("读书笔记"), Id("南明史")))))], []))
    ensures FirstTest("书籍 && (其他 || (读书笔记 && 南明史))", ext, "其他;书籍") == Ok(true)
    ensures LaterTest("书籍 && (其他 || (读书笔记 && 南明史))", ext, "南明史;书籍") == Ok(false)
    ensures LaterTest("书籍 && (其他 || (读书笔记 && 南明史))", ext, "读书笔记;书籍") == Ok(false)
    ensures LaterTest("书籍 && (其他 || (读书笔记 && 南明史))", ext, "南明史;书籍;读书笔记") == Ok(true)
  {
    Condition7TreeFacts();
    Condition7Plain();
    Condition7OnOtherBook();
    Condition7OnBookOnly();
    Condition7OnNotesBook();
    Condition7OnNoOther();
    NoOtherTags();
    BookOnlyTags();
    OtherBookTags();
    NotesBookTags();
    Case("书籍 && (其他 || (读书笔记 && 南明史))", Condition7Tree, [], OtherBook, ext);
    Case("书籍 && (其他 || (读书笔记 && 南明史))", Condition7Tree, [], BookOnly, ext);
    Case("书籍 && (其他 || (读书笔记 && 南明史))", Condition7Tree, [], NotesBook, ext);
    Case("书籍 && (其他 || (读书笔记 && 南明史))", Condition7Tree, [], NoOther, ext);
  }
}
