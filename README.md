# timelines-pro: a Dafny model of the selection and filtering engine

This project models the part of the timelines-pro Obsidian plugin that decides
which timeline events and files a timeline block shows, and proves properties
of that model. It also models the small string scanners that drive the
plugin's editor completions. It covers these parts:

- **Dates** (`time.dfy`). `parseTimelineDate` turns `[-]Y[/M[/D[/H]]]` into
  one signed integer `YYYYMMDDHH`, sign included; `NaN` is a value of its own.
  `parseTimelineDateElements` returns the padded parts. `hasTimeRangeIntersection`
  decides whether two date ranges overlap; a missing end is unbounded.
- **Selection expressions** (`select_tree.dfy`, `select_exp.dfy`,
  `tag_select_exp.dfy`, with the test cases in `select_exp_cases.dfy`).
  `transform` builds a tree of `Identifier`, `&&`/`||`, `!` and `/` nodes
  from a parsed program (`babel_ast.dfy`). `run` evaluates the tree against
  the `;`-separated pieces of a string. `StringSelectExp` and `TagSelectExp`
  are classes that parse lazily, once, on the first `test`.
- **Hierarchical tags** (`parent_children_tag.dfy`). `parseTag` appends a tag
  and each of its `/`-ancestors. `parseTagWithParentInfo` lists each level
  with its parent.
- **Filters** (`event_filter.dfy`, `file_filter.dfy`, `legacy_filter.dfy`).
  These are the current and the legacy pipelines. They filter by event tags
  (with synthetic `year_`/`month_`/`day_`/`hour_` tags), by date range and by
  name, and they filter files by their tags.
- **Event accessors** (`timeline_event.dfy`). These are the id, start, end,
  sort order and description fallback chains, and `parseBoolean`.
- **Search** (`search_timeline.dfy`, `event_tags_manage.dfy`).
  `searchTimelineEvents` runs over a map from files to their events.
  `EventTagsManage` is the singleton holding that map; its methods update it
  in place.
- **Block parameters and completions** (`markdown_code.dfy`,
  `markdown_block_tag_suggestion.dfy`, `tag_suggestion.dfy`,
  `timeline_suggestion.dfy`, `editor.dfy`). These are the `key=value` parser
  of a timeline block and the trigger, suggestion and insertion logic of the
  three editor completions.
- **JavaScript built-ins the code relies on** (`strings.dfy`, `seqs.dfy`,
  `jsnumber.dfy`). These are `trim`, `split`, `join`, `indexOf`,
  `lastIndexOf`, `padStart`, `replace` with a one-character pattern,
  `substring`, `Array.prototype.filter` (including a callback that throws),
  `parseInt` on integers and `String(n)`.

Foreign code is passed in as inputs:

- `@babel/parser` is a function from text to a parse outcome.
- `minimatch` is a predicate on a tag and a pattern. Lemmas that need its
  behaviour assume only that a pattern without glob metacharacters matches
  exactly itself (`LiteralGlob`).
- A `RegExp` test is a predicate on the pattern and the text.
- The Obsidian metadata cache is a function from a file to its tags.
- Reading a file's events is a given map from files to events.

## Model

| member | source | states |
|---|---|---|
| Time.ParseTimelineDate | src/type/time.ts:23-58 | the parse is undefined exactly when the trimmed input is absent or empty; any other input yields a number (possibly NaN) |
| Time.ParseTimelineDateElements | src/type/time.ts:66-94 | undefined exactly when the trimmed input is absent or empty |
| Time.ElementsAgree | src/type/time.ts:23-94 | both parsers succeed together, and the number is `parseInt` of the elements laid end to end (sign in front, year padded to four) |
| Time.DateValue | src/type/time.ts:31-53 | a date written with decimal fields (month, day and hour of at most two digits) parses to `Y*10^6 + M*10^4 + D*100 + H`, negated for a leading `-`; absent month and day count as 1, an absent hour as 0 |
| Time.ParseTrimmed | src/type/time.ts:27-53 | on a trimmed non-empty input, the result is `parseInt` of the numeral built from the split pieces with defaults `1`, `1`, `0` |
| Time.DatePieces | src/type/time.ts:27-31 | a decimal date string is its own trim and splits on `/` back into its fields |
| Time.DigitItem | src/type/time.ts:33-36 | a default-filled field is decimal, at most two digits, and has the value of the piece or of the default |
| Time.NumeralValue | src/type/time.ts:43-53 | the numeral of a decimal date parses to the signed positional encoding of its fields |
| Time.SignedNumeral | src/type/time.ts:51-53 | a decimal numeral, after a `-` when negative, parses to its signed value |
| Time.NumeralShape | src/type/time.ts:43-51 | the numeral is the digit string, preceded by `-` exactly for a negative year |
| Time.DigitsValue | src/type/time.ts:46-51 | the digit string of a date is decimal and its value is the encoding of the fields |
| Time.DigitField | src/type/time.ts:47-49 | a month, day or hour field of at most two digits pads to exactly two digits of the same value |
| Time.YearPart | src/type/time.ts:43-46 | the year is negative exactly when it starts with `-`, and removing that `-` leaves the digits |
| Time.PaddedYear | src/type/time.ts:46 | padding the year to four characters with `0` keeps its value |
| Time.FieldsValue | src/type/time.ts:51 | the concatenated year, month, day and hour digits have the value `Y*10^6 + M*10^4 + D*100 + H` |
| Time.EncodeOrder | src/type/time.ts:46-51 | on non-negative fields below 100, the numeric order of encodings is the chronological order (year, then month, day, hour) |
| Time.NegativeYearsRunBackwards | src/type/time.ts:43-51 | `-231/8/3` gives -231080300 and `-231/1/1` gives -231010100: within a negative year later dates encode to smaller numbers |
| Time.NegativeAugust | src/type/time.ts:43-51 | `-231/8/3` parses to -231080300 |
| Time.NegativeJanuary | src/type/time.ts:43-51 | `-231/1/1` parses to -231010100 |
| Time.NegativeYearFacts | src/type/time.ts:43-51 | the digit values and the joined text of the two negative examples |
| Time.IntersectionIsSharedInstant | src/type/time.ts:117-215 | on ranges whose defined bounds are numbers with start ≤ end, the open-start, open-end and closed cases together hold exactly when some instant lies in both ranges; for closed ranges this is `max(s1,s2) <= min(e1,e2)`, for `(-inf, e]` against a range starting at `s` it is `e >= s`, and a range with no bounds meets every range |
| Time.IntersectionSymmetric | src/type/time.ts:117-154 | on such ranges, intersection does not depend on the order of the arguments |
| Time.ElementsOf701 | src/type/__tests__/time.test.ts:5-13 | `'701'` has elements year `701`, month `01`, day `01`, hour `00` |
| Time.DefaultFields | src/type/time.ts:75-78 | the defaults of an absent month, day and hour become `01`, `01` and `00` |
| Time.IntersectionExample | src/type/__tests__/time.test.ts:17-25 | `['1646/10','1662/3']` meets the range that starts at `'1645/07/27'` and has no end |
| Time.ExampleDates | src/type/__tests__/time.test.ts:17-25 | the three dates of the intersection example parse to 1646100100, 1662030100 and 1645072700 |
| Time.YearMonthDates | src/type/__tests__/time.test.ts:20 | `1646/10` and `1662/3` parse to 1646100100 and 1662030100 |
| Time.StartDate | src/type/__tests__/time.test.ts:20 | `1646/10` parses to 1646100100 |
| Time.EndDate | src/type/__tests__/time.test.ts:20 | `1662/3` parses to 1662030100 |
| Time.DayDate | src/type/__tests__/time.test.ts:22 | `1645/07/27` parses to 1645072700 |
| TimelineEvents.EventTime | src/type/timeline-event.ts:151-153 | the time is the parsed date when that is a non-zero number, and 0 when the date is missing, empty or parses to NaN |
| TimelineEvents.StartTime | src/type/timeline-event.ts:221-223 | the start is `date` when non-empty, else `dateStart` when non-empty, else undefined; it is never an empty string |
| TimelineEvents.EndTime | src/type/timeline-event.ts:229-231 | the plain end is `dateEnd` when non-empty, else undefined |
| TimelineEvents.EndTimeJudged | src/type/timeline-event.ts:237-241 | the judged end is the plain end when there is one, else the start; undefined exactly when both are |
| TimelineEvents.EventIdIsStartTime | src/type/timeline-event.ts:121-142 | an event has an id exactly when it has a start; the id is the rendered time of the start (`date` before `dateStart`), followed by `-` and the time of `dateEnd` for a range without `date`, and `parseInt` of the id gives back the start time |
| TimelineEvents.IdShape | src/type/timeline-event.ts:124-139 | a present id is the rendered start time followed by the range suffix |
| TimelineEvents.RenderedThenText | src/type/timeline-event.ts:131-133 | `parseInt` of a rendered integer followed by `-…` reads that integer |
| TimelineEvents.SortOrder | src/type/timeline-event.ts:246-256 | -1 without a dataset; otherwise the time of `date`, or the time of `dateStart` when that is 0 |
| TimelineEvents.SortOrderIsStartTime | src/type/timeline-event.ts:246-256 | an event whose start has a non-zero time sorts by the time of its start |
| TimelineEvents.DateDescription | src/type/timeline-event.ts:197-201 | the description is `dateDescription` when non-empty, else the id |
| TimelineEvents.ParseBoolean | src/type/timeline-event.ts:357-362 | undefined exactly for a missing or empty value; true exactly for `'true'`; false for every other non-empty value |
| JsNumber.ParseNumberToString | src/type/timeline-event.ts:126 | `parseInt` of the decimal rendering `n + ''` of an integer gives back `n` |
| JsNumber.NatToString | src/type/timeline-event.ts:126 | the decimal rendering of a natural number is non-empty, all decimal digits, has no leading zero, and has the number as its value |
| BabelAst.FirstExpression | src/expressions/select-exp.ts:42-46 | `findIndex` for the first expression statement: -1 exactly when there is none, otherwise the index of the first one |
| SelectTree.SomeMatches | src/expressions/select-exp.ts:209 | `some` holds exactly when some tag matches the pattern |
| SelectTree.MatchesTagSet | src/expressions/select-exp.ts:207-210 | an identifier holds exactly when some `;`-separated piece of the test string glob-matches its pattern |
| SelectTree.RunSupported | src/expressions/select-exp.ts:155-250 | a tree whose operators are all `&&`, `\|\|`, `!` or `/` never throws, and `run` computes the boolean and/or/not of its children over the set of tags, a `/` node being one pattern (the same tree classes sit at src/expressions/tag-select-exp.ts:97-222) |
| SelectTree.RunErrUnsupported | src/expressions/select-exp.ts:161-162 | an error thrown by `run` always comes from an operator other than `&&`/`\|\|`, `!` or `/`, and only at evaluation time |
| SelectTree.AndShortCircuits | src/expressions/select-exp.ts:157-158 | `&&` does not run its right side when the left is false, so an unsupported operator there does not throw |
| SelectTree.PlainPatternIsMembership | src/expressions/select-exp.ts:207-210 | with a pattern free of glob syntax and `minimatch` acting as equality on such patterns, an identifier tests membership of the pattern among the `;`-pieces |
| SelectTree.HierarchicalTag | src/expressions/select-exp.ts:236-250 | `a/b` runs as the single identifier `a/b` |
| SelectExp.TransformFails | src/expressions/select-exp.ts:89-125 | `transform` fails exactly when the AST holds a node type other than logical, unary, identifier, binary, numeric or string literal, and the error names that node |
| SelectExp.TransformToNode | src/expressions/select-exp.ts:89-114 | `transform` keeps the shape of the AST: every tree comes back from the AST written for it |
| SelectExp.NumberIsTag | src/expressions/select-exp.ts:116-117 | a numeric literal becomes the identifier of its decimal text, which reads back as the number |
| SelectExp.Build | src/expressions/select-exp.ts:37-79 | `buildParser` fails exactly on a syntax error or when no tree can be built (no expression statement and no directive, or an unsupported node), and every failure is rethrown as `表达式解析失败: …`; otherwise the tree is that of the first expression statement, else a directive as one identifier |
| SelectExp.LaterTestAgrees | src/expressions/select-exp.ts:29-35 | a later `test` gives the first `test`'s result when the tree built or the text did not parse; after a parse whose tree failed to build, the first `test` throws and every later one returns false |
| SelectExp.StringSelectExp.constructor | src/expressions/select-exp.ts:24-27 | a new selector holds its text and has no parse result and no tree |
| SelectExp.StringSelectExp.BuildParser | src/expressions/select-exp.ts:37-79 | the parse result is set whenever the text parses, the tree only when it builds, and the thrown error is that of the build |
| SelectExp.StringSelectExp.Test | src/expressions/select-exp.ts:29-35 | the parser is built only when no parse result is kept; the result is the first-test result then, and the later-test result otherwise |
| SelectExp.TestTwice | src/expressions/select-exp.ts:29-35 | on one selector the second `test` does not re-parse: it runs the built tree, returns false after a failed build, and repeats a syntax error |
| TagSelectExp.TransformsAgree | src/expressions/tag-select-exp.ts:62-94 | the older `transform` equals the newer one on an AST without string literals and fails on any AST with one |
| TagSelectExp.Build | src/expressions/tag-select-exp.ts:35-59 | `buildParser` of the older selector fails exactly on a syntax error, a program without an expression statement, or an untransformable one, and every failure is rethrown as `表达式解析失败: …` |
| TagSelectExp.BuildsAgree | src/expressions/tag-select-exp.ts:40-47 | the two selectors build the same tree from a first expression statement without string literals; a lone quoted tag (only a directive) makes the older one throw where the newer one builds |
| TagSelectExp.LaterTestAgrees | src/expressions/tag-select-exp.ts:27-33 | a failed build after a successful parse makes the first `test` throw and every later `test` return false; otherwise later tests equal the first |
| TagSelectExp.TagSelectExp.constructor | src/expressions/tag-select-exp.ts:22-25 | a new selector holds its text and has no parse result and no tree |
| TagSelectExp.TagSelectExp.BuildParser | src/expressions/tag-select-exp.ts:35-59 | the parse result is set whenever the text parses, the tree only when it builds, and the thrown error is that of the build |
| TagSelectExp.TagSelectExp.Test | src/expressions/tag-select-exp.ts:27-33 | the parser is built at most once: first-test result without a kept parse, later-test result with one |
| SelectExpCases.Tag | src/expressions/select-exp.ts:207-210 | on a `;`-join of separator-free tags, a plain pattern holds exactly when it is one of the tags |
| SelectExpCases.RunPlain | src/expressions/select-exp.ts:155-210 | a tree of plain patterns and supported operators evaluates to its boolean meaning over the list of tags |
| SelectExpCases.Case | src/expressions/select-exp.ts:29-63 | a selector whose text parses to a plain expression statement (possibly followed by more) gives that meaning on its first and on later tests |
| SelectExpCases.QuotedTag | src/expressions/select-exp.ts:64-72 | a lone quoted tag parses to a directive and selects exactly the strings holding that tag |
| SelectExpCases.BookTag | src/expressions/__tests__/tag-select.test.ts:6-7 | `书籍` accepts `南明史;书籍;其他;读书笔记` |
| SelectExpCases.MissingTag | src/expressions/__tests__/tag-select.test.ts:9-10 | `书籍1` rejects the sample |
| SelectExpCases.FirstStatement | src/expressions/__tests__/tag-select.test.ts:12-13 | of `书籍1;书籍2` only the first statement is the selector, so the sample is rejected |
| SelectExpCases.NotBook | src/expressions/__tests__/tag-select.test.ts:15-17 | `!书籍` rejects the sample and accepts `南明史;其他` |
| SelectExpCases.Condition1 | src/expressions/__tests__/tag-select.test.ts:21-23 | `书籍 && 其他` accepts the sample and rejects it without `其他` |
| SelectExpCases.Condition2 | src/expressions/__tests__/tag-select.test.ts:25-27 | `书籍 \|\| 其他` accepts both strings |
| SelectExpCases.Condition3 | src/expressions/__tests__/tag-select.test.ts:29-31 | `!其他` rejects the sample and accepts it without `其他` |
| SelectExpCases.Condition4 | src/expressions/__tests__/tag-select.test.ts:34-36 | `书籍 && !(其他/a)` rejects `…;其他/a;…` and accepts a string without it |
| SelectExpCases.Condition5 | src/expressions/__tests__/tag-select.test.ts:38-40 | `书籍 \|\| !其他` accepts both strings |
| SelectExpCases.Condition6 | src/expressions/__tests__/tag-select.test.ts:42-45 | `书籍 && (其他 \|\| 读书笔记)` rejects `南明史;书籍` and accepts the two others |
| SelectExpCases.Condition7 | src/expressions/__tests__/tag-select.test.ts:47-53 | `书籍 && (其他 \|\| (读书笔记 && 南明史))` gives true, false, false, true on the four strings |
| ParentChildrenTag.ChainShape | src/apis/filter/parse-parent-children-tag.ts:17-21 | the pushed tags number one more than the `/`s of the tag; the first is the tag, each next one is the previous cut at its last `/`, and the last has no `/` |
| ParentChildrenTag.ChainMembers | src/apis/filter/parse-parent-children-tag.ts:17-21 | the pushed tags are exactly the tag and its prefixes ending before one of its `/`s |
| ParentChildrenTag.CountCut | src/apis/filter/parse-parent-children-tag.ts:19 | cutting a tag at its last `/` removes exactly one `/` |
| ParentChildrenTag.ParseTag | src/apis/filter/parse-parent-children-tag.ts:7-22 | a blank tag leaves the list unchanged; otherwise the list gains, after its existing entries, the trimmed tag followed by each of its ancestors |
| ParentChildrenTag.ChainStep | src/apis/filter/parse-parent-children-tag.ts:18-20 | one loop step: after the first entry, the entries of a tag with a `/` are those of its parent |
| ParentChildrenTag.EntryShape | src/apis/filter/parse-parent-children-tag.ts:56-72 | an entry's full tag is its parent, `/` and a `/`-free last segment; a tag without `/` is a root entry with no parent that is its own tag |
| ParentChildrenTag.WithParents | src/apis/filter/parse-parent-children-tag.ts:55-72 | there is one entry per tag of the chain |
| ParentChildrenTag.WithParentsUnfold | src/apis/filter/parse-parent-children-tag.ts:55-66 | a tag with a `/` pushes its own entry and continues with its parent |
| ParentChildrenTag.WithParentsRoot | src/apis/filter/parse-parent-children-tag.ts:68-72 | a tag without `/` gives the single root entry |
| ParentChildrenTag.WithParentsFullTags | src/apis/filter/parse-parent-children-tag.ts:59-63 | the `i`-th entry's full tag is the `i`-th tag `parseTag` pushes |
| ParentChildrenTag.WithParentsLinks | src/apis/filter/parse-parent-children-tag.ts:56-72 | every non-last entry has `fullTag == parent + "/" + tag` with `tag` free of `/` and the next entry's full tag equal to its parent; the last has no parent and `tag == fullTag` |
| ParentChildrenTag.ParseTagWithParentInfo | src/apis/filter/parse-parent-children-tag.ts:42-75 | `[]` for a blank tag; otherwise the entries of the trimmed tag, one more than its `/`s |
| ParentChildrenTag.HelloIAm | src/apis/filter/parse-parent-children-tag.ts:1-6 | `hello/i/am` expands to `hello/i/am`, `hello/i`, `hello` |
| ParentChildrenTag.ExpansionMembers | src/apis/filter/parse-parent-children-tag.ts:7-22 | what `parseTag` collects for one tag is exactly its trimmed form and the ancestors of that |
| ParentChildrenTag.ExpandedTagsMembers | src/apis/filter/parse-parent-children-tag.ts:7-22 | collecting a list of tags gives exactly the non-blank trimmed tags and all of their ancestors |
| ParentChildrenTag.ExpandedStep | src/apis/filter/parse-parent-children-tag.ts:17-21 | collecting one more tag appends its expansion |
| ParentChildrenTag.CollectTags | src/apis/filter/filter-file-by-tags.ts:31-36 | `forEach(tag => parseTag(tag, filetags))` on an empty list collects the expansions of the tags one after the other |
| FileFilter.Stripped | src/apis/filter/filter-file-by-tags.ts:26 | every file tag loses its first character, in order |
| FileFilter.FilterFileByTags | src/apis/filter/filter-file-by-tags.ts:12-46 | the method, with its selector object and `forEach` loop, returns `FileMatches`: true without a selector, false without a cache entry or tags, otherwise the selector's `test` on the `;`-join of the expanded tags |
| FileFilter.UntaggedFiles | src/apis/filter/filter-file-by-tags.ts:17-28 | no selector passes every file; with a selector a file with no cache entry or no tags fails without the selector being parsed, so only a tagged file can make a malformed selector throw |
| FileFilter.TagSelectsFile | src/apis/filter/filter-file-by-tags.ts:26-41 | a one-tag plain selector `a` accepts exactly the files having a tag that is `a` or has `a` as an ancestor (`#hello/i` passes `hello`) |
| EventFilter.ExpandTags | src/apis/filter/filter-timeline-event.ts:106-112 | the tag loop collects the expansions of the parsed event tags one after the other |
| EventFilter.EventTagString | src/apis/filter/filter-timeline-event.ts:104-125 | the string a filter callback tests is the expanded event tags followed, for an event whose start (`date \|\| dateStart`) parses, by `year_<y>`, `;month_<m>`, `;day_<d>`, `;hour_<h>`, all joined with `;` |
| EventFilter.DateJoin | src/apis/filter/filter-timeline-event.ts:119-125 | the date tags' leading `;` joins like an empty tag before each of month, day and hour |
| EventFilter.JoinLeadingSeparator | src/apis/filter/filter-timeline-event.ts:120-125 | a tag that starts with `;` joins like an empty tag followed by the rest |
| EventFilter.TagStringSplit | src/apis/filter/filter-timeline-event.ts:104-125 | when no tag contains `;`, the selector sees exactly the expanded event tags followed, for a dated event, by `year_<y>`, an empty tag, `month_<m>`, an empty tag, `day_<d>`, an empty tag and `hour_<h>`; an event with no tags and no date presents the single empty tag to the selector |
| EventFilter.SplitUndated | src/apis/filter/filter-timeline-event.ts:125 | a join of `;`-free tags splits back into them |
| EventFilter.SplitDated | src/apis/filter/filter-timeline-event.ts:119-125 | the join of `;`-free tags and date tags splits into the tags followed by the date pieces |
| EventFilter.DateTagSelectable | src/apis/filter/filter-timeline-event.ts:115-125 | a dated event answers the selectors `year_<y>`, `month_<m>`, `day_<d>` and `hour_<h>` of the elements of its start, the year unpadded |
| EventFilter.PiecesSelectable | src/apis/filter/filter-timeline-event.ts:119-125 | a tag string carrying the date pieces answers the four date selectors |
| EventFilter.AncestorSelectable | src/apis/filter/filter-timeline-event.ts:107-112 | an event answers the selector of any ancestor of one of its tags |
| EventFilter.FilterByEventTag | src/apis/filter/filter-timeline-event.ts:93-127 | the method equals `ByEventTag`: without a selector the events are returned; otherwise one selector is applied to each event's tag string in order, the first test building it |
| EventFilter.SelectorStep | src/apis/filter/filter-timeline-event.ts:103-126 | testing one more event either throws the filter's error or extends the kept prefix by that event when it passes |
| EventFilter.UndatedEventKept | src/apis/filter/filter-timeline-event.ts:143-153 | an event with no date fields meets every query range, so the time stage keeps it |
| EventFilter.StartOnlyIsInstant | src/apis/filter/filter-timeline-event.ts:143-153 | an event with a start and no end is `[start, start]`: a query with both ends keeps it exactly when the start equals the query start or lies in `(qs, qe]`, which for `qs <= qe` is `qs <= start <= qe` |
| EventFilter.InstantMeetsClosed | src/type/time.ts:206-215 | the closed-range test of an instant against `[qs, qe]` holds exactly when the instant is `qs` or lies in `(qs, qe]` |
| EventFilter.FilterStrProperty | src/apis/filter/filter-str-property.ts:9-18 | false for a missing or empty value; otherwise the result of a fresh selector's `test` on the value |
| EventFilter.ByNameKeeps | src/apis/filter/filter-str-property.ts:23-35 | with a pattern, the name stage keeps exactly the events whose name passes, in order, and never an event without a name |
| EventFilter.FilterTimelineEvents | src/apis/filter/filter-timeline-event.ts:64-88 | the method equals `Pipeline`: no params return the events; the tag, time and name stages run only when their param is non-empty, each on what the previous one kept |
| EventFilter.PipelineKeeps | src/apis/filter/filter-timeline-event.ts:64-88 | when nothing throws the result is a subsequence of the input: exactly the events that pass every active stage, in their original order, and all of them without params |
| EventFilter.StageTag | src/apis/filter/filter-timeline-event.ts:74-76 | the tag stage is a filter by "the selector holds on the event's tag string" |
| EventFilter.StageTime | src/apis/filter/filter-timeline-event.ts:78-80 | the time stage is a filter by "the event's range meets the query range" |
| EventFilter.StageName | src/apis/filter/filter-timeline-event.ts:83-85 | the name stage is a filter by "the name passes the selector" |
| LegacyFilter.LegacyEventTagString | src/filter/filter-timeline-event.ts:72-85 | the older callback tests the raw `eventTags` string, or `none` without one, followed for a dated event by `;year_<y>;month_<m>;day_<d>;hour_<h>` |
| LegacyFilter.SplitOneMore | src/filter/filter-timeline-event.ts:79-82 | appending `;` and a `;`-free field adds exactly one tag |
| LegacyFilter.SplitDateTags | src/filter/filter-timeline-event.ts:79-82 | the four appended date tags are four more tags after the event's own |
| LegacyFilter.DateTagsShape | src/filter/filter-timeline-event.ts:79-82 | the appended text is `;year_<y>;month_<m>;day_<d>;hour_<h>` |
| LegacyFilter.SplitFour | src/filter/filter-timeline-event.ts:79-82 | four `;`-free fields appended after `;`s split into four more tags |
| LegacyFilter.LegacyTagStringSplit | src/filter/filter-timeline-event.ts:73-85 | the selector sees the pieces of the raw tag string (or `none`) and, for a dated event, `year_<y>`, `month_<m>`, `day_<d>`, `hour_<h>`, with no parent expansion and no empty pieces between the date tags |
| LegacyFilter.NoneSelectsUntagged | src/filter/filter-timeline-event.ts:73 | the selector `none` accepts every event without event tags |
| LegacyFilter.NoneFirst | src/filter/filter-timeline-event.ts:73 | a string whose first piece is `none` answers the selector `none` |
| LegacyFilter.NoneIsOneTag | src/filter/filter-timeline-event.ts:73 | `none` is one plain tag |
| LegacyFilter.FilterByEventTag | src/filter/filter-timeline-event.ts:54-99 | the method equals `LegacyByEventTag`: a selector with no non-empty `;`-piece returns the events; otherwise one `TagSelectExp` is applied to each event's tag string in order |
| LegacyFilter.SplitSeparators | src/filter/filter-timeline-event.ts:63 | a string of `;`s only splits into empty pieces |
| LegacyFilter.SeparatorsOnlySelectAll | src/filter/filter-timeline-event.ts:63-66 | a selector such as `;;` leaves the events unchanged in the older event filter and passes every file in the older file filter |
| LegacyFilter.LegacySelectorStep | src/filter/filter-timeline-event.ts:72-98 | testing one more event throws the filter's error or extends the kept prefix by that event when it passes |
| LegacyFilter.StartOnlyIsOpenEnded | src/filter/filter-timeline-event.ts:111-118 | the older time stage uses `dateEnd` only, so an event with a start and no end is `[start, +inf)` and a query with both ends keeps it exactly when it starts by the query's end |
| LegacyFilter.OpenEndedMeetsClosed | src/type/time.ts:185-201 | `[s, +inf)` meets `[qs, qe]` exactly when `s <= qe` |
| LegacyFilter.FilterTimelineEvents | src/filter/filter-timeline-event.ts:30-49 | the method equals `LegacyPipeline`: no params return the events, then the tag stage and the time stage run when their params are non-empty |
| LegacyFilter.LegacyPipelineSubsequence | src/filter/filter-timeline-event.ts:30-49 | when nothing throws the result is a subsequence of the input, and params with no active stage return it unchanged |
| LegacyFilter.LegacyPipelineKeeps | src/filter/filter-timeline-event.ts:30-49 | when nothing throws, the older pipeline keeps exactly the events that pass its active stages, in order: the selector on `eventTags \|\| 'none'` and the date tags when the selector has a non-empty piece, and the overlap of `[start, dateEnd]` with the query when either query date is set |
| LegacyFilter.FilterFileByTags | src/filter/filter-file-by-tags.ts:28-60 | the method, with its local `parseTag` loop, equals `LegacyFileMatches` |
| LegacyFilter.FileTagsMembers | src/filter/filter-file-by-tags.ts:5-20 | the collected file tags are exactly the file's tags without `#`, trimmed, and their ancestors, blank tags skipped |
| LegacyFilter.LegacyFileNeedsTimeline | src/filter/filter-file-by-tags.ts:37-59 | with at least one listed tag, a file passes exactly when it has a cache entry with tags, `timeline` is among its expanded tags, and so is every listed tag, compared by string equality without glob matching |
| SearchTimeline.PushFiltered | src/apis/search-timeline.ts:89-99 | the loop pushes, timeline after timeline, what the event filter keeps of each; the first throwing filter aborts |
| SearchTimeline.ConcatPrefixErr | src/apis/search-timeline.ts:89-99 | once the filter of some timeline throws, the whole loop throws that error |
| SearchTimeline.ConcatFilteredMembers | src/apis/search-timeline.ts:89-99 | when nothing throws, the concatenation holds exactly the events of the timelines that pass every active stage |
| SearchTimeline.Dedup | src/apis/search-timeline.ts:69-72 | the timelines are read per distinct file, each file once |
| SearchTimeline.SearchTimelineEvents | src/apis/search-timeline.ts:48-102 | the method equals `Search`: filter the vault files by the file selector, return `[]` for a query whose dates both parse with start after end, else concatenate the per-file event filter outputs with only `eventTags`, `dateStart`, `dateEnd` and `name` forwarded; the file filter is given the `App`'s metadata cache, the corrected call of the Findings table |
| SearchTimeline.SearchMembers | src/apis/search-timeline.ts:56-101 | a search that does not throw returns `[]` for an inverted range and when no file passes; otherwise exactly the events read from a vault file that passes `filterFileByTags` with `params.tags` and that pass every active event stage; the file filter is given the `App`'s metadata cache, the corrected call of the Findings table |
| SearchTimeline.FileEvents | src/apis/search-timeline.ts:56-72 | an event is in a timeline read from the kept files exactly when it is read from a vault file that passes the file filter |
| SearchTimeline.AppAsCache | src/apis/search-timeline.ts:56-72 | as written, handing `opt.app` to `filterFileByTags` makes a search with a selector throw a `TypeError` on the first file, and a caller that passes no `app` makes every search throw; the written search equals the corrected one exactly when no file meets a selector |
| EventTagsManage.Set | src/event-tags-manage/index.ts:154 | `map.set` keeps the table well formed: every key listed once, a new key last |
| EventTagsManage.SetAll | src/event-tags-manage/index.ts:153-155 | setting a batch of pairs keeps the table well formed |
| EventTagsManage.Delete | src/event-tags-manage/index.ts:165 | `map.delete` keeps the table well formed |
| EventTagsManage.SetAllKeys | src/event-tags-manage/index.ts:153-155 | a batch of sets keeps the old keys in their order, adds exactly the keys it sets, and leaves every key it does not set with its old entry |
| EventTagsManage.SetAllLast | src/event-tags-manage/index.ts:153-155 | each key a batch sets holds the value of the last pair that sets it |
| EventTagsManage.DeleteEffect | src/event-tags-manage/index.ts:164-167 | deleting a file removes exactly that key; every other key keeps its entry and the keys keep their order |
| EventTagsManage.TableSearchMembers | src/event-tags-manage/index.ts:85-127 | a table search that does not throw returns `[]` for an inverted query range, and otherwise exactly the events of the entries whose file passes the file selector that pass every active event stage; the file filter is given the `App`'s metadata cache, the corrected call of the Findings table |
| EventTagsManage.MatchingEvents | src/event-tags-manage/index.ts:87-91 | an event is in one of the kept entries exactly when it is in an entry of the table that passes the file test |
| EventTagsManage.TableAppAsCache | src/event-tags-manage/index.ts:86-91 | as written, handing `this.app` to `filterFileByTags` makes a table search with a selector throw a `TypeError` on the first entry; without a selector or entries it equals the corrected search |
| EventTagsManage.EventTagsManage.constructor | src/event-tags-manage/index.ts:16-25 | a new manager has no app and an empty `tagsMap` |
| EventTagsManage.EventTagsManage.Init | src/event-tags-manage/index.ts:40-44 | `init` stores the app and leaves the table to the refresh |
| EventTagsManage.EventTagsManage.Refresh | src/event-tags-manage/index.ts:49-72 | before `init` nothing changes; afterwards `tagsMap` becomes the freshly read table |
| EventTagsManage.EventTagsManage.SearchTimelineEvents | src/event-tags-manage/index.ts:77-128 | no result before `init`; otherwise the search of the table: files filtered by their tags in map order, `[]` for an inverted range, then the concatenated per-file event filter outputs; the file filter is given the `App`'s metadata cache, the corrected call of the Findings table |
| EventTagsManage.EventTagsManage.UpdateFileEventTags | src/event-tags-manage/index.ts:140-159 | before `init` nothing changes and nothing is returned; otherwise every pair of the parsed result is set, overwriting only those keys, and the map is returned |
| EventTagsManage.EventTagsManage.DeleteFileEventTags | src/event-tags-manage/index.ts:164-167 | the table loses exactly that file's key, with or without `init` |
| EventTagsManage.Registry.constructor | src/event-tags-manage/index.ts:18 | no instance exists yet |
| EventTagsManage.Registry.GetInstance | src/event-tags-manage/index.ts:29-35 | the first call creates a fresh empty manager; later calls return the same one |
| EventTagsManage.Registry.GetInstanceTwice | src/event-tags-manage/index.ts:29-35 | two calls of `getInstance` return the same instance |
| MarkdownCode.ParseMarkdownCode | src/utils.ts:22-75 | the object built by the `map` callback over `source.split('\n')` is the collection of the lines' contributions, in order |
| MarkdownCode.ArgsStep | src/utils.ts:34-44 | one line more stores its contribution, if any, over the object so far |
| MarkdownCode.LineMeaning | src/utils.ts:35-42 | a line counts exactly when, once trimmed, it has an `=` followed by a non-empty run up to the next `=` or the end; its key is the trimmed line before the first `=`, not trimmed again, and its value that run, trimmed; blank lines and lines without `=` contribute nothing |
| MarkdownCode.SplitOnEquals | src/utils.ts:37 | `split('=')` of a line with an `=` gives the text before the first `=` and the run up to the second one as its first two pieces, and a single piece without `=` |
| MarkdownCode.CollectKeys | src/utils.ts:41 | the object's keys are exactly the keys some contribution sets |
| MarkdownCode.CollectLast | src/utils.ts:41 | a key holds the value of the last contribution that sets it |
| MarkdownCode.ArgsKeys | src/utils.ts:34-44 | the object's keys are exactly the keys some line sets |
| MarkdownCode.ArgsLast | src/utils.ts:41 | a key holds the value of the last line that sets it: later lines overwrite earlier ones |
| MarkdownCode.SpacedKey | src/utils.ts:37-41 | `tags =x` stores the key `tags ` with its space |
| MarkdownCode.TrailingSpaces | src/utils.ts:35-38 | `k=   ` is trimmed to `k=` before the split, so nothing is stored |
| MarkdownCode.SpacesBeforeSecondEquals | src/utils.ts:37-41 | `k=  =x` stores `k` with the empty value |
| MarkdownCode.SecondEqualsDropsRest | src/utils.ts:37-41 | in `a=b=c` the text after the second `=` is dropped |
| MarkdownBlockTagSuggestion.TokenStart | src/suggestion/markdown-block-tag-suggestion.ts:46-49 | the start walks left from the cursor over characters that are not in the blacklist, never below 1 when the cursor is at 1 or more, and stops after a blacklisted character unless it reaches 1 |
| MarkdownBlockTagSuggestion.TokenEnd | src/suggestion/markdown-block-tag-suggestion.ts:51-54 | the end walks right from the cursor over characters that are not in the blacklist up to a blacklisted one or the end of the line, never past the line when the cursor is within it |
| MarkdownBlockTagSuggestion.OnTrigger | src/suggestion/markdown-block-tag-suggestion.ts:33-70 | null exactly when the line does not start with `tags` or `eventTags`, spaces and `=`; otherwise `start <= cursor.ch <= end` on the cursor's line, `start >= 1` when `cursor.ch >= 1`, `end <= line.length` when the cursor is within the line, both ends maximal, and the query is `line.substring(start, end)` with no blacklisted character |
| MarkdownBlockTagSuggestion.QueryIsToken | src/suggestion/markdown-block-tag-suggestion.ts:44-65 | the query is the slice between start and end and holds none of `& \| ! ( )`, space and `=` |
| MarkdownBlockTagSuggestion.AddMatchingTags | src/suggestion/markdown-block-tag-suggestion.ts:86-100 | one tag loop adds, in order and once each, the tags that match |
| MarkdownBlockTagSuggestion.GetSuggestions | src/suggestion/markdown-block-tag-suggestion.ts:72-107 | the method, with its nested loops, equals `Suggestions`: nothing for an empty query, else the matching event and file tags of the table's files in order |
| MarkdownBlockTagSuggestion.AddMatchingAppend | src/suggestion/markdown-block-tag-suggestion.ts:79-101 | adding two runs of tags to the set is adding their concatenation |
| MarkdownBlockTagSuggestion.AddMatchingMembers | src/suggestion/markdown-block-tag-suggestion.ts:86-90 | the set gains exactly the kept tags, each once |
| MarkdownBlockTagSuggestion.AddFilesMembers | src/suggestion/markdown-block-tag-suggestion.ts:82-101 | after the file loop the set holds, each once, its old tags and the matching tags some file offers |
| MarkdownBlockTagSuggestion.SuggestionsMembers | src/suggestion/markdown-block-tag-suggestion.ts:72-107 | an empty query suggests nothing; otherwise the suggestions are, without repetition, exactly the event tags and file tags of the table's files that match the query |
| MarkdownBlockTagSuggestion.StripHash | src/suggestion/markdown-block-tag-suggestion.ts:115-117 | a tag starting with `#` loses exactly that one `#`; any other tag is unchanged |
| MarkdownBlockTagSuggestion.SelectSuggestion | src/suggestion/markdown-block-tag-suggestion.ts:113-124 | the edit replaces the range being typed with the tag; a tag starting with `#` loses exactly that `#`, any other tag is inserted unchanged |
| TagSuggestion.SpanStartStep | src/suggestion/tag-suggestion.ts:71-75 | the offset of the next piece is the offset of this one plus its length plus one for the `;` |
| TagSuggestion.Locate | src/suggestion/tag-suggestion.ts:60-77 | the loop's choice is the first piece whose span `[sumOffset, sumOffset + len]`, ends included, holds the cursor offset, or none when no piece does |
| TagSuggestion.LocateFirst | src/suggestion/tag-suggestion.ts:60-77 | the first spanning piece from a position on is the one located |
| TagSuggestion.OnTrigger | src/suggestion/tag-suggestion.ts:32-95 | null without a `data-event-tags` match; otherwise the loop, with `sumOffset` equal before piece `i` to the lengths of the earlier pieces plus one each, returns what `TriggerFor` describes |
| TagSuggestion.TriggerShape | src/suggestion/tag-suggestion.ts:79-93 | on success the query is the first piece that spans the cursor offset and is not empty, `start.ch` is the match index plus the prefix length plus 1 plus the piece's offset, `end.ch - start.ch` is the query's length, and the cursor lies in the range |
| TagSuggestion.NoTrigger | src/suggestion/tag-suggestion.ts:79-81 | when no piece spans the cursor offset there is no trigger |
| TagSuggestion.PieceAt | src/suggestion/tag-suggestion.ts:52-62 | piece `i` of a split sits at offset `SpanStart(i)` of the joined text |
| TagSuggestion.PieceOfCapture | src/suggestion/tag-suggestion.ts:50-52 | piece `i` of the captured text sits at its computed offset in the capture |
| TagSuggestion.SliceOfSlice | src/suggestion/tag-suggestion.ts:86-90 | a slice of a text embedded in the line is the same slice of the line, shifted |
| TagSuggestion.QueryIsLineText | src/suggestion/tag-suggestion.ts:83-93 | when the capture lies in the line just after the opening quote, the line's text between `start.ch` and `end.ch` is the query |
| TagSuggestion.SelectSuggestion | src/suggestion/tag-suggestion.ts:138-149 | the edit replaces the range with the tag, one leading `#` removed, followed by `;` |
| TimelineSuggestion.FindOpening | src/suggestion/timeline-suggestion.ts:43 | the leftmost index from which `<span class=['"]ob-timelines['"]` matches, or none when it matches nowhere |
| TimelineSuggestion.LazyDot | src/suggestion/timeline-suggestion.ts:103 | a lazy `(.*?)` takes the shortest run of non-terminator characters after which the rest of the pattern matches |
| TimelineSuggestion.GreedyDot | src/suggestion/timeline-suggestion.ts:43 | a greedy `(.*)` at the end of a pattern takes every character up to the first line terminator |
| TimelineSuggestion.KeyOfPrefix | src/suggestion/timeline-suggestion.ts:61-64 | `item.split('=')[0]` is the text before the first `=`, or the whole item |
| TimelineSuggestion.TypedKeysMembers | src/suggestion/timeline-suggestion.ts:58-65 | the typed keys are exactly the non-empty keys of the non-empty space-separated items |
| TimelineSuggestion.RemainProperties | src/suggestion/timeline-suggestion.ts:49-70 | deleting the typed keys one by one from the set of `Keys` leaves `Keys` without them, in order |
| TimelineSuggestion.DeleteNone | src/suggestion/timeline-suggestion.ts:49 | before any deletion the set holds all of `Keys` |
| TimelineSuggestion.DeleteOne | src/suggestion/timeline-suggestion.ts:68-70 | one more deletion removes exactly the next typed key |
| TimelineSuggestion.RemainingKeys | src/suggestion/timeline-suggestion.ts:49-70 | what remains keeps `Keys` order and is exactly the keys not typed |
| TimelineSuggestion.GetSuggestions | src/suggestion/timeline-suggestion.ts:98-128 | the loop's result is the suggestion list built from the attributes before the first `>` |
| TimelineSuggestion.SuggestedKeysMembers | src/suggestion/timeline-suggestion.ts:98-128 | the suggestions keep `Keys` order and are exactly the keys that are not typed and that the query's regex matches |
| TimelineSuggestion.RunLength | src/suggestion/timeline-suggestion.ts:81 | the length of the longest run of word characters and hyphens at the end of the text |
| TimelineSuggestion.QueryCapture | src/suggestion/timeline-suggestion.ts:81 | a captured query ends the text, matches `(?:\w+-?)+`, and follows a whitespace character after a quote |
| TimelineSuggestion.RunLengthOf | src/suggestion/timeline-suggestion.ts:81 | a run appended after a non-word character is the whole trailing run |
| TimelineSuggestion.QueryCaptureComplete | src/suggestion/timeline-suggestion.ts:81 | every text ending in a quote, a whitespace character and a matching word yields that word |
| TimelineSuggestion.LazyCaptureEmpty | src/suggestion/timeline-suggestion.ts:43-50 | the lazy group at the end of the trigger pattern always captures the empty string |
| TimelineSuggestion.ClosedTagIgnored | src/suggestion/timeline-suggestion.ts:52-55 | as written a `>` after the opening never stops the trigger; with the rest of the line captured it does |
| TimelineSuggestion.OpeningFirst | src/suggestion/timeline-suggestion.ts:43 | a line that starts with the opening matches at 0 and the greedy group is the rest of the line |
| TimelineSuggestion.FourWordChars | src/suggestion/timeline-suggestion.ts:81 | four word characters match `(?:\w+-?)+` |
| TimelineSuggestion.ClosedTagExample | src/suggestion/timeline-suggestion.ts:36-96 | on a line whose tag is already closed, the written trigger still offers completions for the last word; the corrected one does not |
| TimelineSuggestion.TriggerMeaning | src/suggestion/timeline-suggestion.ts:36-96 | no opening, no trigger; a trigger's query is the word the cursor ends, spanning from the query's length before the cursor up to the cursor; the line holds it there |
| TimelineSuggestion.SelectSuggestion | src/suggestion/timeline-suggestion.ts:134-146 | the edit replaces the trigger's range, and the cursor is set the key's length plus 2 columns after the start on the end's line |
| TimelineSuggestion.CursorBetweenQuotes | src/suggestion/timeline-suggestion.ts:134-146 | the edit inserts `key=''` and the cursor lands between the two quotes |
| JsString.TrimShape | src/utils.ts:35 | `trim` removes exactly a whitespace prefix and a whitespace suffix, and what is left neither starts nor ends with whitespace |
| JsString.TrimNoop | src/utils.ts:35 | a string with no whitespace at either end is its own trim |
| JsString.SplitPieces | src/filter/filter-timeline-event.ts:63 | no piece of `split(sep)` holds the separator, and there is one piece more than separators |
| JsString.JoinSplit | src/filter/filter-timeline-event.ts:63 | joining the pieces of a split with the separator gives back the string |
| JsString.SplitJoin | src/expressions/select-exp.ts:208 | splitting a join of separator-free parts gives back the parts |
| JsString.SplitFirst | src/utils.ts:41 | the first piece of a split is the text before the first separator, or the whole string |
| JsString.IndexOf | src/utils.ts:41 | `indexOf` is -1 exactly when the character is absent, and otherwise the position of its first occurrence |
| JsString.LastIndexOf | src/apis/filter/parse-parent-children-tag.ts:19 | `lastIndexOf` is -1 exactly when the character is absent, and otherwise the position of its last occurrence |
| JsString.ReplaceFirst | src/type/time.ts:46 | `replace('-', '')` drops the first `-` only, and changes nothing without one |
| JsString.PadStartShape | src/type/time.ts:46 | `padStart` puts copies of the fill character in front of the string, up to the width |
| JsNumber.ParseDecimal | src/type/time.ts:53 | `parseInt` of a decimal numeral is its value |
| JsNumber.ParseMinus | src/type/time.ts:53 | `parseInt` of a minus sign and a decimal numeral is the negated value |
| Seqs.FilterMembers | src/filter/filter-timeline-event.ts:63 | `filter` keeps exactly the elements the predicate accepts |
| Seqs.FilterIsSubsequence | src/apis/filter/filter-timeline-event.ts:103 | `filter` keeps its input's order and adds nothing |
| Seqs.TryFilterOk | src/apis/filter/filter-timeline-event.ts:103 | a filter whose callback may throw returns normally exactly when no callback throws, and then returns the plain filter |
| Seqs.TryFilterErr | src/apis/filter/filter-timeline-event.ts:103 | a thrown error is the error of the first element whose callback throws |

Where the code and its own comments disagree, the model follows the code:

- The comment at `src/type/time.ts:18` gives `1940/9/9` as `19400909`. The
  code at `src/type/time.ts:51` also appends the hour digits, so the value is
  `1940090900` (`Time.DateValue`).
- In `parseTimelineDate`, the `isNil` and `typeof` checks after the parse
  never fire. The result is `undefined` exactly when the trimmed input is
  empty, and otherwise a number, possibly `NaN`.
- `parseMarkdownCode` trims each line before splitting it at `=`. So `k=   `
  stores nothing (`MarkdownCode.TrailingSpaces`), while `k=  =x` stores an
  empty value (`MarkdownCode.SpacesBeforeSecondEquals`).
- The guards `!fileList` (`src/apis/search-timeline.ts:62`) and
  `!timelineEventsInFiles` (`src/event-tags-manage/index.ts:93`) never fire;
  with no matching file the result is empty.
- The closed-range overlap test of `hasTimeRangeIntersection` compares
  endpoints without checking that a range is in order. An instant at the start
  of an inverted query range still overlaps it (`EventFilter.InstantMeetsClosed`).

## Left out

- Obsidian's editor, vault, metadata cache and workspace are left out. Lines,
  cursors, file contents and cached tags are inputs. Rendering (`src/draw*`,
  `src/block.ts`), the UI panels (`src/ui/**`), `src/main.ts` and link
  insertion are left out, because they are DOM and plugin glue.
- `@babel/parser` and `minimatch` are left out. They are foreign libraries,
  so the parse outcome and the glob predicate are parameters.
- `RegExp` is left out as an engine. The `new RegExp(context.query)` filters
  in the three `getSuggestions` are a parameter. So is the `data-event-tags`
  match of `tag-suggestion.ts` (its index and capture, `TagSuggestion.RegexMatch`).
  The `tags=`/`eventTags=` prefix test of `markdown-block-tag-suggestion.ts`
  (`IsTagsLine`) and the two patterns of `timeline-suggestion.ts` are modelled
  by hand, for the constructs they use.
- MarkdownBlockTagSuggestion.GetSuggestions: the query's regex test is a
  `bool`-valued parameter, so the `SyntaxError` that `new RegExp(context.query)`
  throws for a query that is not a valid pattern (`c++`, `a[`, `*x`, `?`, all
  free of the blacklisted characters) is not modelled. The queries of
  `timeline-suggestion.ts` are runs of word characters and hyphens, which are
  always valid patterns.
- MarkdownBlockTagSuggestion.SuggestionsMembers: states its membership facts
  under the same `bool`-valued regex test, so an invalid query's
  `SyntaxError` is outside it.
- `JsNumber.ParseInt` does not model the float rounding of `parseInt` above
  2^53 or `parseFloat`-style input. It computes the exact integer of the digit
  prefix, and otherwise `NaN`.
- JsNumber.NumberToString: `String(n)` and `n + ''` are modelled on integers
  only, in plain decimal; the exponent form JavaScript uses from 1e21 on, and
  the rounding of integers above 2^53, are not modelled.
- BabelAst.NumericLiteralNode: a numeric literal carries an integer, so a
  selector such as `1.5`, which the source turns into the identifier `1.5`,
  is not modelled.
- EditorTypes.Position: columns count Unicode scalar values, while JavaScript's
  `length`, `charAt` and `ch` count UTF-16 code units. On a line with a
  character outside the Basic Multilingual Plane (an emoji tag, say), the
  columns of `MarkdownBlockTagSuggestion.TokenStart`,
  `MarkdownBlockTagSuggestion.TokenEnd`, `TagSuggestion.OnTrigger`,
  `TagSuggestion.CursorOffset` and `TimelineSuggestion.SelectSuggestion`
  differ from the source's.
- SelectTree.PlainPatternIsMembership: lemmas that need `minimatch`'s
  behaviour assume that a pattern without glob metacharacters matches exactly
  itself (`LiteralGlob`); `minimatch`'s own handling of `.` and `..` segments
  and of repeated `/` is not modelled.
- `getTimelineEventMomentTime`, `getTimelineEventImagePath`,
  `getTimelineEventSourcePath`, `getImgUrl` and `parseNumber` are left out.
  They delegate to `moment`, the DOM, vault paths or JS `Number()` float
  parsing.
- `getTimelineEventInFile`: the order of the `Map` it returns, one entry per
  distinct file in the order the files come, is modelled
  (`SearchTimeline.Dedup`, `SearchTimeline.ReadTimelines`); reading and
  parsing a file's events is a parameter.
- `NumberSelectExp` is left out because it is an empty class.
  `src/apis/filter/filter-number-property.ts` is left out because it is an
  unfinished stub. `src/suggestion/value-unit-suggestion.ts` is left out
  because it is regex-driven and its units come from modules that are not part
  of this model.
- `renderSuggestion` of the three completions is left out, because it only
  sets the text of a DOM element.
- The `getSuggestions` of `src/suggestion/tag-suggestion.ts:97-132` is the
  same code as that of `src/suggestion/markdown-block-tag-suggestion.ts:72-107`.
  It is modelled once, as `MarkdownBlockTagSuggestion.GetSuggestions`.
- In `EventTagsManage`, `async`/`await` and event emission (`refresh`
  finishing, `trigger`, `onRefreshFinished`) are left out. The model runs the
  logic synchronously, with the parsed files given to `Refresh` and
  `UpdateFileEventTags`. `console` logging is left out.
- ParentChildrenTag.ParseTag: the caller's `tagList` array is passed in and
  returned as a value, so aliasing of that array is not modelled.
- SearchTimeline.SearchTimelineEvents: the file filter is given the metadata
  cache of the `App`, where the source hands it the `App` itself and so throws
  a `TypeError` for every search with a selector; the code as written is
  `SearchTimeline.SearchAsWritten` (see Findings).
- EventTagsManage.EventTagsManage.SearchTimelineEvents: the same substitution
  in the table search; the code as written is
  `EventTagsManage.TableSearchAsWritten` (see Findings).
- EventTagsManage.EventTagsManage.UpdateFileEventTags: it returns a copy of
  the table, while the source returns the live `tagsMap`, so later changes
  seen through that returned map are not modelled.
- MarkdownCode.LineMeaning: the arguments are a map from keys to values, so
  the special behaviour of a `__proto__` key on a plain JavaScript object is
  not modelled.

## Findings

| source | as written | input that shows it | evidently intended | confidence | as-written member | corrected member |
|---|---|---|---|---|---|---|
| src/suggestion/timeline-suggestion.ts:43-55 | the trigger pattern ends in a lazy `(.*?)`, which always captures the empty string, so the check for a `>` (a closed tag) never stops the trigger | the line `<span class='ob-timelines'>x' data` with the cursor at its end: the tag is closed, yet the completion triggers on `data` | capture the rest of the line after the opening, so that a `>` there stops the trigger | not executed | TimelineSuggestion.OnTriggerAsWritten (with TimelineSuggestion.LazyCaptureEmpty and TimelineSuggestion.ClosedTagExample) | TimelineSuggestion.OnTrigger (with TimelineSuggestion.ClosedTagIgnored and TimelineSuggestion.TriggerMeaning) |
| src/apis/search-timeline.ts:56-58 | `filterFileByTags(file, opt.app, tags)` hands the Obsidian `App` where `filterFileByTags` expects its metadata cache; the callee calls `getFileCache` on it, which the `App` does not have (the plugin reaches it as `app.metadataCache.getFileCache`, src/suggestion/markdown-block-tag-suggestion.ts:94), so every search with a file selector throws a `TypeError`; `EventTagsManage.searchTimelineEvents` does the same at src/event-tags-manage/index.ts:88, and the callers in src/block.ts pass no `app` at all, so `opt.app.vault` throws too | any vault with at least one file, searched with `tags` set to `a` | hand the file filter `app.metadataCache` | not executed | SearchTimeline.SearchAsWritten (with SearchTimeline.AppAsCache, EventTagsManage.TableSearchAsWritten and EventTagsManage.TableAppAsCache) | SearchTimeline.SearchTimelineEvents (with SearchTimeline.SearchMembers, EventTagsManage.EventTagsManage.SearchTimelineEvents and EventTagsManage.TableSearchMembers) |
