# Topo: models and proofs

This project models the algorithmic core of the Topo tool chain and proves what it is relied on for. It
stands on its own: `dafny verify dfyconfig.toml` checks everything.

## What is modelled

- **Front end.** `Tokens`, `Diagnostics`, `TokenBuffer` (current token, lookahead, push-back stack and lexer
  as one abstract list), `ExprParser`, `TypeParser`, `PipelineParser`, `LeafDeclarations`, `Declarations` and
  `Lexing` follow the parser and the lexer method by method. The methods for expressions, types and pipelines
  are proved against grammar functions on token lists; `ExprPrinter`, `TypePrinter`, `PipelineResults`,
  `LexerResults`, `Layout` and `FrontEnd` prove what those functions mean: written trees come back,
  nothing else is accepted as an expression or a pipeline, layout does not matter. The declarations are modelled
  by what they consume and report, every one of `lib/Parser/Parser.cpp:164-2760` by a method of its own;
  `Progress` holds the measure on which all of them are proved to end. `Grammar` is the language of declarations
  without recovery, guards or places, and every one of those methods is proved to report no error exactly on its
  rule of it; `Written` and `WrittenFiles` show the declarations token by token, any names, types and edges in them.
  `LexerTable`, `ExprGrouping` and `ParserTables` write out the tables the lexer and the parser decide by.
  `Rewriting` puts the formatter's rewritten tokens in front of the same parser, `RewritingForms` shows them.
- **Seccomp filter.** `Bpf` interprets classic BPF; `Seccomp` emits the filter with its hand-counted jumps and
  proves that the program decides the rule table and passes the kernel's static check; `SeccompCalls` says what it
  answers to every call by name.
- **SHA-256.** `SecureHash` is the standard's one-shot definition (FIPS 180-4), its constants proved to be the
  root bits they should be and its word functions bit by bit in `Sha256Bits`; `Sha256Stream` is the buffered class
  that refines it.
- **Text.** `Templates`/`TemplateEngine`/`TemplateMeaning` (the mustache subset against a tree semantics, its data in
  `TemplateData`),
  `CommandLine` (Windows quoting against the splitting rules), `SummaryTemplate`/`SummaryResults`,
  `LspCodec` and `LspFraming`.
- **Graphs.** `Priority` (worklist to a unique fixpoint) and `PriorityLevels` (the level of every function),
  `EvidenceGraph`/`EvidenceResults`/`ExecutionChain` (three-colour walk with a depth bound, and the recorder's
  chains), `EvidenceCodec`/`EvidenceRoundTrip`/`EvidenceForms` (manifests as JSON, exactly what is read, and what
  their digests cover), `FileGlob`/`GlobResults`, `CpuProfile`/`ProfilePaths`.
- **Runs.** `StubRestore` (stub, build and test, restore) and `TestSelection`, `AttestationCache`,
  `SysMonitoring`/`ThreadCalls`, `LspRequests`.

`Options`, `Digests`, `Narrowing`, `Sorting` and `Spelling` hold small shared definitions.

## Conventions

- Kinds of tokens no modelled branch tells apart share one kind: `KW_stdlib` for the stdlib type keywords but
  `record` and `union`, `KW_other` for other keywords. Keyword tables are parameters of the lexer.
- Syntax trees carry no source places; dotted and qualified names are kept in parts instead of joined strings.
- The error cap is 100 and the recursion bound 256, as in the headers.
- Hashes that only serve as identities (record digests, cache identities) are parameters; where two different
  values must not collide, injectivity is an explicit hypothesis.
- What the tool asks of the outside world may turn out in any way its interface allows. The stub generator
  follows a script, about which nothing is assumed: it writes and returns the whole prior content, refuses and
  leaves the file alone, or throws. The attestation check keeps a ghost log of what the world answered, and its
  contracts speak of positions in that log.
- Numbers are unbounded where the program uses machine integers only for sizes and counts. Where the width
  shows, it is written out: words and the length field of SHA-256, `int` template arguments, `int64` hints, the
  length header, JSON integers of 64 bits, the schema version and message identifiers read as 32 bits.

## What the proofs showed about the code

- A type whose empty field list is closed by a fused `>>`, such as `optional<record<>>`, is refused although
  the same tokens apart are accepted (`TypePrinter.EmptyRecordFusedFails`; the exact condition is in
  `TypePrinter.PrintedTypesParse`).
- At a keyword that could start a declaration, `parsePipelineEdges` makes no progress and repeats three errors
  until the cap is spent (`PipelineResults.StallsExactlyAtRestart`, `PipelineResults.RestartSpendsTheBudget`),
  which is what the comment in `parseTopoFile` sets out to avoid. The forced advance behind an edge and the one
  at the end of `synchronize` can never run.
- The reload of the call number behind the clone block is dead code: the jump of 11 already skips it
  (`Seccomp.CloneReloadIsDead`); the comment there says it serves the non-clone branch.
- In the evidence check the depth test comes before the memory of finished nodes. A good manifest is accepted in
  every order of its records, roots and parents exactly if no chain from a root has more than 256 links
  (`EvidenceResults.AcceptedInEveryOrder`); with a longer chain some orders may still be accepted
  (`ExecutionChain.OrderMatters`), or none (`ExecutionChain.ChainAccepted`).
- Of all 64-bit schema versions exactly those are accepted that leave 1 when divided by 2^32
  (`EvidenceRoundTrip.AcceptedVersions`), 4294967297 among them (`EvidenceRoundTrip.WrongVersionAccepted`).
- When the stub generator throws inside `StubRewriter::stubFunctions`, what it has written stays: the guard in
  `verifyStage` is set up only behind that call. With stubs that change what they replace, files are left changed
  exactly if the generator comes to a throw and the first name whose file is found was stubbed before it
  (`StubRestore.ThrowsChange`; without that assumption see `StubRestore.ExceptionLeavesStubs`). A run that leaves a
  stub is `StubRestore.StubLeftBehind`. The branch and isolation checks have no such gap.
- The program name in a Windows command line is quoted by rules it is not read by; it survives exactly under
  the condition in `CommandLine.ProgramNameSurvives`.
- The answer to a request of the language server's client can be a message received before the request was sent,
  exactly if the table already holds the request's identifier when it is sent
  (`LspRequests.EarlyExactlyIfPending`, with an instance in `LspRequests.EarlyMessageIsTaken`). An answer that
  comes after a timeout stays in the table (`LspRequests.LateAnswersStay`), though it is never handed out.
- The stall guards of the parser's loops compare places. That is exact if and only if no two places coincide
  (`Progress.ComparisonIsExact`), as in every scanned text; then they fire only in a round that has reported an
  error, so that an error-free file is parsed without them. The formatter's rewritten tokens share places exactly
  if a stage annotation in parentheses or a visibility behind an `@` was rewritten (`Rewriting.RewrittenIsApart`).
  A guard may then skip one token too many, such as the `<` of a rewritten stage annotation in a debug body
  (`Rewriting.AngleIsSwallowed`, with an instance in `Rewriting.StageInDebugBody`). Parsing ends all the same.
- A close tag `{{/}}` outside of all blocks ends a template without a report, and what stands behind it is dropped
  (`TemplateMeaning.StrayCloseReported`, `TemplateMeaning.RestIsDropped`).
- A restore only checks that it could open the file. When the write behind that breaks off, a stage or branch can
  pass although a file was not restored.

## Model

| member | source | states |
|---|---|---|
| Bpf.ExecEmbeds | lib/Platform/LinuxAnalysisSandbox.cpp:77-82 | an instruction block behaves the same wherever it sits in a program, since every jump is relative |
| Bpf.BlocksDispatch | lib/Platform/LinuxAnalysisSandbox.cpp:84-87 | a chain of blocks, each of which decides its own call or passes on untouched, ends in the result of the first block for the call |
| Bpf.AcceptedProgramsReturn | lib/Platform/LinuxAnalysisSandbox.cpp:554-557 | a program the kernel's static check accepts ends in a return on every system-call record |
| Seccomp.ThreadFlagsByHalves | lib/Platform/LinuxAnalysisSandbox.cpp:103-116 | the two 32-bit tests of the program are the test of the 64-bit clone flags: all required bits set, none outside the allowed ones |
| Seccomp.ThreadCloneDecides | lib/Platform/LinuxAnalysisSandbox.cpp:103-118 | the clone block allows exactly thread creation and leaves every other call to the next block with the call number still loaded |
| Seccomp.CommandTestsExec | lib/Platform/LinuxAnalysisSandbox.cpp:156-160 | a run of equality tests followed by a refusal allows exactly the listed commands, for any list |
| Seccomp.RuleDecides | lib/Platform/LinuxAnalysisSandbox.cpp:84-173 | every rule's block decides its own call as the rule says and hands any other call on unchanged |
| Seccomp.ProgramDecides | lib/Platform/LinuxAnalysisSandbox.cpp:76-553 | for every allowlist, process id and record, running the program gives the verdict of the rule table: foreign architecture killed, else the first matching rule, else EPERM |
| Seccomp.ProgramAccepted | lib/Platform/LinuxAnalysisSandbox.cpp:76-557 | for allowlists of up to 250 names every hand-counted jump is forward, byte-sized and in bounds, every load is legal, and the program is short enough for the kernel |
| Seccomp.AllowedExactly | lib/Platform/LinuxAnalysisSandbox.cpp:120-127 | a call is allowed if and only if it is not foreign and the first rule that names it permits its arguments |
| Seccomp.CloneReloadIsDead | lib/Platform/LinuxAnalysisSandbox.cpp:117-118 | the reload of the call number after the clone block is never executed: any instruction in its place gives the same run |
| Seccomp.PrefixDecides | lib/Platform/LinuxAnalysisSandbox.cpp:80-82 | a run whose jumps stay inside a common prefix of two blocks does not depend on what follows the prefix |
| Seccomp.FilterBuilder.Emit | lib/Platform/LinuxAnalysisSandbox.cpp:76-82 | appending instructions extends the block under construction and nothing else |
| Seccomp.FilterBuilder.CheckThreadClone | lib/Platform/LinuxAnalysisSandbox.cpp:103-118 | emits the clone rule |
| Seccomp.FilterBuilder.CheckSignals | lib/Platform/LinuxAnalysisSandbox.cpp:128-135 | emits one self-only rule per signal call, in order |
| Seccomp.FilterBuilder.CheckTwoValues | lib/Platform/LinuxAnalysisSandbox.cpp:136-151 | emits the two-value rule used for prlimit64 and prctl |
| Seccomp.FilterBuilder.CheckCommands | lib/Platform/LinuxAnalysisSandbox.cpp:152-174 | emits a command rule whose hand-counted skip leads just past the block |
| Seccomp.FilterBuilder.EmitRules | lib/Platform/LinuxAnalysisSandbox.cpp:98-552 | emits the whole rule table in the program's order |
| Seccomp.InstallSeccomp | lib/Platform/LinuxAnalysisSandbox.cpp:66-560 | the program handed to the kernel is accepted and decides the policy on every record |
| SeccompCalls.CallsDecided | lib/Platform/LinuxAnalysisSandbox.cpp:94-553 | what the program answers to every call with a name on a native record, without mention of the rules: which calls are let through, which arguments of clone, the signal calls, prlimit64, prctl, arch_prctl and fcntl are, and that clone3 gets ENOSYS |
| SeccompCalls.OthersRefused | lib/Platform/LinuxAnalysisSandbox.cpp:550-554 | a number that belongs to none of the names is refused with EPERM |
| SeccompCalls.ForeignKilled | lib/Platform/LinuxAnalysisSandbox.cpp:87-97 | a call through another ABI ends the process |
| Diagnostics.DiagnosticEngine.Report | lib/Basic/Diagnostic.cpp:5-23 | the error counter saturates at the cap, the list only grows, holds one notice when the cap is met, and further errors leave it alone |
| Diagnostics.CappedAdds | lib/Basic/Diagnostic.cpp:9-14 | capping after every report is the same as capping the total |
| TokenBuffer.Parser.constructor | lib/Parser/Parser.cpp:78-80 | current token and lexer together hold the whole token list |
| TokenBuffer.Parser.PeekNext | lib/Parser/Parser.cpp:88-99 | lookahead is the second remaining token, from the push-back stack or the lexer, and the remaining list stays |
| TokenBuffer.Parser.Advance | lib/Parser/Parser.cpp:101-113 | drops exactly the head of the remaining list, whichever buffer the next token comes from; at the end of file it stays there |
| TokenBuffer.Parser.Match | lib/Parser/Parser.cpp:119-125 | consumes the head if and only if it is of that kind |
| TokenBuffer.Parser.Expect | lib/Parser/Parser.cpp:127-133 | consumes the demanded token, or reports one error and consumes nothing; returns the token that stood there either way |
| TokenBuffer.Parser.SplitShift | lib/Parser/Parser.cpp:1356-1364 | replaces a `>>` at the head by its second `>`, one column on |
| TokenBuffer.Parser.Synchronize | lib/Parser/Parser.cpp:137-160 | stops behind a semicolon, or in front of a closing brace, a restart keyword or the end; may consume nothing, since its forced advance can never run |
| TokenBuffer.Parser.DetectPipeline | lib/Parser/Parser.cpp:866-891 | tells a pipeline by the arrow behind a qualified name of any length and leaves the remaining list exactly as it was |
| TokenBuffer.Parser.ScanQualified | lib/Parser/Parser.cpp:871-890 | the consumed name is pushed back token by token so that the list is restored |
| TokenBuffer.Parser.TakeQualified | lib/Parser/Parser.cpp:872-881 | what was buffered and what remains make up the old list |
| TokenBuffer.Parser.PushBackAll | lib/Parser/Parser.cpp:885-888 | pushing back in reverse order puts the tokens in front in their old order |
| Progress.PlacesTellProgress | lib/Parser/Parser.cpp:365-384 | in tokens scanned from a text the parser stands at the later place exactly where there is less left, the second half of a `>>` included |
| Progress.ComparisonIsExact | lib/Parser/Parser.cpp:374-380 | comparing places tells whether anything was consumed, whatever is left, if and only if no two tokens, halves or the end stand at the same place |
| Progress.RoomyIsApart | lib/Parser/Parser.cpp:374-380 | places that move on with the tokens never coincide |
| Progress.SameRest | lib/Parser/Parser.cpp:1356-1364 | equally much left means the same tokens left, halves included |
| Progress.TokensAreRoomy | lib/Lexer/Lexer.cpp:129-150 | the lexer leaves room for the second half of every `>>` in front of the next token |
| Progress.TypeShrinks | lib/Parser/Parser.cpp:1408-1532 | reading a type consumes something or reports an error, and never moves back |
| Progress.ExpressionShrinks | lib/Parser/Parser.cpp:1149-1231 | so does reading an expression |
| Progress.EdgesShrink | lib/Parser/Parser.cpp:1697-1747 | the pipeline loop, its guard included, consumes something or leaves everything as it is |
| Progress.RestIsOrdered | lib/Parser/Parser.cpp:1743-1745 | what is left stands at later and later places even behind half a `>>` |
| Progress.Demand | lib/Parser/Parser.cpp:127-133 | consumes the demanded token or reports an error, in any list of tokens |
| Progress.ForceProgress | lib/Parser/Parser.cpp:374-380 | the stall guard fires whenever its round consumed nothing, which then has reported an error, and only then if no two places coincide; behind it there is less to read in any case |
| LeafDeclarations.ParsePriorityLevel | lib/Parser/Parser.cpp:207-235 | consumes its keyword, so the loops that go on behind it without the guard still move; accepts one of five levels and nothing else |
| LeafDeclarations.ParseFnLogicBlock | lib/Parser/Parser.cpp:855-915 | stands for the declarations that hold no others: each ends on every list of tokens and consumes something or reports an error; where places move on it reports none exactly if the tokens are its rule of the grammar, and then has consumed just that; here, a pipeline or operations as the look past the first name tells |
| LeafDeclarations.ParseDebug | lib/Parser/Parser.cpp:2644-2760 | so does a debug block, round by round |
| LeafDeclarations.ParseDebugRound | lib/Parser/Parser.cpp:2653-2663 | a token that starts no item costs an error and is skipped, and so is the token behind it exactly if that stands at the same place |
| Declarations.ParseVisibilitySection | lib/Parser/Parser.cpp:555-598 | ends although its loop goes on behind `priority` without the guard, and consumes its keyword |
| Declarations.ParseMemberDecl | lib/Parser/Parser.cpp:602-851 | stands for the declarations that hold others: the circle of members, namespaces, sections, types and templates ends on every list of tokens, since each call has less to read or a lower rank; each consumes something or reports an error, and none exactly if the tokens are its rule of the grammar, which is then what it consumed |
| Declarations.ParseTypeSection | lib/Parser/Parser.cpp:1965-2004 | ends although its loop goes on behind `priority` without the guard, and consumes its keyword |
| Declarations.TopLevelRound | lib/Parser/Parser.cpp:369-380 | a round leaves less to read; where no two places coincide its guard fires only after an error, and where places move on it ends at a strictly later one |
| Declarations.ParseTopoFile | lib/Parser/Parser.cpp:365-384 | parsing ends on every list of tokens, whatever their places, with everything read or the error cap reached, in no more rounds than there is to read; where places move on, no error is reported if and only if the tokens are a file of the grammar, so that recovery and stall guards never let anything else pass; no more forced skips than errors where no two places coincide |
| Declarations.ParseText | lib/Parser/Parser.cpp:78-384 | parsing ends on every source text, without an error if and only if its tokens are a file of the grammar |
| LeafDeclarations.ParseOperation | lib/Parser/Parser.cpp:1029-1090 | reports no error exactly if an assignment or a call stands here, perhaps with a stage, and then consumes just that |
| LeafDeclarations.ParseReturns | lib/Parser/Parser.cpp:1303-1345 | likewise for a return type, several returns, hints in their place, and the selection of some of several |
| LeafDeclarations.ParseTemplateParameters | lib/Parser/Parser.cpp:1751-1845 | likewise for template parameters |
| Declarations.ParseTypeMember | lib/Parser/Parser.cpp:2022-2253 | likewise for a member of a type, whose constructors and destructor must bear the type's name |
| Progress.LoopAcceptsEdges | lib/Parser/Parser.cpp:1697-1747 | the pipeline loop reports no error exactly if edge after edge is read up to a closing brace or the end, however many errors there were before |
| Written.MembersByFirstToken | lib/Parser/Parser.cpp:602-851 | what a member is by its first token, written out: which keyword starts which declaration, and for a word what the second token decides |
| Written.ImportWritten | lib/Parser/Parser.cpp:432-458 | `import a/b {c, d};` is accepted to its end, whatever the names |
| Written.StdImportWritten | lib/Parser/Parser.cpp:1092-1121 | `std::import("path", name);` likewise, with or without the name |
| Written.TypeAliasWritten | lib/Parser/Parser.cpp:460-485 | `using a = T;` likewise, for a stdlib name as well |
| Written.LifetimeWritten | lib/Parser/Parser.cpp:996-1027 | `lifetime a = b .. c;` likewise, with an open end or none |
| Written.CppFunctionWritten | lib/Parser/Parser.cpp:1235-1276 | `T f(T a, V b) const = g;` likewise |
| Written.RustFunctionWritten | lib/Parser/Parser.cpp:1278-1349 | `f() -> T;` likewise |
| Written.SeveralReturnsWritten | lib/Parser/Parser.cpp:1278-1349 | `f() -> (T a, V b);` likewise |
| Written.SelectionWritten | lib/Parser/Parser.cpp:1619-1665 | `(T a, V b) with returns(x, y)` is accepted if and only if x and y differ or are both `_` |
| Written.TooMuchSelected | lib/Parser/Parser.cpp:1619-1665 | one return, named or not, has no selection of two |
| Written.OperatorWritten | lib/Parser/Parser.cpp:2255-2320 | an operator may be overloaded if and only if it is one of these twenty-one |
| Written.HandlerWritten | lib/Parser/Parser.cpp:927-970 | a handler takes no value or one; two are refused |
| Written.ComptimeFunctionWritten | lib/Parser/Parser.cpp:602-680 | `comptime fn f(T a) -> V { e }` is accepted to its end |
| Written.PipelineWritten | lib/Parser/Parser.cpp:855-994 | edges in the braces of a logic block or a flow are accepted to the end of it |
| Written.OperationsWritten | lib/Parser/Parser.cpp:1029-1090 | an assignment and a call with any arguments and a binding likewise |
| Written.StageWritten | lib/Parser/Parser.cpp:1029-1056 | a stage is accepted if and only if its number has no sign and fits an int |
| Written.CardinalityWritten | lib/Parser/Parser.cpp:239-266 | a cardinality with one bound or two and a unit is accepted if and only if each bound fits an int64 |
| Written.AccessWritten | lib/Parser/Parser.cpp:268-298 | an access hint is accepted if and only if its mode is one of four, a size only for one of them, positive and inside an int |
| Written.HintsWritten | lib/Parser/Parser.cpp:300-340 | `T f() -> cardinality(m), access(mode);` is accepted to its end |
| Written.OnlyHintsWritten | lib/Parser/Parser.cpp:1303-1322 | so are hints in place of a type |
| Written.ConstraintWritten | lib/Parser/Parser.cpp:2322-2375 | `constraint C : D { T a; V f(T b); }` is accepted to its end |
| Written.AdaptWritten | lib/Parser/Parser.cpp:2377-2416 | `adapt C for T { a = b; c = d; }` likewise |
| Written.TypeFunctionWritten | lib/Parser/Parser.cpp:2513-2584 | a type function with two parameters and two arms likewise |
| Written.TemplateParametersWritten | lib/Parser/Parser.cpp:1751-1845 | the three kinds of template parameters, constrained and defaulted, are accepted if and only if the default number fits an int |
| Written.DebugWritten | lib/Parser/Parser.cpp:2644-2760 | a debug block with all four kinds of items is accepted if and only if its slice bounds are numbers |
| Written.PriorityWritten | lib/Parser/Parser.cpp:207-235 | a priority header is accepted in front of any members if and only if its level is one of five |
| Written.ConditionalWritten | lib/Parser/Parser.cpp:613-646 | `comptime if (e) { ... } else { ... }` with any members is accepted to its end |
| Written.TypeWritten | lib/Parser/Parser.cpp:1920-2018 | a type with specialization, base and a section of any members is accepted if and only if its inheritance is public |
| Written.ConstructorsWritten | lib/Parser/Parser.cpp:2022-2165 | destructor and constructors are accepted if and only if they bear the type's name, none of them static or with a body |
| Written.TypedMembersWritten | lib/Parser/Parser.cpp:2166-2253 | member variables and functions, static or not, are accepted to their end |
| Written.BodiesRefused | lib/Parser/Parser.cpp:2166-2253 | a member function with a body and a member variable with an initial value are refused |
| Written.MembersJoin | lib/Parser/Parser.cpp:555-598 | members can stand in any number behind one another, in a section and in braces |
| Written.SectionsJoin | lib/Parser/Parser.cpp:487-598 | sections of every visibility likewise, in a namespace |
| Written.NamespaceWritten | lib/Parser/Parser.cpp:386-553 | a namespace of such sections is accepted as a member and at the top of a file, `internal` or not |
| WrittenFiles.FlowFileAccepted | lib/Parser/Parser.cpp:365-994 | a file with a flow in a namespace is accepted if and only if what stands in the flow is a printed list of edges |
| WrittenFiles.FlowTextAccepted | lib/Parser/Parser.cpp:78-994 | and so is its text, in any layout |
| ParserTables.KindsByTable | lib/Parser/Parser.cpp:137-205 | which kinds are visibilities, stop recovery, start a type or continue a qualified name, written out |
| ParserTables.ScalarsByTable | lib/Parser/Parser.cpp:1473-1478 | the six type names that take no arguments |
| ParserTables.RecoveryStops | lib/Parser/Parser.cpp:137-162 | recovery skips to a restart keyword or a closing brace, or behind a semicolon, over any tokens that are neither |
| ParserTables.PipelineMeans | lib/Parser/Parser.cpp:866-893 | a pipeline is told by an arrow behind a name of any number of parts, which may end in a `::` too many |
| ParserTables.NumbersRead | lib/Parser/Parser.cpp:48-76 | a printed number, with zeros in front, is read back exactly if an int holds it, and checked against the range of an int64 with its sign |
| ParserTables.NumbersWritten | lib/Parser/Parser.cpp:48-59 | nothing else is read as a number |
| Rewriting.TokenStreamRewriter.constructor | lib/Transform/TokenStreamRewriter.cpp:6-12 | drains the lexer: the tokens of the text and the end of file behind them |
| Rewriting.TokenStreamRewriter.RewriteStageParens | lib/Transform/TokenStreamRewriter.cpp:76-135 | the in-place loop replaces the stage annotations the function does |
| Rewriting.TokenStreamRewriter.RewriteAtVisibility | lib/Transform/TokenStreamRewriter.cpp:138-161 | likewise for a visibility behind `@` |
| Rewriting.TokenStreamRewriter.RewriteAtModifier | lib/Transform/TokenStreamRewriter.cpp:164-178 | likewise for `@owned` |
| Rewriting.TokenStreamRewriter.RewriteKeywordAliasText | lib/Transform/TokenStreamRewriter.cpp:27-53 | every keyword with a canonical spelling gets it |
| Rewriting.TokenStreamRewriter.Rewrite | lib/Transform/TokenStreamRewriter.cpp:14-22 | in lenient mode the four passes in order, else nothing |
| Rewriting.RewrittenBefore | lib/Transform/TokenStreamRewriter.cpp:14-22 | the end of file stays behind the rewritten tokens |
| Rewriting.RewrittenIsApart | lib/Transform/TokenStreamRewriter.cpp:76-178 | places of rewritten tokens differ, and move on, if and only if the text held no stage annotation in parentheses and no visibility behind an `@` |
| Rewriting.AngleIsSwallowed | lib/Parser/Parser.cpp:2657-2663 | in a debug body the round at a rewritten stage annotation skips the `<` as well |
| Rewriting.JunkAlone | lib/Parser/Parser.cpp:2657-2663 | where no two places coincide a token is skipped alone |
| Rewriting.StageInDebugBody | tools/topo-fmt/main.cpp:128-135 | an instance: the body `@stage(3) }`, of which the first round leaves `3 > }` |
| Rewriting.ParseRewritten | tools/topo-fmt/main.cpp:121-135 | lexing, rewriting and parsing ends on every text, and the guards of the parse are exact if and only if nothing of the two kinds was rewritten |
| RewritingForms.StagesBecome | lib/Transform/TokenStreamRewriter.cpp:76-135 | the three spellings of a stage annotation, kind by kind, all become `stage<N>` with the same number; any other token stays |
| RewritingForms.VisibilitiesBecome | lib/Transform/TokenStreamRewriter.cpp:138-161 | of the visibilities exactly three lose an `@` in front and get a colon behind |
| RewritingForms.OwnersBecome | lib/Transform/TokenStreamRewriter.cpp:164-178 | `@owned` becomes `owned`, and nothing else changes |
| RewritingForms.WordsBecome | lib/Transform/TokenStreamRewriter.cpp:27-53 | eight kinds of keyword get one spelling each, no other token is touched |
| ExprParser.ParseBinaryExpr | lib/Parser/Parser.cpp:1149-1168 | the guarded climbing loop does what the grammar function says, to the value, the tokens left and the errors counted, and restores the recursion counter |
| ExprParser.ParseOperatorTail | lib/Parser/Parser.cpp:1157-1165 | the loop behind an operand takes operators of at least the given precedence, each right side one level tighter |
| ExprParser.ParseUnaryExpr | lib/Parser/Parser.cpp:1170-1179 | prefix operators, innermost last |
| ExprParser.ParsePrimaryExpr | lib/Parser/Parser.cpp:1181-1231 | parentheses, literals, names and calls, with the placeholder literal and one error for anything else |
| ExprParser.ParseCallArgs | lib/Parser/Parser.cpp:1213-1224 | argument lists of any length |
| ExprParser.ParseFuncName | lib/Parser/Parser.cpp:1556-1567 | dotted names |
| ExprPrinter.OperandReads | lib/Parser/Parser.cpp:1149-1168 | reading what stands at some level, inside a call that climbs from any lower precedence, is the same as having its tree and climbing on |
| ExprPrinter.PrintedExpressionsParse | lib/Parser/Parser.cpp:1123-1231 | a tree printed with minimal parentheses is parsed back and consumed exactly, if and only if its nesting fits the recursion guard; otherwise an error is reported |
| ExprPrinter.AcceptsExactlyWritten | lib/Parser/Parser.cpp:1123-1231 | the parser accepts, returns a tree and leaves a rest exactly if the tokens are a written form of the tree, with any redundant parentheses, that fits the guard, in front of a rest that cannot go on with it |
| ExprPrinter.DeepFormsFail | lib/Parser/Parser.cpp:1149-1153 | a written form is read without error if and only if it fits the guard |
| ExprPrinter.MinimalIsOk | lib/Parser/Parser.cpp:1123-1143 | leaving out every parenthesis that precedence and left association make needless gives a written form of the same tree |
| ExprPrinter.WritingIsUnambiguous | lib/Parser/Parser.cpp:1123-1231 | tokens within the guard are a written form of one tree only |
| ExprPrinter.OperatorsWereWritten | lib/Parser/Parser.cpp:1157-1165 | whatever the climbing loop took without error, the form it makes is well placed for the next operator, so it nests to the left |
| ExprGrouping.OperatorsGroup | lib/Parser/Parser.cpp:1123-1168 | for the twelve binary operators in the order written out: of two the second takes the operand between them if and only if it stands further behind, whatever the operands |
| ExprGrouping.PrefixFirst | lib/Parser/Parser.cpp:1170-1179 | the prefix operators bind tighter than all of them |
| ExprGrouping.NothingElseContinues | lib/Parser/Parser.cpp:1123-1143 | in front of any other kind of token the expression ends |
| ExprGrouping.NothingElseBegins | lib/Parser/Parser.cpp:1181-1231 | and with any other kind of token none begins |
| ExprGrouping.Examples | lib/Parser/Parser.cpp:1123-1168 | `a or b and c`, `a - b - c` and `not a == b` as they group |
| TypeParser.ConsumeCloseAngle | lib/Parser/Parser.cpp:1351-1368 | a closing angle is consumed whole or as the first half of a `>>` |
| TypeParser.ParseTypeNode | lib/Parser/Parser.cpp:1408-1415 | the recursion guard and its placeholder type |
| TypeParser.ParseGuardedType | lib/Parser/Parser.cpp:1417-1532 | the imperative parser computes the grammar function: value, rest, errors and recursion counter |
| TypeParser.ParsePlainType | lib/Parser/Parser.cpp:1435-1469 | void, stdlib keywords and qualified names, with one error and an empty name otherwise |
| TypeParser.ParseCompositeType | lib/Parser/Parser.cpp:1437-1458 | record and union with their field list and suffix |
| TypeParser.ParseTypeArguments | lib/Parser/Parser.cpp:1471-1519 | positional arguments, skipped for the scalar names that take none |
| TypeParser.ParseTemplateArgument | lib/Parser/Parser.cpp:1481-1511 | integer arguments, types and ranges, with the range kept as text in the last name part |
| TypeParser.ParseRecordFields | lib/Parser/Parser.cpp:1385-1404 | the named-field list |
| TypeParser.ParseQualifiedName | lib/Parser/Parser.cpp:1534-1554 | parts behind `::`, an error for each one missing |
| TypePrinter.TakeClose | lib/Parser/Parser.cpp:1351-1368 | a closing angle can be taken from a fused stream wherever one stands in the unfused one |
| TypePrinter.GuardedReads | lib/Parser/Parser.cpp:1408-1532 | the outcome of reading a printed type off any fusing of its tokens, guard and all |
| TypePrinter.RangeReads | lib/Parser/Parser.cpp:1499-1510 | a range argument, with or without upper end, is read back as the text it is kept as |
| TypePrinter.PrintedTypesParse | lib/Parser/Parser.cpp:1351-1532 | a printed type, range arguments included, its closing angles fused or not at any depth and with what follows, parses back and is consumed exactly, whatever follows that cannot extend it, if and only if its nesting fits the guard and no `<` in it stands directly before a `>>` |
| TypePrinter.UnfusedClean | lib/Parser/Parser.cpp:1390-1393 | types that print without `<` and `>` side by side, as those without empty lists do, never meet the failing case, however they are fused |
| TypePrinter.EmptyRecordFusedFails | lib/Parser/Parser.cpp:1390-1403 | `optional<record<>>` written with a fused `>>` is refused although its unfused form is accepted |
| PipelineParser.ParsePipelineEdges | lib/Parser/Parser.cpp:1697-1747 | terminates on every list of tokens under the pair of tokens left and error budget left, and computes the loop on tokens with their places; where places move on also the grammar function |
| PipelineParser.ParseEdges | lib/Parser/Parser.cpp:1697-1747 | ends at a closing brace, the end of file or the error cap, never unreads, never drops an edge |
| PipelineParser.FinishRound | lib/Parser/Parser.cpp:1741-1745 | ends an edge; the token behind it is skipped as well exactly if it stands where the edge began |
| PipelineParser.GuardIsDead | lib/Parser/Parser.cpp:1741-1745 | where places move on with the tokens the forced advance behind a complete edge never runs |
| PipelineParser.PlacesHaveNoSay | lib/Parser/Parser.cpp:1697-1747 | there the loop with its guard does what the grammar function without one does |
| PipelineResults.StallsExactlyAtRestart | lib/Parser/Parser.cpp:1712-1739 | a round consumes nothing if and only if the head is a keyword that could start a declaration, and then reports three errors |
| PipelineResults.RestartSpendsTheBudget | lib/Parser/Parser.cpp:1735-1739 | at such a keyword the loop repeats the same errors until the cap, keeping the rest unread and the edges as they are |
| PipelineResults.EdgesRead | lib/Parser/Parser.cpp:1708-1742 | printed edges are read back, after whatever was read before and before whatever follows |
| PipelineResults.PrintedEdgesArePipeline | lib/Parser/Parser.cpp:866-891 | a printed list of edges is recognised as a pipeline |
| PipelineResults.AcceptsExactlyPrintedEdges | lib/Parser/Parser.cpp:1697-1747 | no error is reported if and only if the tokens are a printed list of edges followed by `}` or the end, and then exactly those edges are returned |
| PipelineResults.ErrorsStayLocal | lib/Parser/Parser.cpp:1700-1739 | edges and bad statements may be mixed in any way: every edge is found and every bad statement costs just its own errors, while the budget lasts |
| PipelineResults.BrokenEdgeIsSkipped | lib/Parser/Parser.cpp:1719-1739 | an edge whose right end is missing or no name is skipped to its semicolon with one error |
| Lexing.LaterIsBehind | lib/Lexer/Lexer.cpp:129-138 | a later character has a strictly later line and column |
| Lexing.Lexer.SetTokenBuffer | lib/Lexer/Lexer.cpp:255-258 | the tokens given are delivered from the first on |
| Lexing.Lexer.SkipBlockComment | lib/Lexer/Lexer.cpp:182-203 | ends behind the first closing mark, or at the end of the source with one error |
| Lexing.Lexer.SkipWhitespace | lib/Lexer/Lexer.cpp:152-165 | skips exactly the white space and comments |
| Lexing.Lexer.ScanStringLiteral | lib/Lexer/Lexer.cpp:236-253 | a literal ends at a quote; a line end or the end of the source is an error token and one error |
| Lexing.Lexer.ScanSymbol | lib/Lexer/Lexer.cpp:292-401 | the operator at the place, longest first |
| Lexing.Lexer.NextToken | lib/Lexer/Lexer.cpp:260-402 | delivers the next token of the source's token list and leaves exactly the rest of it; with a token buffer, the next of that, and behind its end the end of file for ever |
| LexerResults.LongestMatch | lib/Lexer/Lexer.cpp:205-402 | a token is valid and no longer piece of the source at that place is a lexeme |
| LexerResults.WordEnds | lib/Lexer/Lexer.cpp:205-210 | a word ends at the first character that cannot continue it |
| LexerResults.QuotedEnds | lib/Lexer/Lexer.cpp:236-253 | a piece starting at a quote is a string literal exactly if it is the one scanned |
| LexerResults.TokensAreOrdered | lib/Lexer/Lexer.cpp:144-150 | tokens stand at strictly increasing places and none of them is an end of file |
| LexerTable.PunctuationRead | lib/Lexer/Lexer.cpp:292-401 | the token at a place where no word, number or text starts, by three tables of every fixed lexeme and its kind: the longest that stands there, else an error |
| LexerTable.WordRead | lib/Lexer/Lexer.cpp:205-227 | a word is as long as its letters, digits and underscores go, with the kind its keyword table gives, in lenient mode that of the aliases, and an identifier otherwise |
| LexerTable.NumberRead | lib/Lexer/Lexer.cpp:229-234 | a number is as long as its digits go |
| LexerTable.TextRead | lib/Lexer/Lexer.cpp:236-253 | a text ends at the next quote on its line, without which it is an error |
| LexerTable.TriviaPassed | lib/Lexer/Lexer.cpp:152-165 | what is passed over and where a token starts |
| LexerTable.PlacesCounted | lib/Lexer/Lexer.cpp:129-138 | lines are counted by the line ends before a place, columns by the characters since |
| Layout.GapSkipped | lib/Lexer/Lexer.cpp:152-203 | any mixture of blanks, line comments and block comments is skipped to its end and no further |
| Layout.GapFound | lib/Lexer/Lexer.cpp:152-203 | what is skipped is such a mixture, and what follows does not start another one |
| Layout.LayoutIsIgnored | lib/Lexer/Lexer.cpp:260-402 | lexemes written with any gaps between them, or none where the lexer would not run them together, come back from the lexer as the same lexemes, whatever stands behind the last one |
| Layout.GluedIsNotRead | lib/Lexer/Lexer.cpp:205-402 | the condition for no gap is exact: a lexeme directly in front of a character is scanned to its own end if and only if that character does not glue to it or make it the start of a comment |
| Layout.SourcePartition | lib/Lexer/Lexer.cpp:260-402 | gaps and tokens in order make up the source, nothing lost and nothing twice |
| FrontEnd.ExpressionTextParses | lib/Parser/Parser.cpp:1123-1231 | lexer and parser together: an expression written in any layout, also without any white space, is read back if and only if it fits the guard |
| FrontEnd.TextIsExpression | lib/Parser/Parser.cpp:1123-1231 | a source text is an expression with a given tree exactly if its tokens are a written form of it within the guard |
| FrontEnd.LexedIsSpelled | lib/Lexer/Lexer.cpp:260-402 | the lexer's tokens carry the spelling of their kind |
| FrontEnd.PipelineTextParses | lib/Parser/Parser.cpp:1697-1747 | a pipeline written in any layout, also without any white space, is read back edge by edge |
| FrontEnd.TypeTextParses | lib/Parser/Parser.cpp:1408-1532 | a type written in any layout, angles apart or joined, is read back if and only if it fits the guard and has no `<` joined in front of a `>>` |
| SecureHash.RoundConstants | lib/Distribution/Sha256.cpp:14-25 | each round constant holds the first 32 fractional bits of the cube root of its prime (section 4.2.2 of FIPS 180-4) |
| SecureHash.PrimesInOrder | lib/Distribution/Sha256.cpp:14-25 | the primes meant are the first 64, none left out |
| SecureHash.InitialHash | lib/Distribution/Sha256.cpp:33-42 | each initial word holds the first 32 fractional bits of the square root of its prime (section 5.3.3 of FIPS 180-4) |
| SecureHash.PaddedFills | lib/Distribution/Sha256.cpp:111-126 | the padded message is a whole number of blocks |
| SecureHash.LeastZeros | lib/Distribution/Sha256.cpp:117-123 | the number of zero bytes is the least that leaves room for the length (section 5.1.1 of FIPS 180-4) |
| SecureHash.BigEndianAt | lib/Distribution/Sha256.cpp:124-126 | the shifted bytes of the length are its base-256 digits, most significant first |
| SecureHash.AddReorders | lib/Distribution/Sha256.cpp:55-55 | the schedule sum may be taken in the program's order |
| Sha256Stream.ExpandBlock | lib/Distribution/Sha256.cpp:44-56 | the array filled left to right is the standard's message schedule |
| Sha256Stream.CompressBlock | lib/Distribution/Sha256.cpp:44-87 | the in-place rounds and feed-forward are the standard's compression of the old state |
| Sha256Stream.Grows | lib/Distribution/Sha256.cpp:94-105 | feeding bytes that fit beside the buffered tail either lengthens the tail or completes exactly one block |
| Sha256Stream.PaddedInBlocks | lib/Distribution/Sha256.cpp:117-126 | padding completes the buffered tail to one block, or to two when the length does not fit |
| Sha256Stream.AbsorbBlock | lib/Distribution/Sha256.cpp:101-104 | one more block is one more compression |
| Sha256Stream.Sha256.Update | lib/Distribution/Sha256.cpp:89-106 | any call extends the message by its bytes, however the message was cut up; after the digest it does nothing |
| Sha256Stream.Sha256.MakeRoom | lib/Distribution/Sha256.cpp:110-123 | mark and overflow block are absorbed so that the rest of the padding completes the padded message |
| Sha256Stream.Sha256.HexDigest | lib/Distribution/Sha256.cpp:108-137 | the digest is the one-shot hash of all bytes fed (section 6.2 of FIPS 180-4) when they are fewer than 2^61, the same with the length taken modulo 2^64 otherwise, and stable when asked again |
| Sha256Stream.Sha256Hex | lib/Distribution/Sha256.cpp:139-147 | the one-call form gives the hash of its argument |
| Sha256Stream.Sha256File | lib/Distribution/Sha256.cpp:149-171 | a file read in any pieces gives the hash of all of it, and nothing if the read broke off or came up short |
| Sha256Stream.HexIsInjective | lib/Distribution/Sha256.cpp:132-136 | two hexadecimal digests agree only if all eight words do |
| Sha256Stream.DigestReads | lib/Distribution/Sha256.cpp:132-136 | the digest spells the eight words in order, eight digits each, which read in base 16 are the word |
| Sha256Bits.UpperSigma0Bits | lib/Distribution/Sha256.cpp:65 | bit by bit: the parity of the bits 2, 13 and 22 places on, around the word |
| Sha256Bits.UpperSigma1Bits | lib/Distribution/Sha256.cpp:62 | likewise 6, 11 and 25 places on |
| Sha256Bits.LowerSigma0Bits | lib/Distribution/Sha256.cpp:53 | likewise 7 and 18 places on around the word, and 3 places on within it |
| Sha256Bits.LowerSigma1Bits | lib/Distribution/Sha256.cpp:54 | likewise 17 and 19 places on, and 10 within the word |
| Sha256Bits.ChoiceBits | lib/Distribution/Sha256.cpp:63 | each bit of the first word chooses between the bits of the other two |
| Sha256Bits.MajorityBits | lib/Distribution/Sha256.cpp:66 | each bit is what two of the three words have |
| TemplateEngine.Parser.Render | lib/Debug/TemplateEngine.cpp:101-186 | the cursor-moving renderer does what the function on the remaining text says: output, rest, close tag and error |
| TemplateEngine.Parser.IfBlock | lib/Debug/TemplateEngine.cpp:188-203 | the body is rendered into scratch whatever the condition, and kept only if it is truthy |
| TemplateEngine.Parser.FindEachEnd | lib/Debug/TemplateEngine.cpp:205-244 | the depth-counting rescan finds the close tag the scan function defines, or the matching error |
| TemplateEngine.Parser.EachBlock | lib/Debug/TemplateEngine.cpp:205-262 | the cut-out body is rendered by a fresh renderer for every element, in order, stopping at the first error |
| TemplateEngine.RenderTemplateText | lib/Debug/TemplateEngine.cpp:267-286 | the entry point with its stray-close error, on every template, well formed or not |
| TemplateMeaning.FindBehind | lib/Debug/TemplateEngine.cpp:104-121 | text that holds no doubled brace moves the next delimiter by its length and hides none |
| TemplateMeaning.HeadReads | lib/Debug/TemplateEngine.cpp:147-158 | a block tag is taken apart into its kind and key, whatever the blanks |
| TemplateMeaning.ScansNode | lib/Debug/TemplateEngine.cpp:210-236 | the rescan passes over the printed form of any tree without changing its depth |
| TemplateMeaning.ScansAll | lib/Debug/TemplateEngine.cpp:210-236 | so does it over lists of trees, nested blocks included |
| TemplateMeaning.NodeRenders | lib/Debug/TemplateEngine.cpp:101-262 | rendering the printed form of a node outputs its value and goes on right behind it |
| TemplateMeaning.IfRenders | lib/Debug/TemplateEngine.cpp:188-203 | an `#if` block consumes exactly its own printed form |
| TemplateMeaning.EachRenders | lib/Debug/TemplateEngine.cpp:205-262 | an `#each` block consumes exactly its own printed form and evaluates its body once per element |
| TemplateMeaning.RenderingIsEvaluation | lib/Debug/TemplateEngine.cpp:90-288 | rendering the text of any tree of text, values, raw values, comments and nested blocks is evaluating the tree on the data |
| TemplateMeaning.StrayCloseReported | lib/Debug/TemplateEngine.cpp:165-169 | behind any tree a close tag that closes nothing is reported if and only if it has a key; without one the rest of the template is dropped in silence |
| TemplateMeaning.RestIsDropped | lib/Debug/TemplateEngine.cpp:276-281 | an instance: `a{{/}}b` renders as `a` |
| TemplateData.IfKept | lib/Debug/TemplateEngine.cpp:81-88 | on rendered text: an `#if` block is its body exactly if the key leads to something other than null, false, zero, an empty text, an empty list or an empty object, and nothing otherwise |
| TemplateData.EachRepeats | lib/Debug/TemplateEngine.cpp:205-262 | on rendered text: an `#each` block is its body for element after element of a list, and nothing for anything else |
| TemplateData.SplitOfDotted | lib/Debug/TemplateEngine.cpp:63-75 | splitting at the dots undoes joining with them |
| TemplateData.ResolveIsMeant | lib/Debug/TemplateEngine.cpp:59-77 | a key leads where its pieces between dots lead one after the other from object to object, nowhere as soon as one is missing, empty or behind a value that is no object |
| TemplateData.NamesAreSteps | lib/Debug/TemplateEngine.cpp:59-77 | in particular names joined by dots are looked up step by step |
| TemplateData.EscapedIsSafe | lib/Debug/TemplateEngine.cpp:22-36 | escaped text holds none of the four dangerous characters, and reading the five entities back gives the text |
| TemplateData.PlainStays | lib/Debug/TemplateEngine.cpp:22-36 | text without the five characters is left as it is |
| TemplateData.ValueShown | lib/Debug/TemplateEngine.cpp:42-54 | on rendered text: what a tag shows for every sort of value, escaped or not |
| TemplateData.MismatchReported | lib/Debug/TemplateEngine.cpp:188-203 | a block closed by a key that is neither its own nor `if` is reported |
| TemplateData.UnclosedReported | lib/Debug/TemplateEngine.cpp:205-244 | so is a repeated block that is never closed |
| TemplateData.UnknownReported | lib/Debug/TemplateEngine.cpp:147-186 | so is a block of another kind, and one without a key |
| TemplateData.UnterminatedReported | lib/Debug/TemplateEngine.cpp:101-130 | so is a tag that is never closed, behind any template that renders |
| TemplateData.TrimMeans | lib/Debug/TemplateEngine.cpp:130-147 | exactly blanks, tabs and line ends around the content of a tag do not count |
| CommandLine.AppendQuotedArg | lib/Platform/Process.cpp:171-198 | the iterator loop appends the quoted form of the argument |
| CommandLine.BuildCommandLine | lib/Platform/Process.cpp:200-209 | program and arguments, each quoted, separated by blanks |
| CommandLine.Unescapes | lib/Platform/Process.cpp:178-197 | reading the escaped text between quotes by the backslash and quote rules gives the argument back |
| CommandLine.ReadsQuoted | lib/Platform/Process.cpp:171-198 | one argument is read back and nothing behind it is touched, quoting forced or not |
| CommandLine.SplittingUndoesQuoting | lib/Platform/Process.cpp:165-209 | splitting the argument part gives the argument list back, for all strings and either convention for doubled quotes |
| CommandLine.ProgramNameSurvives | lib/Platform/Process.cpp:200-203 | the program name, read by its simpler rules, comes back if and only if it holds no quote and, where it is quoted, does not end in a backslash |
| CommandLine.ProgramNamesThatFail | lib/Platform/Process.cpp:200-203 | a blank name ending in a backslash and a name with a quote do not come back |
| CommandLine.EscapedWithoutQuotes | lib/Platform/Process.cpp:185-188 | without quotes inside, escaping only doubles the backslashes at the end |
| FileGlob.MatchFilenameMeans | lib/Platform/FileGlob.cpp:33-43 | a name matches if it has the part before the first star as prefix and the part behind it as suffix, overlap allowed; without a star it must be equal |
| FileGlob.CollectMatches | lib/Platform/FileGlob.cpp:55-98 | the recursive collector appends the function's list |
| FileGlob.StarStar | lib/Platform/FileGlob.cpp:59-77 | a `**` matches here, one real directory further down, or a file in last place, and nothing else |
| GlobResults.CollectedMatches | lib/Platform/FileGlob.cpp:55-98 | everything collected is the text of a matching path |
| GlobResults.MatchesCollected | lib/Platform/FileGlob.cpp:55-98 | every matching path is collected |
| GlobResults.CollectIsMatching | lib/Platform/FileGlob.cpp:55-98 | the collected strings are exactly the texts of the matching paths |
| GlobResults.GlobExpand | lib/Platform/FileGlob.cpp:102-126 | with a star in any part, the strictly ascending list of exactly the files matched by the parts that are neither empty nor a dot; without one, the literal path exactly if each name in turn leads on with links followed, else nothing; below a base that may itself be a link |
| GlobResults.DoubleStarCollapses | lib/Platform/FileGlob.cpp:121-124 | two double stars in a row match what one does, anywhere in a pattern |
| GlobResults.CollapsingKeepsTheResult | lib/Platform/FileGlob.cpp:118-125 | so collapsing them never changes the expanded list |
| Sorting.LessMeans | lib/Platform/FileGlob.cpp:118 | one text comes before another if it is a proper beginning of it or has the smaller character where they first differ |
| Priority.BuildCallGraph | lib/Analysis/PriorityAnalysis.cpp:36-56 | each block's callees are qualified by its own namespace, assignment entries left out |
| Priority.FixpointIsUnique | lib/Analysis/PriorityAnalysis.cpp:58-95 | at most one outcome keeps annotated levels and gives every other function the highest level reaching it through functions without annotation, so the order of iteration cannot matter |
| Priority.ChainHandsOn | lib/Analysis/PriorityAnalysis.cpp:71-93 | when nothing is left to hand on, every level above normal has travelled along every call chain |
| Priority.SettledIsFixpoint | lib/Analysis/PriorityAnalysis.cpp:71-93 | an empty worklist means the fixpoint is reached |
| Priority.HandOn | lib/Analysis/PriorityAnalysis.cpp:80-92 | one caller's level is handed on; every push uses up some of the room left below critical |
| Priority.AnalyzePriority | lib/Analysis/PriorityAnalysis.cpp:22-96 | computes the fixpoint with at most one push per urgent annotated function and two per distinct callee |
| PriorityLevels.Analyze | lib/Analysis/PriorityAnalysis.cpp:22-96 | blocks and annotations in, levels out: an annotated function keeps its level; any other gets critical if a critical one reaches it by calls of functions without annotation, else high if a high one does, else normal; names outside the table are left out unless they get a level |
| PriorityLevels.GraphIsCalls | lib/Analysis/PriorityAnalysis.cpp:36-56 | the call graph holds exactly the calls of the blocks, named relative to the part of the caller's name up to its last `::` |
| PriorityLevels.PrefixIsNamespace | lib/Analysis/PriorityAnalysis.cpp:40-44 | the prefix found is the longest part of a name that ends in `::` |
| EvidenceGraph.Checker.VisitNode | lib/Build/ArtifactEvidence.cpp:186-197 | the recursive walk on the colour map, its depth test before its memory of finished nodes |
| EvidenceGraph.CheckGraph | lib/Build/ArtifactEvidence.cpp:172-202 | the whole check: version, sizes, sealed and distinct records, roots, walk, nothing unreached |
| EvidenceResults.VisitAdvances | lib/Build/ArtifactEvidence.cpp:186-197 | a successful visit finishes its node, leaves the nodes it is inside of alone, and finishes only nodes reachable from it, parents before children |
| EvidenceResults.WalkedGraphIsGood | lib/Build/ArtifactEvidence.cpp:185-200 | acceptance means that all parents resolve, nothing depends on itself, and every node is reached from a root |
| EvidenceResults.GoodGraphIsWalked | lib/Build/ArtifactEvidence.cpp:185-200 | a good graph whose chains from the roots have at most 256 links is accepted |
| EvidenceResults.AcceptanceMeans | lib/Build/ArtifactEvidence.cpp:172-202 | acceptance always implies a good graph, and is equivalent to one where no chain exceeds 256 links |
| EvidenceResults.OrderDoesNotMatter | lib/Build/ArtifactEvidence.cpp:172-202 | without longer chains, the verdict on a manifest does not depend on the order of nodes, roots or parents |
| EvidenceResults.AcceptedInEveryOrder | lib/Build/ArtifactEvidence.cpp:185-200 | a good manifest is accepted in every order of its records, roots and parents if and only if no chain from a root has more than 256 links |
| EvidenceResults.ChainFirstIsRefused | lib/Build/ArtifactEvidence.cpp:186-197 | with a longer chain, putting it first among roots and parents gets the manifest refused |
| ExecutionChain.OrderMatters | lib/Build/ArtifactEvidence.cpp:187-189 | an instance: 258 chained records with two roots are accepted in one root order and refused in the other |
| ExecutionChain.ChainWalk | lib/Build/ArtifactEvidence.cpp:186-197 | a walk down a chain fails exactly when it would go below the depth bound |
| ExecutionChain.ChainAccepted | lib/Build/ExecutionEvidence.cpp:157-172 | a chain with its last record as root is accepted if and only if it has at most 257 records |
| ExecutionChain.RecordsDiffer | lib/Build/ExecutionEvidence.cpp:158-164 | with an injective digest even the same command recorded twice gets two identifiers |
| ExecutionChain.ExecutionRecorder.Record | lib/Build/ExecutionEvidence.cpp:157-165 | a command that can be encoded extends the chain by one record on the last root; any other only leaves a note |
| ExecutionChain.ExecutionRecorder.Flush | lib/Build/ExecutionEvidence.cpp:169-172 | the recorded manifest is accepted if and only if between 1 and 257 commands were recorded |
| EvidenceCodec.CheckFiles | lib/Build/ArtifactEvidence.cpp:57-62 | the set-based loop accepts exactly lists of valid files whose names differ even with case folded |
| EvidenceCodec.ReadFiles | lib/Build/ArtifactEvidence.cpp:154-160 | the reading loop does what the list function says, failing on the first bad entry |
| EvidenceCodec.ReadManifest | lib/Build/ArtifactEvidence.cpp:303-328 | reading a manifest: exact fields, every record, then the graph check |
| EvidenceRoundTrip.ValidFilesMeans | lib/Build/ArtifactEvidence.cpp:57-62 | a valid list has no repeats, only valid files, and tells files apart by their folded names |
| EvidenceRoundTrip.FilesAreOrdered | lib/Build/ArtifactEvidence.cpp:81-85 | on a valid list root and path form a strict total order, so sorting has one outcome |
| EvidenceRoundTrip.FilesRoundTrip | lib/Build/ArtifactEvidence.cpp:75-88 | writing and reading a valid file list gives the sorted list |
| EvidenceRoundTrip.RecordRoundTrip | lib/Build/ArtifactEvidence.cpp:120-129 | writing and reading a valid record gives it with files and parents sorted |
| EvidenceRoundTrip.DigestsMean | lib/Build/ArtifactEvidence.cpp:274-277 | with an injective hash, two records have the same digest if and only if they are equal up to identifier and the order of parents and files |
| EvidenceRoundTrip.ReadsBack | lib/Build/ArtifactEvidence.cpp:281-328 | any manifest of valid records reads as its sorted form, provided that form passes the graph check |
| EvidenceRoundTrip.RoundTrip | lib/Build/ArtifactEvidence.cpp:281-328 | an accepted manifest without chains of more than 256 links is read back in its sorted form |
| EvidenceRoundTrip.NormalIsStable | lib/Build/ArtifactEvidence.cpp:281-290 | the sorted form of an accepted manifest is its own sorted form |
| EvidenceRoundTrip.WrittenAlike | lib/Build/ArtifactEvidence.cpp:281-290 | manifests of valid records are written alike if and only if their sorted forms agree |
| EvidenceRoundTrip.DigestOfNormal | lib/Build/ArtifactEvidence.cpp:292-296 | sorting an accepted manifest without deep chains keeps its digest |
| EvidenceRoundTrip.VersionWraps | lib/Build/ArtifactEvidence.cpp:303-308 | version numbers with the same low 32 bits are read alike, whatever else the text holds |
| EvidenceRoundTrip.AcceptedVersions | lib/Build/ArtifactEvidence.cpp:303-308 | of the 64-bit numbers put in place of an accepted version exactly those are accepted that leave 1 when divided by 2^32 |
| EvidenceRoundTrip.WrongVersionAccepted | lib/Build/ArtifactEvidence.cpp:303-308 | so version 4294967297 of an accepted manifest without deep chains reads as version 1 of it |
| EvidenceForms.FilesRead | lib/Build/ArtifactEvidence.cpp:138-151 | a file is read from its object, written out field by field, and from no other value |
| EvidenceForms.ActionsRead | lib/Build/ArtifactEvidence.cpp:160-171 | so is an action |
| EvidenceForms.RecordsRead | lib/Build/ArtifactEvidence.cpp:314-322 | so is a record |
| EvidenceForms.ManifestsRead | lib/Build/ArtifactEvidence.cpp:303-328 | a manifest is read exactly from its object with a version number whose low 32 bits it keeps, if every record can be read and the graph is accepted |
| EvidenceForms.RecordsWritten | lib/Build/ArtifactEvidence.cpp:120-129 | a valid record is written as the object of its sorted form |
| EvidenceForms.IdentifiersCover | lib/Build/ArtifactEvidence.cpp:283-286 | its identifier is the hash of all of that but the identifier, under type and version |
| EvidenceForms.PathsArePortable | lib/Build/ArtifactEvidence.cpp:26-37 | a path is accepted if and only if it is a list of parts with slashes between them, each without control characters, separators of any system, or a dot or blank at its end |
| EvidenceForms.FoldsAlike | lib/Build/ArtifactEvidence.cpp:45-48 | names fold alike if and only if they differ in the case of the 26 letters alone |
| Sorting.SortForgetsOrder | lib/Build/ArtifactEvidence.cpp:79-88 | sorting distinct elements by a strict total order has one outcome, whatever order they come in |
| StubRestore.StubRewriter.StubFunctions | lib/Check/StubRewriter.cpp:31-69 | success keeps the first snapshot of every touched file; a refusal rolls every file back; an exception leaves the files as the generator's run left them |
| StubRestore.StubRewriter.Restore | lib/Check/StubRewriter.cpp:71-83 | writing the snapshots back restores the old contents of every file it arrives in; the files it does not arrive in are noticed unless a write breaks off behind the opening |
| StubRestore.PruningOrchestrator.VerifyStage | lib/Check/PruningOrchestrator.cpp:131-211 | whatever the build and test step does, throwing included, only files whose restore did not arrive differ afterwards, and a stage passes only if there are none that were noticed; when the generator throws, the files are left as its run left them |
| StubRestore.PruningOrchestrator.VerifyAllStages | lib/Check/PruningOrchestrator.cpp:213-243 | the same over all stages, with one result per stage and counts that add up; when the generator throws, the stages before have been restored and the one at hand has not |
| StubRestore.ExceptionLeavesStubs | lib/Check/StubRewriter.cpp:31-69 | whether the generator throws, what it has written by then, and so whether files are left changed, can be read off the script of names and replies before the run |
| StubRestore.RunIsPlanned | lib/Check/StubRewriter.cpp:31-69 | the run writes what the script plans: one stub per found name up to the first reply that is none |
| StubRestore.ThrowsChange | lib/Check/StubRewriter.cpp:31-69 | with stubs that change what they replace, a run leaves files changed by a throw if and only if the script comes to one and the first name whose file is found is stubbed |
| StubRestore.UnchangedExactlyIf | lib/Check/StubRewriter.cpp:31-69 | the same condition for any run of writes |
| StubRestore.StubLeftBehind | lib/Check/PruningOrchestrator.cpp:148-165 | such a run: the generator writes one stub and throws at the second function, and the file stays stubbed |
| StubRestore.CollectBranch | lib/Check/VerificationOrchestrator.cpp:306-319 | the stack walk collects exactly the functions reachable from the branch root |
| StubRestore.VerificationOrchestrator.RestoreAll | lib/Check/VerificationOrchestrator.cpp:330-344 | writing back once per file from its first stub restores the old contents |
| StubRestore.VerificationOrchestrator.VerifyBranch | lib/Check/VerificationOrchestrator.cpp:326-422 | whatever refuses, fails or throws, only files whose restore failed differ afterwards, even when stubs share a file |
| StubRestore.VerificationOrchestrator.VerifyBranches | lib/Check/VerificationOrchestrator.cpp:284-425 | each branch root of a pipeline is tested in order, and what is stubbed together is exactly what the edges lead to from it |
| StubRestore.VerificationOrchestrator.VerifyPipelineIndependence | lib/Check/VerificationOrchestrator.cpp:284-430 | over all pipelines with more than one root, one test per root and counts that add up; whatever fails or throws, only files whose restore failed differ |
| StubRestore.VerificationOrchestrator.VerifyStageIsolation | lib/Check/VerificationOrchestrator.cpp:158-282 | over all stages that hold several functions, each is stubbed alone and restored, in order, with counts that add up |
| StubRestore.MoreStubs | lib/Check/VerificationOrchestrator.cpp:330-360 | a further stub of a file leaves its first snapshot the right one |
| TestSelection.WhichBranches | lib/Check/VerificationOrchestrator.cpp:284-305 | a branch is tested from every called function of a pipeline that no edge leads to, as often as it is called, if there are two such places |
| TestSelection.WhichFunctions | lib/Check/VerificationOrchestrator.cpp:158-180 | a function is stubbed alone if and only if some block that is no pipeline calls it in a stage in which it calls at another place as well |
| SysMonitoring.Convert | lib/Profile/SysMonitoringNdjsonConverter.cpp:47-178 | each thread's samples are those of its own events alone, under any interleaving; a stream without samples is refused |
| SysMonitoring.ThreadSamplesAreOpenings | lib/Profile/SysMonitoringNdjsonConverter.cpp:139-172 | a thread's samples are its starts, each with the chain open at that start |
| SysMonitoring.SamplesAreStarts | lib/Profile/SysMonitoringNdjsonConverter.cpp:139-172 | over all threads the samples are exactly the starts with their chains, so there are as many samples as starts |
| ThreadCalls.SamplesOfCalls | lib/Profile/SysMonitoringNdjsonConverter.cpp:139-178 | a thread's samples are those of its calls: one for each, those it made first, with its start, its chain and its time, never negative; calls still running at the end get none |
| ThreadCalls.EventsAreCalls | lib/Profile/SysMonitoringNdjsonConverter.cpp:139-172 | every list of events of a thread is one of calls, nested in any way, running on, or returning without having begun |
| CpuProfile.IndexIds | lib/Profile/CpuProfileConverter.cpp:107-142 | succeeds if and only if no identifier is repeated |
| CpuProfile.BuildParents | lib/Profile/CpuProfileConverter.cpp:144-187 | succeeds if and only if every child is known and listed once, and then maps each node to the one that lists it |
| CpuProfile.Pigeonhole | lib/Profile/CpuProfileConverter.cpp:300-317 | more steps than nodes means some node was met twice |
| CpuProfile.EndsSoonOrNever | lib/Profile/CpuProfileConverter.cpp:300-320 | a parent walk has ended after as many steps as there are nodes, or never ends |
| CpuProfile.WalkUp | lib/Profile/CpuProfileConverter.cpp:304-322 | the hop guard rejects a sample if and only if its parent chain is cyclic; otherwise the stack is the chain from below the root |
| CpuProfile.FindRoot | lib/Profile/CpuProfileConverter.cpp:195-201 | the first node without a parent, if any |
| CpuProfile.ConvertSamples | lib/Profile/CpuProfileConverter.cpp:264-342 | succeeds if and only if every sampled node is known and its walk ends; the error tells which of the two the first refused sample lacks; times are the start plus the prefix sum of deltas, in nanoseconds, across skipped root samples too |
| CpuProfile.OneFirstBad | lib/Profile/CpuProfileConverter.cpp:264-342 | there is at most one first refused sample, so the error is determined |
| CpuProfile.ConvertProfile | lib/Profile/CpuProfileConverter.cpp:107-342 | the whole conversion, with the exact condition for each of the four errors |
| ProfilePaths.StackIsPath | lib/Profile/CpuProfileConverter.cpp:296-322 | the stack of a node is the way down to it from below the root, by the children lists alone |
| ProfilePaths.WayDown | lib/Profile/CpuProfileConverter.cpp:296-322 | there is such a way to every node that is not the root and whose walk ends |
| ProfilePaths.EventsTell | lib/Profile/CpuProfileConverter.cpp:264-342 | one event for each sample not at the root, in order, with the sum of all time steps so far and the way down to the node |
| AttestationCache.Verifier.CachedResult | lib/Build/ArtifactAttestation.cpp:191-229 | a record is used if and only if all its fields fit the lookup and the clock, as read then, lies in its life |
| AttestationCache.Verifier.Justified | lib/Build/ArtifactAttestation.cpp:184-229 | a usable record is backed by an earlier call that ran the verifier with success between two readings of the same key and store, for the same purpose, epoch and age limit |
| AttestationCache.Verifier.TryCache | lib/Build/ArtifactAttestation.cpp:368-387 | a hit is exactly the readings of artifact, clock, the same key again and the clock again, with the record still alive at the last one |
| AttestationCache.Verifier.VerifyCached | lib/Build/ArtifactAttestation.cpp:355-420 | over any history, a hit is justified by an earlier success for the key and store read in this call, started by the lookup and still young enough at the last reading of the clock; it changes nothing; any other answer is the verifier's own in this call |
| AttestationCache.Verifier.VerifyFresh | lib/Build/ArtifactAttestation.cpp:388-415 | the store changes only by one record, of a success completed in this call, dated from the clock read before the verifier ran |
| AttestationCache.Verifier.Publish | lib/Build/ArtifactAttestation.cpp:398-411 | the published record is the one that backs the success just completed |
| AttestationCache.Verifier.NotInThisCall | lib/Build/ArtifactAttestation.cpp:355-368 | a call that has only just begun cannot justify itself |
| SummaryTemplate.ParseTemplate | lib/Debug/SummaryRenderer.cpp:27-108 | the index-and-literal loop parses as the function says, error for error |
| SummaryResults.PrintedReads | lib/Debug/SummaryRenderer.cpp:27-108 | literals with doubled braces and padded placeholders are read back |
| SummaryResults.WasPrinted | lib/Debug/SummaryRenderer.cpp:27-108 | whatever is accepted is the printed form of its segments |
| SummaryResults.AcceptsExactlyPrinted | lib/Debug/SummaryRenderer.cpp:27-108 | a template is accepted as given segments if and only if it is a printed form of them |
| SummaryResults.DistinctPlaceholders | lib/Debug/SummaryRenderer.cpp:110-118 | the loop computes the list of first occurrences |
| SummaryResults.DistinctIsDistinct | lib/Debug/SummaryRenderer.cpp:110-118 | that list has no repeats and holds exactly the placeholders |
| SummaryResults.Render | lib/Debug/SummaryRenderer.cpp:120-160 | the resolver is called once per distinct placeholder in order of first occurrence; every call but the last of a failed rendering succeeded, and the last one failed; the output fills every segment in its place |
| LspCodec.EncodePath | lib/LSP/LSPBridge.cpp:928-947 | the loop computes the percent encoding |
| LspCodec.DecodePath | lib/LSP/LSPBridge.cpp:970-981 | the loop computes the decoding, a percent sign without two hexadecimal digits standing for itself |
| LspCodec.DecodingUndoesEncoding | lib/LSP/LSPBridge.cpp:920-981 | decoding gives back every byte string that was encoded |
| LspCodec.EncodedIsWellCoded | lib/LSP/LSPBridge.cpp:928-947 | encoded text holds only unreserved characters, slash, colon and complete escapes (sections 2.1 and 2.3 of RFC 3986) |
| LspCodec.TextsComeBack | lib/LSP/LSPBridge.cpp:950-992 | a text comes back from its URI if and only if it starts with a slash and is not taken for a drive, or starts with a drive on Windows |
| LspCodec.PathsComeBack | lib/LSP/LSPBridge.cpp:905-992 | so every path comes back in its absolute form when the file system gives one |
| LspCodec.UnresolvedPathsDoNot | lib/LSP/LSPBridge.cpp:905-992 | without one, a relative path comes back if and only if the text condition happens to hold, so never on POSIX |
| LspCodec.WhatStays | lib/LSP/LSPBridge.cpp:928-947 | the 68 characters that stand for themselves, written out; any other becomes a percent sign and two upper-case digits |
| LspCodec.UrisOfPaths | lib/LSP/LSPBridge.cpp:905-955 | the URI of a path, and of one the file system completes, spelled out |
| LspCodec.CompleteOnWindows | lib/LSP/LSPBridge.cpp:905-927 | which paths are complete on Windows |
| LspFraming.ReadBody | lib/LSP/LSPBridge.cpp:419-426 | the body arrives whole under any chunking of the reads |
| LspFraming.ReadMessage | lib/LSP/LSPBridge.cpp:381-433 | reads the frame the function defines, or loses the connection |
| LspFraming.StoiOfDigits | lib/LSP/LSPBridge.cpp:409-413 | the printed length is read back if and only if it fits an int |
| LspFraming.FramesAreRead | lib/LSP/LSPBridge.cpp:374-433 | a written message is read back and what follows it is left, if and only if its body is neither empty nor longer than an int can say; otherwise the connection is lost |
| LspFraming.AllFramesAreRead | lib/LSP/LSPBridge.cpp:374-433 | so is any sequence of messages |
| LspFraming.FrameText | lib/LSP/LSPBridge.cpp:374-379 | what goes out for a message |
| LspRequests.AnswersMatch | lib/LSP/LSPBridge.cpp:287-363 | in every interleaving an answer is the last message stored under the identifier of the request that waits, and each request ends once, so late answers are never handed out |
| LspRequests.AnswersFollow | lib/LSP/LSPBridge.cpp:453-461 | if the server only ever answers, an answer was received after its request was sent |
| LspRequests.EarlyExactlyIfPending | lib/LSP/LSPBridge.cpp:287-363 | the request about to be sent can be answered by a message received before it if and only if the table already holds its identifier |
| LspRequests.StoredIsPending | lib/LSP/LSPBridge.cpp:453-461 | what was stored and not touched since is in the table |
| LspRequests.EarlyMessageIsTaken | lib/LSP/LSPBridge.cpp:453-461 | an instance: a message of the server's own with the next identifier is taken for the answer to a later request |
| LspRequests.LateAnswersStay | lib/LSP/LSPBridge.cpp:310-313 | clearing the entry at a timeout does not keep a late answer out of the table |
| LspRequests.ClosedOnce | lib/LSP/LSPBridge.cpp:293-360 | no identifier is ever closed twice |

## Left out

- Declarations.ParseTopoFile: the syntax trees of declarations are not built; the declaration parsers say what they accept, consume and report, and not what they make of it. On tokens whose places do not move on, such as the formatter's, they are proved to end and not tied to the grammar. `parseComptimeDecl` (lib/Parser/Parser.cpp:2434-2509), which nothing calls, is not modelled.
- TokenBuffer.Parser.Advance: the tokens behind the current one are a list the lexer has already made, so the errors the lexer reports while scanning do not count against the parser's cap when a text is parsed directly; a file with lexical errors reaches the cap earlier than in the model. An end of file in the middle of a token buffer is not modelled.
- LeafDeclarations.ParseCardinalityValue: the values of hints are checked for their range and not kept.
- PipelineResults.ErrorsStayLocal: bad statements are those that start no edge or break off behind the arrow, end in a semicolon, and hold neither a closing brace nor a keyword recovery stops at.
- Lexing.Lexer.NextToken: preserved comments, lenient-mode transform records and token end places are not modelled.
- Rewriting.TokenStreamRewriter.Rewrite: the records of what was rewritten, which the formatter prints, are not modelled.
- Lexing.Lexer.ScanIdentifierOrKeyword: letters and digits are the ASCII ones; locale-dependent character classes are not modelled.
- TemplateEngine.RenderTemplateText: the shown form of numbers and the compact dump of arrays and objects are parameters.
- Sha256Stream.Sha256File: the file is a sequence of chunks with the stream's final state; file-system queries are parameters.
- CommandLine.BuildCommandLine: conversion to wide characters is not modelled.
- FileGlob.CollectMatches: directory iteration errors, permission failures and `..` components are not modelled; a directory is a finite tree with links.
- Priority.AnalyzePriority: the hash map's iteration order is represented by arbitrary lists.
- EvidenceCodec.ReadManifest: JSON is a tree of values with 64-bit integers; fractions, its text form, the size limit on files and the staging and renaming of files are not modelled. Absolute link targets are the POSIX ones.
- ExecutionChain.ExecutionRecorder.Record: snapshots, environment capture and running the command are parameters; only the part under the lock is modelled.
- StubRestore.PruningOrchestrator.VerifyStage: the grouping of functions into stages (`buildStageGroups`) is a parameter, as are running build and test.
- SysMonitoring.Convert: events are given as parsed records; 64-bit overflow of time differences and the summary counts are not modelled.
- CpuProfile.ConvertProfile: frames are given as text, source-map resolution and the summary are not modelled, and times are unbounded integers.
- AttestationCache.Verifier.VerifyCached: file protection, locking and the verifier's own checks are parameters; nobody else can forge a record.
- LspCodec.PathsComeBack: the file system's absolute form of a path is a parameter, which may be missing.
- LspFraming.ReadMessage: the body is the text handed to the JSON parser.
- LspRequests.AnswersMatch: waiting is a choice of steps without real time; identifiers do not overflow.
- Captured process output (`lib/Platform/Process.cpp`), Landlock rules, process spawning and access-control checks: calls into the operating system.
- `lib/Build/SymbolTableJson.cpp`: a field-by-field copy to JSON and back, which would only add easy members.
- Semantic analysis, code generation, formatting, configuration, command-line front ends and report printing.
