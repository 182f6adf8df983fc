# compiler-creator, modelled in Dafny

compiler-creator is a small Java toolkit for building compilers. It has six parts, and this project models each of them:

- **Lexer.** Ordered rules, each a regular expression plus an action, scan the input. Each rule uses one of three matching strategies: GREEDY, SPAN or MAX.
- **Grammar and parser.** Phrases are ordered lists of sentences. A backtracking recursive-descent parser builds a tree of symbol nodes and reports syntax errors through a failure-site tracker.
- **Symbol trees.** Queries over the parsed tree.
- **Symbol table.** A stack of scopes.
- **Extension engine.** Hooks are sorted into buckets per hook point and run in ascending sequence order.
- **Compiler pipeline.** Lex, parse, analyze, then generate.

It also models the bundled JSON compiler: its lexer rules, its grammar, the duplicate-key analyzer, the tree-to-model generator, and the JSON property model with its path-expression evaluator.

The model follows the source's own shape:
- Code that mutates objects becomes Dafny classes with `modifies` clauses: the scan context, the builders, the parse failure site, the scope and the symbol table.
- The loops become methods. Each method is proved equal to a specification function.
- Pure logic becomes datatypes, functions and lemmas.

Modules, one per file (the file name follows the module):

| file | module | Java counterpart |
|---|---|---|
| wrappers.dfy | Wrappers | `Option`/`Result` for absent values and thrown exceptions |
| failures.dfy | Failures | the exceptions the source throws, with their messages |
| text.dfy | Text | `String.valueOf`, `Integer.parseInt`, `Long.parseLong`, `trim`, `split`, `replace`, `indexOf` |
| tokens.dfy | Components, Tokens | `GrammarComponent`, `Token`, `SimpleToken`, `IgnoredToken`, `MatchingStrategy` |
| scan_context.dfy | Scanning | `ScanContext` |
| lexer.dfy, lexer_properties.dfy | Lexing, LexerProperties | `Lexer` and `Lexer.Builder` |
| symbol_tree_node.dfy, symbol_tree.dfy | SymbolTreeNodes, SymbolTrees | `SymbolTreeNode`, `SymbolTree` |
| grammar.dfy | Grammars | `Phrase`, `Grammar` and their builders |
| parser.dfy, parser_properties.dfy, parse_trees.dfy, parser_examples.dfy | Parsing, ParserProperties, ParseTrees, ParserExamples | `Parser`, `ParseFailureSite`, `Parser.Builder`, the parser unit tests |
| scope.dfy | Scopes, ScopeExamples | `Scope`, `SymbolTable` |
| hooks.dfy | Hooks, HookExamples | `HookPoint`, `AbstractHook`, the four adapted hooks, `ExtensionExecutionEngine` |
| compiler.dfy | Compiling | `Compiler` and `Compiler.Builder` |
| pair.dfy | Pairs, PairExamples | `Pair` |
| json_lexer.dfy | JsonLexing | `JsonLexerFactory` |
| json_parser.dfy, json_trees.dfy | JsonParsing, JsonTrees | `JsonParserFactory`, and the shape of the trees its grammar derives |
| json_analyzer.dfy | JsonAnalysis | `JsonSemanticAnalyzer` |
| json_generator.dfy | JsonGeneration | `JsonModelGenerator` |
| json_model.dfy | JsonModel | `JsonProperty`, `ObjectProperty`, `ArrayProperty`, `NullProperty`, `MissingProperty`, `Json` |
| json_compiler.dfy | JsonCompiling | `JsonCompiler` |

Each member below is listed with the lines of the Java source it models. The third column says what its contract, or the lemma, states.

## Model

| member | source | states |
|---|---|---|
| Tokens.SimpleToken | src/main/java/dev/houshce29/cc/lex/SimpleToken.java:20-24 | the token keeps the given id, value and line and is not ignored |
| Tokens.FixedToken | src/main/java/dev/houshce29/cc/lex/SimpleToken.java:32-34 | id and value are both the one argument; the line is kept; not ignored |
| Tokens.IgnoredToken | src/main/java/dev/houshce29/cc/lex/IgnoredToken.java:17-31 | the token keeps the given id, value and line and is always ignored |
| Tokens.DefaultIgnoredToken | src/main/java/dev/houshce29/cc/lex/IgnoredToken.java:7-26 | the placeholder is ignored, with id "__CC_IGNORED_TOKEN__", value "" and line -1 |
| Tokens.TokenEqualsIsEquivalence | src/main/java/dev/houshce29/cc/lex/SimpleToken.java:60-68 | token equality (same id and value, line ignored) is reflexive, symmetric and transitive |
| Tokens.TokenHash | src/main/java/dev/houshce29/cc/lex/SimpleToken.java:70-73 | the hash is a Java int |
| Tokens.TokenEquals | src/main/java/dev/houshce29/cc/lex/SimpleToken.java:60-68 | a token equals itself as a component, and equal tokens have equal hashes |
| Tokens.TokenToString | src/main/java/dev/houshce29/cc/lex/SimpleToken.java:9-77 | the text is the identifier, then ": ", then the value, nothing else |
| Tokens.EqualTokensHashAlike | src/main/java/dev/houshce29/cc/lex/SimpleToken.java:60-73 | tokens that are equal have equal hash codes |
| Tokens.TokenToStringDistinguishes | src/main/java/dev/houshce29/cc/lex/SimpleToken.java:75-78 | for ids without ':', equal "id: value" renderings imply equal tokens |
| Tokens.Cast | src/main/java/dev/houshce29/cc/lex/Token.java:43-48 | succeeds exactly on tokens, returning the token; otherwise IllegalArgument "<id> was expected to be a token." |
| Tokens.ValueOf | src/main/java/dev/houshce29/cc/lex/Token.java:56-58 | succeeds exactly on tokens with their value; otherwise the failure of cast |
| Scanning.IgnoreAction | src/main/java/dev/houshce29/cc/lex/ScanContext.java:47-49 | the action yields an ignored token and leaves line and variables alone |
| Scanning.IncrementLineNumberAndIgnoreAction | src/main/java/dev/houshce29/cc/lex/ScanContext.java:39-42 | the action yields an ignored token, one line further, variables unchanged |
| Scanning.IncrementLineNumberAndReturnAction | src/main/java/dev/houshce29/cc/lex/ScanContext.java:56-59 | the action yields the given token, one line further, variables unchanged |
| Scanning.ScanContext.constructor | src/main/java/dev/houshce29/cc/lex/ScanContext.java:14-16 | a new context is on line 1 with nothing captured and no variables |
| Scanning.ScanContext.IncrementLineNumber | src/main/java/dev/houshce29/cc/lex/ScanContext.java:31-33 | the line grows by one and nothing else changes |
| Scanning.ScanContext.IncrementLineNumberAndIgnore | src/main/java/dev/houshce29/cc/lex/ScanContext.java:39-42 | same token and new state as the action; the captured value is untouched |
| Scanning.ScanContext.Ignore | src/main/java/dev/houshce29/cc/lex/ScanContext.java:47-49 | returns the default ignored token |
| Scanning.ScanContext.IncrementLineNumberAndReturn | src/main/java/dev/houshce29/cc/lex/ScanContext.java:56-59 | returns the given token one line further, as the action does |
| Scanning.ScanContext.Capture | src/main/java/dev/houshce29/cc/lex/ScanContext.java:74-76 | only the captured value changes, to the argument |
| Scanning.ScanContext.Commit | src/main/java/dev/houshce29/cc/lex/Lexer.java:149-150 | the action's line and variable writes become the context's state; the capture stays |
| Lexing.GetToken | src/main/java/dev/houshce29/cc/lex/Lexer.java:140-164 | no match exactly when the regex rejects the candidate; a match has captured the candidate and holds the token the action produced |
| Lexing.ScanRule | src/main/java/dev/houshce29/cc/lex/Lexer.java:59-109 | a consumed token always moves the scan position forward, never past the end |
| Lexing.TryRules | src/main/java/dev/houshce29/cc/lex/Lexer.java:53-110 | trying the rules in order either consumes at least one character or consumes nothing |
| Lexing.ApplyRule | src/main/java/dev/houshce29/cc/lex/Lexer.java:140-164 | agrees with the getToken specification and leaves the context alone when nothing matches |
| Lexing.ScanWithRule | src/main/java/dev/houshce29/cc/lex/Lexer.java:56-109 | the end-position loop computes exactly the specified outcome for one provider |
| Lexing.Lex | src/main/java/dev/houshce29/cc/lex/Lexer.java:42-118 | the three nested loops compute exactly the specified token list or error |
| Lexing.LexFrom | src/main/java/dev/houshce29/cc/lex/Lexer.java:48-115 | the scan only appends: the tokens kept so far are a prefix of the result |
| Lexing.LexSpec | src/main/java/dev/houshce29/cc/lex/Lexer.java:42-118 | empty input gives the after-function applied to no tokens; lexing fails exactly when the scan fails, the model's after-function being a total function (see `Lexing.LexSpec` under Left out) |
| Lexing.LexerBuilder.constructor | src/main/java/dev/houshce29/cc/lex/Lexer.java:177-181 | a new builder has no rules and no after-function |
| Lexing.LexerBuilder.Create | src/main/java/dev/houshce29/cc/lex/Lexer.java:286-288 | appends one token-producing rule at the end; order is declaration order |
| Lexing.LexerBuilder.Error | src/main/java/dev/houshce29/cc/lex/Lexer.java:297-299 | appends one error-raising rule at the end |
| Lexing.LexerBuilder.After | src/main/java/dev/houshce29/cc/lex/Lexer.java:222-225 | the after-function is replaced; the rules are kept |
| Lexing.LexerBuilder.AfterTokens | src/main/java/dev/houshce29/cc/lex/Lexer.java:235-238 | the after-function ignores the raw input and applies the given one to the tokens |
| Lexing.LexerBuilder.Build | src/main/java/dev/houshce29/cc/lex/Lexer.java:244-249 | a missing after-function becomes the no-op; the lexer holds the builder's rules |
| LexerProperties.ProducedByGetToken | src/main/java/dev/houshce29/cc/lex/Lexer.java:145-159 | a matched candidate's token is what the rule's action returns for that text |
| LexerProperties.EmptyInputGivesNoTokens | src/main/java/dev/houshce29/cc/lex/Lexer.java:42-48 | empty input yields the after-function applied to no tokens, whatever the rules |
| LexerProperties.NoMatchFrom | src/main/java/dev/houshce29/cc/lex/Lexer.java:59-109 | a rule none of whose prefixes matches consumes nothing and leaves the whole rest scanned |
| LexerProperties.NoMatchingPrefixSkips | src/main/java/dev/houshce29/cc/lex/Lexer.java:59-109 | no matching prefix at the position: the rule is skipped |
| LexerProperties.GreedyFrom | src/main/java/dev/houshce29/cc/lex/Lexer.java:65-83 | from any end position before it, GREEDY takes the next matching prefix |
| LexerProperties.GreedyTakesShortestMatch | src/main/java/dev/houshce29/cc/lex/Lexer.java:65-83 | GREEDY consumes the shortest matching prefix |
| LexerProperties.SpanFrom | src/main/java/dev/houshce29/cc/lex/Lexer.java:85-108 | from any point in the first run of matches, SPAN takes the last prefix of that run |
| LexerProperties.SpanTakesFirstRun | src/main/java/dev/houshce29/cc/lex/Lexer.java:85-108 | SPAN consumes the longest prefix of the first run of matching prefixes |
| LexerProperties.MaxFrom | src/main/java/dev/houshce29/cc/lex/Lexer.java:98-108 | from any end position, MAX takes the last matching prefix up to the end of input |
| LexerProperties.MaxTakesLongestMatch | src/main/java/dev/houshce29/cc/lex/Lexer.java:98-108 | MAX consumes the longest matching prefix up to the end of the input |
| LexerProperties.SkippedScanReachesEnd | src/main/java/dev/houshce29/cc/lex/Lexer.java:59-61 | a skipped provider leaves 'scanned' as the rest of the input |
| LexerProperties.SkippedRulesReachEnd | src/main/java/dev/houshce29/cc/lex/Lexer.java:52-61 | when every provider is skipped, 'scanned' is the rest of the input |
| LexerProperties.InvalidTokenQuotesRest | src/main/java/dev/houshce29/cc/lex/Lexer.java:111-114 | no rule consuming: "Invalid token [rest of input] on line n." |
| LexerProperties.NoRulesRejectsInput | src/main/java/dev/houshce29/cc/lex/Lexer.java:111-114 | with no rules, non-empty input fails as invalid token [] on line 1 |
| LexerProperties.LexFromKeepsUnignored | src/main/java/dev/houshce29/cc/lex/Lexer.java:77-106 | the scan only appends, and only tokens that are not ignored |
| LexerProperties.OutputHasNoIgnoredTokens | src/main/java/dev/houshce29/cc/lex/Lexer.java:36-48 | without an after-function, the result holds no ignored token |
| LexerProperties.DefaultLexerRejectsInput | src/main/java/dev/houshce29/cc/lex/Lexer.java:17-20 | the default lexer fails on every non-empty input: "No lexer definition for this compiler." unless the first character ends a line |
| SymbolTreeNodes.LeavesOfAppend | src/main/java/dev/houshce29/cc/parse/SymbolTreeNode.java:73-84 | appending a child appends that child's token leaves |
| SymbolTreeNodes.TokenCount | src/main/java/dev/houshce29/cc/parse/SymbolTreeNode.java:73-84 | the count is the number of token leaves at any depth below the node |
| SymbolTreeNodes.Is | src/main/java/dev/houshce29/cc/parse/SymbolTreeNode.java:94-105 | true exactly when the sentence has the children's length and names each child's id in order |
| SymbolTreeNodes.IndexOf | src/main/java/dev/houshce29/cc/parse/SymbolTreeNode.java:113-120 | the smallest index whose child has the word as id, and -1 exactly when there is none |
| SymbolTreeNodes.Contains | src/main/java/dev/houshce29/cc/parse/SymbolTreeNode.java:128-130 | true exactly when some child has the word as id |
| SymbolTreeNodes.CastNode | src/main/java/dev/houshce29/cc/parse/SymbolTreeNode.java:154-159 | succeeds exactly on nodes; otherwise IllegalArgument "<id> was expected to be a tree node." |
| SymbolTreeNodes.Get | src/main/java/dev/houshce29/cc/parse/SymbolTreeNode.java:43-45 | the child at an index in range, else an index-out-of-bounds failure |
| SymbolTreeNodes.GetNode | src/main/java/dev/houshce29/cc/parse/SymbolTreeNode.java:54-56 | succeeds exactly when the index is in range and that child is a node |
| SymbolTreeNodes.GetToken | src/main/java/dev/houshce29/cc/parse/SymbolTreeNode.java:65-67 | succeeds exactly when the index is in range and that child is a token, giving that token |
| SymbolTrees.Flatten | src/main/java/dev/houshce29/cc/parse/SymbolTree.java:100-112 | the listing starts with the root itself |
| SymbolTrees.FlattenAll | src/main/java/dev/houshce29/cc/parse/SymbolTree.java:103-110 | the children's flattenings hold every child, and are at least as many as the children |
| SymbolTrees.FlattenTokensAreLeaves | src/main/java/dev/houshce29/cc/parse/SymbolTree.java:100-112 | the tokens of the pre-order listing are exactly the tree's token leaves, in order |
| SymbolTrees.FlattenAllTokensAreLeaves | src/main/java/dev/houshce29/cc/parse/SymbolTree.java:103-110 | the tokens in the children's listings are the children's leaves, in order |
| SymbolTrees.FlattenAsString | src/main/java/dev/houshce29/cc/parse/SymbolTree.java:82-93 | same length and order as flatten, with "id" for nodes and "id:value" for tokens; the first entry is the root's id |
| SymbolTrees.FindNodes | src/main/java/dev/houshce29/cc/parse/SymbolTree.java:37-39 | every component found is a node with the requested id |
| SymbolTrees.Find | src/main/java/dev/houshce29/cc/parse/SymbolTree.java:121-123 | every component found matches the id and kind and lies in the tree below the root |
| SymbolTrees.Render | src/main/java/dev/houshce29/cc/parse/SymbolTree.java:84-91 | a node renders as its id; a token as its id, a colon and its value |
| SymbolTrees.FindTokens | src/main/java/dev/houshce29/cc/parse/SymbolTree.java:46-48 | as many tokens as find returns, each with the requested id |
| SymbolTrees.FindAmongIsFilter | src/main/java/dev/houshce29/cc/parse/SymbolTree.java:147-160 | the recursive search equals filtering the children's pre-order listing by kind and id |
| SymbolTrees.FindIsFilteredFlatten | src/main/java/dev/houshce29/cc/parse/SymbolTree.java:121-123 | find is flatten without the root, filtered by kind and id: pre-order, root excluded |
| SymbolTrees.Select | src/main/java/dev/houshce29/cc/parse/SymbolTree.java:130-172 | an empty path selects nothing |
| SymbolTrees.SelectFollowsFirstMatch | src/main/java/dev/houshce29/cc/parse/SymbolTree.java:173-183 | only the first child whose id is the path head is followed; later siblings are never tried |
| SymbolTrees.SelectWithoutMatch | src/main/java/dev/houshce29/cc/parse/SymbolTree.java:189-191 | when no child has the path head as id, nothing is selected |
| SymbolTrees.SelectedLiesBelow | src/main/java/dev/houshce29/cc/parse/SymbolTree.java:168-192 | a selected component has the last path element as id and lies below the node |
| Grammars.Blank | src/main/java/dev/houshce29/cc/parse/Phrase.java:48-50 | same length; every character but a line terminator becomes a space |
| Grammars.PhraseToString | src/main/java/dev/houshce29/cc/parse/Phrase.java:41-63 | the StringBuilder loops produce exactly the phrase's text |
| Grammars.PhraseText | src/main/java/dev/houshce29/cc/parse/Phrase.java:41-63 | the text starts with two blanks and the phrase id and ends with a line break |
| Grammars.AppendAlternatives | src/main/java/dev/houshce29/cc/parse/Phrase.java:52-60 | the sentence loop appends every alternative, separated by spacer and "\| " lines |
| Grammars.AppendWords | src/main/java/dev/houshce29/cc/parse/Phrase.java:53-55 | the word loop appends each word followed by a space |
| Grammars.AlternativesLines | src/main/java/dev/houshce29/cc/parse/Phrase.java:52-60 | the alternatives from sentence i on take one line per sentence |
| Grammars.AlternativeLine | src/main/java/dev/houshce29/cc/parse/Phrase.java:53-59 | one sentence takes exactly one line of the text |
| Grammars.PhraseTextLines | src/main/java/dev/houshce29/cc/parse/Phrase.java:41-63 | no sentences prints "  id" and a newline; otherwise one line per sentence |
| Grammars.SingleSentenceText | src/main/java/dev/houshce29/cc/parse/Phrase.java:42-56 | a single sentence prints "  id ::= " then each word and a space, then a newline |
| Grammars.PhraseBuilder.constructor | src/main/java/dev/houshce29/cc/parse/Phrase.java:76-78 | a new builder has the id and no sentences |
| Grammars.PhraseBuilder.AddSentence | src/main/java/dev/houshce29/cc/parse/Phrase.java:96-99 | the sentence is appended at the end, so order is declaration order |
| Grammars.PhraseBuilder.Build | src/main/java/dev/houshce29/cc/parse/Phrase.java:105-107 | the phrase has the builder's id and sentences |
| Grammars.GrammarBuilder.constructor | src/main/java/dev/houshce29/cc/parse/Grammar.java:54-57 | the root is registered under its own id and kept as the root |
| Grammars.GrammarBuilder.AddPhrase | src/main/java/dev/houshce29/cc/parse/Grammar.java:64-67 | inserts or overwrites the entry under the phrase's id; every entry stays keyed by its own id |
| Grammars.GrammarBuilder.AddPhraseBuilder | src/main/java/dev/houshce29/cc/parse/Grammar.java:74-76 | the same as adding what the phrase builder builds |
| Grammars.GrammarBuilder.Build | src/main/java/dev/houshce29/cc/parse/Grammar.java:82-84 | the grammar holds the builder's root and phrases, every value under its own id |
| Grammars.RootSurvivesOverwrite | src/main/java/dev/houshce29/cc/parse/Grammar.java:26-28 | getRoot returns the phrase given to from even after its map entry is replaced |
| Parsing.ParseFailureSite.constructor | src/main/java/dev/houshce29/cc/parse/Parser.java:171-177 | total and remaining distance are the list's size; the token is the first one, or the placeholder "" on line 1 |
| Parsing.ParseFailureSite.FailureToken | src/main/java/dev/houshce29/cc/parse/Parser.java:182-184 | returns the stored failure token |
| Parsing.ParseFailureSite.ReportToken | src/main/java/dev/houshce29/cc/parse/Parser.java:191-195 | the token is replaced only when the distance is below the remaining distance, which itself never changes |
| Parsing.ParseFailureSite.Report | src/main/java/dev/houshce29/cc/parse/Parser.java:201-205 | reporting a window stores its first token when it is non-empty and shorter than the full list |
| Parsing.ParseFailureSite.Clear | src/main/java/dev/houshce29/cc/parse/Parser.java:214-217 | back to the placeholder token and the full distance |
| Parsing.ParsePhrase | src/main/java/dev/houshce29/cc/parse/Parser.java:81-93 | a resolved node is named after the phrase and its leaves are a prefix of the window |
| Parsing.TrySentences | src/main/java/dev/houshce29/cc/parse/Parser.java:82-92 | the same promise for the sentence loop from sentence k on |
| Parsing.ParseSentence | src/main/java/dev/houshce29/cc/parse/Parser.java:103-144 | the same promise for the symbol loop; the site's total distance never changes |
| Parsing.ParseSpec | src/main/java/dev/houshce29/cc/parse/Parser.java:30-49 | a parsed tree is a node named after the root whose leaves are all the tokens, in order |
| Parsing.Parse | src/main/java/dev/houshce29/cc/parse/Parser.java:30-49 | the method computes exactly the specified tree or error |
| Parsing.ParseUsingPhrase | src/main/java/dev/houshce29/cc/parse/Parser.java:81-93 | the sentence loop, with clear and report on the site object, agrees with the specification |
| Parsing.ParseUsingSentence | src/main/java/dev/houshce29/cc/parse/Parser.java:103-144 | the depth loop appending children agrees with the specification |
| Parsing.Applied | src/main/java/dev/houshce29/cc/parse/Parser.java:266-273 | the first application creates the grammar rooted at the phrase; later ones add or overwrite the phrase's entry |
| Parsing.AppliedWellFormed | src/main/java/dev/houshce29/cc/parse/Parser.java:266-273 | applying a phrase keeps every entry under its own id and the root registered |
| Parsing.ParserBuilder.constructor | src/main/java/dev/houshce29/cc/parse/Parser.java:227-229 | the current phrase is the root id with no sentences, and there is no grammar yet |
| Parsing.ParserBuilder.Sentence | src/main/java/dev/houshce29/cc/parse/Parser.java:236-239 | the sentence is appended to the current phrase; the grammar is untouched |
| Parsing.ParserBuilder.ApplyCurrentPhrase | src/main/java/dev/houshce29/cc/parse/Parser.java:266-273 | the current phrase is applied to the grammar |
| Parsing.ParserBuilder.Branch | src/main/java/dev/houshce29/cc/parse/Parser.java:246-250 | the current phrase is applied, then a new empty phrase with the id is started |
| Parsing.ParserBuilder.Build | src/main/java/dev/houshce29/cc/parse/Parser.java:256-259 | the current phrase is applied and the parser holds the resulting well-formed grammar |
| ParserProperties.PhraseOutcomeIgnoresSite | src/main/java/dev/houshce29/cc/parse/Parser.java:81-93 | whether and how a phrase parses does not depend on the failure site |
| ParserProperties.SentencesOutcomeIgnoreSite | src/main/java/dev/houshce29/cc/parse/Parser.java:82-88 | the sentence loop's outcome does not depend on the failure site |
| ParserProperties.SentenceOutcomeIgnoresSite | src/main/java/dev/houshce29/cc/parse/Parser.java:111-143 | a sentence's outcome does not depend on the failure site |
| ParserProperties.TriesInOrder | src/main/java/dev/houshce29/cc/parse/Parser.java:82-88 | the loop's outcome is that of the first sentence that does not fail |
| ParserProperties.FirstDecisiveSentenceWins | src/main/java/dev/houshce29/cc/parse/Parser.java:82-88 | a phrase returns the first sentence that resolves (or overflows); later alternatives are never tried |
| ParserProperties.AllFail | src/main/java/dev/houshce29/cc/parse/Parser.java:82-92 | when every sentence fails the loop fails |
| ParserProperties.NoSentenceResolves | src/main/java/dev/houshce29/cc/parse/Parser.java:82-92 | a phrase whose every sentence fails does not resolve |
| ParserProperties.SymbolIsPhrase | src/main/java/dev/houshce29/cc/parse/Parser.java:116-128 | a symbol naming a phrase is parsed on the suffix of the window; its node is appended and the depth grows by its token count |
| ParserProperties.SymbolIsTerminal | src/main/java/dev/houshce29/cc/parse/Parser.java:129-139 | any other symbol is a terminal matched by id equality; a mismatch fails the sentence |
| ParserProperties.WindowExhausted | src/main/java/dev/houshce29/cc/parse/Parser.java:112-115 | a symbol left when the window is used up fails the sentence |
| ParserProperties.SentenceComplete | src/main/java/dev/houshce29/cc/parse/Parser.java:141-143 | a sentence traversed to its end resolves to a node holding the children gathered |
| ParserProperties.TerminalsFrom | src/main/java/dev/houshce29/cc/parse/Parser.java:111-143 | from position j, an all-terminal sentence resolves iff the following window ids spell it, with those tokens as children |
| ParserProperties.TerminalStep | src/main/java/dev/houshce29/cc/parse/Parser.java:129-139 | one terminal step: consume a matching token or report and fail |
| ParserProperties.TerminalSentence | src/main/java/dev/houshce29/cc/parse/Parser.java:103-144 | an all-terminal sentence resolves iff the window starts with tokens of those ids, and its node holds exactly those tokens |
| ParserProperties.AmbiguousPhrase | src/main/java/dev/houshce29/cc/parse/Parser.java:81-93 | AMBIGUOUS ::= AMBIGUOUS recurses until the bound on any non-empty window |
| ParserProperties.AmbiguousGrammarIsTooDeep | src/main/java/dev/houshce29/cc/parse/Parser.java:46-48 | that grammar surfaces as "FATAL: Parser's grammar is too deep or left-ambiguous.", never as a syntax error |
| ParserProperties.AmbiguousGrammarOnNoTokens | src/main/java/dev/houshce29/cc/parse/Parser.java:34-37 | on no tokens the same grammar fails with a syntax error near the placeholder token |
| ParserProperties.DefaultParserRejects | src/main/java/dev/houshce29/cc/parse/Parser.java:14-14 | DEFAULT_PARSER's root "<EMPTY>" has no sentences, so every token list is a syntax error near its first token or the placeholder |
| ParserProperties.LatestReportWins | src/main/java/dev/houshce29/cc/parse/Parser.java:191-205 | since the remaining distance is never lowered, the latest report of a shorter window decides the failure token |
| ParseTrees.PhraseDerives | src/main/java/dev/houshce29/cc/parse/Parser.java:81-93 | a resolved phrase node is derived by the grammar |
| ParseTrees.SentencesDerive | src/main/java/dev/houshce29/cc/parse/Parser.java:82-88 | a node resolved by the sentence loop is derived by the grammar |
| ParseTrees.SentenceFits | src/main/java/dev/houshce29/cc/parse/Parser.java:111-140 | the children of a resolved sentence match the sentence symbol by symbol |
| ParseTrees.ParsedTreeDerives | src/main/java/dev/houshce29/cc/parse/Parser.java:30-44 | every tree parse returns is a derivation of the grammar from its root |
| ParserExamples.BuildAdderParser | src/test/java/dev/houshce29/cc/parse/TU_Parser.java:27-34 | the test's builder calls give exactly the ADDER grammar |
| ParserExamples.ExpressionOfLiteral | src/test/java/dev/houshce29/cc/parse/TU_Parser.java:27-34 | EXPRESSION resolves a LITERAL token through its first sentence |
| ParserExamples.AddOfLiterals | src/test/java/dev/houshce29/cc/parse/TU_Parser.java:27-34 | ADD resolves LITERAL PLUS LITERAL into EXPRESSION PLUS EXPRESSION |
| ParserExamples.Parenthesised | src/test/java/dev/houshce29/cc/parse/TU_Parser.java:27-34 | EXPRESSION resolves "( 2 + 3 )" through its second sentence |
| ParserExamples.OuterAdd | src/test/java/dev/houshce29/cc/parse/TU_Parser.java:19-21 | ADD resolves the whole of "1 + (2 + 3)" |
| ParserExamples.AdderParses | src/test/java/dev/houshce29/cc/parse/TU_Parser.java:38-39 | the test's token list parses to the expected tree |
| ParserExamples.AdderFlatten | src/test/java/dev/houshce29/cc/parse/TU_Parser.java:49-64 | flatten lists the 14 components in the pre-order the unit test expects |
| Scopes.Innermost | src/main/java/dev/houshce29/cc/analyze/SymbolTable.java:93-97 | the highest level binding the symbol, or -1; no higher level binds it |
| Scopes.Lookup | src/main/java/dev/houshce29/cc/analyze/SymbolTable.java:104-107 | nothing is found exactly when no scope binds the symbol |
| Scopes.Shadowing | src/main/java/dev/houshce29/cc/analyze/SymbolTable.java:93-107 | a binding in the innermost scope is what lookup finds, and it leaves other symbols' lookups alone |
| Scopes.LookThrough | src/main/java/dev/houshce29/cc/analyze/SymbolTable.java:93-97 | scopes that do not bind the symbol are looked through to the outer ones |
| Scopes.Scope.constructor | src/main/java/dev/houshce29/cc/analyze/Scope.java:19-22 | the level is fixed at construction and the scope starts empty |
| Scopes.Scope.Put | src/main/java/dev/houshce29/cc/analyze/Scope.java:29-31 | afterwards get returns the data and contains holds; a later put overwrites |
| Scopes.Scope.Get | src/main/java/dev/houshce29/cc/analyze/Scope.java:39-41 | the bound data, or none exactly when the symbol is absent |
| Scopes.Scope.Contains | src/main/java/dev/houshce29/cc/analyze/Scope.java:48-50 | true exactly when get finds data |
| Scopes.Scope.Remove | src/main/java/dev/houshce29/cc/analyze/Scope.java:57-59 | returns the prior data, drops the symbol and leaves all other symbols unchanged |
| Scopes.SymbolTable.constructor | src/main/java/dev/houshce29/cc/analyze/SymbolTable.java:21-24 | a new table is empty with level -1 |
| Scopes.SymbolTable.OpenScope | src/main/java/dev/houshce29/cc/analyze/SymbolTable.java:29-31 | appends a fresh empty scope at level old + 1, keeping level == number of scopes - 1 |
| Scopes.SymbolTable.CloseScope | src/main/java/dev/houshce29/cc/analyze/SymbolTable.java:36-40 | drops the innermost scope and decrements the level; does nothing on an empty table |
| Scopes.SymbolTable.Put | src/main/java/dev/houshce29/cc/analyze/SymbolTable.java:48-53 | opens a scope when there is none, then binds only in the innermost scope |
| Scopes.SymbolTable.GetScope | src/main/java/dev/houshce29/cc/analyze/SymbolTable.java:67-72 | none exactly when the level is negative or above the current level; otherwise that scope |
| Scopes.SymbolTable.GetCurrentScope | src/main/java/dev/houshce29/cc/analyze/SymbolTable.java:77-79 | none exactly when the table is empty; otherwise the innermost scope |
| Scopes.SymbolTable.FindLatestScope | src/main/java/dev/houshce29/cc/analyze/SymbolTable.java:93-97 | the highest-level scope containing the symbol, none when no scope has it |
| Scopes.SymbolTable.FindLatest | src/main/java/dev/houshce29/cc/analyze/SymbolTable.java:104-107 | the innermost binding's data, so inner definitions shadow outer ones |
| Scopes.ShadowThenClose | src/test/java/dev/houshce29/cc/analyze/TU_SymbolTable.java:24-38 | opening a scope, shadowing a symbol and closing the scope restores every outer binding unchanged |
| ScopeExamples.FooTable | src/test/java/dev/houshce29/cc/analyze/TU_SymbolTable.java:19-22 | the table has one scope binding "foo" to "int" |
| ScopeExamples.OuterTable | src/test/java/dev/houshce29/cc/analyze/TU_SymbolTable.java:19-23 | one scope binding "foo" and "bar" |
| ScopeExamples.NestedTable | src/test/java/dev/houshce29/cc/analyze/TU_SymbolTable.java:24-27 | a second scope at level 1 binding "foo" to "string" |
| ScopeExamples.NestedScopes | src/test/java/dev/houshce29/cc/analyze/TU_SymbolTable.java:15-41 | the test's levels and lookups before and after closing the inner scope |
| Hooks.SequenceNumber | src/main/java/dev/houshce29/cc/extensions/HookPoint.java:10-74 | every sequence number lies in -1..9, and only ON_FAILURE has -1 |
| Hooks.SequenceNumbersFollowDeclaration | src/main/java/dev/houshce29/cc/extensions/HookPoint.java:10-61 | the eleven points, in declaration order, number -1 to 9, strictly increasing and pairwise distinct |
| Hooks.MakeHook | src/main/java/dev/houshce29/cc/extensions/AbstractHook.java:26-29 | the stored sequence is max(sequence, 0): unchanged when non-negative, else 0; name, adapter and point kept |
| Hooks.DefaultHook | src/main/java/dev/houshce29/cc/extensions/AbstractHook.java:15-17 | the one-argument constructor gives sequence 0 |
| Hooks.ThrowableHook | src/main/java/dev/houshce29/cc/extensions/api/internal/ThrowableAdaptedHook.java:11-13 | always at ON_FAILURE, with the sequence clamped to be non-negative |
| Hooks.Execute | src/main/java/dev/houshce29/cc/extensions/api/internal/RawInputAdaptedHook.java:21-25 | the hook's own logic runs once, on its leading arguments, exactly when the adapter's type test accepts the payload |
| Hooks.ExtraArgumentsIgnored | src/main/java/dev/houshce29/cc/extensions/api/internal/TokenListAdaptedHook.java:24-28 | arguments after the ones the adapter looks at change nothing |
| Hooks.AdaptersSelectPayload | src/main/java/dev/houshce29/cc/extensions/api/internal/SymbolTreeAdaptedHook.java:26-31 | each adapter runs on its own payload only: a string, a token list, a token list with a tree, a throwable; no arguments run nothing |
| Hooks.Insert | src/main/java/dev/houshce29/cc/extensions/ExtensionExecutionEngine.java:57-60 | adding to a TreeSet ordered by sequence never grows it by more than one |
| Hooks.InsertSorted | src/main/java/dev/houshce29/cc/extensions/ExtensionExecutionEngine.java:19-20 | insertion keeps a bucket in strictly ascending sequence |
| Hooks.InsertMembers | src/main/java/dev/houshce29/cc/extensions/ExtensionExecutionEngine.java:58-60 | the hook joins the bucket exactly when no hook there has its sequence; a later equal sequence is dropped |
| Hooks.InsertLargest | src/main/java/dev/houshce29/cc/extensions/ExtensionExecutionEngine.java:19-20 | a hook whose sequence is above every present one goes last |
| Hooks.Bucket | src/main/java/dev/houshce29/cc/extensions/ExtensionExecutionEngine.java:55-61 | a point's bucket is never larger than the hooks given |
| Hooks.BucketSorted | src/main/java/dev/houshce29/cc/extensions/ExtensionExecutionEngine.java:19-21 | every bucket is in strictly ascending sequence |
| Hooks.BucketMembers | src/main/java/dev/houshce29/cc/extensions/ExtensionExecutionEngine.java:55-61 | a bucket holds only hooks given for its point |
| Hooks.BucketKeepsFirst | src/main/java/dev/houshce29/cc/extensions/ExtensionExecutionEngine.java:55-61 | a hook is kept exactly when it is the first one registered with its point and sequence |
| Hooks.CreateSpec | src/main/java/dev/houshce29/cc/extensions/ExtensionExecutionEngine.java:53-64 | the map has an entry exactly for the points some hook names |
| Hooks.BucketOfAbsentPoint | src/main/java/dev/houshce29/cc/extensions/ExtensionExecutionEngine.java:57-59 | a point no hook names has an empty bucket |
| Hooks.BucketAppend | src/main/java/dev/houshce29/cc/extensions/ExtensionExecutionEngine.java:55-61 | one more hook changes only its own point's bucket |
| Hooks.CreateStep | src/main/java/dev/houshce29/cc/extensions/ExtensionExecutionEngine.java:56-60 | one loop iteration creates the point's set if missing and adds the hook to it |
| Hooks.File | src/main/java/dev/houshce29/cc/extensions/ExtensionExecutionEngine.java:56-60 | the iteration's new map, as a method on the map value |
| Hooks.Create | src/main/java/dev/houshce29/cc/extensions/ExtensionExecutionEngine.java:53-64 | the registration loop builds exactly the specified buckets |
| Hooks.HasExtensionsIffHooks | src/main/java/dev/houshce29/cc/extensions/ExtensionExecutionEngine.java:43-45 | hasExtensions holds exactly when at least one hook was given |
| Hooks.Extensions | src/main/java/dev/houshce29/cc/extensions/ExtensionExecutionEngine.java:47-51 | a hook is returned exactly when it sits in some bucket |
| Hooks.ExtensionsOfCreate | src/main/java/dev/houshce29/cc/extensions/ExtensionExecutionEngine.java:47-64 | getExtensions returns exactly the retained hooks: the first per point and sequence |
| Hooks.RunAll | src/main/java/dev/houshce29/cc/extensions/ExtensionExecutionEngine.java:68-70 | running a bucket executes each hook at most once |
| Hooks.RunAllOrder | src/main/java/dev/houshce29/cc/extensions/ExtensionExecutionEngine.java:66-72 | every execution belongs to a hook of the bucket, and a sorted bucket runs in ascending sequence |
| Hooks.RunAllAccepting | src/main/java/dev/houshce29/cc/extensions/ExtensionExecutionEngine.java:68-70 | when every hook accepts the payload, each runs once in bucket order |
| Hooks.Run | src/main/java/dev/houshce29/cc/extensions/ExtensionExecutionEngine.java:27-37 | the loop over the bucket produces exactly the specified executions |
| Hooks.RunSpec | src/main/java/dev/houshce29/cc/extensions/ExtensionExecutionEngine.java:27-37 | a point without a bucket runs nothing; otherwise at most one execution per hook of the bucket, and only hooks of that bucket |
| Hooks.HasExtensions | src/main/java/dev/houshce29/cc/extensions/ExtensionExecutionEngine.java:43-45 | the engine has extensions exactly when some hook point has a bucket |
| Hooks.RunForFailure | src/main/java/dev/houshce29/cc/extensions/ExtensionExecutionEngine.java:39-41 | runs exactly the ON_FAILURE bucket with the throwable |
| Hooks.RunInSequence | src/main/java/dev/houshce29/cc/extensions/ExtensionExecutionEngine.java:27-72 | run(p) executes only hooks registered at p, in ascending sequence, whatever the registration order |
| Hooks.RunWithoutHooks | src/main/java/dev/houshce29/cc/extensions/ExtensionExecutionEngine.java:66-67 | a point without hooks runs nothing |
| HookExamples.BucketOfFirstThree | src/test/java/dev/houshce29/cc/extensions/TU_ExtensionExecutionEngine.java:20-23 | hooks 8, 6, 7 are bucketed as 6, 7, 8 |
| HookExamples.BucketOfFirstSix | src/test/java/dev/houshce29/cc/extensions/TU_ExtensionExecutionEngine.java:20-26 | the first six hooks are bucketed as 0, 3, 5, 6, 7, 8 |
| HookExamples.BucketOfAll | src/test/java/dev/houshce29/cc/extensions/TU_ExtensionExecutionEngine.java:20-27 | the seven hooks are bucketed as 0, 3, 5, 6, 7, 8, 9 |
| HookExamples.RunOfRegistered | src/test/java/dev/houshce29/cc/extensions/TU_ExtensionExecutionEngine.java:36-37 | running BEFORE_COMPILE runs the sorted bucket |
| HookExamples.RunsInNumericOrder | src/test/java/dev/houshce29/cc/extensions/TU_ExtensionExecutionEngine.java:36-40 | hooks run in the order 0, 3, 5, 6, 7, 8, 9, not in registration order |
| Compiling.CompileSpec | src/main/java/dev/houshce29/cc/Compiler.java:48-58 | phases run in the order lex, parse, analyze, generate; a phase runs only when the previous one succeeded; every failure is CompilationFailed |
| Compiling.Compile | src/main/java/dev/houshce29/cc/Compiler.java:48-58 | the call sequence inside the try computes exactly the specified result |
| Compiling.CompileFeedsForward | src/main/java/dev/houshce29/cc/Compiler.java:49-53 | success iff every phase succeeds, and then the result is the generator's on the lexer's tokens and the parser's tree, whose leaves are those tokens |
| Compiling.CompilerBuilder.constructor | src/main/java/dev/houshce29/cc/Compiler.java:87-88 | a new builder has no component set |
| Compiling.CompilerBuilder.SetLexer | src/main/java/dev/houshce29/cc/Compiler.java:95-98 | sets only the lexer |
| Compiling.CompilerBuilder.SetLexerBuilder | src/main/java/dev/houshce29/cc/Compiler.java:105-107 | setting a lexer builder is setting what it builds |
| Compiling.CompilerBuilder.SetParser | src/main/java/dev/houshce29/cc/Compiler.java:114-117 | sets only the parser |
| Compiling.CompilerBuilder.SetParserBuilder | src/main/java/dev/houshce29/cc/Compiler.java:124-126 | setting a parser builder is setting what it builds |
| Compiling.CompilerBuilder.SetSemanticAnalyzer | src/main/java/dev/houshce29/cc/Compiler.java:133-136 | sets only the analyzer |
| Compiling.CompilerBuilder.SetGenerator | src/main/java/dev/houshce29/cc/Compiler.java:143-146 | sets only the generator |
| Compiling.CompilerBuilder.Build | src/main/java/dev/houshce29/cc/Compiler.java:153-174 | each unset component becomes its default, which the builder then keeps; the compiler holds the four components |
| Compiling.ToBuilder | src/main/java/dev/houshce29/cc/Compiler.java:63-69 | a fresh builder holding the compiler's four components |
| Compiling.Rebuild | src/main/java/dev/houshce29/cc/Compiler.java:63-69 | toBuilder().build() yields the same compiler |
| Compiling.DefaultCompiler | src/main/java/dev/houshce29/cc/Compiler.java:161-172 | with nothing set the compiler uses DEFAULT_LEXER, DEFAULT_PARSER, the no-op analyzer and the null generator |
| Compiling.NoParserNeverCompiles | src/main/java/dev/houshce29/cc/Compiler.java:164-166 | without a parser every input fails to compile, lexed input with a syntax error in the parse phase |
| Pairs.ArrayHash | src/main/java/dev/houshce29/cc/common/utils/Pair.java:63-66 | Objects.hash's result is a Java int; 1 for no elements |
| Pairs.Of | src/main/java/dev/houshce29/cc/common/utils/Pair.java:49-51 | getKey and getValue return the two arguments |
| Pairs.Identity | src/main/java/dev/houshce29/cc/common/utils/Pair.java:59-61 | key and value are both the argument |
| Pairs.HashCode | src/main/java/dev/houshce29/cc/common/utils/Pair.java:63-66 | the hash is a Java int |
| Pairs.Equals | src/main/java/dev/houshce29/cc/common/utils/Pair.java:68-76 | a pair equals exactly the pair with the same key and value, and never a non-pair |
| Pairs.EqualsIsComponentEquality | src/main/java/dev/houshce29/cc/common/utils/Pair.java:68-76 | equal iff the other is a pair with equal key and value; a non-pair is never equal |
| Pairs.EqualsIsEquivalence | src/main/java/dev/houshce29/cc/common/utils/Pair.java:68-76 | equals is reflexive and symmetric |
| Pairs.EqualPairsHashAlike | src/main/java/dev/houshce29/cc/common/utils/Pair.java:63-76 | equal pairs have equal hash codes |
| Pairs.HashClosedForm | src/main/java/dev/houshce29/cc/common/utils/Pair.java:63-66 | the hash is 961 + 31 * keyHash + valueHash wrapped to an int |
| PairExamples.OfAndIdentity | src/test/java/dev/houshce29/cc/common/utils/TU_Pair.java:8-25 | of keeps key and value; identity uses its argument for both |
| JsonLexing.Unquote | src/main/java/dev/houshce29/cc/support/json/compiler/JsonLexerFactory.java:31-35 | succeeds exactly on text of length at least 2, dropping the first and last characters; shorter text fails with an index error |
| JsonLexing.StringLiteralAction | src/main/java/dev/houshce29/cc/support/json/compiler/JsonLexerFactory.java:30-37 | a STRING_LITERAL token holding the unquoted text on the current line; the context is unchanged |
| JsonLexing.Get | src/main/java/dev/houshce29/cc/support/json/compiler/JsonLexerFactory.java:21-59 | the builder chain gives exactly the thirteen JSON rules and no after-function |
| JsonLexing.PushLayout | src/main/java/dev/houshce29/cc/support/json/compiler/JsonLexerFactory.java:23-28 | appends the line-separator and whitespace rules |
| JsonLexing.PushLiterals | src/main/java/dev/houshce29/cc/support/json/compiler/JsonLexerFactory.java:29-45 | appends the string, boolean, null, number and decimal rules |
| JsonLexing.PushPunctuation | src/main/java/dev/houshce29/cc/support/json/compiler/JsonLexerFactory.java:46-57 | appends the six punctuation rules |
| JsonLexing.RuleOrder | src/main/java/dev/houshce29/cc/support/json/compiler/JsonLexerFactory.java:22-57 | 13 rules in the order line separator, whitespace, string, boolean, null, number, decimal, punctuation; the first bumps the line, the first two are ignored, only number and decimal use SPAN |
| JsonLexing.PunctuationValues | src/main/java/dev/houshce29/cc/support/json/compiler/JsonLexerFactory.java:46-57 | punctuation tokens carry fixed one-character values their own rule matches |
| JsonLexing.CapturedTextKept | src/main/java/dev/houshce29/cc/support/json/compiler/JsonLexerFactory.java:38-45 | boolean, null, number and decimal tokens hold the captured text |
| JsonLexing.UnquotePlain | src/main/java/dev/houshce29/cc/support/json/compiler/JsonLexerFactory.java:31-35 | a literal without backslashes loses exactly its quotes |
| JsonLexing.UnquoteEscapedQuotes | src/main/java/dev/houshce29/cc/support/json/compiler/JsonLexerFactory.java:33-35 | each escaped quote becomes a plain quote |
| JsonLexing.NumberRuleTakesDigitRun | src/main/java/dev/houshce29/cc/support/json/compiler/JsonLexerFactory.java:42-43 | the number rule takes a whole run of digits as one token |
| JsonLexing.DecimalRuleTakesFraction | src/main/java/dev/houshce29/cc/support/json/compiler/JsonLexerFactory.java:44-45 | the decimal rule takes '.' and the whole following digit run as one token |
| JsonLexing.CarriageReturnLineFeedCountsTwice | src/main/java/dev/houshce29/cc/support/json/compiler/JsonLexerFactory.java:23-25 | "\r\n" is scanned as two line separators and so counts two lines |
| JsonLexing.LiteralTests | src/main/java/dev/houshce29/cc/support/json/compiler/JsonLexerFactory.java:61-79 | each isX test holds of the tokens its rule makes and of no punctuation token |
| JsonParsing.Get | src/main/java/dev/houshce29/cc/support/json/compiler/JsonParserFactory.java:16-51 | the builder chain gives exactly the five-phrase JSON grammar, well formed |
| JsonParsing.PushValuePhrase | src/main/java/dev/houshce29/cc/support/json/compiler/JsonParserFactory.java:27-37 | branch("VALUE") applies the body phrase and starts VALUE with its seven alternatives in order |
| JsonParsing.ObjectSymbols | src/main/java/dev/houshce29/cc/support/json/compiler/JsonParserFactory.java:17-21 | JSON_OBJECT uses L_BRACE, BODY and R_BRACE |
| JsonParsing.BodySymbols | src/main/java/dev/houshce29/cc/support/json/compiler/JsonParserFactory.java:22-26 | BODY uses STRING_LITERAL, COLON, VALUE, COMMA and BODY |
| JsonParsing.ValueSymbols | src/main/java/dev/houshce29/cc/support/json/compiler/JsonParserFactory.java:27-37 | VALUE uses the nine identifiers of its seven alternatives |
| JsonParsing.NumberSymbols | src/main/java/dev/houshce29/cc/support/json/compiler/JsonParserFactory.java:38-44 | NUMBER_VALUE uses NUMBER_LITERAL and DECIMAL_LITERAL |
| JsonParsing.ArrayEndSymbols | src/main/java/dev/houshce29/cc/support/json/compiler/JsonParserFactory.java:45-49 | ARRAY_END uses COMMA, VALUE, ARRAY_END and R_SQ_BRACKET |
| JsonParsing.SymbolsByPhrase | src/main/java/dev/houshce29/cc/support/json/compiler/JsonParserFactory.java:16-50 | the grammar's identifiers are those of its five phrases |
| JsonParsing.SymbolsOfJsonGrammar | src/main/java/dev/houshce29/cc/support/json/compiler/JsonParserFactory.java:16-50 | the grammar uses each phrase id and each token id and nothing else, and has one entry per phrase |
| JsonParsing.ProducedIds | src/main/java/dev/houshce29/cc/support/json/compiler/JsonLexerFactory.java:36-57 | the lexer's rules make exactly the eleven terminal ids |
| JsonParsing.GrammarMatchesLexer | src/main/java/dev/houshce29/cc/support/json/compiler/JsonParserFactory.java:16-50 | the grammar's terminals are exactly the ids the JSON lexer makes |
| JsonParsing.PhrasesAreNotTokens | src/main/java/dev/houshce29/cc/support/json/compiler/JsonParserFactory.java:17-45 | no phrase id is also a token id |
| JsonTrees.GrammarFacts | src/main/java/dev/houshce29/cc/support/json/compiler/JsonParserFactory.java:17-50 | the grammar keys each phrase by its id, the root is registered, no token id names a phrase |
| JsonTrees.SentenceOf | src/main/java/dev/houshce29/cc/support/json/compiler/JsonParserFactory.java:17-50 | every node of a derived tree spells one of its phrase's sentences |
| JsonTrees.ObjectShape | src/main/java/dev/houshce29/cc/support/json/compiler/JsonParserFactory.java:17-21 | a JSON_OBJECT is "{ BODY }" or "{ }" |
| JsonTrees.BodyShape | src/main/java/dev/houshce29/cc/support/json/compiler/JsonParserFactory.java:22-26 | a BODY is a key, colon and value, optionally followed by a comma and another BODY |
| JsonTrees.ValueShape | src/main/java/dev/houshce29/cc/support/json/compiler/JsonParserFactory.java:27-37 | a VALUE is one of the seven alternatives |
| JsonTrees.NumberShape | src/main/java/dev/houshce29/cc/support/json/compiler/JsonParserFactory.java:38-44 | a NUMBER_VALUE is NUMBER DECIMAL, NUMBER or DECIMAL |
| JsonTrees.ArrayEndShape | src/main/java/dev/houshce29/cc/support/json/compiler/JsonParserFactory.java:45-49 | an ARRAY_END is ", VALUE ARRAY_END" or "]" |
| JsonTrees.ParsedJsonIsObject | src/main/java/dev/houshce29/cc/support/json/compiler/JsonParserFactory.java:17-17 | every tree the JSON parser returns is a derived JSON_OBJECT |
| JsonTrees.ObjectThroughout | src/main/java/dev/houshce29/cc/support/json/compiler/JsonParserFactory.java:17-19 | an object has distinct keys throughout iff its body's keys are distinct and so are all nested objects' |
| JsonTrees.EmptyObjectThroughout | src/main/java/dev/houshce29/cc/support/json/compiler/JsonParserFactory.java:20-21 | "{}" has distinct keys throughout |
| JsonTrees.BodyThroughout | src/main/java/dev/houshce29/cc/support/json/compiler/JsonParserFactory.java:22-26 | a body has distinct keys throughout iff its value and its continuation do |
| JsonAnalysis.KeyPath | src/main/java/dev/houshce29/cc/support/json/compiler/JsonSemanticAnalyzer.java:54-54 | the key's path extends the object's path |
| JsonAnalysis.ElementPath | src/main/java/dev/houshce29/cc/support/json/compiler/JsonSemanticAnalyzer.java:39-48 | the element's path extends the array's path |
| JsonAnalysis.ObjectDuplicates | src/main/java/dev/houshce29/cc/support/json/compiler/JsonSemanticAnalyzer.java:28-32 | only adds paths below the object's path; fails only on a malformed tree |
| JsonAnalysis.ValueDuplicates | src/main/java/dev/houshce29/cc/support/json/compiler/JsonSemanticAnalyzer.java:34-43 | only adds paths below the value's path; fails only on a malformed tree |
| JsonAnalysis.ArrayDuplicates | src/main/java/dev/houshce29/cc/support/json/compiler/JsonSemanticAnalyzer.java:45-51 | only adds paths below the array's path; fails only on a malformed tree |
| JsonAnalysis.BodyDuplicates | src/main/java/dev/houshce29/cc/support/json/compiler/JsonSemanticAnalyzer.java:53-66 | only adds paths below the body's path and never forgets a scanned key |
| JsonAnalysis.AnalyzeSpec | src/main/java/dev/houshce29/cc/support/json/compiler/JsonSemanticAnalyzer.java:20-26 | a reported duplicate set is non-empty and every path in it starts at "OBJECT" |
| JsonAnalysis.KeySet.constructor | src/main/java/dev/houshce29/cc/support/json/compiler/JsonSemanticAnalyzer.java:21-21 | a new set is empty |
| JsonAnalysis.KeySet.Add | src/main/java/dev/houshce29/cc/support/json/compiler/JsonSemanticAnalyzer.java:56-57 | returns whether the element was new, and adds it |
| JsonAnalysis.AnalyzeObject | src/main/java/dev/houshce29/cc/support/json/compiler/JsonSemanticAnalyzer.java:28-32 | the recursion over mutable sets agrees with the object specification |
| JsonAnalysis.AnalyzeValue | src/main/java/dev/houshce29/cc/support/json/compiler/JsonSemanticAnalyzer.java:34-43 | the recursion agrees with the value specification |
| JsonAnalysis.AnalyzeArray | src/main/java/dev/houshce29/cc/support/json/compiler/JsonSemanticAnalyzer.java:45-51 | the recursion agrees with the array specification |
| JsonAnalysis.InspectBody | src/main/java/dev/houshce29/cc/support/json/compiler/JsonSemanticAnalyzer.java:53-66 | the recursion agrees with the body specification, leaving the sets as specified |
| JsonAnalysis.Analyze | src/main/java/dev/houshce29/cc/support/json/compiler/JsonSemanticAnalyzer.java:20-26 | the method reports exactly the specified failure |
| JsonAnalysis.KeyPathInjective | src/main/java/dev/houshce29/cc/support/json/compiler/JsonSemanticAnalyzer.java:54-54 | different keys give different paths under one object |
| JsonAnalysis.KeyPathsMembers | src/main/java/dev/houshce29/cc/support/json/compiler/JsonSemanticAnalyzer.java:54-57 | a key's path is scanned iff the key occurs in the body |
| JsonAnalysis.ObjectFindings | src/main/java/dev/houshce29/cc/support/json/compiler/JsonSemanticAnalyzer.java:28-32 | an object adds no duplicate iff its keys are distinct throughout; each object gets a fresh scanned set |
| JsonAnalysis.ValueFindings | src/main/java/dev/houshce29/cc/support/json/compiler/JsonSemanticAnalyzer.java:34-43 | a value adds no duplicate iff its nested objects, also those inside arrays, have distinct keys |
| JsonAnalysis.ArrayFindings | src/main/java/dev/houshce29/cc/support/json/compiler/JsonSemanticAnalyzer.java:45-51 | array elements add no duplicate iff their objects have distinct keys; an empty tail contributes nothing |
| JsonAnalysis.BodyFindings | src/main/java/dev/houshce29/cc/support/json/compiler/JsonSemanticAnalyzer.java:53-66 | a body scans all its key paths and adds none iff they are new and distinct and the values have distinct keys throughout |
| JsonAnalysis.LinkFindings | src/main/java/dev/houshce29/cc/support/json/compiler/JsonSemanticAnalyzer.java:59-65 | the same for a body continued by another body |
| JsonAnalysis.BodyStep | src/main/java/dev/houshce29/cc/support/json/compiler/JsonSemanticAnalyzer.java:54-65 | one inspectBody step: scan the key, recurse into the rest of the body, then analyze the value |
| JsonAnalysis.AnalyzerRejectsRepeatedKeys | src/main/java/dev/houshce29/cc/support/json/compiler/JsonSemanticAnalyzer.java:20-26 | a JSON tree is accepted iff no object repeats a key, and a rejection is "Duplicate key(s): ..." |
| JsonCompiling.NewJsonCompiler | src/main/java/dev/houshce29/cc/support/json/compiler/JsonCompiler.java:10-15 | the builder chain gives the JSON lexer, the JSON grammar, the JSON analyzer and the JSON generator |
| JsonCompiling.AnalyzerAgreesWithGenerator | src/main/java/dev/houshce29/cc/support/json/compiler/JsonCompiler.java:13-14 | on every JSON tree, the analyzer accepts exactly when the generator succeeds |
| JsonCompiling.JsonCompileOutcome | src/main/java/dev/houshce29/cc/support/json/compiler/JsonCompiler.java:17-19 | compile succeeds iff lexing and parsing succeed and no object repeats a key; the result's keys are the object's keys; the generator never fails after the analyzer |
| JsonGeneration.FirstBody | src/main/java/dev/houshce29/cc/support/json/compiler/JsonModelGenerator.java:34-43 | finds the first child that is a BODY node, and none is found only when no child is one |
| JsonGeneration.MapValue | src/main/java/dev/houshce29/cc/support/json/compiler/JsonModelGenerator.java:67-104 | a mapped value carries the key it was given |
| JsonGeneration.MapNumber | src/main/java/dev/houshce29/cc/support/json/compiler/JsonModelGenerator.java:106-115 | a number node maps exactly when its numeral text is formed, to a number property holding the parsed numeral |
| JsonGeneration.NumberTextRule | src/main/java/dev/houshce29/cc/support/json/compiler/JsonModelGenerator.java:106-113 | the numeral is integer part plus fraction, a leading "0" before a bare fraction, or the integer part alone |
| JsonGeneration.GenerateSpec | src/main/java/dev/houshce29/cc/support/json/compiler/JsonModelGenerator.java:29-33 | a root that is not a JSON object fails with "Expected root to be a JSON object." |
| JsonGeneration.Generate | src/main/java/dev/houshce29/cc/support/json/compiler/JsonModelGenerator.java:25-27 | the generator entry point ignores the tokens and succeeds exactly when generation of the tree does, with that result |
| JsonGeneration.MapObject | src/main/java/dev/houshce29/cc/support/json/compiler/JsonModelGenerator.java:117-128 | a mapped object carries its key and pairwise distinct keys; once its body maps, the object maps exactly when the body's keys are distinct |
| JsonGeneration.MapBody | src/main/java/dev/houshce29/cc/support/json/compiler/JsonModelGenerator.java:46-65 | an empty body maps to no properties |
| JsonGeneration.BodyChild | src/main/java/dev/houshce29/cc/support/json/compiler/JsonModelGenerator.java:49-61 | one iteration only appends properties, and only a string child changes the current key |
| JsonGeneration.MapBodyLoop | src/main/java/dev/houshce29/cc/support/json/compiler/JsonModelGenerator.java:46-65 | the loop over a body's children equals the body mapping function |
| JsonGeneration.MapBodyChild | src/main/java/dev/houshce29/cc/support/json/compiler/JsonModelGenerator.java:49-61 | one iteration: a string sets the current key, a value adds its property, a nested body adds all its properties |
| JsonGeneration.BodyFoldStaysFailed | src/main/java/dev/houshce29/cc/support/json/compiler/JsonModelGenerator.java:46-65 | once a child's mapping throws, the rest of the body does not change the outcome |
| JsonGeneration.MapArrayToEndLoop | src/main/java/dev/houshce29/cc/support/json/compiler/JsonModelGenerator.java:137-150 | intended: the loop over an array tail's children equals the array-tail mapping function, which advances the index before the recursive call |
| JsonGeneration.MapArrayChild | src/main/java/dev/houshce29/cc/support/json/compiler/JsonModelGenerator.java:139-147 | intended: one iteration: a value is keyed by the index, a continued array adds all its elements mapped from the next index |
| JsonGeneration.ArrayChild | src/main/java/dev/houshce29/cc/support/json/compiler/JsonModelGenerator.java:139-147 | intended: one iteration only appends elements, and the loop index advances by one exactly on a continued array |
| JsonGeneration.MapArrayToEnd | src/main/java/dev/houshce29/cc/support/json/compiler/JsonModelGenerator.java:137-150 | intended: an array tail without children maps to no elements |
| JsonGeneration.ArrayFoldStaysFailed | src/main/java/dev/houshce29/cc/support/json/compiler/JsonModelGenerator.java:137-150 | once an element's mapping throws, the rest of the array does not change the outcome |
| JsonGeneration.BodyStep | src/main/java/dev/houshce29/cc/support/json/compiler/JsonModelGenerator.java:46-65 | on a well-shaped body: map the first value under the first key, then the nested body if there is one |
| JsonGeneration.ArrayStep | src/main/java/dev/houshce29/cc/support/json/compiler/JsonModelGenerator.java:137-150 | intended: a closing bracket gives no elements; otherwise the element at the index, then the rest from the next index |
| JsonGeneration.ValueStep | src/main/java/dev/houshce29/cc/support/json/compiler/JsonModelGenerator.java:67-101 | each kind of value (object, null, string, boolean, number, empty array, populated array) maps as the branches say |
| JsonGeneration.ObjectMaps | src/main/java/dev/houshce29/cc/support/json/compiler/JsonModelGenerator.java:117-128 | an object of the grammar maps exactly when no object within it repeats a key, and the result's keys are the object's keys in order |
| JsonGeneration.BodyMaps | src/main/java/dev/houshce29/cc/support/json/compiler/JsonModelGenerator.java:46-65 | a body maps exactly when keys are distinct throughout, and yields its keys in order |
| JsonGeneration.ValueMaps | src/main/java/dev/houshce29/cc/support/json/compiler/JsonModelGenerator.java:67-104 | intended: a value maps exactly when keys are distinct throughout; an array's element i is keyed by i |
| JsonGeneration.ArrayValueMaps | src/main/java/dev/houshce29/cc/support/json/compiler/JsonModelGenerator.java:130-135 | intended: a populated array maps exactly when keys are distinct throughout, to an array whose element i is keyed by i |
| JsonGeneration.NumberMaps | src/main/java/dev/houshce29/cc/support/json/compiler/JsonModelGenerator.java:106-115 | every number of the grammar maps, and contains no object |
| JsonGeneration.ArrayMaps | src/main/java/dev/houshce29/cc/support/json/compiler/JsonModelGenerator.java:137-150 | intended: an array tail maps exactly when keys are distinct throughout; the element at position i is keyed by index + i |
| JsonGeneration.GenerateMaps | src/main/java/dev/houshce29/cc/support/json/compiler/JsonModelGenerator.java:29-44 | a JSON object tree generates exactly when no object repeats a key, and the generated keys are the root object's keys |
| JsonGeneration.ArrayKeysDistinct | src/main/java/dev/houshce29/cc/support/json/compiler/JsonModelGenerator.java:130-150 | the elements of a mapped array have pairwise different keys |
| JsonGeneration.ArrayStepAsWritten | src/main/java/dev/houshce29/cc/support/json/compiler/JsonModelGenerator.java:146 | as written, the recursive call receives the index before the increment |
| JsonGeneration.AsWrittenKeysRepeat | src/main/java/dev/houshce29/cc/support/json/compiler/JsonModelGenerator.java:137-150 | as written, every element of an array tail is keyed by the same index |
| JsonGeneration.AsWrittenRepeatsKeys | src/main/java/dev/houshce29/cc/support/json/compiler/JsonModelGenerator.java:146 | as written, the second and first elements share a key, where the intended mapping gives them different keys |
| JsonGeneration.SameElementsButKeys | src/main/java/dev/houshce29/cc/support/json/compiler/JsonModelGenerator.java:137-150 | the written and the intended mapping succeed together and give the same number of elements |
| JsonModel.ParseNumber | src/main/java/dev/houshce29/cc/support/json/model/JsonProperty.java:151-164 | a numeral `Long.parseLong` accepts gives that integer; otherwise a decimal numeral is kept as a decimal; anything else gives 0 |
| JsonModel.IntValue | src/main/java/dev/houshce29/cc/support/json/model/JsonProperty.java:68 | `intValue()` always lies within the Java `int` range |
| JsonModel.ArrayValue | src/main/java/dev/houshce29/cc/support/json/model/JsonProperty.java:75-80 | `arrayValue()` is the elements of an array property and empty for every other property |
| JsonModel.BooleanValueRule | src/main/java/dev/houshce29/cc/support/json/model/JsonProperty.java:55-69 | null and an empty array are false, a stored boolean is itself, anything else is true exactly when its text is neither empty nor "0" |
| JsonModel.NumberOfBlankOrZero | src/main/java/dev/houshce29/cc/support/json/model/JsonProperty.java:45-50 | a property whose text is "" or "0" has number value 0, so the last test of `booleanValue()` never adds a true case |
| JsonModel.ObjectValueAlwaysEmpty | src/main/java/dev/houshce29/cc/support/json/model/JsonProperty.java:86-91 | `objectValue()` is empty for every property, objects included, because an object stores its entries as a collection and not a map |
| JsonModel.ScalarsHaveNoChildren | src/main/java/dev/houshce29/cc/support/json/model/JsonProperty.java:96-143 | a property that is neither object nor array answers every `path` and `get` with a missing property of that key |
| JsonModel.Placeholders | src/main/java/dev/houshce29/cc/support/json/model/NullProperty.java:6-21 | a null property exists, is null, is false and prints as "key": null; a missing property does not exist, keeps its key and holds "<MISSING>" |
| JsonModel.StringValue | src/main/java/dev/houshce29/cc/support/json/model/JsonProperty.java:38-40 | a null property's text is "null", a missing one's "<MISSING>", an object's or array's a bracketed list |
| JsonModel.NumberValue | src/main/java/dev/houshce29/cc/support/json/model/JsonProperty.java:45-50 | a stored number is returned as it is; null, missing and boolean properties have number 0 |
| JsonModel.BooleanValue | src/main/java/dev/houshce29/cc/support/json/model/JsonProperty.java:55-69 | null and an empty array are false, a missing property is true |
| JsonModel.ObjectValue | src/main/java/dev/houshce29/cc/support/json/model/JsonProperty.java:86-91 | the object value is always the empty map |
| JsonModel.ToString | src/main/java/dev/houshce29/cc/support/json/model/JsonProperty.java:166-173 | every property but a missing one renders as its quoted key, a colon and a blank, then its value |
| JsonModel.FirstRepeatedKey | src/main/java/dev/houshce29/cc/support/json/model/ObjectProperty.java:18 | there is no repeated key exactly when the keys are pairwise distinct |
| JsonModel.NewObject | src/main/java/dev/houshce29/cc/support/json/model/ObjectProperty.java:16-19 | building an object succeeds exactly when its entries' keys are distinct, and fails with "Duplicate key" naming the first repeated key otherwise |
| JsonModel.Entry | src/main/java/dev/houshce29/cc/support/json/model/ObjectProperty.java:34-37 | the entry found under a key is one of the entries and has that key; none is found only when no entry has it |
| JsonModel.ObjectPath | src/main/java/dev/houshce29/cc/support/json/model/ObjectProperty.java:34-42 | `path(key)` on an object finds an existing property exactly when an entry has that key, and `get(i)` is `path` of the index's text |
| JsonModel.EntriesFoundByKey | src/main/java/dev/houshce29/cc/support/json/model/ObjectProperty.java:16-37 | every entry of a built object is found again by its own key |
| JsonModel.ArrayGet | src/main/java/dev/houshce29/cc/support/json/model/ArrayProperty.java:25-31 | `get(i)` on an array finds an existing element exactly when i is within bounds, and a missing property keyed by i otherwise |
| JsonModel.ArrayPathIsGet | src/main/java/dev/houshce29/cc/support/json/model/ArrayProperty.java:33-42 | `path` of an index's text on an array is `get` of that index |
| JsonModel.ElementAt | src/main/java/dev/houshce29/cc/support/json/model/ArrayProperty.java:25-31 | an index within bounds gives that element, any other a missing property keyed by the index |
| JsonModel.Path | src/main/java/dev/houshce29/cc/support/json/model/JsonProperty.java:128-130 | outside arrays the result carries the requested key; an existing result is one of the object's entries or the array's elements |
| JsonModel.Get | src/main/java/dev/houshce29/cc/support/json/model/JsonProperty.java:141-143 | outside arrays the result carries the index's text as key; an existing result is one of the object's entries or the array's elements |
| JsonModel.ArrayToString | src/main/java/dev/houshce29/cc/support/json/model/ArrayProperty.java:44-63 | the element loop builds the array's rendering: each element's text after its first ':' separated by commas, inside brackets |
| JsonModel.ElementText | src/main/java/dev/houshce29/cc/support/json/model/ArrayProperty.java:54-56 | one element's text is what follows the first ':' of its `toString()` |
| JsonModel.Root | src/main/java/dev/houshce29/cc/support/json/model/Json.java:13-15 | the top-level object is keyed "JSON" and holds the given entries |
| JsonModel.NewJson | src/main/java/dev/houshce29/cc/support/json/model/Json.java:13-15 | building the top-level object succeeds exactly when its entries' keys are distinct, keeping those entries |
| JsonModel.JsonText | src/main/java/dev/houshce29/cc/support/json/model/Json.java:96-103 | the text is enclosed in braces, and an empty document prints as "{}" |
| JsonModel.GetAt | src/main/java/dev/houshce29/cc/support/json/model/Json.java:22-29 | the loop follows the segments one `path` call at a time from the root |
| JsonModel.FollowAppend | src/main/java/dev/houshce29/cc/support/json/model/Json.java:22-29 | following a concatenation of segments follows the first part, then the second |
| JsonModel.MissingStaysMissing | src/main/java/dev/houshce29/cc/support/json/model/Json.java:22-29 | once a segment misses, the result is a missing property keyed by the last segment |
| JsonModel.Evaluate | src/main/java/dev/houshce29/cc/support/json/model/Json.java:72-94 | `evaluate` follows, from the root, the path the expression's segments spell |
| JsonModel.AddSegment | src/main/java/dev/houshce29/cc/support/json/model/Json.java:75-90 | one segment adds its trimmed text, or its bracket pieces when it uses bracket notation |
| JsonModel.AddPieces | src/main/java/dev/houshce29/cc/support/json/model/Json.java:77-86 | the bracket pieces are added in order, each trimmed and cut at its last ']' |
| JsonModel.UnbracketAll | src/main/java/dev/houshce29/cc/support/json/model/Json.java:77-86 | there is one path segment per bracket piece, each piece trimmed and cut at its last ']' |
| JsonModel.DottedSegments | src/main/java/dev/houshce29/cc/support/json/model/Json.java:74-90 | an expression without brackets is the path of its dot-separated segments, each trimmed |
| Text.IntToString | src/main/java/dev/houshce29/cc/support/json/compiler/JsonModelGenerator.java:142 | `String.valueOf(i)` is non-empty and starts with '-' exactly when i is negative |
| Text.ParseIntOfIntToString | src/main/java/dev/houshce29/cc/support/json/model/ArrayProperty.java:36 | `Integer.parseInt` reads back every Java `int` from `String.valueOf` |
| Text.Trim | src/main/java/dev/houshce29/cc/support/json/model/Json.java:74-75 | a trimmed text starts and ends with a character above U+0020 and is no longer than the original |
| Text.Split | src/main/java/dev/houshce29/cc/support/json/model/Json.java:74 | no piece of a split contains the separator, and a text without the separator is its own only piece |
| Text.JoinPieces | src/main/java/dev/houshce29/cc/support/json/model/Json.java:74 | joining the pieces between separators back with the separator gives the original text |
| JsonModel.PlainSegmentPath | src/main/java/dev/houshce29/cc/support/json/model/Json.java:88-90 | a segment without brackets or surrounding blanks is one path segment, itself |
| JsonModel.IndexedSegmentPath | src/main/java/dev/houshce29/cc/support/json/model/Json.java:76-87 | a segment written name[index] gives the two path segments name and index |
| JsonModel.IndexedPath | src/main/java/dev/houshce29/cc/support/json/model/Json.java:72-94 | the expression name[index] evaluates along the path name, index |
| JsonModel.DottedPath | src/main/java/dev/houshce29/cc/support/json/model/Json.java:72-94 | the expression name.index evaluates along the path name, index |
| JsonModel.IndexMatchesDotted | src/main/java/dev/houshce29/cc/support/json/model/Json.java:59-67 | index notation and dotted notation name the same path |

## Left out

- Regular-expression matching. `InputMatcher` and `RegexFactory` are not part of this model. Each lexer rule carries its match test as a predicate parameter. `RegexFactory` defines no string-literal or boolean-literal expression, so the JSON lexer takes those two tests as parameters.
- Lexing.LexSpec: an after-function that throws is not modelled. In `Lexer.lex` the call `afterFunction.accept(rawInput, tokens)` may throw, and `lex` then fails with that exception. The model's after-function is a total function from the input and the tokens to a token list, so lexing fails only when the scan fails.
- Hooks.Execute: a hook body that throws is not modelled. In the program an exception from `execute` propagates out of `ExtensionExecutionEngine.run` and the later hooks of the bucket do not run. In the model every hook whose adapter accepts the arguments records its event.
- Hooks.Run: runs every hook of the bucket, as `Hooks.RunSpec` and `Hooks.RunAll` specify. Stopping at the first hook that throws is not modelled, for the reason on the `Hooks.Execute` line.
- Rule actions and hook bodies are caller code. A rule action is a function from the scan state to a token, an exception or an unsupported value, together with the new line and variables. A hook's execution is recorded as an event holding the hook and the leading arguments its adapter passes on. When the adapter's type test rejects the arguments, nothing is recorded.
- The scan context's variables map is carried as an opaque map. No repository code reads it.
- Stack overflow. The parser's recursion is bounded by a fuel parameter. Running out of fuel gives the "FATAL: Parser's grammar is too deep or left-ambiguous." outcome that the Java code produces when it catches `StackOverflowError`. Grammars that need more depth than the fuel allows are not modelled as succeeding.
- Builder aliasing. `Phrase.Builder.build` and `Grammar.Builder.build` hand out the builder's own list and map. The model's built values are copies, so a sentence added after `build` does not reach an already built phrase.
- Iteration order of `HashMap` and `HashSet`. Object entries keep their source order. The analyzer's duplicate paths are a set, so the order in which the message lists them is not modelled.
- Java `int` overflow of the array index in the JSON generator. Indices are unbounded naturals.
- Floating point. Only unsigned numerals of digits with at most one point are recognised as decimals, and such a numeral is kept and printed as written. Its `intValue` takes the integer part, saturating at `Integer.MAX_VALUE`. The double value itself is not modelled.
- JsonModel.ParseNumber: `Double.parseDouble` also reads signed decimals ("-1.5", "+2.5"), exponents ("1e3"), surrounding blanks (" 2.5 "), "NaN", "Infinity", type suffixes ("1.5d") and hexadecimal floating literals. The model gives 0 for all of these, so `JsonModel.NumberValue` of such a text is 0 where the program has the parsed double. A decimal is printed as its numeral, where `Double.toString` prints "1.50" as `1.5` and "10000000.0" as `1.0E7`.
- JsonGeneration.MapArrayToEnd: the model passes the incremented index to the recursive call, as intended, where the program passes the index before the increment. The program's own keys are those of `JsonGeneration.MapArrayToEndAsWritten`: "0" for the first element of an array and "1" for every later one (`JsonGeneration.AsWrittenKeysRepeat`).
- JsonGeneration.ArrayChild: a continued array is mapped from the intended index + 1, not from the program's unincremented index.
- JsonGeneration.MapArrayChild: the loop step follows the intended index + 1, like `JsonGeneration.ArrayChild`.
- JsonGeneration.MapArrayToEndLoop: the loop equals the intended mapping, not the program's repeated keys.
- JsonGeneration.ArrayStep: states the intended recursion from index + 1.
- JsonGeneration.ValueMaps: the key of element i is the intended `String.valueOf(i)`; the program gives "1" to every element after the first.
- JsonGeneration.ArrayValueMaps: the same intended keys as `JsonGeneration.ValueMaps`.
- JsonGeneration.ArrayMaps: the key of the element at position i is the intended index + i; the program gives every element the key of `index`.
- JsonGeneration.Generate: built on the intended array keys, and so are `JsonGeneration.GenerateSpec`, `JsonGeneration.GenerateMaps` and `JsonCompiling.JsonCompileOutcome`. Object keys, the success condition and every non-array value are as the program computes them; only the keys of array elements from the third on differ.
- Lexing.DEFAULT_LEXER: the Java code calls `RegexFactory.anythingRegex()`, which `RegexFactory` does not define; it defines `anything()`, giving ".*". The model's default rule matches whatever ".*" matches, and `LexerProperties.DefaultLexerRejectsInput` relies on that reading.
- Text.ParseInt and Text.ParseLong accept ASCII digits only. `Integer.parseInt` and `Long.parseLong` also accept the other Unicode decimal digits.
- Tokens.StringHash hashes a string as a sequence of code points. `String.hashCode` works on UTF-16 code units, so a text with characters outside the Basic Multilingual Plane hashes differently.
- Hooks.MakeHook models hooks built on `AbstractHook`, whose stored sequence is never negative. A custom `Hook` implementation whose `getSequence()` returns a negative number is not modelled.
- `toString` of `SymbolTreeNode`, `SymbolTree`, `Pair`, `Json` and `ObjectProperty` beyond the formats cited above. The duplicate-key message of `Collectors.toMap` is modelled only up to the repeated key; the text about the merged values that follows it is not.
- `Compiler.compile` never calls the extension engine. The model follows the code, so the engine is modelled and proved on its own.
- `SymbolTreeNode.size` is the length of the children sequence. It has no separate member.
- The parser's syntax-error and unexpected-token unit tests have no example lemmas. The general lemmas about `Parsing.Parse` state those outcomes for all inputs.
- The `findTokens` counts in the parser unit test are not restated as an example.
- `JsonGeneration.MapValue`: the populated-array case calls the element mapping directly. `mapArrayValue` has no member of its own; its behaviour is stated by `JsonGeneration.ArrayValueMaps`.
- `JsonCompiling.JsonCompileOutcome`: the cast of `compile`'s result to `Json` is not modelled. The generator's result is returned as it is.
- File I/O (`FileService`), the QA annotations and audit, `Probe`, `Support`, `ExtensionFactory`, the eleven `extensions/api` hook wrappers and the `Hook` interface. These are I/O, reflection or one-line wrappers. The hook point is a parameter of every modelled hook instead.
- `SemanticAnalyzer`, `DefaultSemanticAnalyzer` and the `generate` package. These are interfaces, no-ops or console printing, so analyzers and generators are opaque phase functions. Of the defaults the compiler builder substitutes, the analyzer accepts every tree and the generator returns `null`.

## Findings

| source | as written | input that shows it | evidently intended | confidence | as-written member | corrected member |
|---|---|---|---|---|---|---|
| src/main/java/dev/houshce29/cc/support/json/compiler/JsonModelGenerator.java:146 | `mapArrayToEnd(index++, …)` passes the value of `index` before the increment. Every element after the first therefore gets key "1". | `{"a": [null, null, null]}` gives the array elements keys "0", "1", "1" | element i of an array is keyed `String.valueOf(i)`, so the keys within an array are distinct; `JsonGeneration.Generate` and `JsonCompiling.JsonCompileOutcome` compute these intended keys | not executed | JsonGeneration.AsWrittenRepeatsKeys | JsonGeneration.ArrayKeysDistinct |
