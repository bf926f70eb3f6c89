# Verified model of the Snooze alert server

Snooze receives alert records, matches them against user-written conditions, and keeps several
server instances consistent through a shared database. This project models the parts of it where
the logic is hard and proves what those parts promise.

* **Conditions.** `Values`, `Conditions`, `WireCodec`, `Lexer`, `Parser`, `Evaluator` and `Tenant`
  follow the code of `internal/condition` and `internal/db/tenant.go`; `ListGrammar`, `MatchTheorems`,
  `Grammar`, `LexerTheorems`, `ParserTheorems`, `ParserFaults`, `QueryShapes`, `NormalForm`, `MinimalParens`
  and `Queries` state what it computes. `Grammar` is an independent account of the query language: concrete
  syntax trees, the tokens each one spells and the condition it denotes. The parser accepts exactly what the
  grammar spells. `ListGrammar` does the same for the list form, and `MatchTheorems` says what each operator
  answers in terms of the values of the record.
* **Coherence between instances.** `Syncer` and `SyncerData` (debounced reloads) and `RuntimeSettings` (the
  tenant-partitioned settings cache) are step systems in which writers, events, timers, locks and
  reloads interleave freely.
* **Protocols over stored rows.** `MessageQueue` (the visibility-timeout queue of both buses),
  `RefreshTokens`, `Leases`, `RotationOrder`, `RotationExactness` and `TokenStore` (rotation chains and how
  long a token lasts), `Migration` and `MigrationTheorems` (the restartable multitenancy migration) and
  `ConcurrentMigration` (several instances of it at once).
* **Control loops and small interpreters.** `Supervisor`, `Pipeline`, `TimeConstraints`, `Modification`
  and `ModificationTheorems`.

Code that updates state in place is a class or a method with loops, proved against a specification
function; the results are lemmas about those functions. By convention `FooF` is the function that
the method `Foo` is proved to compute. Concurrent protocols are state machines on values, so that a
lemma can quantify over every run (`Paths` holds what is common to them); the class beside such a
machine is one component's own code, proved to take only steps of it while the others act in between.
Foreign code (the regexp engine, Unicode tables, float parsing, template rendering, handlers,
processors) is passed in as function values, about which nothing is assumed beyond what a lemma names,
such as `Sane` for the Unicode tables.

## What turned out false

* A reload that times out is abandoned and may finish late. The comment above `reloadBounded`
  (`internal/syncer/syncer.go:236-239`) calls that safe. `Syncer.LateReloadLeavesStaleCache` gives a
  run in which the loop is drained and the cache holds an old write for good.
  `Syncer.StragglersHarmlessExactly` states when it is safe: when no abandoned reload of the tenant
  is left. One that has read the current write, or nothing yet, is no exception, since one more
  write makes its read outdated.
* A condition sent as JSON does not come back as it was: integers return as floats.
  `WireCodec.ObjectRoundTrip` and `WireCodec.ListWireRoundTrip` give the exact condition.
* That each login has at most one active refresh token, and that a token is exchanged once, fails when
  two rotations of one token overlap, since looking a token up and revoking it are separate calls of
  the store (`RotationExactness.OverlapMintsTwice`), and when the second lookup fails, since the
  revocation is then filed under the empty tenant (`FailedLookLeavesTwo`, `FailedLookExchangesTwice`).
  The exact conditions are `OrderIsExact` for one active token and `OnceIsExact` for exchanging once,
  with `OverlapExactly` and `FailedLookExactly` saying what they ask of a single call.
* The comment above `writeSentinel` (`internal/migrate/migrate.go:82-83`) says sentinels do not
  accumulate. They do when instances migrate together: `ConcurrentMigration.TwoSentinels`. Beyond
  uids and the order of a role list nothing else differs: `ConcurrentMigration.ConcurrentRunsEndAlike`.
* The comment above `ensurePlatformAdminRole` (`internal/migrate/migrate.go:183-186`) says the role
  carries no `tenant_id`. The backfill two steps later stamps it: `Migration.PlatformRoleEndsUpStamped`.
* A query such as `"" = 1` parses but its list form is refused:
  `NormalForm.EmptyFieldParsesButIsNotAList`. `NormalForm.QuerySurvivesListForm` gives the exact condition.
* Integer literals wrap silently: `LexerTheorems.IntegerIsExactIfItFits` gives the exact condition.
* A daily window whose bounds are written in different offsets need not be a cyclic interval:
  `TimeConstraints.MixedOffsetsDiffer`. The exact condition is `WindowIsCycleExactly` for one instant
  and `WindowIsAlwaysCycleExactly` for the window as a whole.
* A sleep need not be min(Initial * Multiplier^k, Max): the first is not capped, and products are
  truncated to whole nanoseconds. `Supervisor.SleepIsCappedExponential` gives the exact condition.
* An OR one of whose operands does not compile matches nothing, even where the other operand would
  match: `NormalForm.MergeOrMatches`.

## Model

| member | source | states |
|---|---|---|
| Values.Flatten | internal/condition/flatten.go:6-21 | The values flattened out of nested lists are exactly the non-list leaves reachable through lists |
| Values.FlattenHoldsLeaves | internal/condition/flatten.go:12-21 | Membership in the flattened list is reachability of a leaf, both ways |
| Values.FlattenUnfolds | internal/condition/flatten.go:6-21 | Scalars and objects stay, empty lists vanish, and a list is flattened element by element in order |
| Values.SplitDots | internal/condition/dig.go:55-69 | The pieces hold no dot and rejoin with dots to the field path |
| Values.Dig | internal/condition/dig.go:8-45 | The loop's result is the path walk, numeric components indexing lists and any miss stopping it |
| Values.DigComposes | internal/condition/dig.go:8-45 | Digging a concatenated path is digging the first part and then the second |
| Values.PathReads | internal/condition/dig.go:47-69 | Splitting inverts joining: a field made of components without dots reads exactly that path |
| Values.FieldReads | internal/condition/dig.go:47-53 | A field without dots reads the top-level member of that name, and the empty field the record itself |
| Values.ElementReads | internal/condition/dig.go:15-22 | A numeral after a list's field reads the element with that index, and misses past the end |
| Values.ElementMisses | internal/condition/dig.go:15-42 | Behind a list's field a negative number and a text that is no number read nothing |
| Values.MemberReads | internal/condition/dig.go:23-42 | A component after an object's field reads the member of that name, numeral or not; a scalar has none |
| Conditions.ToList | internal/condition/json.go:145-172 | The list form of a condition, operator by operator |
| Conditions.FromList | internal/condition/json.go:177-256 | Decoding a nested list, with every error case and the operator and arguments it blames |
| ListGrammar.DecoderIsTheGrammar | internal/condition/json.go:177-256 | The decoder returns a condition if and only if the value spells it, in a grammar of lists with every operator name and operand order written out |
| ListGrammar.EncoderSpells | internal/condition/json.go:145-172 | The encoder writes a spelling of every condition that has one |
| ListGrammar.EncodesOrders | internal/condition/json.go:168-171 | The list of each order comparison and equality: its sign, the field, the value |
| ListGrammar.EncodesOtherLeaves | internal/condition/json.go:168-171 | The lists of MATCHES and CONTAINS, and of an operator outside the table |
| ListGrammar.EncodesShortLeaves | internal/condition/json.go:147-167 | The lists of EXISTS, SEARCH, IN (value before field) and the empty condition |
| ListGrammar.EncodesNodes | internal/condition/json.go:149-160 | AND and OR write every operand in order, NOT only its first |
| ListGrammar.BlamesThePart | internal/condition/json.go:177-256 | A refusal carries a part of the value that is refused on its own, and the operator that part starts with |
| Conditions.ListRoundTrip | internal/condition/json.go:145-256 | Encoding then decoding gives back a condition if and only if it has non-empty AND/OR, one-child NOT, non-empty comparison fields and no stray parts at every node |
| Conditions.DecodeEncodeDecode | internal/condition/json.go:145-256 | Whatever the decoder accepts, encoding the result decodes to the same condition |
| Conditions.DecodedIsListNormal | internal/condition/json.go:177-256 | Every decoded tree is well-formed at every node |
| Conditions.DecodedNoLarger | internal/condition/json.go:177-256 | A decoded condition is no larger than the value it came from |
| WireCodec.DecodedIsValid | internal/condition/json.go:19-135 | However a JSON tree mixes operator spellings, children/args/arg and the list form, an accepted one is valid at every node |
| WireCodec.DenotesExactly | internal/condition/json.go:53-77 | Which operator each name denotes, the frontend's spelled-out names included, both ways |
| WireCodec.ObjectDecodesExactly | internal/condition/json.go:35-136 | An object is accepted as a condition if and only if its members name it: op before type, children before args before arg, the empty condition empty and NOT with one child |
| WireCodec.OtherShapes | internal/condition/json.go:19-34 | Null is the empty condition, a list is read as the list form, any other shape is refused |
| WireCodec.ObjectRoundTrip | internal/condition/json.go:10-135 | A valid condition sent in object form comes back whole with its integers as floats; it comes back unchanged if and only if every node is valid and no value holds an integer |
| WireCodec.ListWireRoundTrip | internal/condition/json.go:139-143 | A condition sent in list form as JSON comes back unchanged if and only if the list form can carry it and no value holds an integer; otherwise, if it can be carried, its integers come back as floats |
| WireCodec.JsonedKeepsExactly | internal/condition/json.go:19-33 | Writing a value as JSON and reading it back keeps it if and only if it holds no integer at any depth |
| WireCodec.JsonedMeans | internal/condition/json.go:19-33 | Integers become floats of the same size; lists, objects and other values keep their shape |
| MatchTheorems.WireKeepsComparisons | internal/condition/evaluator.go:201-256 | A scalar that has been through JSON compares as before: =, !=, >, >=, < and <= match the same records |
| Evaluator.Compile | internal/condition/evaluator.go:34-69 | The loop over children and the nested compilation of IN values compute the compiled tree, or name the node whose pattern is refused |
| Evaluator.SubCondSmaller | internal/condition/evaluator.go:341-358 | A condition decoded out of an IN value is strictly smaller than the IN node, so compilation terminates |
| Evaluator.CompilesIffCompilable | internal/condition/evaluator.go:34-69 | Compilation succeeds if and only if every pattern in the tree, embedded conditions included, is accepted |
| Evaluator.CompiledMeaning | internal/condition/evaluator.go:72-195 | For every condition that compiles and every record, the compiled matcher equals a direct recursive meaning, IN values decoded into sub-conditions included; what the leaves of that meaning answer is stated by the MatchTheorems rows below |
| Evaluator.MatchMeans | internal/condition/evaluator.go:14-20 | Match holds if and only if the whole condition compiles and its meaning holds, the meaning being that of the MatchTheorems rows below |
| Evaluator.CompareIsAnOrder | internal/condition/evaluator.go:201-256 | Comparison is antisymmetric, defined in both directions or in neither, and zero exactly on equal values; MatchTheorems.CompareSign gives its direction |
| MatchTheorems.CompareSign | internal/condition/evaluator.go:231-256 | The result is -1 if and only if the first value is below the second, 1 if and only if it is above: numbers of either kind by size, strings at the first differing character; nothing else compares |
| MatchTheorems.NumbersCompare | internal/condition/evaluator.go:243-256 | The sign on integers, floats and mixed pairs |
| MatchTheorems.EqualsMeansSame | internal/condition/evaluator.go:201-228 | Equality is equality as numbers or of values of one kind; booleans, strings and nulls each only among themselves |
| MatchTheorems.OrderMatches | internal/condition/evaluator.go:102-122 | On a top-level field > and < match if and only if the field is there and is above or below the value |
| MatchTheorems.WeakOrderMatches | internal/condition/evaluator.go:109-129 | >= and <= match if and only if the field is there, comparable, and in that order or the same |
| MatchTheorems.IntegersMatch | internal/condition/evaluator.go:102-129 | A record holding the integer i matches > j, >= j, < j and <= j exactly when i does |
| MatchTheorems.EqualityMatches | internal/condition/evaluator.go:96-145 | = holds of the same value, of a missing field only for null; != is its negation; EXISTS wants a field that is not null |
| MatchTheorems.PatternMatches | internal/condition/evaluator.go:130-142 | MATCHES searches the case-insensitive pattern, without the slashes around it, in the text of a field that is there |
| MatchTheorems.ContainsMatches | internal/condition/evaluator.go:146-157 | CONTAINS holds if and only if some leaf of the value, quoted, occurs in some leaf of the field, whatever the case |
| MatchTheorems.SearchMatches | internal/condition/evaluator.go:186-192 | SEARCH holds if and only if the value's text stands somewhere in the record's text |
| MatchTheorems.MemberMatches | internal/condition/evaluator.go:158-185 | IN with plain values holds if and only if some leaf of the field is the same as some leaf of the value |
| MatchTheorems.ElementMatches | internal/condition/evaluator.go:158-175 | IN with a condition holds if and only if the field is a list and the condition matches one of its objects |
| MatchTheorems.AllOf | internal/condition/evaluator.go:77-83 | AND of any number of operands matches if and only if all of them match, compiling or not |
| MatchTheorems.AnyOf | internal/condition/evaluator.go:84-90 | OR of any number of operands matches if and only if all compile and one matches |
| MatchTheorems.NoneOf | internal/condition/evaluator.go:91-95 | NOT matches if and only if it has one operand, which compiles and does not match |
| MatchTheorems.ConstantMatches | internal/condition/evaluator.go:72-195 | The empty condition matches every record, an unknown operator none |
| MatchTheorems.RejectedIsRefused | internal/condition/evaluator.go:34-69 | A refused compilation names a MATCHES node of the tree, embedded conditions included, whose pattern is refused |
| Evaluator.LazyCache.Compile | internal/condition/evaluator.go:315-330 | The shared pattern cache answers as compiling afresh would, forgets nothing and stores only successes |
| Evaluator.LazyCache.Search | internal/condition/evaluator.go:300-313 | A search through the cache answers as the uncached search |
| Tenant.ScopedMatches | internal/db/tenant.go:31-37 | For every condition, compiling or not, the scoped condition matches exactly when the condition matches and the record's tenant_id is the tenant |
| Tenant.TwoTenantsMatchNothing | internal/db/tenant.go:31-37 | Scoping one condition to two different tenants matches no record |
| Tenant.AndMatches | internal/condition/ast.go:63-68 | A two-operand AND matches exactly when both operands do, compiling or not |
| Lexer.ParseInt | internal/condition/lexer.go:385-407 | The digit loop computes the wrapped 64-bit value, or refuses a non-digit |
| Lexer.Scanner.ReadString | internal/condition/lexer.go:197-240 | Reads a quoted string with its escapes, or reports the unterminated string or trailing backslash |
| Lexer.Scanner.TryReadNumber | internal/condition/lexer.go:242-339 | Reads a number, or rolls the position back to where it started |
| Lexer.Scanner.Next | internal/condition/lexer.go:113-195 | One token from the current position, which ends up at the token's end |
| Lexer.Scanner.Run | internal/condition/lexer.go:64-77 | The whole scan: the token list or the first fault and its position |
| LexerTheorems.LexTiles | internal/condition/lexer.go:64-373 | Accepted tokens tile the source: in order, with only whitespace between one token's end and the next one's start |
| LexerTheorems.TilesInOrder | internal/condition/lexer.go:64-77 | Of any two tokens the later one starts at or after the end of the earlier one, so positions strictly increase |
| LexerTheorems.TileAt | internal/condition/lexer.go:64-77 | EOF occurs once, last, at the end of the source, and every other token covers at least one character |
| LexerTheorems.IntegerIsExactIfItFits | internal/condition/lexer.go:385-407 | An integer literal carries its value modulo 2^64, and the exact value if and only if that fits in 64 bits |
| LexerTheorems.TokenReads | internal/condition/lexer.go:113-373 | A printed token followed by a blank is read back as that token, whatever surrounds it: quoted strings, integers, floats, bare identifiers, keywords and symbols |
| LexerTheorems.LexOfPrint | internal/condition/lexer.go:64-373 | Lexing printed tokens gives back those tokens and EOF |
| QueryShapes.SymbolToken | internal/condition/lexer.go:121-159 | Which token each punctuation character is |
| QueryShapes.SignToken | internal/condition/lexer.go:160-180 | !, < and >, alone and with = right after them |
| QueryShapes.WordToken | internal/condition/lexer.go:341-383 | A run of letters, digits, underscores, dots and dashes is one word |
| QueryShapes.WordMeans | internal/condition/lexer.go:341-373 | A word is one of the nine keywords in any mixture of cases, or else an identifier as written |
| QueryShapes.EscapeMeans | internal/condition/lexer.go:206-233 | The character each escape stands for |
| QueryShapes.StringMeans | internal/condition/lexer.go:197-240 | A string ends at the first unescaped quote of the kind that opened it |
| QueryShapes.IntegerToken | internal/condition/lexer.go:242-339 | Digits alone are an integer with its 64-bit value |
| QueryShapes.ExponentToken | internal/condition/lexer.go:275-303 | Digits, e and digits are one float, read by the float parser as they stand |
| QueryShapes.DigitsThenLetter | internal/condition/lexer.go:304-315 | Digits that run into a letter are a word |
| QueryShapes.LexicalError | internal/condition/lexer.go:64-240 | A rejected source is rejected at the start of a token that cannot be read: a stray character, an open quote or a refused number |
| Parser.Cursor.ParseLiteral | internal/condition/parser.go:299-323 | Reads one literal, array or object and leaves the cursor just behind it, or fails at the position the source reports |
| Parser.Cursor.ParseArray | internal/condition/parser.go:325-352 | Reads a possibly empty bracketed list in order |
| Parser.Cursor.ParseObject | internal/condition/parser.go:354-394 | Reads a possibly empty object, a repeated key keeping its last value |
| Parser.Cursor.ParseTerm | internal/condition/parser.go:146-280 | Reads a parenthesised expression, comparison, membership, presence test or search |
| Parser.Cursor.ParseNot | internal/condition/parser.go:105-122 | Reads nested NOTs, which bind tightest |
| Parser.Cursor.ParseOr | internal/condition/parser.go:89-103 | Reads a chain of ORs, merged to the right |
| Parser.Cursor.ParseAnd | internal/condition/parser.go:58-87 | Reads a chain of explicit and implicit ANDs, merged to the right; always advances and never past EOF |
| Parser.Parse | internal/condition/parser.go:10-25 | The whole parse, or the position and reason of its failure, trailing tokens included |
| ParserTheorems.AndReads | internal/condition/parser.go:58-122 | Every spelling of a syntax tree, whatever closes it, parses to the condition the tree denotes |
| ParserTheorems.AndWitness | internal/condition/parser.go:58-122 | Whatever the AND level accepts is a spelling of some syntax tree denoting the result |
| ParserTheorems.LitReads | internal/condition/parser.go:299-394 | Every spelling of a literal parses to its value |
| ParserTheorems.LitWitness | internal/condition/parser.go:299-394 | Whatever the literal parser accepts is a spelling of a literal with that value |
| ParserTheorems.ParserIsTheGrammar | internal/condition/parser.go:10-394 | The parser returns a condition if and only if the tokens spell a syntax tree of the grammar denoting it |
| ParserTheorems.GrammarIsUnambiguous | internal/condition/parser.go:54-136 | No token sequence spells two trees that denote different conditions |
| ParserFaults.ErrorOffends | internal/condition/parser.go:10-394 | Every syntax error points at a token that cannot stand there: each reason says what the token is not |
| ParserFaults.ErrorIsFinal | internal/condition/parser.go:10-394 | No query that agrees up to and including the token an error points at is accepted, whatever follows |
| QueryShapes.Precedence | internal/condition/parser.go:54-103 | OR binds tighter than AND on either side, and terms side by side are joined by AND |
| QueryShapes.NotBindsTightest | internal/condition/parser.go:105-122 | NOT applies to the one term after it |
| QueryShapes.ParenthesesGroup | internal/condition/parser.go:146-158 | Parentheses group what they enclose |
| QueryShapes.AndsNestRight | internal/condition/parser.go:124-129 | A chain of ANDs nests to the right in the order written |
| QueryShapes.OrsNestRight | internal/condition/parser.go:131-136 | A chain of ORs nests to the right in the order written |
| QueryShapes.ComparisonShape | internal/condition/parser.go:169-256 | A field, a sign and a value are the comparison that sign stands for, of the field with the value |
| QueryShapes.OtherTermShapes | internal/condition/parser.go:257-280 | Presence, membership (value before field) and a bare literal |
| QueryShapes.CollectionShapes | internal/condition/parser.go:325-394 | Arrays keep their order; an object keeps the last value of a repeated key |
| NormalForm.ErasingAndsKeepsTheTree | internal/condition/parser.go:58-87 | Erasing every explicit AND from an accepted query leaves its tree unchanged |
| NormalForm.MergeAssociates | internal/condition/parser.go:124-136 | Merging one item and then a tail is merging the node of the two |
| NormalForm.RenderParses | internal/condition/parser.go:10-136 | A tree in parser normal form, rendered as tokens, parses back to exactly that tree |
| MinimalParens.RenderIsLeast | internal/condition/parser.go:10-136 | No query that parses to a tree has fewer parentheses than the rendering of the tree |
| MinimalParens.UnwrappingChangesTheTree | internal/condition/parser.go:10-136 | Leaving out any pair of the rendered parentheses gives a query that is refused or parses to another tree |
| NormalForm.ParsedTreesAreTheNormalOnes | internal/condition/parser.go:10-136 | The trees some query parses to are exactly those in parser normal form |
| NormalForm.QuerySurvivesListForm | internal/condition/json.go:249-252 | A parsed query survives the list form if and only if no comparison in it has an empty field |
| NormalForm.EmptyFieldParsesButIsNotAList | internal/condition/json.go:249-252 | A comparison on a quoted empty field parses, and its list form is refused |
| NormalForm.MergeMeans | internal/condition/parser.go:124-136 | The rotations keep which operands must compile and mean their conjunction or disjunction |
| NormalForm.MergeAndMatches | internal/condition/parser.go:124-129 | A merged AND matches exactly when both operands do, compiling or not |
| NormalForm.MergeOrMatches | internal/condition/parser.go:131-136 | A merged OR matches exactly when both operands compile and one of them matches |
| Queries.LexedIsStream | internal/condition/lexer.go:64-77 | What the lexer accepts is what the parser expects: one EOF, at the end |
| Queries.ParseQuery | internal/condition/parser.go:10-52 | Text to condition, with a syntax error reported at the source position of the offending token |
| Queries.ErrorPointsAtToken | internal/condition/parser.go:10-52 | A syntax error is reported at the source position of a token that cannot stand there |
| Queries.TextRoundTrip | internal/condition/parser.go:10-136 | A normal condition printed as text parses back to exactly that condition |
| Syncer.StepKeeps | internal/syncer/syncer.go:93-259 | Every step of writers, bus, timer, loop and reloads keeps the coherence invariant |
| Syncer.EveryWriteIsSeenOrOwed | internal/syncer/syncer.go:93-225 | In every reachable state of a live loop, each tenant no failed or abandoned reload has touched has its latest write in the cache, or a reload that will see it is still owed |
| Syncer.DrainedIsCoherent | internal/syncer/syncer.go:168-225 | With no failed or timed-out reload, a drained loop leaves every tenant's cache equal to the database |
| Syncer.NextReloadHeals | internal/syncer/syncer.go:168-259 | Whatever failed before, once a tenant has no abandoned reload left its next reload to install makes the drained cache coherent, whatever happens to other tenants |
| Syncer.LateReloadLeavesStaleCache | internal/syncer/syncer.go:236-259 | A run in which a reload abandoned at its timeout finishes late and leaves a drained loop with a stale cache |
| Syncer.StragglersHarmlessExactly | internal/syncer/syncer.go:236-259 | From a reachable, drained state coherent at a tenant, every continuation that gives up no further reload of that tenant and drains is coherent if and only if no abandoned reload of the tenant is left |
| SyncerData.DbCountsWrites | internal/syncer/syncer.go:93-125 | In every run the database of a tenant is the number of its writes so far |
| SyncerData.CacheHoldsWhatWasRead | internal/syncer/syncer.go:205-259 | In every run a tenant's cache holds its number of writes at a moment one of its own reloads, abandoned or not, read the database |
| SyncerData.DrainedHoldsEveryWrite | internal/syncer/syncer.go:168-225 | Without failed reloads a drained loop leaves all of a tenant's writes in its cache |
| SyncerData.TimedOutGoesOn | internal/syncer/syncer.go:236-259 | A reload that times out before installing goes on, with what it has read |
| Syncer.Dispatcher.OnEvent | internal/syncer/syncer.go:168-204 | An event joins the pending set and restarts the debounce timer, as the step system says |
| Syncer.Dispatcher.OnTimer | internal/syncer/syncer.go:205-225 | The expired timer takes the pending tenants as one round and empties the set, as the step system says |
| RuntimeSettings.StepKeeps | internal/config/runtime.go:153-304 | Every step of loads, writes, invalidations and the clock keeps the cache invariant |
| RuntimeSettings.EveryAnswerIsSound | internal/config/runtime.go:270-330 | Every answer is for the asking tenant, held by the database during the refresh that installed it, and served less than the TTL after installation |
| RuntimeSettings.InvalidationIsHonoured | internal/config/runtime.go:153-171 | After a write and a later invalidation of the tenant, no load started after that returns an older value, whatever interleaves |
| RuntimeSettings.EarlierWritesAreVisible | internal/config/runtime.go:153-171 | A load started after an invalidation returns rows that reflect every write of the tenant made before the invalidation |
| RuntimeSettings.PartitionsChange | internal/config/runtime.go:153-304 | A tenant's partition goes only by an invalidation of it or of all, changes only when a load of that tenant installs what it read, and then expires after the TTL |
| RuntimeSettings.ServedWhileFresh | internal/config/runtime.go:270-285 | A load is served from the cache if and only if less than the TTL has passed since the partition was installed |
| RuntimeSettings.ReadSeesEveryWrite | internal/config/runtime.go:286-330 | A refresh reads its own tenant's rows with every write made so far |
| RuntimeSettings.FoldRows | internal/config/runtime.go:309-330 | The catalogue holds exactly the non-empty names of the rows, each with the value of the last row of that name, null when it has none |
| RuntimeSettings.Settings.LoadFor | internal/config/runtime.go:270-304 | With others acting while it waits for the lock and between its statements, a load takes only steps of the system and ends in a sound answer no older than the last invalidation before it, or in a failed read without one; an absent tenant changes nothing |
| RuntimeSettings.Settings.InvalidateAll | internal/config/runtime.go:153-157 | After waiting for the lock no partition is left, and every write made before the call is one no later load can miss |
| RuntimeSettings.Settings.InvalidateOne | internal/config/runtime.go:164-171 | The same for one tenant, by a single step that touches no other partition; an empty tenant changes nothing |
| RuntimeSettings.LockCanBeFreed | internal/config/runtime.go:286-304 | In every reachable state the holder of the lock can let go of it in one step |
| MessageQueue.StepKeeps | internal/mq/pg.go:278-360 | Every step of publishers, consumers, crashes and the clock keeps the queue invariant |
| MessageQueue.RunKeepsInv | internal/mq/pg.go:278-360 | Every reachable state satisfies the queue invariant |
| MessageQueue.QueueSafety | internal/mq/pg.go:278-360 | In every run, claims of a message are more than the timeout apart, nothing claims it once acknowledged, and every acknowledgement follows the same consumer's claim and successful handler call |
| MessageQueue.ClaimsOnlyItsQueue | internal/mq/pg.go:285-322 | Every claim of every run takes only messages of its own queue that are unacknowledged and unlocked or locked longer ago than the timeout, and locks each for itself |
| MessageQueue.RowAfterStep | internal/mq/pg.go:278-360 | No step but a claim touches a lock and none but a successful acknowledgement the ack time; the history records exactly these and the successful handler calls |
| MessageQueue.ClaimsKeepApart | internal/mq/pg.go:278-322 | In every run any two claims of one message are more than the timeout apart |
| MessageQueue.AckedIsNeverClaimed | internal/mq/pg.go:278-360 | In every run no claim after a successful acknowledgement takes the message |
| MessageQueue.AckFollowsHandling | internal/mq/pg.go:325-360 | In every run an acknowledgement follows an earlier claim and then a successful handler call by the same consumer |
| MessageQueue.PublishedStays | internal/mq/pg.go:159-183 | From a publication on every state of the run stores the message with the queue, payload and time it was published with |
| MessageQueue.OnlyPublishedAppear | internal/mq/pg.go:159-183 | Only a publication adds a message, unlocked and unacknowledged |
| MessageQueue.NothingIsLost | internal/mq/pg.go:159-183 | No published message disappears, is altered or forgets an earlier event |
| MessageQueue.LeasesAreExclusive | internal/mq/pg.go:278-360 | Two consumers hold the same message only if their claims are more than the timeout apart |
| MessageQueue.UnackedBecomesClaimable | internal/mq/pg.go:278-312 | Every claim that can reach the row of an unacknowledged message whose lock is unset or older than the timeout, and whose limit covers the rows no younger, returns that message |
| MessageQueue.Bus.ClaimAndProcess | internal/mq/pg.go:278-360 | While the rest of the system runs freely, a claimed batch, all of it messages of the queue, is worked off in order, each message acknowledged if its handler succeeded and the update got through, by steps of the protocol only |
| MessageQueue.Bus.FindOldest | internal/mq/mongo.go:266-293 | Finds a message of this queue that is unacknowledged and unlocked or locked longer ago than the timeout, none such being older; finds none only when there is none |
| MessageQueue.Bus.Drain | internal/mq/mongo.go:234-264 | Takes only protocol steps; claims and works off messages of this queue only, either the full limit or as many as there are, ending with every message of the queue acknowledged or locked within the timeout |
| MessageQueue.Bus.ProcessOne | internal/mq/pg.go:325-360 | One handler call and, when it succeeds, one acknowledgement, with others acting in between |
| Migration.StampsWhatItsConditionMatches | internal/migrate/migrate.go:138-139 | NOT (tenant_id EXISTS) matches exactly the rows without a tenant_id or with a null one; those get "default", every other row stays as it is |
| Migration.TwoAttemptsAreOne | internal/migrate/migrate.go:269-309 | An attempt after a crashed one leaves what a single attempt, as far as the better of the two, leaves; each random choice is the one made by the attempt that first used it |
| Migration.AttemptsAreOne | internal/migrate/migrate.go:269-309 | Any series of attempts leaves what one attempt that got as far would leave |
| Migration.CrashesAreHarmless | internal/migrate/migrate.go:269-309 | Whatever attempts crash, between steps or between backfilled collections, completing the migration gives the state of one uninterrupted run |
| Migration.CrashedRunsEndAlike | internal/migrate/migrate.go:165-309 | A migration that crashed any number of times and one that never did end equal in every collection, row by row, but for uids and the order of a role list |
| ConcurrentMigration.StepKeeps | internal/migrate/migrate.go:128-309 | However the storage operations of several instances interleave, with crashes and with root read and written in separate calls, the database stays that of one run but for further sentinels |
| ConcurrentMigration.ConcurrentRunsEndAlike | internal/migrate/migrate.go:256-309 | Once one of any number of concurrent instances has completed, every collection but general is as after one uninterrupted run, row by row, and general holds its own backfilled rows and one sentinel for each completion |
| ConcurrentMigration.TwoSentinels | internal/migrate/migrate.go:82-93 | A run of two instances started together that leaves two sentinels |
| Migration.FinalState | internal/migrate/migrate.go:128-254 | What one completed migration leaves in each collection; the MigrationTheorems rows say it field by field |
| Migration.EarlierDocumentsAreOwned | internal/migrate/migrate.go:128-159 | Every earlier document of a listed collection ends up with the tenant_id it had, or with "default" if it had none or null; every other field is kept, but for the permissions of the platform role and the roles of root |
| MigrationTheorems.DocumentsKeepTheirOwner | internal/migrate/migrate.go:128-159 | The same however often the migration crashed before it completed |
| MigrationTheorems.OthersAreUntouched | internal/migrate/migrate.go:95-159 | Collections that are neither listed nor the tenant registry do not change |
| MigrationTheorems.DefaultTenantIsRegistered | internal/migrate/migrate.go:165-181 | The registry ends up with a document of id "default", display name "Default" and status "active"; its other documents stay |
| MigrationTheorems.PlatformRoleExists | internal/migrate/migrate.go:188-204 | There is a role platform_admin with exactly ro_tenant and rw_tenant, and it carries an owner |
| MigrationTheorems.RootIsGranted | internal/migrate/migrate.go:209-254 | The first local root of the default tenant ends up with platform_admin besides the roles it had; no other user changes but in its tenant_id |
| MigrationTheorems.SentinelIsWritten | internal/migrate/migrate.go:82-93 | The general collection gains one document, which holds multitenancy_v1 set to true |
| MigrationTheorems.DoneMeans | internal/migrate/migrate.go:67-80 | A database counts as migrated if and only if some general document holds multitenancy_v1 set to true |
| MigrationTheorems.MigratesOnce | internal/migrate/migrate.go:269-287 | A migrated database is left alone |
| MigrationTheorems.UpsertMeans | internal/db/db.go:56-69 | An upsert leaves one row with the fields of the patch, inserted with a uid only if none was identified; other rows and other fields stay |
| Migration.NothingIsDuplicated | internal/migrate/migrate.go:128-309 | Crashes included, each collection gains exactly the documents one run inserts |
| Migration.PlatformRoleEndsUpStamped | internal/migrate/migrate.go:183-186 | The platform role does end up carrying a tenant_id |
| Migration.Store.Upsert | internal/db/db.go:56-69 | A write with a primary key patches the first row it identifies or inserts one |
| Migration.Store.StampMissing | internal/migrate/migrate.go:139-158 | In place, a row that NOT (tenant_id EXISTS) matches differs afterwards only in its tenant_id, now "default"; any other row is unchanged; the matching rows are counted |
| Migration.Store.GrantRoot | internal/migrate/migrate.go:206-254 | Adds the role to root's deduplicated list when root exists and lacks it; otherwise changes nothing |
| Migration.Store.IsMigrated | internal/migrate/migrate.go:67-80 | True exactly when a row holds the sentinel set to true |
| Migration.Store.Migrate | internal/migrate/migrate.go:269-309 | The ordered steps, stopped anywhere, reach the state the step functions give |
| RefreshTokens.ClaimsSurviveStorage | internal/auth/refresh.go:232-272 | A stored token gives back the subject, method, tenant, roles, permissions and groups it was issued for |
| RefreshTokens.StepKeeps | internal/auth/refresh.go:57-202 | Every store call of a login, rotation, logout or cleanup, failed ones included, and every tick of the clock keeps the table invariant, however calls interleave |
| RefreshTokens.ClaimsFollowTheLogin | internal/auth/refresh.go:98-128 | In every interleaving, every stored token read back from its document carries exactly the subject, method, tenant, roles, permissions and groups of its login |
| Leases.StoredClaims | internal/auth/refresh.go:63-74 | The claims in a stored document, member by member |
| Leases.StoredToken | internal/auth/refresh.go:63-74 | The hash, issue time, expiry (issue time plus lease) and zero revocation time over the claims |
| Leases.ActiveExactly | internal/auth/refresh.go:163-171 | A token minted at t with lease L is active if and only if it is not revoked and now < t + L, expired from t + L on, and due for cleanup after t + L |
| Leases.RevokedExactly | internal/auth/refresh.go:163-166 | A row is revoked if and only if its revocation time lies after the epoch |
| Leases.RevocationIsDated | internal/auth/refresh.go:173-194 | Revoking dates the first row under the tenant and hash, or adds a row with only these; everything else stays |
| Leases.StepKeepsLeases | internal/auth/refresh.go:57-202 | Every step keeps every issued row expiring one lease after it was minted |
| Leases.AcceptedOnlyWithinLease | internal/auth/refresh.go:98-171 | In every run, however calls interleave, a token is accepted for exchange only before one lease has passed since it was minted |
| Leases.AcceptedWithinLease | internal/auth/refresh.go:98-171 | In every run a token whose row is there and unrevoked is accepted as long as its lease lasts |
| Leases.CleanedExactly | internal/auth/refresh.go:198-202 | A cleanup keeps a row if and only if its lease had not run out before |
| RotationOrder.OrderlyKeeps | internal/auth/refresh.go:98-202 | Without overlapping rotations of one token and with answered lookups, every step keeps at most one active token or rotation for each login |
| RotationOrder.OnceStays | internal/auth/refresh.go:98-202 | Under the same proviso every step keeps each token exchanged at most once, and exchanged tokens spent |
| RotationOrder.ChainSafety | internal/auth/refresh.go:98-202 | In every run in which rotations of one token do not overlap and second lookups answer, each login has at most one active token at any time |
| RotationOrder.RotatesOnce | internal/auth/refresh.go:98-128 | In every such run no token is exchanged twice, and an exchanged one cannot be exchanged again, cleanups included |
| RotationExactness.OrderIsExact | internal/auth/refresh.go:98-202 | From a reachable state every orderly continuation keeps at most one active token for each login if and only if each login has at most one active token or one rotation to carry it on |
| RotationExactness.OnceIsExact | internal/auth/refresh.go:98-202 | From a reachable state no orderly continuation exchanges a token twice if and only if none was, each exchanged token has no active row and no rotation under way, each token has at most one rotation under way, and each rotation will revoke the token it is of |
| RotationExactness.OverlapExactly | internal/auth/refresh.go:98-128 | A rotation started in order keeps either order if and only if no other rotation of the same token is under way |
| RotationExactness.FailedLookExactly | internal/auth/refresh.go:173-194 | A failed second lookup during a rotation keeps either order if and only if the token has no active row left or its tenant is empty |
| RotationExactness.OverlapMintsTwice | internal/auth/refresh.go:98-128 | A run with every lookup answered in which two rotations of one token overlap, and the login ends with two active tokens and the token exchanged twice |
| RotationExactness.FailedLookLeavesTwo | internal/auth/refresh.go:173-194 | A run without any overlap in which a failed second lookup leaves a login two active tokens |
| RotationExactness.FailedLookExchangesTwice | internal/auth/refresh.go:173-194 | A run without any overlap in which a failed second lookup lets a token be exchanged twice |
| TokenStore.Store.Issue | internal/auth/refresh.go:57-83 | Inserts one active row for the claims and returns its expiry, or leaves the table alone when the write fails |
| TokenStore.Store.VerifyAndRotate | internal/auth/refresh.go:98-128 | With others acting between its store calls, takes only steps of the system; unknown, revoked and expired tokens change nothing, and success hands the login and its claims on to a new token; a renewed token was within one lease of when it was minted, an expired one was not |
| TokenStore.Store.MarkRevoked | internal/auth/refresh.go:173-194 | If the second lookup answers and the write succeeds, no unrevoked row of the token is left, whatever others did in between |
| TokenStore.Store.RevokeToken | internal/auth/refresh.go:137-149 | An unknown token changes nothing and is no error; a known one has no unrevoked row left when the lookup answered and the write succeeded |
| TokenStore.Store.CleanUp | internal/auth/refresh.go:196-202 | Deletes exactly the rows whose lease, counted from when they were minted, has run out and counts them, or nothing when the delete fails |
| Supervisor.WithDefaults | internal/core/supervisor.go:51-69 | The completed policy is sound, and a sound policy is unchanged |
| Supervisor.DefaultsMean | internal/core/supervisor.go:40-70 | What is filled in for each field: one second, thirty seconds, a factor of two, three tries, one minute |
| Supervisor.Record | internal/core/supervisor.go:155-161 | After each failure the trimmed list is exactly the failures within the window of the latest one |
| Supervisor.Run | internal/core/supervisor.go:130-196 | Which attempt ends the run and how: the first clean or cancelled one, the first failure that makes more than Tries in the window, or none; every earlier attempt failed and was restarted, after the sleep the backoff gives |
| Supervisor.EndingIsUnique | internal/core/supervisor.go:130-196 | A policy and a sequence of attempts leave exactly one way for the run to end |
| Supervisor.WindowIsBounded | internal/core/supervisor.go:155-183 | No interval of length Window holds more than Tries + 1 failures of a run |
| Supervisor.TooManyExactly | internal/core/supervisor.go:155-183 | There are too many failures within the window if and only if the latest one and the one Tries before it lie within it |
| Supervisor.GivesUpExactly | internal/core/supervisor.go:130-196 | A run gives up, or propagates if critical, exactly at the first failure that comes no later than the window after the one Tries before it |
| Supervisor.SleepClosedForm | internal/core/supervisor.go:185-195 | Until truncation to whole nanoseconds sets in, the k-th sleep is the capped exponential, the very first one uncapped |
| Supervisor.SleepIsBounded | internal/core/supervisor.go:185-195 | Every sleep is positive and at most Initial * Multiplier^k, and from the second on at most Max, truncation included |
| Supervisor.IdealIsExponential | internal/core/supervisor.go:185-195 | Without truncation and cap the k-th sleep is Initial * Multiplier^k |
| Supervisor.SleepIsCappedExponential | internal/core/supervisor.go:185-195 | Every sleep is min(Initial * Multiplier^k, Max) if and only if Initial <= Max and no exponential below Max has a fraction of a nanosecond to be truncated |
| Pipeline.Core.ProcessRecord | internal/core/pipeline.go:64-151 | Without a tenant nothing runs or is written; otherwise the walk ends where the first verdict other than continue falls, and persists at most once, the returned record, on all-continue, abort_write, abort_update or a processor error |
| Pipeline.Core.Finish | internal/core/pipeline.go:98-141 | What each verdict or failure returns and persists |
| Pipeline.NothingRunsAfterTheEnd | internal/core/pipeline.go:77-151 | No processor is reached after the one that ends the walk |
| Pipeline.EndingIsUnique | internal/core/pipeline.go:77-151 | The processors and the record determine the outcome and the number of calls |
| Pipeline.VisitsAreListed | internal/core/pipeline.go:77-79 | If no processor meddles with it, the record's plugin list is extended by the names of the processors it went through, in order |
| Pipeline.FailureIsRecorded | internal/core/pipeline.go:98-115 | A failing processor leaves its name and message in the record it was handed, which is stored once, and the caller sees an abort |
| Pipeline.VerdictsMean | internal/core/pipeline.go:117-141 | What each verdict returns, stores and reports |
| Pipeline.ContinuingMeans | internal/core/pipeline.go:143-151 | When all continue, the last record is returned and stored once |
| Pipeline.TtlIsStamped | internal/core/pipeline.go:202-222 | A record without a lifetime gets the default one, if there is one, and nothing else changes |
| Pipeline.RecordToDoc | internal/core/pipeline.go:224-279 | Exactly the typed fields that are not empty are stored, and an extra field exactly when no set typed field has its name |
| Pipeline.DocumentTexts | internal/core/pipeline.go:224-279 | Each text field stands under its own name; an empty one leaves the name to the extra fields |
| Pipeline.DocumentRest | internal/core/pipeline.go:224-279 | Timestamp, epoch, lifetime, raw record, tags and plugins under their names when they hold something |
| TimeConstraints.WindowIsCycleExactly | internal/timeconstraints/timeconstraints.go:249-292 | A daily window means the cyclic interval if and only if its bounds, placed on the instant's dates, are less than a day apart |
| TimeConstraints.WindowIsAlwaysCycleExactly | internal/timeconstraints/timeconstraints.go:249-292 | A window is a cyclic interval at every instant if and only if its offsets agree up to whole days or its clock times lie closer than the offsets push them apart |
| TimeConstraints.SameOffsetIsCyclic | internal/timeconstraints/timeconstraints.go:249-292 | With one offset, an instant matches exactly when (timeOfDay - from) mod 24h <= (until - from) mod 24h |
| TimeConstraints.MixedOffsetsDiffer | internal/timeconstraints/timeconstraints.go:252-256 | Two bounds and an instant, in different offsets, where the window and the cyclic interval disagree |
| TimeConstraints.WindowRepeatsDaily | internal/timeconstraints/timeconstraints.go:249-310 | Every window, one- or two-sided and whatever the offsets, repeats each day |
| TimeConstraints.OneSidedByClock | internal/timeconstraints/timeconstraints.go:263-273 | A window with one bound holds from its clock time to the end of the day, or from midnight to its clock time; without bounds always |
| TimeConstraints.TwoSidedByClock | internal/timeconstraints/timeconstraints.go:249-292 | In one offset a window holds between its clock times, both included, past midnight if the later one comes first |
| TimeConstraints.GroupRepeatsWeekly | internal/timeconstraints/timeconstraints.go:39-57 | A group without absolute dates repeats every week |
| TimeConstraints.RangeMeans | internal/timeconstraints/timeconstraints.go:143-154 | A date range includes its bounds, is open on a missing side, and holds nothing without any bound |
| TimeConstraints.WeekdayMeans | internal/timeconstraints/timeconstraints.go:175-183 | The weekday is that of the local day: a Thursday on 1 January 1970 and the next one each day |
| TimeConstraints.FamiliesConjoin | internal/timeconstraints/timeconstraints.go:39-57 | A group matches if and only if each of its families does; an empty one always |
| TimeConstraints.AlternativesDisjoin | internal/timeconstraints/timeconstraints.go:74-81 | A family that is not empty matches if and only if one of its constraints does |
| Modification.Parse | internal/modification/modification.go:72-92 | The operation with its arguments padded to its arity, or the fault |
| ModificationTheorems.ParsesByName | internal/modification/modification.go:54-92 | A list parses to an operation if and only if it starts with its name; the arguments follow, made up with empty strings to the number it needs |
| ModificationTheorems.RefusesTheRest | internal/modification/modification.go:72-84 | Which lists are refused and why: empty, without a name, or with an unknown one |
| Modification.Validate | internal/modification/modification.go:96-117 | Accepts an object exactly when its modifications are absent or all parse |
| ModificationTheorems.ValidExactly | internal/modification/modification.go:96-117 | An object is valid if and only if its modifications are absent or a list of lists that each start with an operation's name |
| Modification.Target.Apply | internal/modification/modification.go:123-148 | Dispatches to the operation, which changes the record in place as the ModificationTheorems rows below say, or reports the fault and leaves the record alone, a nil record included |
| Modification.Target.ApplySet | internal/modification/modification.go:166-177 | Computes ApplyF, of which ModificationTheorems.SetStores states that the key then holds the value |
| Modification.Target.ApplyDelete | internal/modification/modification.go:180-191 | Removes the resolved key if it is there |
| Modification.Target.ApplyArrayAppend | internal/modification/modification.go:201-220 | Extends the list under the key, by all elements of a list or by one value |
| Modification.Target.ApplyArrayDelete | internal/modification/modification.go:224-242 | The search loop removes exactly the first equal element |
| Modification.Target.ApplyRegexParse | internal/modification/modification.go:246-284 | The group loop writes the named groups of the first match over the record, left to right |
| Modification.Target.ApplyRegexSub | internal/modification/modification.go:287-316 | Writes the replaced text under the output key, or changes nothing |
| ModificationTheorems.SetStores | internal/modification/modification.go:166-177 | After SET the key holds the resolved value and every other key what it held; it is a change exactly when the value is something and differs from the old one |
| ModificationTheorems.DeleteRemoves | internal/modification/modification.go:180-191 | After DELETE the key is absent; it is a change exactly when it was there |
| ModificationTheorems.AppendExtends | internal/modification/modification.go:201-220 | After ARRAY_APPEND the old list is a prefix, followed by the elements of a list or by the one value |
| ModificationTheorems.ArrayDeleteTakesFirst | internal/modification/modification.go:224-242 | ARRAY_DELETE takes out the first element equal to the value and no other |
| ModificationTheorems.ArrayMisses | internal/modification/modification.go:201-242 | Without a list, or without an equal element, nothing changes |
| ModificationTheorems.ParseCaptures | internal/modification/modification.go:246-284 | After REGEX_PARSE each group name holds the text the last group of that name captured, and every other key what it held |
| ModificationTheorems.ParseMisses | internal/modification/modification.go:246-276 | When REGEX_PARSE changes nothing |
| ModificationTheorems.SubReplaces | internal/modification/modification.go:287-316 | After REGEX_SUB the output key holds the source text with the pattern replaced, or nothing has changed |
| ModificationTheorems.OddModifications | internal/modification/modification.go:123-148 | Unknown operations and too few arguments are faults; a key that is no string changes nothing |
| ModificationTheorems.EqualMeansAlike | internal/modification/modification.go:633-679 | Equality is that of numbers, of strings, or of formatted text, null only equalling null; which values count as nothing |
| Modification.Target.ApplyAll | internal/modification/modification.go:154-163 | Applies left to right; at a fault reports which modification failed and leaves what the earlier ones made of the record |
| Modification.StopLeavesThePrefix | internal/modification/modification.go:154-163 | What a fault leaves is the result of all earlier modifications, on which the failing one fails |
| Modification.ValidatedNeverFails | internal/modification/modification.go:96-163 | If validation accepts an object, parsing and applying its modifications to any record never fails |
| Modification.ApplyAllComposes | internal/modification/modification.go:154-163 | Applying a concatenation is applying the parts in order |
| Modification.OtherKeysAreKept | internal/modification/modification.go:123-316 | A modification changes no key but its resolved target or its regex groups |
| Modification.SplitTopLevel | internal/modification/modification.go:463-484 | The pieces rejoin to the input and hold no separator outside parentheses |
| Modification.SplitRejoins | internal/modification/modification.go:463-484 | The same from any position and nesting depth of the scan |
| ModificationTheorems.PlainSplits | internal/modification/modification.go:463-484 | Without parentheses an expression is split at every separator |
| ModificationTheorems.ParenthesesProtect | internal/modification/modification.go:463-484 | A parenthesised expression is not split |

## Left out

- Queries.TextRoundTrip: leaves out integers beyond 64 bits, which no query yields, and floats the formatter cannot write as a decimal that reads back; words are printed quoted.
- MessageQueue.UnackedBecomesClaimable: states that every sufficient claim returns the message, not that some consumer eventually makes one; fairness of the scheduler is not modelled.
- Numbers are exact: floating-point rounding, NaN and infinities are not modelled, and lexer positions count characters, not bytes.
- The regexp engine, Unicode tables, float parsing and formatting, JSON byte syntax, time-string layouts and template rendering are parameters.
- The text a SEARCH compares with (the Python-style record dump) is a parameter, a function of the record.
- Storage drivers: only the contract the migration and the token store rely on is modelled; timestamps written by the store are not.
- The MongoDB queue takes its time from each consumer; one shared clock is assumed for both buses. The change bus is assumed lossless.
- Connecting, listening, polling and reconnecting of the buses, and queue names turned into channel names.
- TenantScope, which only reads the request context, and the typed overlays and coercions of the runtime settings.
- Text forms of time constraints, regular-expression replacement syntax and template filters of modifications.
- Statistics, logging, status reporting and tracing in the pipeline, the syncer and the supervisor; recovering a panicking job, which counts as a failure.
- HTTP, command line, authentication back ends, token signing, network bridges, configuration loading and demo data.
