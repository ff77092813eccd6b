# Verified models of a database client's stateful core

This project models, in Dafny, the parts of a desktop database client where state outlives a
call, and proves what those parts are for. There are five groups of modules.

**The incremental statement cache of SQL completion.** `SqlText` and `Tokenizer` hold the
scanner of the editor: every dialect's quotes, nested comments, dollar quotes, numbers,
identifiers, and the two separators, `;` and a `GO` alone on its line. `Statements` defines what
cutting a whole text into statements means. `Locality`, `Rescan` and `EditedStatements` prove
when a scan may be restarted, how far an edit reaches back, and when a partial scan has met the
old one again. `Edits` gives a batch of edits a reference meaning, simultaneous replacement.
`ScopeParser` and `BlockParser` are the query block parser, `ParserShift` proves that it commutes
with displacement, `ParserRaises` when it raises, `Texts` shows that on a text, and
`StatementLookup` says what the statement at an offset is without any cutting. `DocumentCache` is
the cache object itself, updated in place, against those references.

**The result cache budget.** `ResultCache` is the controller on the heap: entries in order of
use, leases compared by identity, a re-entrancy guard, and callbacks that call the cache again in
the middle of an eviction. `BudgetModel` is the function it computes, `BudgetProofs` what follows
for every state and every callback. `JsonText` defines JSON text and its UTF-8 form, with a
reader for strings, and `ResultSize` proves the size estimate against it.

**Metadata reads.** `Invalidation` has the generation counters, `MetadataReads` the protocol of
concurrent reads, schema changes, disconnections and resets as one transition system with a
server of its own, `TableBatches` the sharing of batched table lists, whose requests a read may
join. `CompletionKeys`, `CompletionCache` and `ForeignKeyCache` are the two caches of completion,
and `OrderedMaps` the insertion-ordered map that all caches here rely on.

**The data grid and its tabs.** `TableStore` is the paging store as a state machine over user
actions and late answers, `TableStoreProofs` and `TableStoreSharing` its reachable states,
`TableStoreExposure` the states from which eviction can do harm, `TableStoreCursors` when a cursor
is sent again, `TableStoreReloads` the reload after a write. `OpenTabs` has the tab list of a
connection and the view derived from it, `TabsStore` the one view of all connections.

**Scopes of completion.** `Projection` infers the output columns of a SELECT, `ProjectionMeaning`
gives the reference rules it is sound for, `Qualifiers` says which relation and which column a
path denotes. `CteScopes` computes which CTE a name denotes and proves it lexical scoping with
shadowing. `Scopes` has the repeated passes over a query's blocks and the reference meaning of a
whole query, `QueryMeaning` proves that this meaning exists and is unique, `ScopeSoundness` that
whatever the passes flag as complete at any time is what it says. `BlockTree` and `ParsedTree`
prove that what the parser builds is a tree whose identifiers, made of positions, tell all blocks
apart. `WrittenLists` reads from the tokens the column lists that the parser drops. `ListedText`
follows one such text through, and `OperandText` one whose last operand is taken for a name.
`ParsedQuery` puts everything together, from the text of a statement to the columns that are
claimed for it.

Code that the original writes as objects or loops over its own fields is modelled as classes and
methods here; protocols over asynchronous calls, and stores whose state is replaced as a whole,
are transition systems over values in which everything between two awaits is one step.

## Where the code does not meet a property

Each of these is stated for all inputs with the exact condition, or with the input that shows it.

* Enforcement need not end with only leased entries over budget: a callback may release a lease
  that the pass has gone by, and its own enforcement is a no-op
  (`BudgetProofs.ReleasingCallbackLeavesExcess`). This is the only way: an excess with an entry that
  nothing protects is left only if some callback dropped a lease of an entry the pass had gone by
  (`BudgetProofs.ExcessOnlyIfDropped`). The converse fails, since another lease may protect the entry
  or a later eviction end the excess.
* Dropping a table computes the new active index from the first matching tab. The active tab
  survives exactly when at most one tab of that table comes before it
  (`OpenTabs.DropTableActiveIff`). Renaming a table onto an open name opens it twice
  (`OpenTabs.RenameDistinctIff`), and then a drop activates another tab
  (`OpenTabs.RenameThenDropLosesActive`).
* Closing, switching or opening a tab, and dropping a table or a database, write into the view
  whatever connection is shown. A drop on one connection that ends after another is shown leaves
  that one with no tabs in view (`TabsStore.DroppedAway`). Such a change of another connection
  leaves the view right exactly when the fields it writes have the values they had
  (`TabsStore.OtherChangeSyncIff`), for a drop when the tabs left there and their index are those
  shown here (`TabsStore.DropElsewhereIff`, `TabsStore.DropAllElsewhereIff`). Any change of the
  connection that is shown brings the view back in line (`TabsStore.ShownChangeSyncs`).
* Of two refreshes of a total under way at once, the one answered last counts, not the one begun
  last (`TableStoreProofs.OlderTotalShown`): exactly when it is for the same table and filter and
  was not cancelled (`TableStoreProofs.OlderTotalIff`).
* A cursor is not used once only: a load that fails keeps the page and its cursors, and going on
  from that page again sends the same cursor (`TableStoreCursors.CursorSentTwice`). In any reachable
  state a cursor of an answer is sent from then on, in some continuation, exactly when the answer is
  held: shown or kept under the parameters it was asked with, or its cursor already on its way
  (`TableStoreCursors.CursorSentIff`). Where loads are for the table that is shown, the answer a
  cursor brings ends this: once shown, the cursor is never sent again
  (`TableStoreCursors.AnsweredOnce`).
* A load started for a table that is not shown lets two tables share one row array, and evicting
  one empties the other (`TableStoreSharing.UndisciplinedLoadShares`). With loads for the table
  that is shown, or while no rows are, it cannot happen (`TableStoreSharing.WholeRows`). From any
  state, however it was reached, such loads alone can still lead to emptied rows with a context
  exactly when it has happened or two tables hold one array (`TableStoreExposure.HarmIff`).
* A select item's last name is taken for its alias whenever something precedes it that an
  expression may end with. Where DIV stands before an operand, as in MySQL, the item of
  `SELECT a DIV b FROM t` is claimed to be the column `b` (`OperandText.OperandIsNamed`). For any
  set of words that stand before an operand, and any set of words that end an expression, an item
  flagged complete is right exactly when it has AS, or its last name is not bare, or neither the
  token before that name is an unquoted word of the first set nor the name one of the second
  (`ProjectionMeaning.ItemRightIff`), and a SELECT exactly when all its items are
  (`ScopeSoundness.SelectRightIff`). `ParsedQuery.ResolveStatement` carries this condition.
* A column list behind a table or a CTE in FROM, as in `t a(x)`, is dropped by the parser and the
  table's own names are claimed: in PostgreSQL the star of `SELECT * FROM t a(x)` is claimed to be
  the column `id` of `t` (`ListedText.ListIsDropped`). Read as it is written, such a relation is
  right exactly when the list repeats the names of its source (`WrittenLists.ListedRightIff`), and
  everything flagged complete is right when no named relation is directly followed by a parenthesis
  and no item ends in an operator (`ParsedQuery.ResolveStatement`).
* A set operator at the end makes the parser index past its tokens. `SELECT 1 UNION` raises
  (`Texts.UnfinishedUnionRaises`). A statement raises exactly when its parentheses pair up, its
  declarations parse, SELECT follows them, and its last token is a set operator, or ALL or DISTINCT
  right behind one (`ParserRaises.BlocksRaiseIff`). A lookup then reports that and keeps nothing
  (`DocumentCache.DocumentCache.GetStatement`).

## Model

| member | source | states |
|---|---|---|
| Locality.TokensMirror | src/utils/sqlCompletionTokenizer.ts:24-161 | Scanning a text that agrees with another from some solid unit to the end gives the other's tokens, displaced: no token looks back further than a unit that is neither blank nor a return. |
| Locality.StableTokens | src/utils/sqlCompletionTokenizer.ts:24-161 | Tokens that end before a window closing with a line break or semicolon do not depend on anything behind it. |
| Locality.NextTokenMirror | src/utils/sqlCompletionTokenizer.ts:33-160 | The next token of two texts that agree on a window is the same up to displacement, whatever the dialect and token class. |
| Statements.CutShift | src/utils/sqlCompletionDocumentCache.ts:93-130 | Cutting displaced tokens gives displaced statements with the same local tokens. |
| Statements.CutAt | src/utils/sqlCompletionDocumentCache.ts:100-124 | The statements from the j-th on are the cut of the tokens after the j-th separator. |
| Rescan.ChunksIncreasing | src/utils/sqlCompletionDocumentCache.ts:82-91 | Statement starts increase strictly, lie in the text, and there is at least one statement, so binary search is sound. |
| Rescan.Restart | src/utils/sqlCompletionDocumentCache.ts:65-69 | Scanning from any statement boundary gives exactly the rest of the scan from zero. |
| Rescan.WindowBeforeGo | src/utils/sqlCompletionDocumentCache.ts:166-176 | Between two separators of which the later is GO there is a line break, so stepping back one statement is enough. |
| Rescan.CheckpointHolds | src/utils/sqlCompletionDocumentCache.ts:165-177 | For every edit behind it, the statements before the checkpoint survive and the new scan is theirs followed by a scan from the checkpoint. |
| Rescan.Resynchronised | src/utils/sqlCompletionDocumentCache.ts:189-199 | A boundary behind the last edit that falls on an old one, displaced, is followed by all later old statements, displaced. |
| Edits.AcceptableIff | src/utils/sqlCompletionDocumentCache.ts:144-160 | The checks on the sorted batch accept it exactly when every range lies in the text and any two neither overlap nor start together, in any order. |
| Edits.SpliceStep | src/utils/sqlCompletionDocumentCache.ts:181-188 | Splicing one more range, right to left and in place, is replacing all ranges so far at once in the old text. |
| Edits.ReplacedSuffix | src/utils/sqlCompletionDocumentCache.ts:178-188 | Text behind the last change is copied, displaced by the sum of the length differences. |
| Edits.UntouchedUnit | src/utils/sqlCompletionDocumentCache.ts:181-188 | Every unit outside the changed ranges survives, displaced by the changes before it. |
| Edits.InsertedText | src/utils/sqlCompletionDocumentCache.ts:181-188 | Every change's text stands whole where its range began, displaced by the changes before it. |
| EditedStatements.EditedChunks | src/utils/sqlCompletionDocumentCache.ts:165-220 | Old statements before the checkpoint, the rescanned ones and the old ones displaced are together the scan of the new text. |
| ScopeParser.PairParensNested | src/utils/sqlCompletionScopeParser.ts:89-102 | When no fault is reported every opening parenthesis is paired with a closing one, and pairs nest. |
| ScopeParser.TopCloses | src/utils/sqlCompletionScopeParser.ts:104-111 | Everything between two tokens of the top level is balanced. |
| BlockParser.BoundsDivide | src/utils/sqlCompletionScopeParser.ts:199-226 | The set operators of the top level divide a query into balanced stretches in ascending order. |
| BlockParser.StatementReady | src/utils/sqlCompletionScopeParser.ts:89-102 | Every statement whose parentheses pair up may be sent into the descent: the whole of it is balanced, ends where an interval may end, and no parenthesis is a word. |
| ParserRaises.ParseRaisesIff | src/utils/sqlCompletionScopeParser.ts:202-234 | The descent indexes past the tokens exactly when the declarations parse, SELECT follows, and the last token is a set operator, or ALL or DISTINCT right behind one; nested queries never do. |
| ParserRaises.BlocksRaiseIff | src/utils/sqlCompletionScopeParser.ts:75-102 | So for any tokens and any statement: it raises exactly when it is a query, its parentheses pair up, and this holds of its own tokens. |
| ParserRaises.SelectRaisesIff | src/utils/sqlCompletionScopeParser.ts:213-218 | Without declarations only the last one or two tokens matter. |
| Texts.UnfinishedUnionRaises | src/utils/sqlCompletionScopeParser.ts:213-218 | `SELECT 1 UNION` raises, in every dialect. |
| ParserShift.ParseShift | src/utils/sqlCompletionScopeParser.ts:126-394 | The recursive descent over displaced tokens yields the displaced blocks, with identifiers, clauses, relations and branches moved along, or raises alike. |
| ParserShift.DeclaredShift | src/utils/sqlCompletionScopeParser.ts:397-418 | Looking up the tree for a CTE that a name resolves to does not depend on where the statement stands. |
| ParserShift.ParseBlocksShift | src/utils/sqlCompletionDocumentCache.ts:29-63 | Parsing a displaced statement is displacing the parse: the cached blocks of a statement that moved are right once shifted. |
| BlockTree.AddTree | src/utils/sqlCompletionScopeParser.ts:151-161 | A child's blocks may join those found so far when its range is apart from theirs: identifiers stay distinct, parents come first, and every block still finds what it names. |
| BlockTree.AddInside | src/utils/sqlCompletionScopeParser.ts:151-161 | The query inside a parenthesis without owner, apart from all that have one, may join. |
| ParsedTree.ParseTree | src/utils/sqlCompletionScopeParser.ts:126-394 | The recursive descent returns a tree: distinct identifiers, each block strictly inside its parent, which is listed before it, and every declaration body, branch and derived table among a block's own children. |
| ParsedTree.CtesTree | src/utils/sqlCompletionScopeParser.ts:162-195 | Bodies of declarations follow each other, and every other child of the block comes after all of them. |
| ParsedTree.BranchesTree | src/utils/sqlCompletionScopeParser.ts:202-234 | Branches are children in order, apart from each other even when empty, and none has the range of the whole. |
| ParsedTree.RelationsTree | src/utils/sqlCompletionScopeParser.ts:294-378 | No parenthesis is given to two relations, and none encloses one that has an owner. |
| ParsedTree.SkipDeclarations | src/utils/sqlCompletionScopeParser.ts:379-392 | The walk through the expressions finds no query among the declarations. |
| ParsedTree.ExpressionsTree | src/utils/sqlCompletionScopeParser.ts:379-392 | Queries in expressions join the tree, each parenthesis once, and never one that a declaration or a relation owns. |
| ParsedQuery.BlocksAreFamily | src/utils/sqlCompletionScopeParser.ts:395-419 | The blocks of any statement of any text are such a tree within the statement, also after names are marked as CTEs, so a map by identifier loses none. |
| ParsedQuery.GuardHolds | src/utils/sqlCompletionScopeParser.ts:400-416 | The walk from a block to its parents finds each of them and ends. |
| StatementLookup.FindSqlStatement | src/utils/sqlCompletionTokenizer.ts:163-179 | The loop over all tokens returns the range between the last separator that ends at or before the offset and the next one. |
| StatementLookup.LocatedIsFound | src/utils/sqlCompletionDocumentCache.ts:82-91 | The statement found by position among the cut ones is the one the pass over all tokens finds. |
| StatementLookup.ParseLocally | src/utils/sqlCompletionDocumentCache.ts:242-257 | Parsing a statement's own tokens at offset zero and displacing the blocks is parsing it where it stands, among all tokens of the document. |
| StatementLookup.ChunkLookup | src/utils/sqlCompletionDocumentCache.ts:236-258 | What is kept of a statement determines its range, tokens and blocks as defined on the whole document without any cutting. |
| DocumentCache.DocumentCache.Locate | src/utils/sqlCompletionDocumentCache.ts:82-91 | Binary search finds the statement an offset falls in, the first one for offsets before all. |
| DocumentCache.DocumentCache.ScanFrom | src/utils/sqlCompletionDocumentCache.ts:93-130 | New statement objects for the text from an offset, up to the end or up to the first boundary that meets an old one. |
| DocumentCache.DocumentCache.Accepts | src/utils/sqlCompletionDocumentCache.ts:145-160 | The validation loop decides whether the sorted batch is orderly. |
| DocumentCache.DocumentCache.Rewrite | src/utils/sqlCompletionDocumentCache.ts:180-188 | The text becomes the simultaneous replacement of all ranges and the result is the length difference. |
| DocumentCache.DocumentCache.Evict | src/utils/sqlCompletionDocumentCache.ts:200-207 | Exactly the parses of replaced statements go; the others stay in their order. |
| DocumentCache.DocumentCache.Displace | src/utils/sqlCompletionDocumentCache.ts:208-208 | The statements from a boundary on move by the difference, and no other. |
| DocumentCache.DocumentCache.ApplyChanges | src/utils/sqlCompletionDocumentCache.ts:134-223 | Accepts exactly the next version with an acceptable batch; a rejected batch changes nothing at all; an accepted one leaves the statements of a scan of the new text from zero, keeps the objects on both sides, and forgets exactly the replaced parses. |
| DocumentCache.DocumentCache.GetStatement | src/utils/sqlCompletionDocumentCache.ts:236-258 | The answer is that of the whole document parsed afresh, cached or not; at most 32 parses are kept, all of live statements, the least recently asked for goes first, and a parse that raises is not kept. |
| DocumentCache.DocumentCache.Reset | src/utils/sqlCompletionDocumentCache.ts:224-235 | Another text, version and dialect, scanned from zero, with no parses, even after disposal. |
| DocumentCache.RemembersOneMore | src/utils/sqlCompletionDocumentCache.ts:250-252 | One more parse keeps the bound and keeps every parse that of a live statement. |
| BudgetProofs.DoBalanced | src/utils/resultCacheBudget.ts:25-81 | After every operation the account is the sum over the entries. |
| BudgetProofs.ApplyBalanced | src/utils/resultCacheBudget.ts:43-78 | So it is after every operation that a callback performs in the middle of an eviction. |
| BudgetProofs.EnforceSound | src/utils/resultCacheBudget.ts:25-41 | Every eviction is of an unleased entry, while over budget, with the account exact as its callback starts, and in the order entries were put, whatever the callbacks do. |
| BudgetProofs.EnforceSettles | src/utils/resultCacheBudget.ts:25-41 | If no callback releases a lease, enforcement ends within budget or with leased entries only, and every eviction takes the oldest unleased entry. |
| BudgetProofs.EnforceIsOldestOut | src/utils/resultCacheBudget.ts:29-35 | If callbacks leave the cache alone, the live iteration drops unleased entries from the old end for as long as there is an excess, and nothing else. |
| BudgetProofs.ReleasingCallbackLeavesExcess | src/utils/resultCacheBudget.ts:26-38 | A callback that releases a lease the pass has gone by leaves an unleased entry over budget. |
| BudgetProofs.ExcessOnlyIfDropped | src/utils/resultCacheBudget.ts:25-41 | Whatever the callbacks do, an excess with an unleased entry is left only if one of them dropped a lease of an entry the pass had gone by. |
| BudgetProofs.ReleaseAfterRemove | src/utils/resultCacheBudget.ts:62-78 | A release obtained before its key was removed drops no lease taken since, however much happens in between. |
| BudgetProofs.ReleaseOnce | src/utils/resultCacheBudget.ts:67-71 | A second release changes nothing and starts no enforcement, whatever happened since the first. |
| BudgetModel.ScriptSpends | src/utils/resultCacheBudget.ts:29-35 | Callbacks spend what they add, so eviction over a live map ends. |
| ResultCache.ResultCacheController.LeasedIff | src/utils/resultCacheBudget.ts:31-31 | A key is protected exactly when some pin of it since its last removal is not released. |
| ResultCache.ResultCacheController.Pin | src/utils/resultCacheBudget.ts:62-66 | A pin adds one fresh token under its key, told apart from all others by identity. |
| ResultCache.ResultCacheController.Drop | src/utils/resultCacheBudget.ts:67-69 | A release undoes its own pin and no other, even when its token set is no longer the key's; it reports whether it had been undone before. |
| ResultCache.ResultCacheController.Track | src/utils/resultCacheBudget.ts:43-48 | A key that is tracked keeps its place, a new one is youngest, and enforcement follows unless a callback asks. |
| ResultCache.ResultCacheController.Enforce | src/utils/resultCacheBudget.ts:25-41 | The iteration over the live map computes the eviction function, reports the sum over the entries, and does nothing inside a callback. |
| ResultCache.ResultCacheController.Remove | src/utils/resultCacheBudget.ts:73-78 | Removal forgets the entry and every lease of the key, without enforcement. |
| JsonText.QuotedReadsBack | src/utils/resultCacheBudget.ts:83-113 | Every string of UTF-16 units, unpaired surrogates included, reads back from its JSON text by the grammar of RFC 8259 section 7. |
| JsonText.Utf8Append | src/utils/resultCacheBudget.ts:83-113 | The UTF-8 form of well-formed text followed by any text is the two forms joined. |
| ResultSize.StepSize | src/utils/resultCacheBudget.ts:87-110 | One unit, or one surrogate pair, adds this many bytes to the UTF-8 form of the quoted string. |
| ResultSize.StringBytes | src/utils/resultCacheBudget.ts:83-113 | The index-skipping loop returns the length of the UTF-8 form of the string's JSON text. |
| ResultSize.ValueBytes | src/utils/resultCacheBudget.ts:114-135 | The estimate of any value is the length of its JSON text in UTF-8, with undefined members left out and undefined elements as null. |
| ResultSize.EstimateResultBytes | src/utils/resultCacheBudget.ts:136-141 | The estimate of a result is that of its columns and its rows, each as one JSON array. |
| Invalidation.CaptureExact | src/utils/sqlCompletionInvalidation.ts:20-56 | Two captures for the same connection and scope are equal exactly when no invalidation between them meets the scope, although the map of databases is cleared now and then. |
| Invalidation.MetadataRevisions.Generation | src/utils/sqlCompletionInvalidation.ts:42-56 | The captured generation equals an earlier one exactly when nothing in its scope was invalidated since. |
| Invalidation.MetadataRevisions.Invalidate | src/utils/sqlCompletionInvalidation.ts:19-40 | The counters updated in place are those of the history with one more event. |
| MetadataReads.Reachable | src/stores/databaseStore.ts:257-412 | In every run each load knows the generation it began in and began after the changes acknowledged by then, owners are the latest registrants, and what live reads registered for has an owner. |
| MetadataReads.NoStaleCommit | src/stores/databaseStore.ts:381-411 | Whatever any step of any run puts into the cache was written by the last read registered for it, on a connection that still lives, and reflects every change acknowledged before that the read watches and that concerns what it writes, also where the answer is that of a request joined on its way. |
| MetadataReads.CurrentLoadIsFresh | src/stores/databaseStore.ts:386-407 | A load that ends in the generation it began in began after everything its scope was invalidated for, so an answer with all that was acknowledged before it began has all that is acknowledged now. |
| MetadataReads.FreshReply | src/stores/databaseStore.ts:389-395 | The answer of a request sent with the load has all that was acknowledged before it began. |
| MetadataReads.JoinedReply | src/services/tauriCommands.ts:605-623 | So has, for the databases it is for, the answer of a request sent earlier in the run, by whomever, that was current when the load joined it. |
| MetadataReads.LostForever | src/stores/databaseStore.ts:301-312 | A read that has lost a resource never owns it again, in any continuation of any run. |
| MetadataReads.ConnectionLost | src/stores/databaseStore.ts:364-376 | A connection stops being a read's own only by a disconnection or removal of it, or a reset. |
| MetadataReads.SilentReturn | src/stores/databaseStore.ts:433-444 | A read that returns silently has lost each of its resources to a later read or to the end of its connection. |
| MetadataReads.PhaseDescends | src/stores/databaseStore.ts:381-411 | A read starts at most two loads, moves only forward, and stays as it ended. |
| MetadataReads.AnswerDecides | src/stores/databaseStore.ts:396-409 | Every answer moves its read on: to the second load, or to a commit, an error, a discard or a yield. |
| MetadataReads.OnlyCommitsWrite | src/stores/databaseStore.ts:397-408 | A read that fails or yields leaves the cache alone. |
| MetadataReads.DiscardForgets | src/stores/databaseStore.ts:314-343 | A read that gives up takes exactly what it still owns out of the cache. |
| TableBatches.NormalizedIff | src/services/tauriCommands.ts:609-614 | Two callers compute the same list for the key exactly when they ask for the same set of databases. |
| TableBatches.CurrentIff | src/services/tauriCommands.ts:613-615 | The key of a request in flight is the one computed now exactly when nothing of its databases was invalidated since it was sent. |
| TableBatches.TableBatchReader.Ask | src/services/tauriCommands.ts:605-623 | A caller joins a request exactly when one for the same databases is in flight and still current, and otherwise sends one; nothing is asked for no database or for more than 256. |
| TableBatches.TableBatchReader.Settle | src/services/tauriCommands.ts:624-635 | The caller gets its own databases in its own order, or the name of one that is missing; the request leaves the map only if it is still the one there. |
| TableBatches.TableBatchReader.Invalidate | src/services/tauriCommands.ts:569-590 | An invalidation takes away exactly the requests its scope meets. |
| CompletionKeys.ForeignKeysWider | src/utils/sqlCompletionForeignKeyCache.ts:8-20 | What is current for foreign keys is current for the catalog. |
| CompletionKeys.PoliciesDiffer | src/utils/sqlCompletionForeignKeyCache.ts:8-20 | The two invalidation rules differ exactly on a schema change of another database. |
| CompletionCache.SqlCompletionCache.ReadCompleted | src/utils/sqlCompletionCache.ts:37-48 | An entry is answered exactly before its time is up, comes from a request begun after the last invalidation of its key, and becomes the youngest; an expired one is dropped. |
| CompletionCache.SqlCompletionCache.Get | src/utils/sqlCompletionCache.ts:51-83 | A caller waits for the one unsettled current request of its key, or starts one. |
| CompletionCache.SqlCompletionCache.Resolve | src/utils/sqlCompletionCache.ts:63-77 | A result is kept exactly when nothing affected its key since the request began; at most eight are kept and the least recently read goes. |
| CompletionCache.SqlCompletionCache.Invalidate | src/utils/sqlCompletionCache.ts:87-100 | Nothing kept or in flight for an affected key survives, and nothing else goes. |
| CompletionCache.GenerationsMoved | src/utils/sqlCompletionCache.ts:59-60 | A numeric generation still equals a request's exactly when nothing affected its key since it began. |
| ForeignKeyCache.SqlCompletionForeignKeyCache.Peek | src/utils/sqlCompletionForeignKeyCache.ts:47-59 | As for the catalog, and an expired entry leaves both maps, never an entry that is loading. |
| ForeignKeyCache.SqlCompletionForeignKeyCache.Get | src/utils/sqlCompletionForeignKeyCache.ts:63-100 | A caller joins the load in flight for its key, which is current, or starts one with an entry of its own. |
| ForeignKeyCache.SqlCompletionForeignKeyCache.Resolve | src/utils/sqlCompletionForeignKeyCache.ts:79-91 | Being the entry of its key is being current: the identity test keeps a result exactly when nothing affected its key since the load began. |
| ForeignKeyCache.SqlCompletionForeignKeyCache.Finish | src/utils/sqlCompletionForeignKeyCache.ts:92-97 | A load that failed leaves no entry behind, and one that was replaced touches nothing. |
| ForeignKeyCache.SqlCompletionForeignKeyCache.Invalidate | src/utils/sqlCompletionForeignKeyCache.ts:101-107 | The entries of affected keys leave both maps, loading or kept, and no other does. |
| OrderedMaps.TrimmedPut | src/utils/sqlCompletionCache.ts:69-74 | A new key in a full map pushes out the oldest one and no other. |
| TableStoreProofs.Reachable | src/stores/tableDataStore.ts:569-1517 | In every run, rows shown or kept with a loaded context come with their cursors from one answer for exactly that page and query, each cursor on its way is for its own request's page and query, and a load still waited for asks what the state asks for. |
| TableStoreProofs.LatestRequestSafety | src/stores/tableDataStore.ts:569-732 | The answer or failure of a cancelled or superseded load changes neither view nor cache nor counts; an answer that changes the view was asked for by the table, page, size, order, filter and columns that are current. |
| TableStoreProofs.LatestCountSafety | src/stores/tableDataStore.ts:651-732 | The same of the total, which changes nothing but itself; a count that is cancelled, or whose load is cancelled or superseded, changes nothing. |
| TableStoreProofs.LatestRefreshSafety | src/stores/tableDataStore.ts:805-878 | A total refreshed by itself changes nothing when cancelled, never rows, and what is shown only for the active table and filter it was asked for; a page past the end then supersedes every load. |
| TableStoreProofs.OlderTotalIff | src/stores/tableDataStore.ts:822-864 | Of two refreshes under way the total of the one begun last remains, unless the other is answered after it, for the same table and filter, uncancelled; it is then what is shown, too. |
| TableStoreProofs.OlderTotalShown | src/stores/tableDataStore.ts:822-864 | Five steps after which the older total is shown. |
| TableStoreReloads.LatestReloadSafety | src/stores/tableDataStore.ts:422-465 | In every run, the answer to a reload after a write changes what is shown only if no load was begun since, its write is pending, and it is of the table, page and query that are current; while no table is shown it is put into the view with a context that is not that of the current query; otherwise it changes at most what is kept of its own table. |
| TableStoreProofs.CursorSafety | src/stores/tableDataStore.ts:880-906 | Every cursor ever sent continues the very query it came with, to the next or previous page, which is the request's own page and query; one change of page gives its cursor to one load at most. |
| TableStoreCursors.CursorSentTwice | src/stores/tableDataStore.ts:695-701 | A load that fails leaves its cursor to be sent a second time: eight steps after which two requests carry the same one. |
| TableStoreCursors.CursorSentIff | src/stores/tableDataStore.ts:880-906 | In every reachable state a cursor of an answer is sent in some continuation exactly when the answer is shown or kept under the parameters it was asked with, or its cursor is on its way. |
| TableStoreCursors.NeverAgain | src/stores/tableDataStore.ts:880-906 | Once it is none of these, no continuation sends it. |
| TableStoreCursors.AnsweredOnce | src/stores/tableDataStore.ts:651-693 | With loads only for the table shown, or while no rows are, a cursor whose answer was shown is never sent again. |
| TableStoreProofs.OthersSupersede | src/stores/tableDataStore.ts:1319-1409 | Cancelling the requests of tables that are not shown cancels no load still waited for. |
| TableStoreSharing.SoundRun | src/stores/tableDataStore.ts:1140-1241 | With loads only for the table shown, or while no rows are, every row array belongs to one table, and nothing shown or kept was emptied. |
| TableStoreSharing.WholeRows | src/stores/tableDataStore.ts:1490-1519 | Then what has a loaded context has its rows whole: evicting one table never empties another's rows. |
| TableStoreSharing.UndisciplinedLoadShares | src/stores/tableDataStore.ts:1140-1241 | Without that, a load, a second load for another table, a switch and an eviction leave a table with a context and an emptied row array. |
| TableStoreExposure.HarmIff | src/stores/tableDataStore.ts:1140-1241 | From any reachable state, some continuation with loads only for the table shown, or while no rows are, empties rows that have a context exactly when this has happened or two tables hold one array: both kept, or one kept and the other shown so that it would be. |
| TableStoreExposure.SafeStays | src/stores/tableDataStore.ts:1490-1519 | While neither is so, no such continuation makes it so. |
| OpenTabs.OpenedTabs | src/stores/databaseStore.ts:572-620 | Opening tables keeps every tab in place, opens each table once, and activates the last one asked for. |
| OpenTabs.CloseKeepsActive | src/stores/databaseStore.ts:1230-1297 | In the connection's own state, closing another tab keeps the active tab active; closing the active one activates the one that takes its place, or the last. |
| OpenTabs.DropTableKeepsActive | src/stores/databaseStore.ts:1623-1707 | In the connection's own state, with no table open twice, dropping a table keeps the index in range, the tables distinct, and a surviving active tab active. |
| OpenTabs.DropTableActiveIff | src/stores/databaseStore.ts:1626-1660 | In any list of tabs, a surviving active tab stays active exactly when at most one tab of the dropped table comes before it. |
| OpenTabs.RenameDistinctIff | src/stores/databaseStore.ts:1379-1390 | A rename opens a table twice exactly when both names are open. |
| OpenTabs.RenameThenDropLosesActive | src/stores/databaseStore.ts:1379-1390 | A rename onto an open name and a drop of that name activate another tab, or none. |
| OpenTabs.DropDatabaseIndex | src/stores/databaseStore.ts:1986-2004 | The counting loop returns where the active tab stands among those that stay, or the last one. |
| OpenTabs.DroppedIndexKeeps | src/stores/databaseStore.ts:1976-2004 | However many tabs of the database go, that index is in range and a surviving active tab stays active. |
| TabsStore.ShownChangeSyncs | src/stores/databaseStoreView.ts:9-42 | A change of the connection that is shown leaves the view that of its tabs, whatever was shown before. |
| TabsStore.OtherChangeSyncIff | src/stores/databaseStore.ts:1299-1321 | A change of another connection leaves the view right exactly when the fields it writes have the values they had; opening tables, selecting a database and renaming a table write none. |
| TabsStore.DropElsewhereIff | src/stores/databaseStore.ts:1707-1717 | Dropping a table of another connection leaves the view right exactly when the tabs that stay there, the tables among them and the index are those shown. |
| TabsStore.DropAllElsewhereIff | src/stores/databaseStore.ts:2069-2079 | The same of dropping a database. |
| TabsStore.CarefulRun | src/stores/databaseStore.ts:2205-2234 | In a run whose other changes of tabs are all made of the connection shown at that time, the view is that of its tabs throughout, across switching, removal and reset. |
| TabsStore.DroppedAway | src/stores/databaseStore.ts:1613-1720 | A drop on one connection that ends after another is shown: the tab of that one is open and no tab is shown. |
| OpenTabs.DerivedTwice | src/stores/databaseStoreState.ts:123-197 | Deriving the view from the tabs again changes nothing. |
| OpenTabs.DerivedSelectsActive | src/stores/databaseStoreView.ts:9-54 | In tab mode the view selects exactly the active table, shows its own structure and details or none, and finds it among the open tables where its index says; beside a query's tab the tree keeps its selection. |
| CteScopes.SameNameIff | src/utils/sqlCompletionScopes.ts:115-121 | Two declarations hide each other exactly when they are called the same up to the case that matters in the dialect. |
| CteScopes.PickOverlay | src/utils/sqlCompletionScopes.ts:122-125 | Over overlaid lists a name declared inside denotes what it denotes inside, and any other name what it denotes outside. |
| CteScopes.VisibilityIsLexical | src/utils/sqlCompletionScopes.ts:126-158 | Resolution in the overlaid list of a block is lookup from the block outwards, where a CTE body sees only the declarations before its own. |
| CteScopes.Environments | src/utils/sqlCompletionScopes.ts:128-159 | The memoised recursion with its guard gives every block of a tree its visible declarations. |
| Projection.InferSqlProjection | src/utils/sqlCompletionProjection.ts:216-298 | The loop over the select items computes the inference by items, and completeness is lost with any item's. |
| ProjectionMeaning.ItemRightIff | src/utils/sqlCompletionProjection.ts:135-157 | What one item is claimed to add completely is what it adds by the reference rules exactly when its last name is not an operand or a closing word taken for an alias; the number of columns is right in any case. |
| Qualifiers.NameDenotes | src/utils/sqlCompletionProjection.ts:34-93 | A qualifier denotes the only relation called so, by its alias if it has one, or where none is and the dialect is blind to case, the only one called so up to case; and nothing else. |
| Qualifiers.QualifiedDenotes | src/utils/sqlCompletionProjection.ts:34-93 | With a namespace before it, the only one called so among the relations without alias in the one namespace that is denoted. |
| Qualifiers.ColumnDenotes | src/utils/sqlCompletionProjection.ts:95-133 | Where all sources are known, a path denotes the only column called so, in the same way. |
| ProjectionMeaning.AsColumnAgrees | src/utils/sqlCompletionProjection.ts:95-133 | A column found among the sources known so far is the one found when all sources are known. |
| ProjectionMeaning.ItemsRightIff | src/utils/sqlCompletionProjection.ts:216-298 | A projection inferred as complete lists exactly the columns there are, in order, exactly when no item ends so. |
| ScopeSoundness.SelectRightIff | src/utils/sqlCompletionScopes.ts:366-450 | So of a SELECT over relations that are right, whatever the operators of the dialect are. |
| OperandText.OperandIsNamed | src/utils/sqlCompletionProjection.ts:135-157 | Where DIV stands before an operand, the item of `SELECT a DIV b FROM t` is claimed to be `b` and complete, where by every reading of the rules it is a column without a known name. |
| ProjectionMeaning.CountsOne | src/utils/sqlCompletionScopes.ts:650-674 | An item that the syntactic count takes for one column is one column. |
| QueryMeaning.BlockShapeSame | src/utils/sqlCompletionScopes.ts:366-450 | The reference shape of a block depends on the blocks it reads and on nothing else. |
| QueryMeaning.MeaningExists | src/utils/sqlCompletionScopes.ts:366-488 | Where no query reads itself, directly or not, the reference rules have a solution, evaluated to a finite depth. |
| QueryMeaning.MeaningUnique | src/utils/sqlCompletionScopes.ts:366-488 | And only one. |
| ScopeSoundness.AritySound | src/utils/sqlCompletionScopes.ts:631-675 | The number of columns found from syntax or projections is the number there are. |
| ScopeSoundness.AliasesSound | src/utils/sqlCompletionScopes.ts:677-695 | An output renamed by a column list and flagged complete has exactly the columns of its body, so named. |
| ScopeSoundness.BindingSound | src/utils/sqlCompletionScopes.ts:306-364 | A relation in FROM flagged complete offers exactly the columns of its body, its CTE by lexical scoping, or its table. |
| ScopeSoundness.BlockStepSound | src/utils/sqlCompletionScopes.ts:368-450 | One block in a pass keeps everything that is flagged complete right, where no item ends in an operator. |
| ScopeSoundness.CteStepSound | src/utils/sqlCompletionScopes.ts:451-486 | So does one declaration. |
| ScopeSoundness.ResolveScopes | src/utils/sqlCompletionScopes.ts:366-494 | Stopped by agreement of two passes or by the bound, whatever is flagged complete then has exactly the columns of the reference meaning, where no item ends in an operator. |
| ParsedQuery.FamilyPlain | src/utils/sqlCompletionScopes.ts:77-112 | Every parsed query without recursive declarations meets what the passes take for granted: a tree, items of scanned tokens, each body declared once, column lists on derived tables only. |
| ParsedQuery.LookUpEarlier | src/utils/sqlCompletionScopes.ts:128-158 | A declaration visible in a query ends before the query starts, or is the query's own. |
| ParsedQuery.FamilyRanked | src/utils/sqlCompletionScopes.ts:366-488 | No parsed query reads itself, directly or not, so the reference rules apply to all of them. |
| ParsedQuery.OneMeaning | src/utils/sqlCompletionScopes.ts:366-488 | A statement has exactly one meaning, as it is parsed and as it is written. |
| ParsedQuery.ArityEnough | src/utils/sqlCompletionScopes.ts:631-675 | On parsed blocks the bound on counting through set branches is never reached. |
| ParsedQuery.SourcesEnough | src/utils/sqlCompletionScopes.ts:277-305 | Nor is the bound on asking whether the sources of branches are known. |
| ParsedQuery.ResolveStatement | src/utils/sqlCompletionScopes.ts:41-494 | For every text, statement, catalog and set of operator words, unless the parser raises, a declaration is recursive or a select item ends in an operator: each column list flagged complete, of a block, a declaration or a relation in FROM, is what the statement means as it is parsed; and as it is written, column lists behind named relations included, when no named relation is directly followed by a parenthesis. |
| WrittenLists.ListedRightIff | src/utils/sqlCompletionScopes.ts:335-356 | As a statement is written, a table or CTE in FROM is right exactly when it is not flagged complete, has no column list behind it, or the list repeats the names of its source. |
| WrittenLists.UnlistedRight | src/utils/sqlCompletionScopes.ts:306-364 | Without its list it is what its CTE by lexical scoping, or its table, offers. |
| WrittenLists.WrittenIsParsed | src/utils/sqlCompletionScopeParser.ts:339-376 | Where no named relation is followed by a parenthesis, the statement as parsed is the statement as written. |
| ListedText.ListIsDropped | src/utils/sqlCompletionScopeParser.ts:360-376 | In PostgreSQL the star of `SELECT * FROM t a(x)`, with a table `t` of one column `id`, is claimed to be `id` and complete, where by every reading of the rules its column is `x`. |
| ScopeSoundness.TokensLexed | src/utils/sqlCompletionTokenizer.ts:24-161 | The identifiers of the scanner are never parentheses, as the counting of columns assumes. |

## Left out

* The React components, hooks, editor integration, the calls into the native backend and its drivers: what they answer is a parameter or a step of the environment.
* Identifier classes and upper-casing beyond ASCII are arbitrary functions of the scanner; JavaScript's own tables are not part of this model.
* The copying of token text (it changes no value), the position of the cursor and the candidates shown for it.
* The parser builds its blocks as functions over values; the original pushes into one list and assigns block fields in place, which no caller observes before the parse ends.
* Exceptions thrown by an eviction callback. A callback is a finite script of operations on the cache, nested scripts included.
* The release function that a pin returns is named by its number in the list of those handed out.
* Dates, big integers, functions, `toJSON` and arrays with holes in the size estimate, and undefined at the top; the digits of a number are any ASCII text.
* Listeners of invalidations and their order; both caches and the batch reader are driven by their own invalidation steps.
* The loader of a metadata read is any answer with what had been acknowledged before the load began and concerns the resource, as a request sent then or joined on its way has; a loader that reuses a cached structure is outside the freshness claim. What a read finds relevant is arbitrary, and what it applies are resources it owns.
* Loading flags, selections and the tree's expanded keys of the connection store.
* Time in the completion caches is what each call is given; a caller that joins a request which has answered but not yet finished may get a result older than the lifetime, as in the original.
* The grid's subscription to the result cache, its pins, filter rows kept for display, error text, execution time, generated SQL and pending edits; of sort toggles, only the sort order they result in.
* Rows are named by the answer they came with; emptying an array in place is recorded for that name wherever it is held.
* Correlated and LATERAL sources in scopes: no block sees relations of its parent, and completion of the remaining positions (clause, slot, join) is not modelled.
* Which words are operators of a dialect is arbitrary; that a word is one only in some places is not modelled.
* Scopes.Binding: a relation with an empty quoted qualifier, `"".q`, is never taken for a CTE; the original, which tests the qualifier for truth, looks it up among them.
* The editors of query tabs, their texts and results, in the view of a connection; cached structures are named by database and table, where the original joins the two with a bar.
* Column types and sources of projections, and ClickHouse's separate display list.
* Recursive CTEs are computed but not claimed, which leaves out every CTE of SQL Server, where all are taken for recursive.
* ScopeSoundness.ResolveScopes: walks over set branches and their counts are bounded by the number of blocks, where the original recurses without a bound; `ParsedQuery.ArityEnough` and `ParsedQuery.SourcesEnough` prove that this is the same on parsed blocks.
* ParsedQuery.ResolveStatement: where an item ends in an operator it promises nothing, and what is right then is said select by select in `ScopeSoundness.SelectRightIff`. Where a named relation is followed by a parenthesis it promises the meaning as parsed only; what is right and wrong then is said relation by relation in `WrittenLists.ListedRightIff`. The statement's tokens are those of the whole text that lie in it, as in the document cache; the original's other entry, which scans the statement's text alone, is not part of this model.
* OpenTabs.DerivedSelectsActive: the cached structures are looked up by table; that they are the newest is the subject of the metadata reads.
* Wall-clock identifiers, logging and messages.
