# Verification of the issue tracker's algorithmic core

A Dafny 4.11 model of the parts of the tracker and of its tooling where the reasoning is, with proofs
about every input, every run or every reachable state. `dafny verify dfyconfig.toml` checks all of it.

| module | models |
|---|---|
| `EditDistance`, `Suggestions` | the two-row Levenshtein loop against shortest edit scripts, and the ranked "did you mean" list on top of it |
| `EpicCascade` | the epic eligibility rule and the round-based cascade with its in-place counters |
| `LineLexer`, `GateScanner`, `GateItems` | the Rust line lexer of the network scan against a one-byte mode machine, the gate scanner's counters against a full stack of flagged braces, and how a gated item without a block ends |
| `CodeSpans`, `FenceMask` | backtick spans and fenced blocks of Markdown lines, and the blanking of span contents |
| `WriteProtocol`, `ShutdownDrain`, `DrainProgress`, `CallOutcomes` | the write permit, the nested workspace lock and the shutdown flag as a state machine over processes, sessions, tasks, cancellations and signals; which moves a call has, and why it ends |
| `ImportClosure` | the depth-capped traversal of import files |
| `SemVer`, `ReleaseVersion`, `VersionForms` | version arithmetic, precedence, printing and parsing |
| `Manifest`, `ManifestLines` | the manifest edit |
| `ReleaseRun`, `ReleaseCompletion` | the release run with its two typed gates over a repository with an index and a remote, and when it goes through |
| `ConfigValues`, `ConfigLayers`, `ConfigCascade` | runtime values, the tolerant decode of database rows, the six-layer fold with the live reload, and the same as explicit cascades |
| `Wrappers`, `Ordering`, `Bytes`, `Text`, `Utf8`, `Decimal` | shared helpers |

Code that changes variables or fields step by step is modelled by methods and classes with loops over
arrays and fields, each proved against a specification function or predicate; the laws are lemmas about
those. Expressions are functions.

## How the source is read

- Rollup consistency of the cascade (`crates/unblock-engine/src/epic.rs:21-45`): ids are distinct, and for
  each epic its closed children plus the parent-child edges that open, non-template candidates hold to it
  do not exceed its total. The loop itself needs only distinct ids.
- The gate scanner's refinement holds for every text, balanced or not: an armed gate always waits at the
  current depth, so any closing brace drops it, and an unmatched one lowers the depth that counts as
  outermost.
- A session reads either a shutdown flag of its own or, once wired, the signal flag of its process
  (`crates/unblock-engine/src/session/mod.rs:97-107`); the drain laws are stated per flag.
- The write protocol treats every await, each drop of a guard and each statement of the signal loop as a
  step. A task makes one call. A process that exits takes its sessions and tasks with it, and the system
  frees their locks.
- The release effects are atomic, except that an interrupted file write leaves any content and that the
  commit effect stages before it commits. The version effect is the edit of the manifest that is there,
  and fails without a version line. `writeOk` decides for each prompt or message whether the
  output stream fails.
- A 64-bit overflow of a version number is the panic of a debug build, modelled as no version.

## Where the code and its documentation differ

The model follows the code.

- `xtask/src/release.rs:916-918` says that the recovery restores the files from HEAD. `git checkout --`
  restores them from the index, so a commit that fails after staging is not undone
  (`StagedCommitIsNotRestored`); `RecoveryRestoresExactly` gives the exact condition.
- `xtask/src/release.rs:946-947` says that every failure after the first gate carries a recovery hint.
  Stream errors and the end of input at the push gate carry none (`EndOfInputLeavesTag`);
  `HintMissingExactly` and `SilentFailureExactly` say exactly when.
- `crates/unblock-engine/src/session/lifecycle.rs:110-115` is right that a drained session has no write
  under way, but a mutation that passed the flag check earlier may still start one
  (`DrainIsFinalExactly`, reached by `DrainBesideLateWriter`).
- `xtask/src/knowledge_lint.rs:320-322` speaks of the transitive closure. The depth cap with one visited
  set can lose a file three imports away (`NearFileLost`); `CompleteExactly` says when it does not.
- `xtask/src/release.rs:102-105` numbers past the highest rc. An rc number beyond 64 bits is not counted
  (`HugeRcOutranks`, `RcRanksHighestExactly`).
- `xtask/src/release.rs:192-193` promises to preserve all other content. Text with CR LF line ends loses its
  carriage returns (`HeaderLosesReturns`): `RestOfTextUntouched`, `OnlyOneLineChanges` and `RewriteTwice` say
  exactly which texts are spared. The written version reads back from every manifest.
- `xtask/src/doc_lint.rs:180-183` names CommonMark, whose section 4.5 also bounds the indentation and keeps
  backticks out of the info string of a backtick fence, and lets only spaces and tabs follow a closing
  fence. The code checks none of these (`DeepFenceOpens`, `DeepFenceCloses`); `CommonMarkAgreesExactly` and
  `ClosingAgreesExactly` say where it agrees.

## Model

| member | source | states |
|---|---|---|
| `EditDistance.LevenshteinDistance` | crates/unblock-error/src/hints.rs:246-278 | the two-row loop returns the length of a shortest insert, delete and substitute script between the two strings, and no other number is that length |
| `EditDistance.DistanceIsEditDistance` | crates/unblock-error/src/hints.rs:246-278 | the cell recurrence is reached by some edit script and undercut by none, and is the only such number |
| `EditDistance.RollRows` | crates/unblock-error/src/hints.rs:258-277 | with the shorter string as columns, rolling two swapped rows over the longer string ends on the distance |
| `EditDistance.FillRow` | crates/unblock-error/src/hints.rs:267-273 | one turn of the inner loop writes the next matrix row and leaves the row above alone |
| `EditDistance.Symmetric` | crates/unblock-error/src/hints.rs:246-256 | which argument is taken as the shorter does not matter |
| `EditDistance.ZeroExactlyOnEqual` | crates/unblock-error/src/hints.rs:246-278 | the distance is zero exactly on equal strings |
| `EditDistance.TriangleInequality` | crates/unblock-error/src/hints.rs:246-278 | a detour through a third string is never shorter, by composing edit scripts |
| `EditDistance.Compose` | crates/unblock-error/src/hints.rs:246-278 | two scripts that meet in a middle string compose into one that costs no more than both |
| `EditDistance.WithinLengthBounds` | crates/unblock-error/src/hints.rs:246-278 | the distance lies between the length difference and the longer length |
| `Suggestions.FindSimilarIds` | crates/unblock-error/src/hints.rs:300-322 | the result is ranked by distance and then id, drawn from the candidates within distance 3 and 256 characters, as long as it can be, and nothing left out ranks before anything included |
| `Suggestions.Measure` | crates/unblock-error/src/hints.rs:307-313 | exactly the plausible candidates are measured, each as often as it occurs |
| `Suggestions.TopRankedUnique` | crates/unblock-error/src/hints.rs:315-321 | the promise has one answer, the same for every permutation of the candidate list |
| `Suggestions.PlausibleCounts` | crates/unblock-error/src/hints.rs:307-313 | a plausible id counts as often as it occurs in the list, any other not at all |
| `Suggestions.SortedIsRanked` | crates/unblock-error/src/hints.rs:315-315 | sorting the measured candidates keeps the ids and puts them in rank order |
| `Suggestions.SuggestedExactly` | crates/unblock-error/src/hints.rs:281-322 | in numbers: a suggestion is a known id of at most 256 characters, at most 3 edits from a searched id of at most 256; a list that is not full holds all of these, and what a full one leaves out is further away, or as far and later in the order |
| `Ordering.FirstDifferenceDecides` | crates/unblock-error/src/hints.rs:315-315 | ids are ordered by their first differing character, the smaller first, and a prefix stands before what it begins |
| `EpicCascade.CascadeCloseSet` | crates/unblock-engine/src/epic.rs:46-84 | the loop ends, and its output is the rounds of the eligibility rule, each round being everything eligible after the rounds before it, ids ascending |
| `EpicCascade.CascadeClosesLeastSet` | crates/unblock-engine/src/epic.rs:37-45 | on a consistent rollup the output is closed under the rule and lies inside every set of open epics that is |
| `EpicCascade.EligibleAtItsTurn` | crates/unblock-engine/src/epic.rs:40-43 | closing the ids one at a time in output order, each epic passes the single-pass predicate at its turn and was not closed before |
| `EpicCascade.PlacedEpicsAreDone` | crates/unblock-engine/src/epic.rs:21-35 | what is placed is an epic and no template, with children, neither closed nor a tombstone, and all its children are closed by then |
| `EpicCascade.FinishedExactly` | crates/unblock-engine/src/epic.rs:25-45 | a candidate is in the output exactly when it is an epic and no template, neither closed nor a tombstone, has children, and the children closed before together with those that the output closes are all of them |
| `EpicCascade.CreditCounted` | crates/unblock-engine/src/epic.rs:69-81 | an epic is credited once for each parent-child edge to it among the dependencies of the placed candidates, and for no other edge |
| `EpicCascade.ChildrenPrecede` | crates/unblock-engine/src/epic.rs:44-45 | every open child of a placed epic stands before it in the output |
| `EpicCascade.NoRepeats` | crates/unblock-engine/src/epic.rs:72-82 | no id is output twice |
| `EpicCascade.CycleNeverPlaced` | crates/unblock-engine/src/epic.rs:41-44 | an epic on or above a parent-child cycle of open epics is never placed |
| `EpicCascade.RoundIsHeight` | crates/unblock-engine/src/epic.rs:41-43 | the round that places an epic is one more than the greatest round of its placed children |
| `EpicCascade.SortedByHeight` | crates/unblock-engine/src/epic.rs:44-45 | the output is sorted by height in the cascade and then by id |
| `EpicCascade.CloseOrderUnique` | crates/unblock-engine/src/epic.rs:46-84 | the output is the same for every permutation of the candidates |
| `EpicCascade.CascadeUnique` | crates/unblock-engine/src/epic.rs:46-84 | so are the rounds, from any set of epics already placed |
| `EpicCascade.EligibleStays` | crates/unblock-engine/src/epic.rs:25-35 | on a consistent rollup the equality test is monotone: placing more open epics never makes an eligible one ineligible |
| `EpicCascade.EligibleNeedsChildren` | crates/unblock-engine/src/epic.rs:22-34 | eligibility means that every open child has been placed |
| `EpicCascade.CollectRound` | crates/unblock-engine/src/epic.rs:58-67 | a round collects each candidate that the rule adds to the placed set, once |
| `EpicCascade.Place` | crates/unblock-engine/src/epic.rs:73-80 | marking one candidate and counting its edges leaves the counters at what the larger placed set credits |
| `EpicCascade.CountParents` | crates/unblock-engine/src/epic.rs:74-80 | every candidate gains one closed child for each parent-child edge that points to it |
| `EpicCascade.CreditOneMore` | crates/unblock-engine/src/epic.rs:74-80 | one more placed candidate credits its parents once per edge |
| `LineLexer.CodeOnly` | xtask/src/no_network.rs:352-397 | the index-driven lexer emits the bytes that the one-byte mode machine calls code, lifetime ticks included, and carries the machine's comment depth, which is never negative |
| `LineLexer.SkipToken` | xtask/src/no_network.rs:372-386 | a token is skipped exactly when the machine opens one, to an index past its start and within the line, after which the machine is back in code or in a comment |
| `LineLexer.CommentTurn` | xtask/src/no_network.rs:357-368 | inside a comment each turn moves on within the line and keeps the machine's nesting |
| `LineLexer.StartsRawString` | xtask/src/no_network.rs:400-406 | a raw string opens exactly where r, any number of hashes and a quote stand |
| `LineLexer.SkipRawString` | xtask/src/no_network.rs:410-433 | a raw string is skipped to where the machine leaves it, or to the end of the line |
| `LineLexer.FindRawClose` | xtask/src/no_network.rs:418-432 | the closing quote found is the first one that enough hashes follow |
| `LineLexer.SkipString` | xtask/src/no_network.rs:437-447 | a string with escapes is skipped to where the machine leaves it, even when an escape ends the line |
| `LineLexer.SkipCharLiteral` | xtask/src/no_network.rs:451-468 | a tick is a char literal exactly when the machine opens one, otherwise a lifetime |
| `LineLexer.RawStringDropped` | xtask/src/no_network.rs:418-432 | a raw string is dropped up to the first quote with enough hashes |
| `LineLexer.CommentDropped` | xtask/src/no_network.rs:357-375 | a comment is dropped from its opener to its own close, with all comments nested in it, at any nesting around it |
| `LineLexer.BodyDropped` | xtask/src/no_network.rs:357-368 | the inside of a comment, whole nested comments and single bytes that start no delimiter, leaves the nesting as it was |
| `LineLexer.EscapedStringDropped` | xtask/src/no_network.rs:437-447 | a string literal with any escapes is dropped up to its closing quote, braces and comment openers in it included |
| `LineLexer.SkipRawToken` | xtask/src/no_network.rs:376-379 | a raw string is skipped exactly when one opens, with or without its b |
| `LineLexer.PlainLineKept` | xtask/src/no_network.rs:391-395 | a line without quotes, ticks, slashes and non-ASCII bytes is kept whole |
| `LineLexer.StringLiteralDropped` | xtask/src/no_network.rs:379-379 | from code on, a string literal is dropped from its opening quote to its closing one, escapes included |
| `LineLexer.ByteStringDropped` | xtask/src/no_network.rs:380-380 | the same behind a b |
| `LineLexer.OpenStringDropped` | xtask/src/no_network.rs:437-447 | a string that the line does not close is dropped to the end of the line |
| `LineLexer.RawLiteralDropped` | xtask/src/no_network.rs:375-375 | from code on, a raw string with any number of hashes is dropped from its r to the first quote that as many hashes follow |
| `LineLexer.ByteRawLiteralDropped` | xtask/src/no_network.rs:376-378 | the same behind a b |
| `LineLexer.PlainCharDropped` | xtask/src/no_network.rs:464-466 | a char literal of one byte is dropped |
| `LineLexer.EscapedCharDropped` | xtask/src/no_network.rs:455-463 | a char literal with an escape is dropped up to the first tick behind the escaped byte |
| `LineLexer.LifetimeTickKept` | xtask/src/no_network.rs:381-388 | a tick that opens no char literal is kept, and what follows it is read as code |
| `LineLexer.LineCommentDropped` | xtask/src/no_network.rs:370-370 | a line comment drops the rest of the line and carries no comment |
| `LineLexer.PlainByteRead` | xtask/src/no_network.rs:389-393 | a byte that opens nothing is kept if it is ASCII and dropped otherwise |
| `LineLexer.PlainLetterRead` | xtask/src/no_network.rs:369-393 | an r or b that opens no string and a slash that opens no comment are kept |
| `LineLexer.OpenCommentCarried` | xtask/src/no_network.rs:371-374 | a comment that the line does not close is carried to the next line one level deeper |
| `LineLexer.CarriedCommentCloses` | xtask/src/no_network.rs:357-368 | a line that starts inside comments and closes one of them goes on one level up |
| `Utf8.TrimStartAgrees` | xtask/src/no_network.rs:281-281 | trimming the UTF-8 bytes of a text from the left is trimming the text by the Unicode white space property |
| `Utf8.WhitespaceAgrees` | xtask/src/no_network.rs:281-281 | the bytes at the start of a line are white space exactly when its first character is, and as many as that character takes |
| `GateScanner.IsCfgGatedRegion` | xtask/src/no_network.rs:260-332 | a line is gated exactly when, by the lines before it alone, a gate is armed or some enclosing brace was opened by a gated item; the early exit agrees |
| `GateScanner.Scanner.ReadChar` | xtask/src/no_network.rs:287-325 | each character moves the counters and the list of gated depths as it moves the full stack of flagged braces |
| `GateScanner.Scanner.OpenBrace` | xtask/src/no_network.rs:304-310 | an opening brace takes the waiting gate |
| `GateScanner.Scanner.CloseBrace` | xtask/src/no_network.rs:311-319 | a closing brace pops its own flag and disarms, and an unmatched one only lowers the base |
| `GateScanner.Scanner.ReadCode` | xtask/src/no_network.rs:285-329 | reading the code of a line keeps counters and stack in step |
| `GateScanner.Scanner.ReadLine` | xtask/src/no_network.rs:268-330 | reading a line keeps counters and stack in step, gate lines and where clauses included |
| `GateScanner.Scanner.Arm` | xtask/src/no_network.rs:273-278 | a gate attribute line arms the gate at the current depth |
| `GateScanner.Scanner.Verdict` | xtask/src/no_network.rs:269-272 | the list of gated depths is nonempty exactly when some enclosing brace is flagged |
| `GateScanner.GatedDepthsBelow` | xtask/src/no_network.rs:260-266 | the list of gated depths is strictly increasing and below the depth |
| `GateScanner.GatedDepthsPop` | xtask/src/no_network.rs:311-316 | the last gated depth belongs to the innermost brace exactly when that brace is flagged |
| `GateScanner.BlockLinesGated` | xtask/src/no_network.rs:242-246 | every line that starts inside the block of a gated item is gated, over any number of lines and whatever gates and braces nest inside |
| `GateScanner.VerdictEndsWithBlock` | xtask/src/no_network.rs:242-252 | once the line that closes the block is read no gate is armed, and the next line is gated exactly when the item itself stood inside a gated block |
| `GateScanner.VerdictEndsOnOneLine` | xtask/src/no_network.rs:242-252 | the same for a block that opens and closes on one line |
| `GateItems.VerdictEndsWithItem` | xtask/src/no_network.rs:242-247 | a gated item without a block ends at its terminator: behind it no gate is armed, and the next line is gated exactly when the gate stood inside a gated block |
| `GateItems.ArmedExactly` | xtask/src/no_network.rs:319-324 | over code without braces a gate stays armed exactly when the code holds no semicolon outside brackets and no comma outside brackets, generic arguments and a where clause |
| `GateItems.NestingCounted` | xtask/src/no_network.rs:292-328 | brackets and generic arguments are those counted on the text: a less-than sign counts behind a word or a greater-than sign, a greater-than sign unless behind a hyphen, and neither count falls below zero |
| `GateItems.HeaderLinesGated` | xtask/src/no_network.rs:243-247 | every line from the gate up to the one that ends the item or opens its block is gated, commas in brackets, generics and where clauses notwithstanding |
| `GateItems.GateExactly` | xtask/src/no_network.rs:277-286 | a gate line starts outside block comments and holds the one attribute behind nothing but white space |
| `GateItems.GateLineArms` | xtask/src/no_network.rs:280-286 | such a line, indented by spaces or tabs, gates the line behind it |
| `GateItems.OnlyGateLinesArm` | xtask/src/no_network.rs:280-286 | no other line arms a gate |
| `GateItems.WhereIsAWord` | xtask/src/no_network.rs:334-341 | a where clause is noticed exactly where the five letters stand without a letter, digit or underscore on either side |
| `GateScanner.LinesInsideGatedBrace` | xtask/src/no_network.rs:302-318 | as long as the code of the lines never closes a flagged brace, each line is gated |
| `GateScanner.NoGateNothingGated` | xtask/src/no_network.rs:260-265 | a text without the gate attribute gates nothing |
| `GateScanner.ScanFile` | xtask/src/no_network.rs:167-199 | the per-line rescans add up to one forward pass over the file |
| `GateScanner.LeaksExactly` | xtask/src/no_network.rs:167-199 | a finding is exactly a network symbol on a line that is no comment line, not the updater's own symbol, and not inside a gated item |
| `GateScanner.ScanLineSymbols` | xtask/src/no_network.rs:173-196 | one line yields one finding for each symbol that nothing exempts |
| `GateItems.LeaksSpelledOut` | xtask/src/no_network.rs:160-200 | the findings with the six symbols, the two exempt paths and the comment mark written out |
| `CodeSpans.CodeSpansOf` | xtask/src/doc_lint.rs:234-280 | the spans are the contents of matched backtick runs: maximal, equally long, with no equally long run between, in order and disjoint; every other run lies inside a span or has no later run of its length |
| `CodeSpans.CodeSpansUnique` | xtask/src/doc_lint.rs:230-280 | a line has only one such list |
| `CodeSpans.SkipRun` | xtask/src/doc_lint.rs:239-244 | the run found is maximal |
| `CodeSpans.FindCloser` | xtask/src/doc_lint.rs:246-272 | the closing run is the first of exactly the opening length, or there is none |
| `CodeSpans.ScrubCodeSpans` | xtask/src/knowledge_lint.rs:846-860 | the byte length stays, and exactly the content bytes that are not white space are blanked |
| `CodeSpans.BlankSpan` | xtask/src/knowledge_lint.rs:852-857 | one span is blanked in place and nothing else is written |
| `CodeSpans.ScrubKeepsSpans` | xtask/src/knowledge_lint.rs:846-860 | a blanked line has exactly the spans of the line |
| `CodeSpans.ScrubbedMatching` | xtask/src/knowledge_lint.rs:846-860 | the backtick runs that are matched survive, and no other run of the blanked line is closed |
| `CodeSpans.ScrubIdempotent` | xtask/src/knowledge_lint.rs:846-860 | blanking a blanked line changes nothing |
| `FenceMask.FenceMaskOf` | xtask/src/doc_lint.rs:184-212 | the mask is exactly the union of fenced blocks: ordered, disjoint, each from a fence run outside earlier blocks to the first closing fence or the last line |
| `FenceMask.ScanLine` | xtask/src/doc_lint.rs:188-210 | one line moves the open fence and the mask to those of the longer prefix |
| `FenceMask.FencingUnique` | xtask/src/doc_lint.rs:184-212 | a document has only one such set of blocks |
| `FenceMask.PrefixMask` | xtask/src/doc_lint.rs:184-212 | the mask of a prefix of the document is the prefix of its mask, and nothing else is |
| `FenceMask.PrefixFencing` | xtask/src/doc_lint.rs:184-212 | the blocks of a prefix are the blocks that start in it, the last one cut short |
| `FenceMask.FenceLineExactly` | xtask/src/doc_lint.rs:216-228 | a line carries a fence run exactly when three or more equal backticks or tildes follow its indentation, and the run is bare exactly when only white space follows |
| `FenceMask.CommonMarkAgreesExactly` | xtask/src/doc_lint.rs:180-223 | a line opens a fence by section 4.5 of CommonMark 0.31.2 exactly when the code sees that run, at most three spaces precede it, and no backtick follows a backtick run |
| `FenceMask.ClosingAgreesExactly` | xtask/src/doc_lint.rs:196-203 | a line closes a fence by section 4.5 exactly when it does for the code, at most three spaces precede it, and only spaces and tabs follow |
| `FenceMask.DeepFenceOpens` | xtask/src/doc_lint.rs:187-195 | four spaces before three backticks open a fence for the code and not by section 4.5 |
| `FenceMask.DeepFenceCloses` | xtask/src/doc_lint.rs:196-203 | the same line closes a fence for the code and not by section 4.5 |
| `WriteProtocol.StepKeepsInv` | crates/unblock-engine/src/permit.rs:27-85 | every step of every task, signal thread and process keeps permits, locks and signal records consistent |
| `WriteProtocol.RunKeepsInv` | crates/unblock-engine/src/permit.rs:27-85 | the invariant holds in every world of every interleaving |
| `WriteProtocol.PermitsConserved` | crates/unblock-engine/src/permit.rs:22-24 | permits held plus permits free is one per open session, in every interleaving |
| `WriteProtocol.OneGuardPerWorkspace` | crates/unblock-engine/src/permit.rs:36-60 | at most one file-backed mutation guard exists on a workspace, over all sessions and processes |
| `WriteProtocol.LockInsidePermit` | crates/unblock-engine/src/permit.rs:36-48 | whoever holds the workspace lock is the one holder of its session's permit |
| `WriteProtocol.LockReleasedFirst` | crates/unblock-engine/src/permit.rs:39-48 | a guard never gives its permit back in the step that ends its lock, so the lock goes first |
| `WriteProtocol.NoWaitCycle` | crates/unblock-engine/src/permit.rs:36-43 | no set of tasks waits for itself through permits and locks |
| `WriteProtocol.NobodyStuck` | crates/unblock-engine/src/session/write.rs:134-138 | a call that has not ended can take a step, or waits through a chain for a task that can |
| `WriteProtocol.LateCallsRefused` | crates/unblock-engine/src/permit.rs:71-79 | a call that has not passed the flag check when its flag is set is never inside a mutation later |
| `WriteProtocol.SignalRaisesFlag` | crates/unblock-cli/src/shutdown.rs:78-86 | by the time the signal thread waits again after a first signal, the token is cancelled and the flag it shares is set |
| `WriteProtocol.MutationsOnlyDrain` | crates/unblock-engine/src/permit.rs:63-66 | once a flag is set, the mutations under way in the sessions that read it, one session or all that are wired to the signal flag, only become fewer |
| `WriteProtocol.DrainSeesNoMutation` | crates/unblock-engine/src/session/lifecycle.rs:125-129 | while a shutdown drain holds the permit no mutation of its session holds it |
| `WriteProtocol.CodeRecordedOnce` | crates/unblock-cli/src/shutdown.rs:80-86 | the recorded signal code changes at most once |
| `WriteProtocol.ExitReportsFirstSignal` | crates/unblock-cli/src/shutdown.rs:40-50 | a hard exit reports the code of the first signal, in agreement with the reported exit code |
| `WriteProtocol.SignalCode` | crates/unblock-cli/src/shutdown.rs:80-81 | the code of a signal number is 128 more, cut off at 255, and 128 for a number that is no byte |
| `CallOutcomes.MovesExactly` | crates/unblock-engine/src/permit.rs:60-85 | in every world a step moves a call exactly as one table of moves allows: which moves exist, and what each needs of the session's flag, permit and semaphore and of the workspace lock, in both directions |
| `CallOutcomes.CheckDecides` | crates/unblock-engine/src/permit.rs:75-79 | a mutation that checks its flag is refused exactly when its session's own flag is set, and goes on otherwise |
| `CallOutcomes.OutcomeHasCause` | crates/unblock-engine/src/permit.rs:69-85 | in every run a call that ended was refused only under its own set flag, poisoned only by its own closed semaphore, failed a lock only on a workspace, and cancelled only before it held the guard |
| `CallOutcomes.RaisedHasCause` | crates/unblock-engine/src/session/lifecycle.rs:120-122 | in every run a flag that is set was set by the shutdown of a session that reads it or by the signalled thread of a process whose flag it is |
| `CallOutcomes.SignalDecides` | crates/unblock-cli/src/shutdown.rs:80-94 | the first signal records its code and the process lives; a later one ends it with the recorded code |
| `CallOutcomes.ExitTakesOwnOnly` | crates/unblock-cli/src/shutdown.rs:89-93 | an exit takes exactly the sessions, tasks and locks of its own process |
| `CallOutcomes.OpensAsGiven` | crates/unblock-engine/src/session/lifecycle.rs:84-96 | a session opens with one free permit, an open semaphore and its own flag, and leaves the others alone |
| `CallOutcomes.SessionStays` | crates/unblock-engine/src/session/lifecycle.rs:110-115 | process, workspace and flag of a session never change, and its semaphore closes only by its own closing |
| `ShutdownDrain.DrainIsFinalExactly` | crates/unblock-engine/src/session/lifecycle.rs:112-132 | after the drain got the permit the session can still write exactly when some mutation has passed the flag check by then |
| `ShutdownDrain.QuietAfterDrain` | crates/unblock-engine/src/session/lifecycle.rs:112-132 | when no mutation is past its check, a drained session never writes again |
| `ShutdownDrain.LateWriterRuns` | crates/unblock-engine/src/permit.rs:75-85 | a mutation that passed its check before the flag was set can run after the drain |
| `ShutdownDrain.DrainBesideLateWriter` | crates/unblock-engine/src/session/lifecycle.rs:120-133 | a run that reaches such a drain beside such a mutation, and goes on to the mutation |
| `ShutdownDrain.SessionOnlyDrains` | crates/unblock-engine/src/permit.rs:75-79 | no mutation of a refusing session starts while the session lives |
| `DrainProgress.MutationsFinish` | crates/unblock-engine/src/session/lifecycle.rs:112-130 | once the flag is set the mutations of the session take, in every schedule, at most as many steps as they have left |
| `DrainProgress.MutationRankBound` | crates/unblock-engine/src/permit.rs:71-85 | that is at most five for each mutation under way |
| `DrainProgress.DrainCanFinish` | crates/unblock-engine/src/session/lifecycle.rs:124-130 | from every reachable world a waiting drain gets its permit within five steps, if they are scheduled |
| `ShutdownDrain.RunKeepsDrainsFlagged` | crates/unblock-engine/src/session/lifecycle.rs:121-128 | in every run a drain is only ever under way with the flag set |
| `ImportClosure.ScanImportClosure` | xtask/src/knowledge_lint.rs:323-362 | the loop ends on every finite import graph, cyclic or not, and its findings are the knowledge imports of the files it reads, in order |
| `ImportClosure.ReadsAreNear` | xtask/src/knowledge_lint.rs:328-353 | no file is read twice and every file read is at most five imports from the root |
| `ImportClosure.ReadsOnceWithinFive` | xtask/src/knowledge_lint.rs:328-353 | the same from any stack whose entries stand on import chains as long as their depths |
| `ImportClosure.CompleteExactly` | xtask/src/knowledge_lint.rs:350-353 | the read set is the whole closure exactly when everything the cap cut is read anyway |
| `ImportClosure.ShallowTreeComplete` | xtask/src/knowledge_lint.rs:350-353 | without a simple chain of six imports the whole closure is read |
| `ImportClosure.CleanExactly` | xtask/src/knowledge_lint.rs:323-362 | then no finding means exactly that no reachable file imports knowledge content |
| `ImportClosure.NearFileLost` | xtask/src/knowledge_lint.rs:328-353 | a tree in which the cap loses a file three imports from the root, because a longer chain reached its importer first |
| `ImportClosure.ImportIsAccounted` | xtask/src/knowledge_lint.rs:341-353 | every import of a file read leads to a file read, visited or cut |
| `ImportClosure.CutEndsLongPath` | xtask/src/knowledge_lint.rs:350-353 | what the cap cuts is read anyway or ends a simple chain of six imports |
| `ImportClosure.NoFindingsExactly` | xtask/src/knowledge_lint.rs:341-349 | no finding means exactly that no file read imports knowledge content |
| `ImportClosure.FindingsExactly` | xtask/src/knowledge_lint.rs:341-349 | a finding names exactly a file that was read and a line of it that imports knowledge content |
| `ImportClosure.FailsAtUnreadable` | xtask/src/knowledge_lint.rs:328-340 | the scan fails only at a file that cannot be read, at most five imports from the root |
| `ImportClosure.ReadableNeverFails` | xtask/src/knowledge_lint.rs:328-340 | it goes through when every file within five imports of the root can be read |
| `ImportClosure.ReadFile` | xtask/src/knowledge_lint.rs:338-357 | one file yields its knowledge imports and, below the cap, its members one level deeper |
| `SemVer.VersionRoundTrip` | xtask/src/release.rs:96-100 | a printed version parses back to itself, pre-release and build metadata included |
| `SemVer.PrecedenceTrichotomy` | xtask/src/release.rs:74-94 | precedence after section 11 of SemVer 2.0.0 orders any two versions that differ in more than build metadata, in one direction |
| `SemVer.PrecedenceTransitive` | xtask/src/release.rs:74-94 | precedence is transitive |
| `SemVer.ParsedIsWellFormed` | xtask/src/release.rs:187-190 | every version that parses is well formed, so printing and parsing it gives it back |
| `VersionForms.ParsesExactly` | xtask/src/release.rs:187-190 | a text parses to a version exactly when the version is well formed and the text is its printed form |
| `VersionForms.TagsExactly` | xtask/src/release.rs:96-114 | a tag names a version exactly when it is a v and the printed form |
| `VersionForms.PrintedForms` | xtask/src/release.rs:96-100 | the printed forms written out, for a release, an rc, and a pre-release with build metadata |
| `VersionForms.CoreDecides` | xtask/src/release.rs:65-82 | major, minor and patch decide precedence in this order, then a pre-release ranks below its release |
| `VersionForms.PreReleaseDecides` | xtask/src/release.rs:84-94 | behind equal identifiers the first differing one decides, and a longer list outranks its beginnings |
| `VersionForms.IdentifierDecides` | xtask/src/release.rs:84-94 | numbers rank by value and below words, words by their first differing character |
| `VersionForms.CountsExactly` | xtask/src/release.rs:106-128 | a tag counts for a core exactly when it is the tag of an rc of that core with a 64-bit number |
| `VersionForms.TargetSpelledOut` | xtask/src/release.rs:137-151 | the target of each bump in numbers, plain for a final release, and with rc and the least number past the counted ones for a pre-release |
| `VersionForms.NoTargetExactly` | xtask/src/release.rs:74-82 | there is no target exactly when the number to raise is the last of 64 bits, or an rc is asked for and the last rc number is taken |
| `ReleaseVersion.NextRcNumber` | xtask/src/release.rs:106-123 | the loop returns one past the greatest counted rc number, else 1 |
| `ReleaseVersion.MaxRcIsMax` | xtask/src/release.rs:106-123 | that number is counted by some tag and no tag counts a greater one |
| `ReleaseVersion.NoNextRcExactly` | xtask/src/release.rs:122-122 | there is no next number exactly when a tag holds the last 64-bit one |
| `ReleaseVersion.TargetVersion` | xtask/src/release.rs:137-151 | the target ranks above the current version on a real bump, is well formed, and an rc target has a tag that is not known |
| `ReleaseVersion.RcTagIsFresh` | xtask/src/release.rs:102-123 | a computed pre-release tag is not among the known tags |
| `ReleaseVersion.RcOrder` | xtask/src/release.rs:84-94 | of two rcs of a core the one with the greater number ranks above |
| `ReleaseVersion.RcRanksHighestExactly` | xtask/src/release.rs:102-128 | a computed rc ranks above every known rc of its core exactly when no known rc number exceeds 64 bits |
| `ReleaseVersion.HugeRcOutranks` | xtask/src/release.rs:126-128 | a known rc beyond 64 bits outranks the rc that is computed beside it |
| `ReleaseVersion.ReleaseRanksAboveExactly` | xtask/src/release.rs:74-82 | a release ranks above the current version exactly on a real bump, when a final leaves a pre-release, or when the current pre-release sorts before rc or has an rc number that the known tags reach |
| `ReleaseVersion.NextRcAbove` | xtask/src/release.rs:102-123 | the next rc number exceeds a number exactly when it is 0 or some tag counts for at least it |
| `ReleaseVersion.BumpIsLeast` | xtask/src/release.rs:74-82 | a bump gives the least core that rises at its level |
| `ReleaseVersion.ParseWorkspaceVersion` | xtask/src/release.rs:187-190 | the version read is that of the first version line of the package table, and none if there is none or it does not parse |
| `ReleaseVersion.SetVersionReadsBack` | xtask/src/release.rs:183-210 | setting a version in any manifest, whatever its line ends, and reading it back gives that version |
| `Manifest.FindWorkspaceVersionLine` | xtask/src/release.rs:164-181 | the line found is the first version key whose last table header is the package table, and none is found only if there is none |
| `Manifest.FindVersionKind` | xtask/src/release.rs:165-180 | the same over classified lines |
| `Manifest.ReplaceWorkspaceVersion` | xtask/src/release.rs:197-210 | the edit is refused exactly without a version line and otherwise rewrites the first one |
| `Manifest.EditedAt` | xtask/src/release.rs:197-210 | the line that is rewritten is the first version line, which is unique |
| `Manifest.OnlyOneLineChanges` | xtask/src/release.rs:192-210 | the number of lines and the final newline stay; the other lines stay exactly when none of them keeps a carriage return in front of its line end |
| `Manifest.RestOfTextUntouched` | xtask/src/release.rs:192-210 | as text, everything around the located line is untouched exactly when no line ends in CR LF |
| `Manifest.RewriteReadsBack` | xtask/src/release.rs:164-210 | in any manifest the edited text is found at the same line with the value written |
| `Manifest.RewriteTwice` | xtask/src/release.rs:197-210 | a second rewrite equals doing only the second one, exactly when no other line keeps a carriage return in front of its line end |
| `Manifest.HeaderLosesReturns` | xtask/src/release.rs:197-210 | a manifest with a version line whose header line ends in CR CR LF: the edit changes the header too, a second edit changes it again, and the text around the edited line is not kept |
| `Manifest.NewLineReadsBack` | xtask/src/release.rs:200-204 | the written line is read as a version key with the written value |
| `ManifestLines.HeaderSpelledOut` | xtask/src/release.rs:168-171 | a header is a line in brackets once trimmed, and the package header is the one text |
| `ManifestLines.KeySpelledOut` | xtask/src/release.rs:172-178 | the word version, white space, an equals sign and a value in quotes or not are a version key with that value |
| `ManifestLines.OnlyKeysAreKeys` | xtask/src/release.rs:172-176 | nothing else is a version key |
| `ManifestLines.NewLineSpelledOut` | xtask/src/release.rs:200-204 | the written line is the old indentation, the key and the quoted value |
| `ReleaseRun.TraceIsPrefixOfPlan` | xtask/src/release.rs:948-1067 | for every input and failure schedule the effects done are a prefix of set version, refresh lock, commit, tag, push for the one version that the run prepared; none on a dry run or unless the first line behind the prompts is its tag; the push only if the next line is the tag too; all five on success |
| `ReleaseRun.ExecuteTrace` | xtask/src/release.rs:948-1004 | nothing changes unless the first line equals the tag, and the push needs the second one too |
| `ReleaseRun.RecoveryRestoresExactly` | xtask/src/release.rs:916-1004 | after a failed effect or a push-gate mismatch the stated recovery restores the starting repository exactly unless the commit is scheduled to fail once changed files are staged |
| `ReleaseRun.StagedCommitIsNotRestored` | xtask/src/release.rs:406-411 | a whole run over a truthful, fit environment whose commit is refused after staging is not undone by its stated recovery, which takes the files from the index |
| `ReleaseRun.LocalEffectsUndone` | xtask/src/release.rs:935-937 | dropping the tag and the commit undoes all local effects |
| `ReleaseRun.CompletedRunPublishes` | xtask/src/release.rs:969-1003 | a completed run published one new commit with the two new files under the tag, and left the tree clean |
| `ReleaseRun.StoppedRunPublishes` | xtask/src/release.rs:938-947 | a stopped run published nothing, unless only the closing message failed |
| `ReleaseRun.HintMissingExactly` | xtask/src/release.rs:944-947 | a failure lacks a recovery hint exactly when the first gate is shut, or when every local effect succeeds and a stream fails or the input ends at or after the push gate |
| `ReleaseRun.SilentFailureExactly` | xtask/src/release.rs:1014-1067 | a whole run leaves effects behind without a hint exactly when it is no dry run, is prepared, passes the first gate and stops so at the push gate |
| `ReleaseRun.LocalHint` | xtask/src/release.rs:969-975 | the local effects are done exactly when each is scheduled to succeed and the manifest has a version line, and otherwise the failure carries a hint |
| `ReleaseRun.PushGateStops` | xtask/src/release.rs:977-993 | what stops the push gate with a hint has changed nothing and hints at dropping both tag and commit |
| `ReleaseRun.AskLineReads` | xtask/src/release.rs:816-824 | a confirmation consumes at most one line and answers with exactly that line |
| `ReleaseRun.PreflightExactly` | xtask/src/release.rs:831-876 | the checks pass exactly on a clean main branch in sync with the fetched remote, when their reports can be written |
| `ReleaseRun.SettleReads` | xtask/src/release.rs:1031-1041 | a settled version is the computed target, its tag is new among the known tags, and nothing changed |
| `ReleaseRun.LocalEffectsCommit` | xtask/src/release.rs:969-975 | the local effects add one commit with the edited manifest and the new lock, tag it, leave the tree clean and the remote alone |
| `ReleaseRun.PublishedHeadMatchesTag` | xtask/src/release.rs:1014-1067 | a completed run published a planned version: the remote head declares it and its tag names it |
| `ReleaseRun.EndOfInputLeavesTag` | xtask/src/release.rs:977-983 | input that ends at the push gate leaves the commit and the tag behind and carries no recovery hint |
| `ReleaseRun.PrepareReads` | xtask/src/release.rs:1021-1041 | everything before the first gate only reads; a prepared run passed every check and planned a target whose tag is known neither locally nor remotely |
| `ReleaseRun.PrepareAnswers` | xtask/src/release.rs:1024-1041 | the plan is for the first line that names a kind and the first line behind it that names a bump, and the gates read the lines right after that one |
| `ReleaseRun.PreflightReads` | xtask/src/release.rs:831-876 | the checks change nothing and carry no recovery hint |
| `ReleaseRun.AskTakesFirst` | xtask/src/release.rs:794-812 | the answer is the first line that parses, and exactly the lines up to it are consumed |
| `ReleaseRun.Tool.Prompt` | xtask/src/release.rs:794-812 | the prompt loop ends, and answers as the recursive prompt does |
| `ReleaseRun.Tool.DoExecute` | xtask/src/release.rs:948-1004 | the effects done are a prefix of the plan confirmed by typed tags; success publishes exactly one commit under the tag; a hint undoes all but a staged failed commit; and the hint is missing exactly at the gates and streams |
| `ReleaseRun.Tool.DoOrchestrate` | xtask/src/release.rs:1014-1067 | a whole run does nothing on a dry run, and otherwise nothing but what the one prepared version explains: effects confirmed on the lines right behind the prompts, one publication on success, and recovery exactly but for a staged failed commit |
| `ReleaseRun.ExecuteKeepsPromises` | xtask/src/release.rs:929-947 | the specified execution keeps these promises |
| `ReleaseRun.OrchestrateKeepsPromises` | xtask/src/release.rs:1006-1067 | the specified run keeps these promises, with one version for plan, trace, publication and recovery |
| `ReleaseCompletion.RunGoesExactly` | xtask/src/release.rs:1014-1067 | a run goes through exactly when the repository is fit, the first kind and bump typed plan a version with a new tag, the tag is typed on the next two lines, all five effects succeed and every message can be written; a dry run needs neither tags nor effects |
| `ReleaseCompletion.KindAnswers` | xtask/src/release.rs:216-223 | which answers, in either case and with white space around them, ask for a pre-release and which for a final release; no others are taken |
| `ReleaseCompletion.BumpAnswers` | xtask/src/release.rs:226-234 | which answers ask for no bump, a patch, a minor or a major one; no others are taken |
| `ReleaseCompletion.AskExactly` | xtask/src/release.rs:794-813 | a prompt is answered exactly when some line parses, every line before it can be read, and each prompt and complaint can be written |
| `ReleaseCompletion.ExecuteGoes` | xtask/src/release.rs:948-1004 | an execution goes through exactly on two typed tags, five effects that succeed and four messages |
| `ReleaseCompletion.PreflightFailure` | xtask/src/release.rs:831-875 | the failure reported is that of the first check that fails |
| `ReleaseCompletion.GateFailure` | xtask/src/release.rs:956-966 | at the first gate a line other than the tag is a mismatch, the end of input is reported as such |
| `ReleaseCompletion.LocalFailure` | xtask/src/release.rs:969-975 | a local effect that fails names itself and what undoes the effects before it |
| `ReleaseCompletion.PushFailure` | xtask/src/release.rs:977-1002 | a refused or failed push names tag and commit as what to drop |
| `ReleaseCompletion.SettleFailure` | xtask/src/release.rs:1031-1038 | without a target there is an overflow, and a known tag stops the run |
| `ConfigValues.StoredDecodes` | crates/unblock-config/src/reload.rs:128-163 | decoding the stored string gives back the parsed value, for trimmed actors, format names and all caps from 1 to i64::MAX |
| `ConfigValues.CanonicalizeIdempotent` | crates/unblock-config/src/reload.rs:139-141 | canonicalising twice is canonicalising once |
| `ConfigValues.CanonicalIsInjective` | crates/unblock-config/src/reload.rs:128-141 | two raw strings are stored alike exactly when they mean the same value |
| `ConfigValues.CapRoundTrip` | crates/unblock-config/src/reload.rs:214-225 | every cap in range prints to a numeral that parses back |
| `ConfigValues.FormatRoundTrip` | crates/unblock-config/src/reload.rs:168-175 | every format name parses back to its format |
| `ConfigValues.ClassifyInvertsName` | crates/unblock-config/src/keys.rs:74-117 | a name is classified as a runtime key exactly when it is the key's own name |
| `ConfigValues.DbLayerOf` | crates/unblock-config/src/db_layer.rs:48-74 | one pass over the rows collects the layer of the sound rows and the faults of the others |
| `ConfigValues.RowsPartition` | crates/unblock-config/src/db_layer.rs:45-74 | every row is one contribution or one fault |
| `ConfigValues.FaultsInRowOrder` | crates/unblock-config/src/db_layer.rs:45-47 | a faulty row's fault comes right after the faults of the rows before it |
| `ConfigValues.FaultsNeverContribute` | crates/unblock-config/src/db_layer.rs:51-72 | deleting the faulty rows leaves the layer unchanged and no fault |
| `ConfigValues.StoredRowIsSound` | crates/unblock-config/src/db_layer.rs:103-152 | a canonical value under its key is a sound row that decodes to the value |
| `ConfigCascade.FaultsSpelledOut` | crates/unblock-config/src/db_layer.rs:102-147 | which rows are startup-key and unknown-key faults, by the names written out, and that a marked cell or the JSONL toggle is always a fault |
| `ConfigCascade.SoundActorSpelledOut` | crates/unblock-config/src/reload.rs:196-203 | an actor row is sound exactly when its trimmed value is not empty, has at most 200 characters and no control character |
| `ConfigCascade.SoundFormatSpelledOut` | crates/unblock-config/src/reload.rs:204-206 | a format row is sound exactly with one of the five names and means that format |
| `ConfigCascade.SoundCapSpelledOut` | crates/unblock-config/src/reload.rs:212-225 | a cap row is sound exactly with a decimal numeral, a plus sign in front or none, from 1 to 9223372036854775807 |
| `Text.TrimExactly` | crates/unblock-config/src/reload.rs:182-184 | trimming leaves the text between the outermost characters that are no white space |
| `ConfigCascade.LastSoundRowCounts` | crates/unblock-config/src/db_layer.rs:51-55 | the database's value of a key is that of the last sound row of the key |
| `ConfigCascade.NoSoundRowNoValue` | crates/unblock-config/src/db_layer.rs:48-74 | without one the database says nothing about the key |
| `ConfigLayers.PickIsFirst` | crates/unblock-config/src/merge.rs:176-195 | the fold takes the value and source of the first layer that sets the key |
| `ConfigCascade.ReloadsByCascade` | crates/unblock-config/src/reload.rs:85-102 | a reload in full: a broken project file is reported before a broken user file, an inadmissible actor before a cap out of range, and otherwise every key has the value and source of the first of its layers that sets it, written out field by field, with the faults of the rows |
| `ConfigCascade.MergesByCascade` | crates/unblock-config/src/merge.rs:204-242 | format: command line, environment, project, user, database, JSON; cap: project, user, database, 50; JSONL toggle: command line, environment, project, off; actor: the six in order, then the system user, then unblock |
| `ConfigCascade.ActorPicked` | crates/unblock-config/src/merge.rs:61-73 | the actor is the first of these that is more than white space, trimmed |
| `ConfigCascade.StartupByCascade` | crates/unblock-config/src/merge.rs:106-173 | every startup key is the project file's or the written default, and the lock timeout at least 100 |
| `ConfigCascade.BackendDecides` | crates/unblock-config/src/config.rs:435-449 | the open is refused exactly for a project backend other than libsql, which the error names |
| `ConfigLayers.ReportedFrom` | crates/unblock-config/src/merge.rs:204-242 | a row value is reported, with source Db, exactly when no higher layer sets the key; otherwise the rows make no difference; the order of the layers is stated by MergesByCascade |
| `ConfigLayers.RowsNeverBreakResolution` | crates/unblock-config/src/config.rs:324-344 | if the runtime keys resolve without rows they resolve for all rows |
| `ConfigLayers.StartupIgnoresRuntimeLayers` | crates/unblock-config/src/config.rs:291-318 | the startup half of the merge is the same for all user files, rows and OS users |
| `ConfigLayers.StartupResolvesAlike` | crates/unblock-config/src/config.rs:346-368 | the startup resolution at open agrees with the startup half of the full merge, keeps the lock timeout above its floor, and is refused exactly for a foreign backend |
| `ConfigLayers.StoredValueReported` | crates/unblock-config/src/config.rs:291-344 | after a value is stored as its key's only row, the key reports it from Db exactly when no command-line, environment, project or user layer sets it; every other layer key and the JSONL toggle report as before |
| `ConfigLayers.ReloadAfterStore` | crates/unblock-config/src/reload.rs:85-102 | when the session resolves with its rows, its reload after the store succeeds, reports the stored value from Db unless a higher layer sets the key, every other value as before, and the faults of the other keys' rows in order |
| `ConfigLayers.FaultsAfterStore` | crates/unblock-config/src/db_layer.rs:48-74 | storing a value removes the faults of its key's rows and adds none |
| `ConfigLayers.StoreSucceedsExactly` | crates/unblock-config/src/config.rs:332-344 | the resolution with the stored row succeeds exactly when every key but the one it decides was acceptable before |
| `ConfigLayers.StoredActorRepairs` | crates/unblock-config/src/config.rs:327-344 | where the actor is refused, storing one repairs the resolution exactly when no higher layer sets the actor and the search cap is acceptable |
| `ConfigLayers.LayerIsGood` | crates/unblock-config/src/db_layer.rs:48-74 | every value in the database layer is valid for its key |

## Left out

- GateScanner.IsCfgGatedRegion: the text is given as its lines, and the early exit asks whether some line holds the gate; the gate attribute holds no line end.
- GateScanner.LeaksExactly: the snippet of a finding, the report and `assert_update_mod_gated` are presentation or one search.
- LineLexer.CodeOnly: multi-line string literals and non-ASCII char literals end where the code ends them, not where Rust does; the machine describes the code.
- WriteProtocol.NobodyStuck: says that a step is possible, not that it is taken; the first-in first-out order of the semaphore and the lock timeout clock are not modelled, and a timeout can strike at any moment.
- WriteProtocol.OneGuardPerWorkspace: the file lock is one exclusive resource per workspace; a second, re-entrant lock handle inside one process and the paths that take the permit without a lock (`migrate`) are not modelled.
- WriteProtocol.LateCallsRefused: the guards are states of a task and not objects with destructors, because their drops interleave with other tasks; the order of the drops is the order of the steps.
- DrainProgress.DrainCanFinish: says that the steps exist; that they are scheduled is fairness of the runtime, which is not modelled.
- ShutdownDrain.DrainIsFinalExactly: stated for a semaphore that nobody has closed, as no code of the session closes it.
- ImportClosure.ScanImportClosure: imports are taken as extracted by the regular expression from unmasked, scrubbed lines and resolved to knowledge, member or outside; `resolve_import` and file reading are inputs.
- CodeSpans.ScrubCodeSpans: works on the bytes of a line; the lossy UTF-8 conversion at the end is the identity on them, since whole contents are blanked.
- Manifest.RewriteReadsBack: stated for values without white space and quotes, as every printed version is.
- ReleaseRun.RecoveryRestoresExactly: assumes that the read-only commands report the truth about cleanliness and local tags. That the reported current version is the one the manifest declares is not assumed.
- ReleaseRun.TraceIsPrefixOfPlan: each prompt or message is one write to the stream; the boxed plan, colours, the spinner and the tag's own message are presentation.
- ReleaseRun.CompletedRunPublishes: the push replaces the remote branch by the local history; other branches are not modelled.
- ConfigLayers.StoredValueReported: the storing itself is the replacement of the key's rows; the database, credential refusal and the loading and bound checks of the two files are inputs.
- ConfigLayers.StartupResolvesAlike: the id-prefix normaliser is a parameter, so the result holds for every normaliser.
- ConfigValues.StoredRowIsSound: error message texts and the warning on unknown keys are not modelled.
- The `detect_*` lookups and hint texts of `hints.rs` are finite tables.
- Regex-driven lint classes, frontmatter and index lints, glossary tokens, bench tools, the layering lint and the pin checks: engine-dependent or shallow.
- Storage, session bodies, MCP, health, sync, discovery, path resolution, rendering and command routing: I/O or one-branch facts.
