# Verified model of Notewise's note editor and meeting tracker

Notewise keeps notes as Markdown and edits them as blocks, formats single lines with a hand-written
scanner, samples a meeting page for who is speaking, and announces meetings and voice questions to a
local engine. This project models those parts in Dafny and proves what they promise: what survives a
save, what an edit keeps, what a tracker hands out over a whole run, what a protocol keeps whatever
the order of its answers.

Code that works step by step in the repository is a method or a class here, with the loops and the
fields of the original, and is proved equal to a function on values. The theorems are about that
function, so they hold of the code.

| file | what it holds |
|---|---|
| `Text.dfy` | trimming, splitting and joining lines, decimal numbers |
| `Markdown.dfy` | the line format: which lines open which blocks, how a document is read and written |
| `RoundTrip.dfy`, `RoundTripLimits.dfy` | what a save and a reload keep, exactly, and families of documents they do not |
| `Fences.dfy`, `Dialect.dfy`, `Forms.dfy` | what lines of a file read as, told by their characters, in both directions |
| `WrittenFiles.dfy` | what a written file looks like, line by line |
| `Blocks.dfy` | blocks with ids; the parsing and serializing loops, proved equal to the format |
| `Tables.dfy`, `HandTables.dfy`, `TableSaves.dfy`, `Images.dfy` | table cells and image parts, read and written, and when they survive a save |
| `Nesting.dfy` | indent and outdent on a list of blocks with levels |
| `Inline.dfy`, `InlineProofs.dfy`, `Signs.dfy` | bold, italic, code, strike and links within a line, and the signs they are written with |
| `ToggleMark.dfy`, `MarkedLines.dfy` | the toggle on a selection, and what the line shows after it |
| `Editor.dfy`, `EditEffects.dfy`, `BlockEditor.dfy` | the editor's edits as values, what each does, and the handlers in place |
| `Router.dfy`, `Addresses.dfy` | addresses and routes |
| `Tracker.dfy`, `TrackerProofs.dfy`, `BatchPeople.dfy` | the speaker tracker in place, and what it hands out over a run |
| `Session.dfy`, `SessionClock.dfy`, `ContentScript.dfy` | the tracking session as a transition system, what its samples are stamped with, and its callbacks in place |
| `Join.dfy` | the join announcer, its tick cut at the `await` |
| `Voice.dfy` | asking out loud, with requests in flight |

`dafny verify dfyconfig.toml` checks everything.

## Where the code and its documentation differ

The model follows the code. In each case the theorem says what holds instead.

- `apps/desktop/src/lib/blocks.ts:20-26` says that `parse(serialize(blocks))` returns the same blocks.
  It does exactly for the documents of `RoundTrip.Saveable`; `RoundTripLimits` gives families of
  documents the editor can build for which it does not.
- `apps/desktop/src/lib/blocks.ts:390-396` treats `canonical` as what an autosave can compare against.
  It is stable exactly when no bullet spells a rule (`RoundTrip.CanonicalIdempotentIff`), and always
  after two applications.
- `apps/desktop/src/lib/blocks.ts:285-287` says that no editor can produce a skipped level. The block
  editor can, exactly in the edits of `Editor.EditNestsIff`; `Editor.PlainParentSkipsLevel`,
  `Editor.PulledUpParentSkipsLevel` and `Editor.RememberedLevelSkipsLevel` are three.
- `apps/browser-extension/src/session.js:57-60` and the extension's README say that tracking stops once
  the page has been unreadable for about thirty seconds. The next poll starts it again while the
  recording goes on (`Session.GivenUpIsRestarted`), and the limit counts unreadable samples in all, not
  in a row (`Session.GivesUpIff`).
- The extension's README says a meeting is announced at most ten times and then never again. Leaving
  and coming back starts over (`Join.ComingBackStartsOver`); what holds is the limit for each stay
  (`Join.AttemptsAreBounded`) and that many for each time the page came to the meeting
  (`Join.MeetingIsBounded`).
- `apps/browser-extension/src/join.js:50-53` takes `accepted` for the current meeting's. It is exactly
  when no late acceptance crosses from one stay to another (`Join.AlwaysKnowsIff`).
- `apps/desktop/src/lib/voice.ts:54-57` says that a closed panel does not keep recording. A
  microphone stays open exactly when an answer about an earlier session dropped a later one (`Voice.ClosedBoxIsSilentIff`),
  which can happen (`Voice.LatePollAbandonsNext`).

## Model

| member | source | states |
|---|---|---|
| `RoundTrip.RoundTripIff` | apps/desktop/src/lib/blocks.ts:20-26 | Saving a document and opening it again gives the same types, texts, ticks and levels **if and only if** the document is the single empty paragraph, or is non-empty, every block is writable and no list level is skipped. The header promises it unconditionally. |
| `RoundTrip.SaveAndReload` | apps/desktop/src/lib/blocks.ts:228-387 | What opening a saved document gives for *every* non-empty list of legible blocks: bullets spelling a rule become rules and skipped levels close up, nothing else changes. |
| `RoundTrip.ParseIsProducible` | apps/desktop/src/lib/blocks.ts:228-310 | Whatever text is opened, every block is legible, levels are never skipped, and there is at least one block. |
| `RoundTrip.CanonicalIdempotentIff` | apps/desktop/src/lib/blocks.ts:397-399 | `canonical` changes nothing when applied again **if and only if** no bullet of the parsed text spells a rule. |
| `RoundTrip.CanonicalSettlesInTwo` | apps/desktop/src/lib/blocks.ts:397-399 | For every text, `canonical` has settled after two applications. |
| `RoundTrip.DashyIff` | apps/desktop/src/lib/blocks.ts:217-218 | A bullet spells a rule exactly when its text is dashes and whitespace with at least two dashes. |
| `RoundTrip.DashyIsUnstable` | apps/desktop/src/lib/blocks.ts:188-218 | A legible, nested document with such a bullet is written differently by the second save. |
| `RoundTripLimits.StarredDashesAreUnstable` | apps/desktop/src/lib/blocks.ts:188-218 | The family of inputs `* - -`: opened as a bullet, saved as a line that opens as a rule, and changed once more by the next save. |
| `RoundTripLimits.NotWritableIsLost` | apps/desktop/src/lib/blocks.ts:20-26 | One block that is not writable, anywhere in any document, makes the round trip fail. |
| `RoundTripLimits.LineBreakIsLost` | apps/desktop/src/lib/blocks.ts:20-26 | A line break inside any block other than code or a table does not survive, wherever the block stands. |
| `RoundTripLimits.BlankParagraphIsLost` | apps/desktop/src/lib/blocks.ts:280-281 | Neither does a paragraph of whitespace in a document of more than that. |
| `RoundTripLimits.LeadingSpaceIsLost` | apps/desktop/src/lib/blocks.ts:188-199 | Neither do leading spaces of a heading or a list item. |
| `RoundTripLimits.MarkerTextIsLost` | apps/desktop/src/lib/blocks.ts:283-303 | Neither does a paragraph that reads as a marker. |
| `RoundTripLimits.FenceInCodeIsLost` | apps/desktop/src/lib/blocks.ts:241-252 | Neither does code with a line that opens a fence. |
| `RoundTripLimits.SkippedLevelIsLost` | apps/desktop/src/lib/blocks.ts:288-293 | Neither does a list item more than one level below the item before it. |
| `Fences.CodeReadsBack` | apps/desktop/src/lib/blocks.ts:241-252 | A file that starts with a line of three backticks after whitespace, whatever follows them, then lines that are not so, then one that is: one code block of exactly the lines between, and after it what the remaining lines are on their own. |
| `Fences.CodeLinesRead` | apps/desktop/src/lib/blocks.ts:241-252 | The same anywhere in a file, whatever block came before. |
| `Fences.UnclosedCodeReads` | apps/desktop/src/lib/blocks.ts:243-250 | Code that nothing closes runs to the end of the file. |
| `Fences.HasCodeIff` | apps/desktop/src/lib/blocks.ts:241 | A text has code **if and only if** one of its lines has three backticks after its leading whitespace. |
| `Fences.InfoMayFollow` | apps/desktop/src/lib/blocks.ts:241 | Any text may follow the backticks. |
| `Fences.NothingReadIff` | apps/desktop/src/lib/blocks.ts:281 | Lines read as nothing **if and only if** they are all blank. |
| `Dialect.HeadingLineReads` | apps/desktop/src/lib/blocks.ts:189-191 | One to three hashes, whitespace of any kind and a text are a heading of that rank. |
| `Dialect.BulletLineReads` | apps/desktop/src/lib/blocks.ts:196 | Indented by spaces or tabs, a dash or an asterisk, whitespace and a text are a bullet, two columns a level, a tab counting two, at most five levels and none skipped, unless a box follows or the line is a rule. |
| `Dialect.TodoLineReads` | apps/desktop/src/lib/blocks.ts:194-195 | With `[x]`, `[X]`, `[ ]` or `[]` behind the sign it is a to-do, ticked by an x of either case, with or without whitespace before its text. |
| `Dialect.NumberedLineReads` | apps/desktop/src/lib/blocks.ts:197 | Any digits with a period or a parenthesis are a numbered item. |
| `Dialect.QuoteLineReads` | apps/desktop/src/lib/blocks.ts:198 | A quote needs no space after its sign, and skips one. |
| `Dialect.RuleIff` | apps/desktop/src/lib/blocks.ts:217-218 | A line is a rule **if and only if** it is one of `-`, `*`, `_` at least three times and otherwise whitespace. |
| `Dialect.RuleLineReads` | apps/desktop/src/lib/blocks.ts:271-274 | Such a line is read as a rule. |
| `Dialect.TableLinesRead` | apps/desktop/src/lib/blocks.ts:256-264 | A pipe line, an alignment line and the pipe lines after them are one table, each line trimmed, and reading goes on behind it. |
| `Dialect.LineByLine` | apps/desktop/src/lib/blocks.ts:266-307 | Every other line is read by itself. |
| `Dialect.BlankFileReads` | apps/desktop/src/lib/blocks.ts:229 | A file of whitespace is one empty paragraph. |
| `Dialect.LineEndsAreOne` | apps/desktop/src/lib/blocks.ts:231 | Lines read the same with `\n`, `\r\n` or `\r` between them. |
| `Forms.LineHasForm` | apps/desktop/src/lib/blocks.ts:188-199 | The other direction: whatever a line is read as, it has the form for it, character by character. |
| `Forms.AlignmentLineIff` | apps/desktop/src/lib/blocks.ts:153-154 | A line is an alignment line **if and only if** it is a pipe and cells of three dashes or more, with a colon at either end or none, each closed by a pipe. |
| `Text.SplitJoin` | apps/desktop/src/lib/blocks.ts:231 | Splitting a joined text at newlines gives the lines of its parts one after another. |
| `Text.TrimSplits` | apps/desktop/src/lib/blocks.ts:241 | Trimming cuts whitespace off both ends and nothing else, and leaves none there. |
| `Blocks.BlockIds.Parse` | apps/desktop/src/lib/blocks.ts:228-310 | The parsing loops give the document the line format means (`Markdown.Parse`), with fresh ids in order and no empty field. |
| `Blocks.BlockIds.TakeFenced` | apps/desktop/src/lib/blocks.ts:241-250 | The inner loop takes exactly the lines before the next fence. |
| `Blocks.BlockIds.TakeTable` | apps/desktop/src/lib/blocks.ts:256-262 | The inner loop takes exactly the run of pipe lines, trimmed. |
| `Blocks.BlockIds.ReadOneLine` | apps/desktop/src/lib/blocks.ts:266-306 | A single line gives the block the format says, or none for a blank line, and takes an id only for a block. |
| `Blocks.BlockIds.Turn` | apps/desktop/src/lib/blocks.ts:236-307 | One turn of the loop finds what the format says starts here and goes on right after it. |
| `Blocks.BlockIds.BlockId` | apps/desktop/src/lib/blocks.ts:79-82 | Ids are handed out once each, in order. |
| `Blocks.Serialize` | apps/desktop/src/lib/blocks.ts:351-387 | The serializing loop, with its stack of counters, writes what the format says (`Markdown.Serialize`). |
| `Blocks.WriteLines` | apps/desktop/src/lib/blocks.ts:357-383 | The lines pushed are those of the format, numbers and blank separators included. |
| `Blocks.WriteBlock` | apps/desktop/src/lib/blocks.ts:358-370 | One block is written with its own number, and the counter stack moves on. |
| `Blocks.SeparatorAfter` | apps/desktop/src/lib/blocks.ts:371-383 | A blank line follows a block exactly where the format puts one. |
| `Blocks.StackAdvances` | apps/desktop/src/lib/blocks.ts:353-369 | The counter stack always holds the running number of every level at once, for arbitrary levels with gaps; the number printed is 1 plus that of the nearest earlier block that is not a deeper list item, when that one is numbered at the same level, and 1 otherwise. |
| `Blocks.OrdinalIsPosition` | apps/desktop/src/lib/blocks.ts:344-346 | The number printed is the position of the item among the numbered items of its level since the run began: 1, 2, 3, whatever was typed. Its digits spell that number. |
| `WrittenFiles.NumberedLineIs` | apps/desktop/src/lib/blocks.ts:360-363 | The line written for a numbered item, in any document: two spaces a level, digits that spell one more than its numbered siblings since the list began, a period, a space and the text. |
| `WrittenFiles.NumberedListIsSaved` | apps/desktop/src/lib/blocks.ts:344-346 | A top-level list of k numbered items is saved as k lines numbered 1 to k. |
| `WrittenFiles.BlockLineIs` | apps/desktop/src/lib/blocks.ts:313-337 | The text written for every other kind of block. |
| `WrittenFiles.BlankLinesAre` | apps/desktop/src/lib/blocks.ts:371-382 | Neighbouring items of one list are written one right after the other, any other two blocks with exactly one blank line between them, and nothing after the last. |
| `WrittenFiles.FileEndsInOneNewline` | apps/desktop/src/lib/blocks.ts:385-386 | A file is what was pushed, joined by newlines, and ends in exactly one. |
| `Tables.TableRoundTripIff` | apps/desktop/src/lib/blocks.ts:114-145 | Reading the cells of a written grid gives the grid padded to a rectangle **if and only if** it has rows, every cell is trimmed and holds no newline, and no row consists of alignment cells only. Pipes and backslashes are allowed. |
| `Tables.UnescapeEscape` | apps/desktop/src/lib/blocks.ts:126 | Escaping the pipes of a cell and removing the escapes gives the cell back. |
| `Tables.DashesAreLost` | apps/desktop/src/lib/blocks.ts:118 | A grid of one cell of dashes is a counterexample: it reads back as an empty table. |
| `Tables.TableRowsIsGrid` | apps/desktop/src/lib/blocks.ts:114-135 | Whatever the text, the editor gets at least one row, all of one width, of trimmed single-line cells. |
| `HandTables.HandRowReads` | apps/desktop/src/lib/blocks.ts:119-127 | A row of cells without pipes and backslashes is read as those cells, trimmed, whatever the spacing, closed by a pipe or not. |
| `HandTables.RowsAreFilled` | apps/desktop/src/lib/blocks.ts:131-134 | Shorter rows are filled up with empty cells to the widest, and nothing else is added. |
| `TableSaves.TableTextIsLegible` | apps/desktop/src/lib/blocks.ts:138-145 | Every written grid of single-line cells is a table the parser recognises. |
| `TableSaves.TableIsWritableIff` | apps/desktop/src/lib/blocks.ts:138-145 | A written grid is one a file can hold **if and only if** its cells are single lines, whatever else they hold. |
| `TableSaves.TableSurvivesIff` | apps/desktop/src/lib/blocks.ts:138-145 | Anywhere in a document that is otherwise saveable, the table survives a save **if and only if** its cells are single lines. |
| `Images.ImageRoundTripIff` | apps/desktop/src/lib/blocks.ts:159-166 | Description and address are read back from an image **if and only if** the address has no closing parenthesis. |
| `Images.OtherCharactersStay` | apps/desktop/src/lib/blocks.ts:164-166 | A description without brackets is kept as it is. |
| `Images.BracketsGo` | apps/desktop/src/lib/blocks.ts:164-166 | A bracket is taken out wherever it stands, and nothing else with it. |
| `Images.ImageBlockSurvivesIff` | apps/desktop/src/lib/blocks.ts:159-172 | The block survives a save **if and only if**, besides, neither part has a line break. |
| `Nesting.Shift` | apps/desktop/src/lib/blocks.ts:440-454 | The loop moves exactly the subtree and nothing else. |
| `Nesting.Indent` | apps/desktop/src/lib/blocks.ts:428-431 | Indents when allowed and otherwise changes nothing. |
| `Nesting.Outdent` | apps/desktop/src/lib/blocks.ts:434-437 | Outdents when allowed and otherwise changes nothing. |
| `Nesting.StepsByOneIsWellNested` | apps/desktop/src/lib/blocks.ts:285-293 | The nesting rule stated block by block is the one the file format needs. |
| `Nesting.IndentKeepsNesting` | apps/desktop/src/lib/blocks.ts:401-431 | A properly nested document stays so, at the depth limit too. |
| `Nesting.OutdentKeepsNesting` | apps/desktop/src/lib/blocks.ts:417-437 | A properly nested document stays so, children and following siblings included. |
| `Nesting.CanIndentIff` | apps/desktop/src/lib/blocks.ts:402-415 | In a properly nested document an indent is allowed exactly when it would deepen the item and leave the document properly nested. |
| `Nesting.CanOutdentIff` | apps/desktop/src/lib/blocks.ts:417-420 | An outdent is allowed exactly when it would lift the item, and the document is then always properly nested. |
| `Nesting.MovesTouchOnlyDepths` | apps/desktop/src/lib/blocks.ts:439-454 | Ids, kinds, texts, ticks and every block outside the subtree are untouched. |
| `Nesting.OutdentUndoesIndentIff` | apps/desktop/src/lib/blocks.ts:428-454 | Outdenting what was just indented restores every level **if and only if** no block of the subtree was at the limit, or the item itself was one short of it. |
| `Nesting.IndentUndoesOutdentIff` | apps/desktop/src/lib/blocks.ts:428-454 | Indenting what was just outdented restores every level **if and only if** no sibling followed the subtree, or the item was at the limit. |
| `Inline.ParseInline` | apps/desktop/src/lib/inline.ts:51-105 | The scanner, recursive and in place, gives the spans of the tree of marks the grammar describes. |
| `Inline.PiecesAreLossless` | apps/desktop/src/lib/inline.ts:61-101 | The pieces found, written back with their delimiters and link syntax, are the line. |
| `Inline.ParseIsLossless` | apps/desktop/src/lib/inline.ts:41-50 | Writing the whole tree back gives the line, character for character, for every line. |
| `InlineProofs.InnerAvoidsItsSign` | apps/desktop/src/lib/inline.ts:77-79 | The inside of a mark never contains the mark's own delimiter. |
| `InlineProofs.MarksAreBounded` | apps/desktop/src/lib/inline.ts:30-37 | For every line no span carries more than five marks: bold, strike and code at most once, italic at most twice, code only as the last. |
| `InlineProofs.SpansAreSolid` | apps/desktop/src/lib/inline.ts:56-59 | No span is empty, and only the empty line has no spans. |
| `InlineProofs.PlainIff` | apps/desktop/src/lib/inline.ts:107-111 | `hasFormatting` is false **if and only if** a non-empty line is one plain span equal to it. |
| `InlineProofs.NothingIsInvented` | apps/desktop/src/lib/inline.ts:64-101 | The text shown is a subsequence of the line. |
| `InlineProofs.MarksReadBack` | apps/desktop/src/lib/inline.ts:44-47 | A tree of marks that is cleanly written is read back as itself. |
| `Signs.BoldShows` | apps/desktop/src/lib/inline.ts:30-37 | Between any text that leaves nothing open and any text at all, words in `**` show in bold, and nothing else in the line changes. |
| `Signs.StruckShows` | apps/desktop/src/lib/inline.ts:30-37 | So do words in `~~` struck. |
| `Signs.CodeShows` | apps/desktop/src/lib/inline.ts:30-37 | So do words in backticks as code. |
| `Signs.StarredShows` | apps/desktop/src/lib/inline.ts:30-37 | So do words in `*` in italics. |
| `Signs.UnderscoredShows` | apps/desktop/src/lib/inline.ts:30-37 | So do words in `_` in italics. |
| `Signs.MarkAloneShows` | apps/desktop/src/lib/inline.ts:30-37 | The five marks on a line of their own. |
| `Signs.CodeShowsAsItIs` | apps/desktop/src/lib/inline.ts:85-87 | Code may hold anything but a backtick, and none of it is read as marks. |
| `Signs.OpenSignShows` | apps/desktop/src/lib/inline.ts:81-83 | A sign that nothing closes is shown as the character it is. |
| `Signs.OpenPairShows` | apps/desktop/src/lib/inline.ts:81-83 | So are two of them. |
| `Signs.LinkShows` | apps/desktop/src/lib/inline.ts:64-67 | `[caption](address)` shows the caption, or the address without one, with that address. |
| `Signs.LinkIff` | apps/desktop/src/lib/inline.ts:39 | A link starts at a place **if and only if** the characters from there on are those of one: no bracket in the caption, no parenthesis or whitespace in an address that is not empty. |
| `ToggleMark.RunLength` | apps/desktop/src/lib/inline.ts:182-191 | Counts the run of the symbol in the direction walked. |
| `ToggleMark.Toggle` | apps/desktop/src/lib/inline.ts:138-180 | The three cases as the source decides them, run lengths included. |
| `ToggleMark.ToggleOnlyMovesMarkers` | apps/desktop/src/lib/inline.ts:127-137 | The result is an in-range selection that differs by exactly one marker on each side of the selected words. |
| `Signs.ToggleWrites` | apps/desktop/src/lib/inline.ts:119-124 | On bare words, or a bare caret, bold writes `**` on both sides, italic `*`, code a backtick and strike `~~`, and the words stay selected. |
| `ToggleMark.ToggleTwiceIff` | apps/desktop/src/lib/inline.ts:132-133 | Toggling twice restores text and selection **if and only if** the first toggle unwraps outside the selection, or wraps where neither neighbour is the marker's symbol. |
| `ToggleMark.ToggleTwiceRestoresTextIff` | apps/desktop/src/lib/inline.ts:132-133 | The same for the text alone, where an inside unwrap restores it too, unless what it leaves is still wrapped. |
| `MarkedLines.ToggleShows` | apps/desktop/src/lib/inline.ts:126-137 | Where nothing is left open before the selection, the mark's own delimiter does not occur in it, and it is not marked so already, the toggled line is read as what came before, the selection under the mark with whatever marks it had, and what comes after, each as on its own. |
| `MarkedLines.ToggleShowsSpans` | apps/desktop/src/lib/inline.ts:126-137 | So in the spans exactly the selected words gain exactly that mark. |
| `MarkedLines.ClosedCut` | apps/desktop/src/lib/inline.ts:61-101 | A text with nothing left open is read the same whatever follows it. |
| `Tracker.SpeakerTracker.constructor` | apps/browser-extension/src/tracker.js:75-88 | The clock origin is fixed once, and nothing is known. |
| `Tracker.SpeakerTracker.ObserveSample` | apps/browser-extension/src/tracker.js:104-132 | One sample, with its three loops over the maps, does what `Observe` says. |
| `Tracker.SpeakerTracker.CloseTurn` | apps/browser-extension/src/tracker.js:134-140 | Ends one turn and keeps it if it lasted 600 ms. |
| `Tracker.SpeakerTracker.Drain` | apps/browser-extension/src/tracker.js:153-167 | Hands out what is closed and leaves open turns open. |
| `Tracker.SpeakerTracker.Finish` | apps/browser-extension/src/tracker.js:170-173 | Closes everything and hands it out. |
| `TrackerProofs.TurnsAreRuns` | apps/browser-extension/src/tracker.js:18-29 | Over a whole run, however often it is drained, the turns handed out for a participant are, in order, the maximal runs of samples in which they spoke, each ended by the first sample without them or by the finish, and at least 600 ms long. |
| `TrackerProofs.TurnHandedOutIff` | apps/browser-extension/src/tracker.js:18-29 | A turn is handed out **if and only if** it is such a run. |
| `TrackerProofs.RunsAreMaximal` | apps/browser-extension/src/tracker.js:18-29 | The recursive reading of the runs is the set of maximal runs. |
| `TrackerProofs.DrainsLoseNothing` | apps/browser-extension/src/tracker.js:147-167 | Handed out plus still held is, at every moment, what a tracker that was never drained holds. |
| `TrackerProofs.TurnsAreOrdered` | apps/browser-extension/src/tracker.js:104-140 | With a clock that does not run backwards, a participant's turns are ordered, do not overlap and are at least 600 ms long. |
| `TrackerProofs.TimedIsMonotone` | apps/browser-extension/src/tracker.js:90-93 | Rounding and clamping keep a monotone clock monotone. |
| `TrackerProofs.OffsetShiftsTurns` | apps/browser-extension/src/tracker.js:50-65 | The same samples with an offset larger by a whole number of milliseconds give every turn later by exactly that. |
| `TrackerProofs.StampIsSinceStart` | apps/browser-extension/src/tracker.js:9-16 | A sample is stamped with the time since the recording started, although the page clock and the wall clock have different origins. |
| `TrackerProofs.BatchesNameTheirSpeakers` | apps/browser-extension/src/tracker.js:153-167 | Every batch has turns, and names everyone who has a turn in it. |
| `TrackerProofs.PeopleAreLatest` | apps/browser-extension/src/tracker.js:114-118 | The names, the local participant and the count of unreadable samples are those of the whole run so far; draining changes none of them. |
| `BatchPeople.BatchIntroduces` | apps/browser-extension/src/tracker.js:159-166 | Every batch names everyone seen so far by the latest name, and the latest local participant. |
| `BatchPeople.LastBatchIntroduces` | apps/browser-extension/src/tracker.js:170-173 | So does the last one. |
| `Session.RunKeeps` | apps/browser-extension/src/session.js:72-150 | Over every sequence of poll answers, timer ticks and page hides: no session and no live timer, or one session with exactly its two timers, on its own tracker, for the meeting of the last poll. |
| `Session.InertUnlessRecording` | apps/browser-extension/src/session.js:75-150 | Without a session no interval is left; with one, two, and the last poll named its meeting. |
| `Session.PostsGoWhereTheyBelong` | apps/browser-extension/src/session.js:81-89 | Every batch goes to the meeting and engine its tracker was started for, and names its speakers. |
| `Session.SessionPostsItsRuns` | apps/browser-extension/src/session.js:94-135 | Once a session has ended, what was posted from its tracker is exactly the participant's runs of speaking, none lost, none twice. |
| `Session.PollDecides` | apps/browser-extension/src/session.js:137-150 | After a poll there is a session exactly when a recording is running, and it is that recording's. |
| `Session.GivesUpIff` | apps/browser-extension/src/session.js:100-113 | A sample ends the session **if and only if** the unreadable samples of its whole history now exceed 120. |
| `Session.GivenUpIsRestarted` | apps/browser-extension/src/session.js:107-112 | A run of 121 unreadable samples gives a session up, and the next poll that finds the recording starts it again. |
| `SessionClock.SessionHistoryIs` | apps/browser-extension/src/session.js:94-113 | Over every run: as long as a session lasts, its history is the ticks of its own sample timer since the poll that started it, in order, each stamped with the time since the recording began, or since that poll when the start is unknown or in the future. |
| `SessionClock.TickIsStamped` | apps/browser-extension/src/session.js:94-105 | One tick adds its sample with that stamp. |
| `SessionClock.RoundIsNearest` | apps/browser-extension/src/tracker.js:90-93 | Stamps are to the nearest millisecond. |
| `SessionClock.SessionPostsOnRecordingClock` | apps/browser-extension/src/session.js:75-150 | What a session ended by a poll or by leaving has posted for a participant is exactly their runs of speaking among those stamped samples, ended at the stamped moment of its end. |
| `SessionClock.FlushPostsAllClosed` | apps/browser-extension/src/session.js:115-131 | After the flushing timer every turn closed by the samples so far has been posted. |
| `SessionClock.FlushPostsEndedRuns` | apps/browser-extension/src/session.js:115-131 | For a participant: the runs of speaking that ended before the last sample. |
| `SessionClock.SamePollChangesNothing` | apps/browser-extension/src/session.js:143-149 | A poll that finds the meeting being tracked changes nothing. |
| `SessionClock.PageHideEnds` | apps/browser-extension/src/session.js:184 | When the page goes, the session is over and no interval is left. |
| `ContentScript.MeetingPage.OnPoll` | apps/browser-extension/src/session.js:137-150 | The poll callback, in place, is the step of the transition system. |
| `ContentScript.MeetingPage.OnSample` | apps/browser-extension/src/session.js:100-113 | So is the sampling interval, with its limit on unreadable samples. |
| `ContentScript.MeetingPage.OnFlush` | apps/browser-extension/src/session.js:115-131 | So is the flushing interval. |
| `ContentScript.MeetingPage.OnPageHide` | apps/browser-extension/src/session.js:184 | So is the tab closing. |
| `ContentScript.MeetingPage.StopTracking` | apps/browser-extension/src/session.js:75-92 | Clears both intervals, finishes the tracker and posts what is left. |
| `ContentScript.MeetingPage.StartTracking` | apps/browser-extension/src/session.js:94-135 | Makes a new tracker and its two intervals. |
| `Join.JoinAnnouncer.BeginTick` | apps/browser-extension/src/join.js:62-82 | A tick up to its `await`. |
| `Join.JoinAnnouncer.EndTick` | apps/browser-extension/src/join.js:86-93 | The rest of a tick, once the post has been answered. |
| `Join.JoinAnnouncer.DoReset` | apps/browser-extension/src/join.js:95-99 | Forgets the meeting. |
| `Join.AttemptsAreBounded` | apps/browser-extension/src/join.js:33-40 | However ticks and answers overlap, one uninterrupted stay on a meeting is announced at most `maxAttempts` times, and the counter is exact. |
| `Join.TickOutcomes` | apps/browser-extension/src/join.js:62-82 | Without a meeting all is forgotten; for an accepted or given-up one nothing changes; else exactly one post is made for it. |
| `Join.AnswerOutcomes` | apps/browser-extension/src/join.js:86-93 | An acceptance settles the stay, a failure changes nothing and is the last at the limit. |
| `Join.AcceptedOnce` | apps/browser-extension/src/join.js:79-93 | When ticks do not overlap, a stay has at most one accepted announcement and the announcer knows exactly whether it had one. |
| `Join.AlwaysKnowsIff` | apps/browser-extension/src/join.js:79-93 | However ticks and answers overlap, the announcer knows at every moment whether the current stay was accepted **if and only if** every acceptance arrives in the stay its post was made in, or in one already accepted. |
| `Join.MeetingIsBounded` | apps/browser-extension/src/join.js:33-40 | Over a whole run a meeting is announced at most `maxAttempts` times for each time the page came to it. |
| `Join.ComingBackStartsOver` | apps/browser-extension/src/join.js:63-69 | Leaving a meeting given up on and coming back announces it again, past `maxAttempts` in all. |
| `Join.LateAnswerSettlesAnother` | apps/browser-extension/src/join.js:86-90 | When they do, a late answer can mark the next meeting as announced although it never was. |
| `Editor.ApplyKeeps` | apps/desktop/src/components/BlockEditor.tsx:159-406 | Every edit keeps the document non-empty, ids distinct and within the counter, rules without text, and the recorded caret inside the text of a block that is there. |
| `Editor.EditsKeep` | apps/desktop/src/components/BlockEditor.tsx:159-406 | So does every sequence of edits. |
| `Editor.ReadDocumentIsReady` | apps/desktop/src/lib/blocks.ts:228-310 | A document just opened is one to start from. |
| `Editor.BackspaceUndoesSplit` | apps/desktop/src/components/BlockEditor.tsx:233-284 | Backspace undoes Enter, blocks and caret: once, or twice for a list item. |
| `Editor.DeleteMirrorsBackspaceIff` | apps/desktop/src/components/BlockEditor.tsx:383-406 | Delete at the end of a block does what Backspace at the start of the next does **if and only if** that is a paragraph. |
| `Editor.SplitKeepsTextIff` | apps/desktop/src/components/BlockEditor.tsx:233-251 | Enter keeps the concatenated text **if and only if** it does not end a list on an item holding only spaces. |
| `Editor.MergesKeepText` | apps/desktop/src/components/BlockEditor.tsx:259-284 | Backspace and Delete keep the concatenated text. |
| `Editor.EditNestsIff` | apps/desktop/src/components/BlockEditor.tsx:159-406 | For every edit, a properly nested document stays so **if and only if** a check on the blocks next to the edit passes. |
| `Editor.PlainParentSkipsLevel` | apps/desktop/src/components/BlockEditor.tsx:259-266 | It fails where Backspace makes the parent of a nested item plain. |
| `Editor.PulledUpParentSkipsLevel` | apps/desktop/src/components/BlockEditor.tsx:383-405 | It fails where Delete pulls an item with children into plain text. |
| `Editor.RememberedLevelSkipsLevel` | apps/desktop/src/components/BlockEditor.tsx:165-189 | It fails where a marker turns plain text that was a nested item into one again: the level was kept. |
| `Editor.ShortcutIsWhatIsRead` | apps/desktop/src/lib/blocks.ts:469-488 | Every marker typed at the start of a paragraph makes the block the parser would make of that line: the fence for code, and for a to-do the line after the dash that the file writes. |
| `EditEffects.TypingReplacesText` | apps/desktop/src/components/BlockEditor.tsx:196 | Typing replaces the text of its block and nothing else, unless a marker is typed in a paragraph. |
| `EditEffects.MarkerMakesKind` | apps/desktop/src/components/BlockEditor.tsx:179-187 | A marker makes the paragraph a block of its kind, empty, with the caret in it. |
| `EditEffects.RuleMakesTwo` | apps/desktop/src/components/BlockEditor.tsx:168-177 | A rule's marker makes it a rule with an empty paragraph after it that holds the caret. |
| `EditEffects.HeadingMarkersAre` | apps/desktop/src/lib/blocks.ts:471-473 | The markers for headings. |
| `EditEffects.ListMarkersAre` | apps/desktop/src/lib/blocks.ts:474-478 | Those for bullets, to-dos and quotes. |
| `EditEffects.NumberMarkerIs` | apps/desktop/src/lib/blocks.ts:477 | Any number with a period or a parenthesis. |
| `EditEffects.WholeMarkersAre` | apps/desktop/src/lib/blocks.ts:479-480 | Those for code and rules. |
| `EditEffects.ConvertChangesKind` | apps/desktop/src/components/BlockEditor.tsx:222-231 | Another kind keeps the text, but for the `/` command, the level and the tick. |
| `EditEffects.ConvertInsertsWhole` | apps/desktop/src/components/BlockEditor.tsx:206-220 | A rule, an empty table or an empty image takes the block's place, with an empty paragraph after it for the caret. |
| `EditEffects.EnterCutsText` | apps/desktop/src/components/BlockEditor.tsx:245-250 | Enter cuts the text at the caret into the block and a new one, of the same list and level or a paragraph. |
| `EditEffects.EnterEndsList` | apps/desktop/src/components/BlockEditor.tsx:238-243 | On a blank list item it ends the list. |
| `EditEffects.BackspaceMakesPlain` | apps/desktop/src/components/BlockEditor.tsx:262-266 | Backspace makes anything but a paragraph one and keeps its text. |
| `EditEffects.BackspaceJoins` | apps/desktop/src/components/BlockEditor.tsx:268-283 | At the start of a paragraph it joins it to the block above, or takes a rule away. |
| `EditEffects.DeleteJoins` | apps/desktop/src/components/BlockEditor.tsx:384-406 | Delete joins the block below, or takes a rule away. |
| `EditEffects.ArrowsMoveTheCaret` | apps/desktop/src/components/BlockEditor.tsx:303-309 | Up goes to the end of the block above, down to the start of the one below; no block changes. |
| `EditEffects.TabMovesTheItem` | apps/desktop/src/components/BlockEditor.tsx:356-368 | Tab puts an item one level deeper and Shift+Tab lifts it by one where that is allowed; else nothing happens. |
| `EditEffects.TickFlips` | apps/desktop/src/components/BlockEditor.tsx:455 | A click ticks a to-do or clears it, and changes nothing else. |
| `EditEffects.MarkIsWritten` | apps/desktop/src/components/BlockEditor.tsx:292-301 | A mark asked for on bare words is written around them, in that block alone, and they stay selected. |
| `EditEffects.DepthIs` | apps/desktop/src/lib/blocks.ts:65-68 | Only list items have a level, at least zero and at most five. |
| `BlockEditor.BlockEditor.SetText` | apps/desktop/src/components/BlockEditor.tsx:159-197 | In place, the edit `Apply` describes. |
| `BlockEditor.BlockEditor.Convert` | apps/desktop/src/components/BlockEditor.tsx:199-231 | In place, the edit `Apply` describes. |
| `BlockEditor.BlockEditor.SplitAt` | apps/desktop/src/components/BlockEditor.tsx:233-251 | In place, the edit `Apply` describes. |
| `BlockEditor.BlockEditor.BackspaceAtStart` | apps/desktop/src/components/BlockEditor.tsx:259-284 | In place, the edit `Apply` describes. |
| `BlockEditor.BlockEditor.DeleteAtEnd` | apps/desktop/src/components/BlockEditor.tsx:383-406 | In place, the edit `Apply` describes. |
| `BlockEditor.BlockEditor.Tab` | apps/desktop/src/components/BlockEditor.tsx:356-369 | In place, the edit `Apply` describes. |
| `BlockEditor.BlockEditor.Move` | apps/desktop/src/components/BlockEditor.tsx:303-309 | In place, the edit `Apply` describes. |
| `BlockEditor.BlockEditor.ApplyMark` | apps/desktop/src/components/BlockEditor.tsx:292-301 | In place, the edit `Apply` describes. |
| `BlockEditor.BlockEditor.ToggleTick` | apps/desktop/src/components/BlockEditor.tsx:455 | In place, the edit `Apply` describes. |
| `Router.RouteRoundTripIff` | apps/desktop/src/lib/router.ts:78-157 | A route written as an address is read back **if and only if** its ids are non-empty and hold neither `/` nor `?`. |
| `Router.ParseIsClean` | apps/desktop/src/lib/router.ts:77-136 | Whatever the address, the route read has such ids. |
| `Router.AddressIsStable` | apps/desktop/src/lib/router.ts:77-157 | So for every address, reading, writing and reading again gives the same route. |
| `Addresses.UnknownIsHome` | apps/desktop/src/lib/router.ts:133-134 | An address whose first part is no name is the home page, whatever follows. |
| `Addresses.BareAddressIsHome` | apps/desktop/src/lib/router.ts:79-82 | So is one without parts. |
| `Addresses.MeetingsIsLibrary` | apps/desktop/src/lib/router.ts:85-87 | A meeting address without an id is the library. |
| `Addresses.MeetingWithoutTab` | apps/desktop/src/lib/router.ts:88-91 | Without a tab a meeting shows its transcript. |
| `Addresses.MeetingWithOtherTab` | apps/desktop/src/lib/router.ts:88-91 | So it does with a tab that is none. |
| `Addresses.HelpWithOtherSection` | apps/desktop/src/lib/router.ts:117-123 | Help with a section that is none opens without one. |
| `Addresses.SettingsWithOtherSection` | apps/desktop/src/lib/router.ts:124-130 | So do the settings. |
| `Addresses.QueryIsIgnored` | apps/desktop/src/lib/router.ts:79 | A query is no part of the address. |
| `Addresses.PageAddressesAre` | apps/desktop/src/lib/router.ts:138-157 | The addresses of the pages. |
| `Addresses.MorePageAddressesAre` | apps/desktop/src/lib/router.ts:138-157 | The addresses of the other pages. |
| `Addresses.ItemAddressesAre` | apps/desktop/src/lib/router.ts:144-149 | Those of one note, person or meeting. |
| `Addresses.HelpAddressesAre` | apps/desktop/src/lib/router.ts:150-151 | Those of the help sections. |
| `Addresses.SettingsNamesAre` | apps/desktop/src/lib/router.ts:65-75 | The names of the settings sections. |
| `Addresses.SettingsAddressIs` | apps/desktop/src/lib/router.ts:152-153 | And their addresses. |
| `Voice.SpeakingKeepsTyping` | apps/desktop/src/lib/voice.ts:44-49 | What was typed stays a prefix, and what is added is the words, set off by whitespace. |
| `Voice.StepHandsOver` | apps/desktop/src/lib/voice.ts:134-142 | Exactly the trimmed words of an answered stop in an open box are handed over, when there are any, and nothing else ever is. |
| `Voice.SpokenIsHandedOver` | apps/desktop/src/lib/voice.ts:113-152 | What is said between two presses is handed over once, and the box is idle and empty again. |
| `Voice.HeardIsShown` | apps/desktop/src/lib/voice.ts:34-37 | While listening the box shows what is kept and what is guessed, one space between them. |
| `Voice.SilenceIsExplained` | apps/desktop/src/lib/voice.ts:139-145 | Without words it says why. |
| `Voice.FailedStartIsIdle` | apps/desktop/src/lib/voice.ts:127-131 | A microphone that does not open leaves the box idle, with the reason. |
| `Voice.CancelThrowsAway` | apps/desktop/src/lib/voice.ts:159-164 | Cancelling throws the words away and closes the microphone. |
| `Voice.EveryMicrophoneIsAccountedFor` | apps/desktop/src/lib/voice.ts:89-164 | Over every run: at most one start or stop in flight, at most one delivery per microphone opened, and after closing each one was stopped, cancelled, ended elsewhere, or dropped on a late poll. |
| `Voice.NothingAfterUnmount` | apps/desktop/src/lib/voice.ts:83-86 | Nothing is delivered after the box closed. |
| `Voice.ClosedBoxIsSilentIff` | apps/desktop/src/lib/voice.ts:54-57 | A closed box leaves no microphone open **if and only if** no answer saying that an earlier one had stopped arrived while a later one was open. |
| `Voice.LatePollAbandonsNext` | apps/desktop/src/lib/voice.ts:92-103 | With a poll that answers late it can: the newer session goes idle without its microphone being closed. |
| `Voice.VoiceInput.OnToggle` | apps/desktop/src/lib/voice.ts:154-157 | In place, the step of the transition system. |
| `Voice.VoiceInput.OnCancel` | apps/desktop/src/lib/voice.ts:159-164 | In place, the step of the transition system. |
| `Voice.VoiceInput.OnStartReply` | apps/desktop/src/lib/voice.ts:113-132 | In place, the step of the transition system. |
| `Voice.VoiceInput.OnStopReply` | apps/desktop/src/lib/voice.ts:134-152 | In place, the step of the transition system. |
| `Voice.VoiceInput.OnPollReply` | apps/desktop/src/lib/voice.ts:89-111 | In place, the step of the transition system. |
| `Voice.VoiceInput.OnUnmount` | apps/desktop/src/lib/voice.ts:83-86 | In place, the step of the transition system. |

## Left out

- Rendering, focus, the slash menu, textarea sizing and selection toolbars of `BlockEditor.tsx`: interface only. An edit starts with no caret recorded, because the render before it has consumed it.
- `platforms.js`: what a sample shows is an arbitrary list, or nothing when the page could not be read.
- `engine.js`, `relay.js`, `background.js`, `api.ts`, the engine and the desktop shell: the engine's answers are arbitrary inputs, in any order.
- The clock is a `real`, not a double: rounding to milliseconds is modelled, loss of precision is not. Dates are already parsed; an unreadable one is `None`.
- Characters are Dafny's, not UTF-16 code units: an offset counts characters.
- Block ids are the numbers of the counter: `b17` is 17. A missing `checked` or `depth` is `None`.
- Levels are integers: a fractional `depth`, which no code in the repository writes, is not modelled.
- Timers fire in any order and at any time: their periods are not modelled.
- Whether the engine accepted a batch: the source drops a rejected batch, so the answer changes nothing that is modelled.
- `Session.RunKeeps`: trackers are referred to by their place in the list of all trackers made, and `lives` and `lastPoll` are history the source does not keep.
- `Join.AttemptsAreBounded`: the key `platform:id` is one string, and `stays` and `sent` are history the source does not keep.
- `Voice.EveryMicrophoneIsAccountedFor`: the counters are history; that the engine opens and closes a microphone when asked is taken for granted, and the support check on mounting is left out.
- `InlineProofs.MarksReadBack`: only trees with plain text free of formatting characters and code that does not itself parse as marks; any other tree may be read differently, and `Inline.ParseIsLossless` covers every line.
- `MarkedLines.ToggleShows`: says nothing of a line with a formatting character left open before the selection, or of a selection holding the mark's own delimiter, where the new markers may pair with others.
- `toPlainText`, `markForKey`, `newTable` with other sizes, and the `useRoute` hook: they would add only easy members.
- `readiness.ts`, `scope.ts`, `backends.ts`, `speakers.ts`, `format.ts`, `release.ts`, `secrets.ts`, `markdown.ts`, `notifications.ts`: single branches for the most part.
