# Friday's terminal interface: a model and its proofs

A Dafny model of the algorithms and state machines behind the Go interface of Friday, a coding agent
for the terminal, and proofs of what each is for. `dafny verify dfyconfig.toml` checks all of it.

Strings are sequences of characters, lines are strings without a newline, times are integers, floating
point is real arithmetic, and a character's display width is a function given to the code. Code that
changes things step by step is a method or a class here, proved against a specification function; the
promises are lemmas about that function, or over every run of it.

| files | what they model |
|---|---|
| EditScript, EditOrder, Hunks, HunkShape, PatchReader, DiffRead, DiffNumbers, DiffFiles, Locate | drawing an edit as a unified diff (GNU diffutils manual, section 2.2.2) and reading it back |
| Zones, ZoneFrames, ZoneBoxes | stripping the mouse-zone markers from a frame and recording the zones' boxes |
| Stacking, Transcript | the transcript's lazy window and its scroll anchor |
| VimMotion, VimWhere, Vim, VimKeys, VimRuns | normal-mode editing of the input |
| AcpProtocol, AcpCalls, AcpStream, AcpRuns, AcpClient | the agent client: calls, the reader and the finisher as concurrent steps (JSON-RPC 2.0, sections 4 and 5) |
| QueueModel, QueueOrder, QueueRuns, QueueHold, QueueSession | messages written while a turn runs |
| Approvals, ApprovalKeys | the requests the agent asks the person to answer |
| Reread, RereadSettles | when the rail, the growth panel and the Changes window read the tree again |
| Stream, StreamMarks | cutting a reply that is still being written |
| Limits, LimitLevels | forecasting a rate limit |
| Paths, PathWords | quoting a path and tokenizing typed text |
| GrowthTree, GrowthBuild, GrowthShape, GrowthOrder, GrowthGrown, GrowthOpen, GrowthGreedy, GrowthMention, GrowthSpelled, GrowthBuds, GrowthPlaced, GrowthWords | the growth panel's tree: building it, opening it within a budget of rows, and placing the plan on it |
| Text | splitting, numbers and blanks, as the rest uses them |

## Where the code does less than it says

Each is proved with the exact condition under which the promise holds.

- A pure insertion below a line of the old file prints a header no reader can place
  (`PatchReader.PatchTurnsOldIntoNew`).
- A change whose new text also stands before its own place is numbered there
  (`Locate.LocatedWherePlaced`, `Locate.LocatedCanBeEarlier`).
- A removed line that starts `-- `, and an added one that starts `++ `, is taken for a file header: it
  loses its row and its ref (`DiffRead.EveryLineHasItsRef`), and the counters do not move past it, so the
  later refs and row numbers of its side in the hunk are wrong (`DiffFiles.PassedOverLineShifts`; exactly
  when the numbers stay right is `DiffFiles.RefsNumberedAsFiles`).
- The text git writes behind a hunk's header can hold a word like "-5", which is taken for the hunk's line
  (`DiffNumbers.TextBehindHeader`, `DiffNumbers.TextCanRenumber`).
- `cw` from the last character of a word takes what follows it up to the end of the next one, although the
  code's comment has it stop at the word's end (`VimKeys.ChangeWordStays`).
- `cw` on an empty text slices past it (`Vim.StepFailsOnlyOnEmptyChange`).
- `d` with a motion, then `P`, is not the identity for a piece ending in a newline that began inside a
  line (`VimRuns.DeleteThenPut`, `VimRuns.PutCanGoElsewhere`).
- Messages a turn left unread that arrive after its end wait beside a ready agent
  (`QueueRuns.NeverWaitsUnlessLate`, `QueueRuns.LateTextWaits`).
- The Changes window can go on showing what an older read found: when an edit lands while a read is under
  way (`Reread.WindowCanLoseAnEdit`), and when a read begun at a turn's end is done before one already under
  way (`Reread.WindowCanShowAnOlderRead`). It shows everything exactly when the read done last was begun
  after what last landed (`Reread.WindowShowsAllWhenCurrent`).
- The part of a reply taken as finished can become unfinished when only a short number follows it: the
  number can grow into a list item (`Stream.SplitNeverMovesBack`, `Stream.SplitCanMoveBack`).
- A plan item can go on a branch hidden behind "… n more", and then it is not drawn, although the
  code's comment has it on a drawn one (`GrowthPlaced.BudDrawnWhenShown`, `GrowthPlaced.BudCanBeHidden`).

## Model

| member | source | states |
|---|---|---|
| `EditScript.KeptAtMostLcs` | internal/tui/chat_editdiff.go:182-195 | no script that turns one version into the other keeps more lines than the table's value |
| `EditScript.LcsOfTrimmed` | internal/tui/chat_editdiff.go:152-159 | trimming the common first and last lines costs nothing: the value of the whole is theirs and the middle's |
| `EditScript.FillTable` | internal/tui/chat_editdiff.go:182-195 | filling the table from its far corner puts the longest common subsequence of every pair of ends in its cell, within 32 bits |
| `EditScript.WalkTable` | internal/tui/chat_editdiff.go:196-216 | the walk of the filled table is the greedy walk of the two versions |
| `EditScript.WalkTurns` | internal/tui/chat_editdiff.go:196-216 | the greedy walk turns one version into the other |
| `EditScript.WalkKeeps` | internal/tui/chat_editdiff.go:196-216 | the greedy walk keeps as many lines as the table's value |
| `EditScript.MiddleOps` | internal/tui/chat_editdiff.go:171-217 | the middle matched by the table, or, past 250 000 cells, all removed then all added |
| `EditScript.LineOps` | internal/tui/chat_editdiff.go:151-169 | the in-place algorithm computes the script whose properties the next three rows state |
| `EditScript.ScriptTurns` | internal/tui/chat_editdiff.go:149-169 | for all line lists the script projects back to exactly both versions |
| `EditScript.ScriptKeeps` | internal/tui/chat_editdiff.go:149-169 | when the trimmed middle fits the table the script keeps exactly as many lines as the longest common subsequence |
| `EditScript.ScriptIsShortest` | internal/tui/chat_editdiff.go:149-169 | and then no script doing the same work removes and adds fewer lines |
| `EditOrder.KeepsAllWhenSmall` | internal/tui/chat_editdiff.go:149-180 | however two versions are cut into common ends and middles: with at most 250 000 pairs of lines between the ends, the script keeps every line they have in common |
| `EditOrder.ReplacesAllWhenLarge` | internal/tui/chat_editdiff.go:171-180 | with more than that, all that stands between the common ends is removed and then all of the other version added |
| `EditOrder.ScriptRemovesFirst` | internal/tui/chat_editdiff.go:196-216 | in every script nothing is removed right after something was added: where lines are replaced the old ones come first |
| `Text.LinesRoundTrip` | internal/tui/app_changes.go:606 | text written line by line splits back into its lines |
| `Text.AtoiOfDecimal` | internal/tui/app_changes.go:667-671 | a printed number reads back as itself |
| `Text.FieldsFirst` | internal/tui/app_changes.go:663 | splitting at blanks takes one word at a time |
| `Hunks.MarkShown` | internal/tui/chat_editdiff.go:223-232 | the mask set window by window around each change is: an op is shown when a change lies within three ops of it |
| `Hunks.WriteBody` | internal/tui/chat_editdiff.go:257-267 | a hunk's lines are its ops signed, and the running line numbers move on by its two counts; unknown ones stay unknown |
| `Hunks.WriteHunk` | internal/tui/chat_editdiff.go:247-267 | one hunk is its header, with both starts and counts, and its lines |
| `Hunks.WriteHunks` | internal/tui/chat_editdiff.go:222-270 | the writer prints exactly the hunks the ops group into, numbered from where they start |
| `Hunks.PatchChange` | internal/tui/chat_editdiff.go:113-130 | one change's hunks under the running shift, without numbers when it was not located, and what it adds and removes |
| `Hunks.EditPatch` | internal/tui/chat_editdiff.go:107-133 | several changes print as the hunks of each in order, the shift carried on, with the totals of added and removed lines |
| `Hunks.AdvancedIsFurther` | internal/tui/app_changes.go:652-658 | moving a number on line by line is moving it on by as many at once: a known one grows by that much, an unknown one stays unknown |
| `HunkShape.HunksShow` | internal/tui/chat_editdiff.go:222-254 | the hunks show exactly the lines that stand within three of a change, and what is shown without a gap is in one hunk |
| `HunkShape.AddedAndRemoved` | internal/tui/chat_editdiff.go:119-128 | a change adds the lines of its new text that its script does not keep, and removes those of its old text |
| `HunkShape.TalliesBalance` | internal/tui/chat_editdiff.go:107-133 | what a patch says was added, less what it says was removed, is what its changes grew by |
| `DiffNumbers.HunkStands` | internal/tui/chat_editdiff.go:240-267 | every hunk printed is numbered by the lines of each version before it, from where the first op stands; an unknown side has no number |
| `DiffNumbers.EditNumbers` | internal/tui/chat_editdiff.go:107-130 | every hunk of an edit is numbered by its own change and the growth of the changes above it: 0 and 0 when the change was not located, else from its line and from as far above as the others grew, no old number for an insertion |
| `PatchReader.ReadHunks` | internal/tui/chat_editdiff.go:222-270 | reading a change's hunks by their headers replaces its old lines by its new ones, lines left out taken from the file |
| `PatchReader.ReadInsertion` | internal/tui/chat_editdiff.go:110-133 | a pure insertion reads as meant exactly at the top of the file; below a line its patch fits no reading |
| `PatchReader.PatchTurnsOldIntoNew` | internal/tui/chat_editdiff.go:107-133 | for changes in file order, each with the line it starts on: the patch turns the old file into the new one if and only if none inserts below a line of the old file |
| `Text.Index` | internal/tui/chat_editdiff.go:73-75 | the first place at or after a start where a text stands, or none |
| `Locate.LocateOne` | internal/tui/chat_editdiff.go:69-84 | one change is looked for from where the last was found, else anywhere; its line is one more than the newlines before it |
| `Locate.LocateChanges` | internal/tui/chat_editdiff.go:65-85 | the loop over the changes updates each in place, as its specification says |
| `Locate.LocatedLines` | internal/tui/chat_editdiff.go:65-85 | only the line of a change that had none and has new text is set, to the line of a place the text stands at, exactly when there is one |
| `Locate.LocatedWherePlaced` | internal/tui/chat_editdiff.go:65-85 | changes of whole lines in file order get the lines they start on if and only if none has its new text anywhere between the end of the one before and its own place |
| `Locate.LocatedCanBeEarlier` | internal/tui/chat_editdiff.go:65-85 | a second "x" written below a first takes the number of the first |
| `Locate.LocatedPatchTurns` | internal/tui/chat_editdiff.go:65-133 | located and then patched, the reading of the patch turns the old file into the new one |
| `DiffRead.HunkStart` | internal/tui/app_changes.go:660-681 | the loop over a header's fields takes the last signed numbers |
| `DiffRead.HeaderRoundTrip` | internal/tui/app_changes.go:660-681 | from a printed header the reader takes the two starts the writer put there |
| `DiffRead.DiffLineRefs` | internal/tui/app_changes_comments.go:33-63 | the loop reads the refs its specification says, line by line |
| `DiffRead.DiffRows` | internal/tui/app_changes.go:601-642 | the loop draws the rows its specification says, line by line |
| `DiffRead.RefsMatchRows` | internal/tui/app_changes_comments.go:18-63 | for any text there is one ref per row, and a code ref has the row's text and its number wherever the row shows one |
| `DiffRead.PatchRoundTrip` | internal/tui/app_changes_comments.go:33-63 | reading a printed patch gives a ref for every line of every hunk, numbered from the hunk's header, but for lines that print as file headers |
| `DiffRead.EveryLineHasItsRef` | internal/tui/app_changes_comments.go:38-43 | no line loses its ref if and only if no removed line starts "-- " and no added one "++ " |
| `DiffFiles.RefsNumberedAsFiles` | internal/tui/app_changes_comments.go:33-63 | the refs of a hunk carry the numbers the files give their lines if and only if no removed line taken for a file header stands before a removed one that keeps its ref, and no added one before a kept line or an added one that keeps its ref |
| `DiffFiles.PassedOverLineShifts` | internal/tui/app_changes_comments.go:38-43 | one such line shifts the numbers of the refs after it: the second line of the old file is called its first |
| `DiffFiles.PatchNumberedAsFiles` | internal/tui/app_changes_comments.go:33-63 | the same of a patch of many hunks: exactly when each of them is so |
| `DiffFiles.EditRefsPointIntoFiles` | internal/tui/app_changes_comments.go:18-63 | reading an edit's printed patch gives the numbers the files give if and only if every hunk is so, and those numbers are true: at each stands the line the ref shows, in the old file for a removed one, in the new one for the others |
| `DiffNumbers.RowsRoundTrip` | internal/tui/app_changes.go:601-642 | drawing a printed patch gives each line of each hunk the numbers counted from the hunk's header |
| `DiffNumbers.UnlocatedShowsNoNumber` | internal/tui/chat_editdiff.go:113-119 | of an edit none of whose changes was located every hunk stands at 0, and no row drawn of it shows a number |
| `DiffNumbers.StartsAreLast` | internal/tui/app_changes.go:660-681 | a header's numbers are its last fields that are a sign and a number |
| `DiffNumbers.TextBehindHeader` | internal/tui/app_changes.go:660-681 | the text git writes behind a header leaves its numbers right if and only if the last word of it that is a sign and a number, if there is one, has the number already there |
| `DiffNumbers.TextCanRenumber` | internal/tui/app_changes.go:660-681 | a "-5" behind the header of the hunk at line 1 makes it one at line 5 |
| `DiffNumbers.NoteTakesNoNumber` | internal/tui/app_changes_comments.go:33-63 | in any list of lines, one about the file that starts with a backslash or tells a mode, a renaming or binary files adds a ref that points nowhere and a quiet row, and changes no other ref, row or number |
| `DiffNumbers.NameTakesNoRow` | internal/tui/app_changes_comments.go:33-63 | one that names the file adds no ref and no row, and changes nothing else |
| `DiffNumbers.NoNewlineIsNoLine` | internal/tui/app_changes.go:622-634 | with git's mark for a missing last newline between them, a removed and an added last line are each line 1 |
| `DiffNumbers.TabsAreFour` | internal/tui/app_changes.go:611 | a tab is drawn as four spaces and every other character as itself |
| `Zones.ZoneManager.Mark` | internal/tui/core_zones.go:77-93 | a text is wrapped in its id's marker, made once for an id and kept; an empty id or text is left alone |
| `Zones.MarkerInjective` | internal/tui/core_zones.go:77-93 | two numbers never give one marker |
| `Zones.FindMarkerEnd` | internal/tui/core_zones.go:153-166 | the marker that starts at an escape character, if one does |
| `Zones.ZoneManager.TouchZone` | internal/tui/core_zones.go:132-144 | a marker met first begins its zone, met again ends it with its box |
| `Zones.ZoneManager.ScanOffset` | internal/tui/core_zones.go:102-150 | the one-pass scan, measuring a row only as far as it must, writes and records what the simple character-by-character scan does |
| `Zones.NoEscapes` | internal/tui/core_zones.go:105-110 | a text with no escape character is its own scan, with no zones |
| `ZoneFrames.FrameScanned` | internal/tui/core_zones.go:102-150 | scanning a frame built by concatenation and nested marks erases every marker and records for each id exactly the box a recursive layout gives, shifted by the offset |
| `ZoneFrames.SettledNoMarker` | internal/tui/core_zones.go:152-166 | text free of markers never forms one with what is drawn after it |
| `ZoneBoxes.StandsInText` | internal/tui/core_zones.go:102-150 | each zone of a drawn frame begins where the text before it ends, and its own text follows |
| `ZoneBoxes.ScannedBoxesHold` | internal/tui/core_zones.go:132-144 | the box recorded for it starts in the column and on the row where the text before it ends, the offset added, and ends on the last cell of its own text |
| `ZoneBoxes.BoxSize` | internal/tui/core_zones.go:51-60 | on one row a box is as wide as its text; over several it ends as many rows down as the text has newlines, on a last row as wide as the text's |
| `ZoneBoxes.ClickHitsText` | internal/tui/core_zones.go:60-76 | a click hits a zone of one row if and only if it is on a cell of its text, and its position is how far into the text that is; a zone not drawn or of no width is never hit |
| `Stacking.StackOfParts` | internal/tui/chat_transcript.go:124-137 | blocks stack in parts, one blank row between drawn ones |
| `Stacking.StackOfNext` | internal/tui/chat_transcript.go:124-137 | between two blocks that show something stands one empty row; one that shows nothing takes none |
| `Stacking.ViewFromBelow` | internal/tui/chat_transcript.go:85-103 | counted from below, the k-th row of a view is the k-th above where it ends, and blank when there is none |
| `Stacking.FirstDrawAsScrolled` | internal/tui/chat_transcript.go:105-120 | drawn first since it left the bottom, or at another width, a scrolled view ends as many rows above the end as it is scrolled |
| `Stacking.HeightOfStack` | internal/tui/chat_transcript.go:105-120 | the heights the anchor adds up are the stack's, with one row more when anything is drawn |
| `Stacking.ViewOfEnd` | internal/tui/chat_transcript.go:57-103 | a view onto enough of the end is the view onto the whole |
| `Stacking.ViewStaysStill` | internal/tui/chat_transcript.go:57-120 | while scrolled back, the next draw after growth below the view shows the same rows, total minus scroll unchanged |
| `Stacking.ViewStaysStillOverRun` | internal/tui/chat_transcript.go:57-120 | and so does the last of any run of such draws |
| `Transcript.History.Lines` | internal/tui/chat_transcript.go:43-53 | a cached item is the item drawn afresh |
| `Transcript.RowsOfItem` | internal/tui/chat_transcript.go:124-137 | an item's rows are its lines drawn at this width, all of them marked exactly when it is selected; at no width it has none |
| `Transcript.History.AllLines` | internal/tui/chat_transcript.go:124-137 | all rows, cached or not, are the stack of every item's rows |
| `Transcript.History.HoldAnchor` | internal/tui/chat_transcript.go:105-120 | growth since the last draw at this width is added to the scroll, when scrolled back |
| `Transcript.History.Gather` | internal/tui/chat_transcript.go:62-80 | rows gathered from the end up are the end of the stack, as many as needed or all |
| `Transcript.History.Settle` | internal/tui/chat_transcript.go:57-84 | the scroll is clamped to the rows there are, although not all were drawn |
| `Transcript.Show` | internal/tui/chat_transcript.go:85-103 | the rows shown are the view of the whole, blanks on top, and which of them are selected |
| `Transcript.OnRowsAre` | internal/tui/chat_transcript.go:85-103 | the selected rows of a window are, from its first to its last, those of the selected item |
| `Transcript.History.Window` | internal/tui/chat_transcript.go:55-103 | the lazy, cached window is the slice of the whole transcript that ends scroll rows above its end, with scroll clamped |
| `Transcript.History.ScrollBy` | internal/tui/chat_transcript.go:139-141 | scrolling never goes below the end |
| `Stacking.TopShowsFirst` | internal/tui/chat_transcript.go:143 | after the jump to the top the next draw shows the first rows, scroll being what there is above the last ones, however the history grew meanwhile |
| `Stacking.BottomShowsLast` | internal/tui/chat_transcript.go:144 | after the jump to the bottom it shows the last rows |
| `VimMotion.FindLineStart` | internal/tui/chat_vim.go:247-254 | the loop finds the start of the cursor's line |
| `VimMotion.FindLineEnd` | internal/tui/chat_vim.go:256-263 | and its end |
| `VimMotion.FindWordEnd` | internal/tui/chat_vim.go:236-245 | and the last character of a word |
| `VimMotion.FindMotion` | internal/tui/chat_vim.go:181-234 | every motion key's loops take the cursor where its specification says; the next rows say where that is |
| `VimWhere.LeftAndRight` | internal/tui/chat_vim.go:184-187 | h and l go one column left and right and never leave the line |
| `VimWhere.LeftRightUndo` | internal/tui/chat_vim.go:184-187 | and each takes the other back, between two characters of one line |
| `VimWhere.LineEnds` | internal/tui/chat_vim.go:188-193 | 0, ^ and $ reach the first column, the first character that is no blank, and the last character |
| `VimWhere.NextWordStarts` | internal/tui/chat_vim.go:194-202 | w reaches the start of the next word with no other start between, the end of the text when there is none |
| `VimWhere.WordStartsBefore` | internal/tui/chat_vim.go:203-211 | b reaches the start of this word or, from there, of the one before, with no other start between |
| `VimWhere.WordEndsAfter` | internal/tui/chat_vim.go:236-245 | e reaches the last character of this word or, from there, of the next, with no other between |
| `VimWhere.UpOneLine` | internal/tui/chat_vim.go:214-222 | k goes up one line to the same column or that line's end, and stays on the first line |
| `VimWhere.DownOneLine` | internal/tui/chat_vim.go:224-229 | j goes down one line in the same way, and stays on the last |
| `VimWhere.DownThenUp` | internal/tui/chat_vim.go:214-229 | down and up again is where it began, when the line below is long enough |
| `VimWhere.FirstAndLast` | internal/tui/chat_vim.go:230-231 | G lands on the start of the last line and gg on the start of the text |
| `Vim.StepFailsOnlyOnEmptyChange` | internal/tui/chat_vim.go:74-76 | a key slices past the text if and only if it is cw on an empty text |
| `Vim.VimState.EditLine` | internal/tui/chat_vim.go:49-68 | dd, cc and yy |
| `Vim.VimState.EditMotion` | internal/tui/chat_vim.go:69-91 | d, c and y with a motion |
| `Vim.VimState.PutRegister` | internal/tui/chat_vim.go:144-166 | p and P, by line or at the cursor |
| `Vim.VimState.VimEdit` | internal/tui/chat_vim.go:33-179 | one normal-mode key changes text, cursor, pending operator, register and undo stack as its specification says |
| `VimRuns.StepEffect` | internal/tui/chat_vim.go:37-179 | a key saves text and cursor once before it changes anything, or takes the last save back, or changes no text |
| `VimRuns.StepKeepsValid` | internal/tui/chat_vim.go:35-179 | every key keeps the cursor on the text, and every saved cursor on its own |
| `VimRuns.RunSaves` | internal/tui/chat_vim.go:37-42 | after any run the undo stack is what was there and what the run saved, the newest hundred |
| `VimRuns.UndoTakesBack` | internal/tui/chat_vim.go:167-173 | n undos go back to the n-th last save |
| `VimRuns.UndoRestoresRun` | internal/tui/chat_vim.go:37-42 | any run that saves at most a hundred times is taken back by as many undos, and one more u when it left something pending: the text from before it, the cursor of its first save, nothing pending |
| `VimRuns.UAnswersPending` | internal/tui/chat_vim.go:44-68 | with an operator or a prefix pending, u clears it and changes nothing else |
| `VimRuns.DeleteLineThenPutAbove` | internal/tui/chat_vim.go:49-68 | dd then P is the identity on text when there is a line below |
| `VimRuns.DeleteLastLineThenPutBelow` | internal/tui/chat_vim.go:60-68 | dd then p is the identity on the last of two or more lines |
| `VimRuns.DeleteThenPut` | internal/tui/chat_vim.go:69-91 | d with any motion, then P, gives the text back if and only if the deleted text does not end in a newline or began at the start of a line |
| `VimRuns.PutCanGoElsewhere` | internal/tui/chat_vim.go:69-91 | a word's end and its newline, cut inside a line, come back above the line |
| `VimRuns.DeleteRestThenPut` | internal/tui/chat_vim.go:135-140 | D then P is the identity on text |
| `VimKeys.OperatorTakes` | internal/tui/chat_vim.go:69-91 | d and c cut, and y copies, what lies between the cursor and where the motion alone would go, for e the character it lands on too, for $ the rest of the line, and for cw up to where e goes |
| `VimKeys.ChangeWordStays` | internal/tui/chat_vim.go:72-76 | cw on a character of a word takes just the rest of that word if and only if the character is not its last, or is the text's |
| `VimKeys.LineKeys` | internal/tui/chat_vim.go:49-59 | yy keeps the line and changes nothing; cc empties it and goes on typing there |
| `VimKeys.DeleteLineKey` | internal/tui/chat_vim.go:60-68 | dd takes the line and a newline with it, the one behind it or, of the last line, the one before; the cursor goes to the start of the line that takes its place, or of the one above |
| `VimKeys.CopyLineBelow` | internal/tui/chat_vim.go:144-166 | yy then p puts the line once more below itself, the cursor on the copy |
| `VimKeys.PutKeys` | internal/tui/chat_vim.go:144-166 | P puts the register before the cursor and p after the character it is on, a register that ends in a newline as a line above or below; the cursor on the last character put, or at the start of the line |
| `VimKeys.TypingKeys` | internal/tui/chat_vim.go:95-105 | i, a, I and A change no text and type at, after, before the first of the line and behind the last of it |
| `VimKeys.NewLineKeys` | internal/tui/chat_vim.go:106-116 | o and O type on an empty line of their own, below and above, and the rest stays |
| `VimKeys.CharacterKeys` | internal/tui/chat_vim.go:117-134 | x takes the character under the cursor but never a newline, X the one before it on the line |
| `VimKeys.TakeThenPut` | internal/tui/chat_vim.go:117-166 | x then P, or at a line's end x then p, gives the text back |
| `VimKeys.RestKeys` | internal/tui/chat_vim.go:135-140 | D and C cut the rest of the line; C goes on typing there |
| `VimKeys.OperatorWaits` | internal/tui/chat_vim.go:141-143 | an operator, or g, waits for the next key and changes nothing else |
| `VimKeys.OtherKeys` | internal/tui/chat_vim.go:174-179 | any other key does nothing |
| `VimKeys.HundredSaves` | internal/tui/chat_vim.go:37-42 | the newest hundred saves are kept |
| `AcpClient.Client.DispatchFrame` | internal/acp/client.go:250-287 | where a frame goes: to the call its id names, into the stream, or nowhere, as the step of the protocol model says |
| `AcpClient.Client.FinishCalls` | internal/acp/client.go:362-369 | the loop closes every registered call's channel once and leaves no call registered, as the step of the protocol model says |
| `AcpProtocol.NextKeepsCalls` | internal/acp/client.go:188-287 | every step keeps registrations, channels and outcomes in order |
| `AcpProtocol.NextKeepsThreads` | internal/acp/client.go:232-287 | and the reader and the finisher: nothing is dispatched after finish, nothing has panicked |
| `AcpRuns.NeverPanics` | internal/acp/client.go:188-372 | over every interleaving no send happens on a closed channel and no channel is closed twice |
| `AcpRuns.EndsOnce` | internal/acp/client.go:188-218 | over every run a call that has its outcome keeps it |
| `AcpRuns.EndsWithItsReply` | internal/acp/client.go:188-287 | a call ends with the reply sent for its id or with none; one answered before exit never ends with "agent exited"; and a prompt's turn end is in the stream before the prompt returns |
| `AcpRuns.OwnStepMoves` | internal/acp/client.go:362-372 | once the agent is gone every call's own next step moves it on, whichever way its select goes |
| `AcpRuns.NoCallWaits` | internal/acp/client.go:362-372 | after any run that leaves the agent gone, and any interleaving after it, a call that has taken the steps it had left, at most four, has ended |
| `AcpRuns.NeverMovesBack` | internal/acp/client.go:188-218 | and no other step ever moves a call back |
| `AcpRuns.ReplyNeverBlocks` | internal/acp/client.go:250-268 | against an agent that answers an id at most once, passing a reply on finds its channel open and empty |
| `AcpRuns.StreamInOrder` | internal/acp/client.go:250-287 | in every run messages are in the order of their frames, one a frame, each what its frame says; none is missing but the one the reader is about to post; and Exited is last |
| `AcpRuns.LastWordsComeFirst` | internal/acp/client.go:259-267 | whatever is read from the stream, a turn's end included, every message of an earlier frame stands before it, the agent running or gone |
| `AcpRuns.NormalizedIDs` | internal/acp/client.go:392-395 | an id echoed as a number or as a string is the call it was sent for |
| `AcpCalls.RegisterEnds` | internal/acp/client.go:188-195 | a call is turned away once the agent is gone, and is registered under its id before |
| `AcpCalls.WriteEnds` | internal/acp/client.go:196-202 | a failed write ends the call; another leaves it waiting |
| `AcpCalls.ReceiveEnds` | internal/acp/client.go:203-217 | a waiting call takes the reply that is there, whether or not the agent runs; without one it hears of the exit once its channel is closed, and waits until then |
| `AcpCalls.CancelEnds` | internal/acp/client.go:203-217 | a waiting call whose context ends is called off, and only a waiting one |
| `AcpCalls.TakesItsReply` | internal/acp/client.go:188-218 | in every run, the agent running or gone: a waiting call whose reply is there ends with that reply once it has received and returned, whatever happens between, unless its context ends first |
| `AcpCalls.ReplyReachesItsCall` | internal/acp/client.go:250-287 | in every run: a reply to a waiting call, read while the stream has room, is passed on to that call, the turn's end before it when it ends a turn, and the call ends with it |
| `AcpStream.StreamIsQueue` | internal/acp/client.go:250-287 | over every run what was read from the stream is what was posted first, in order, and the rest waits |
| `AcpStream.PostedWhenRoom` | internal/acp/client.go:97 | a frame that says something waits to be posted while 256 messages are unread, and is posted last once there are fewer |
| `AcpStream.EndClosesAll` | internal/acp/client.go:362-372 | the end of the agent's output closes every registered call's channel and unregisters all, posts the exit last and closes the stream |
| `AcpStream.SendingOnClosedPanics` | internal/acp/client.go:250-268 | sending on a closed channel panics |
| `AcpStream.ClosingTwicePanics` | internal/acp/client.go:362-372 | and so does closing one twice |
| `QueueSession.Session.EnqueueText` | internal/tui/chat_queue.go:36-39 | a message is queued for the next turn |
| `QueueSession.Session.QueueDuringRun` | internal/tui/chat_queue.go:42-46 | or with a countdown during a turn |
| `QueueSession.Session.QueueTicked` | internal/tui/chat_queue.go:57-76 | the clock steers the first message that is due, and goes on while any counts |
| `QueueSession.Session.DropQueued` | internal/tui/chat_queue.go:95-100 | a message is dropped and the selection stays on one |
| `QueueSession.Session.TakeNext` | internal/tui/chat_queue.go:102-116 | the first message is taken, the others lose their countdowns |
| `QueueSession.Session.FocusQueue` | internal/tui/chat_queue.go:118-124 | entering the queue notes when |
| `QueueSession.Session.Leave` | internal/tui/chat_queue.go:126-139 | leaving it moves every countdown by as long as it was held |
| `QueueSession.Session.HandleKey` | internal/tui/chat_queue.go:141-198 | each key in the queue |
| `QueueSession.Session.SteerAnswer` | internal/tui/chat_steer.go:36-53 | a steer taken enters the conversation, one refused waits for the next turn |
| `QueueSession.Session.SteeringUnread` | internal/tui/core_events.go:118-125 | messages a turn left unread go first |
| `QueueSession.Session.SubmitText` | internal/tui/core_model.go:684-695 | what is typed is sent, queued or refused by phase |
| `QueueSession.Session.FinishTurn` | internal/tui/core_model.go:724-778 | a turn's end sends the next message |
| `QueueSession.Session.CancelTurn` | internal/tui/core_model.go:780-788 | stopping drops what is queued |
| `QueueRuns.StepKeeps` | internal/tui/chat_queue.go:24-198 | every event keeps ids, selection, clock and messages in order |
| `QueueRuns.NothingLost` | internal/tui/chat_queue.go:36-139 | over every run each accepted message is in the queue, in the conversation, or was given up by its author; the selection is on a message; a countdown during a turn has a clock |
| `QueueRuns.NoneWaitsUnlessLate` | internal/tui/core_model.go:724-778 | an event leaves a message beside an agent that is ready, where none was, in exactly one case: texts left unread that arrive after their turn's end |
| `QueueRuns.NeverWaitsUnlessLate` | internal/tui/core_model.go:724-778 | over every run no message ever waits beside a ready agent, if and only if no unread texts arrive so |
| `QueueRuns.LateTextWaits` | internal/tui/core_events.go:118-125 | a text handed back after its turn ended stays in the queue beside a ready agent |
| `QueueRuns.DroppedSelects` | internal/tui/chat_queue.go:94-100 | dropping leaves a neighbour selected, or an empty queue with nothing counting |
| `QueueHold.ClockSteers` | internal/tui/chat_queue.go:57-76 | the clock steers nothing while the queue is selected or no turn runs, and otherwise just the first message due |
| `QueueHold.StepHolds` | internal/tui/chat_queue.go:118-139 | while a message stays selected no event moves a countdown |
| `QueueHold.LeavingShifts` | internal/tui/chat_queue.go:126-139 | a key that leaves moves every countdown left by as long as the queue was held |
| `QueueHold.CountdownsResume` | internal/tui/chat_queue.go:118-139 | from entering to leaving, whatever happens between, each remaining countdown is what it was |
| `QueueOrder.FirstComeFirstServed` | internal/tui/core_model.go:684-788 | over any run in which nobody reorders the queue, messages are said in the order they were accepted, after those that waited before, and those not said yet wait in that order |
| `QueueOrder.AcceptedRecorded` | internal/tui/core_model.go:684-788 | over every run the messages accepted are recorded, each as often as it was accepted |
| `QueueOrder.GivenUpByHand` | internal/tui/chat_queue.go:141-198 | a message is given up by nothing but stopping the turn, deleting it or taking it back |
| `QueueOrder.OnlyPhaseOrGoal` | internal/tui/core_model.go:724-778 | an agent that exits leaves everything else as it was, and so does setting or clearing the goal |
| `QueueOrder.UnreadGoFirst` | internal/tui/core_events.go:118-125 | unread messages go before all others, in their order and with no countdown |
| `QueueOrder.PromptGoesFirst` | internal/tui/core_model.go:596-598 | a prompt from the command line is the first turn, and the rest waits for its end |
| `QueueOrder.SteeredAfterFive` | internal/tui/chat_queue.go:42-76 | a message typed during a turn is steered by the clock from five seconds on and not before |
| `QueueOrder.ClockGoesOn` | internal/tui/chat_queue.go:57-76 | the clock goes on exactly while a turn runs and some message counts |
| `QueueOrder.FocusSelectsLast` | internal/tui/core_keyboard.go:214 | entering the queue selects the message that stands last |
| `QueueOrder.ArrowsMove` | internal/tui/chat_queue.go:141-158 | the arrows move the selection by one and leave past either end |
| `QueueOrder.MovedByOne` | internal/tui/chat_queue.go:159-170 | a message moved changes places with its neighbour and stays selected |
| `QueueOrder.DroppedTakesOut` | internal/tui/chat_queue.go:178-183 | deleting takes the selected message out and selects the one after it, or the last |
| `QueueOrder.EditTakesOut` | internal/tui/chat_queue.go:171-177 | taken back into the input, it leaves the queue, and so does the selection |
| `QueueOrder.SentNowIsSteered` | internal/tui/chat_queue.go:184-193 | sent at once, it is steered into the turn that runs |
| `QueueOrder.SentNowIsSaid` | internal/tui/chat_queue.go:184-193 | or, with none running, becomes a turn out of its place |
| `QueueOrder.SteerEnds` | internal/tui/chat_steer.go:36-53 | a steer taken joins the conversation and leaves the queue; refused, or answered when the turn is over, it waits in its place without a countdown |
| `QueueOrder.StoppingDropsAll` | internal/tui/core_model.go:780-788 | stopping a turn drops all that waits and the goal, and leaves the turn to end by itself |
| `QueueOrder.TurnEndSendsFirst` | internal/tui/core_model.go:724-778 | a turn's end sends what stands first; with nothing waiting the agent is ready, and a goal is given up if and only if the turn failed |
| `Approvals.HandlePermission` | internal/tui/chat_approval.go:62-91 | a permission key answers with an offered option or the empty refusal; escape refuses |
| `Approvals.HandleQuestion` | internal/tui/chat_approval.go:93-135 | a question is answered with what was typed, an option, or the ticked options in their order |
| `Approvals.DownsThenEnter` | internal/tui/chat_approval.go:69-76 | the arrows reach every option: n steps down from the first, enter answers with the n-th |
| `Approvals.UpUndoesDown` | internal/tui/chat_approval.go:69-72 | up and down take each other back, round the ends too |
| `Approvals.Asking.QueueApproval` | internal/tui/chat_approval.go:28-36 | a request is shown or waits behind the one shown |
| `Approvals.Asking.NextApproval` | internal/tui/chat_approval.go:38-44 | the next waiting request is shown |
| `Approvals.Asking.DropApprovals` | internal/tui/chat_approval.go:46-57 | a turn's end answers every request with the refusal |
| `Approvals.Asking.HandleKey` | internal/tui/core_keyboard.go:24-40 | a key goes to the request shown, and an answer brings the next |
| `Approvals.AnsweredInOrderOnce` | internal/tui/chat_approval.go:28-57 | over every run the n-th answer was given to the n-th request, as it then stood, and is one it allows; the requests open are exactly those that came after, in order; none waits with none shown, and a turn's end leaves none |
| `ApprovalKeys.DecisionKeys` | internal/tui/chat_approval.go:59-91 | y, a, p, n and N each give the one option they stand for when it is offered, and nothing when it is not |
| `ApprovalKeys.DigitKeys` | internal/tui/chat_approval.go:80-85 | the n-th digit gives the n-th option |
| `ApprovalKeys.LeaveAndEnter` | internal/tui/chat_approval.go:73-79 | leaving refuses, with the denying option when it is offered; enter gives the option the cursor is on |
| `ApprovalKeys.MoveKeys` | internal/tui/chat_approval.go:69-72 | the cursor goes up by up and shift-tab, down by down and tab, and in a permission by k and j, round the ends |
| `ApprovalKeys.TypedIsAnswered` | internal/tui/chat_approval.go:93-135 | typing an answer and pressing enter gives that answer, whatever it is, if its first character is one that is typed |
| `ApprovalKeys.NotTyped` | internal/tui/chat_approval.go:121-132 | which those are: the space ticks and a digit picks an option while nothing is typed |
| `ApprovalKeys.BackspaceUntypes` | internal/tui/chat_approval.go:105-108 | backspace takes back one character typed |
| `ApprovalKeys.TickedAreAnswered` | internal/tui/chat_approval.go:109-117 | ticked options are answered in the order they are offered, with a comma between |
| `ApprovalKeys.QuestionLeft` | internal/tui/chat_approval.go:99-100 | leaving a question dismisses it |
| `ApprovalKeys.KeyOnScreen` | internal/tui/core_keyboard.go:24-40 | a key that does not answer changes the dialog on screen and nothing else; one that does is given to the request on screen as it then stood |
| `ApprovalKeys.PastedLines` | internal/tui/chat_approval.go:155-160 | a line pasted loses the breaks behind it; between two lines a carriage return goes and the newline stays |
| `ApprovalKeys.PastedIsAnswered` | internal/tui/chat_approval.go:155-161 | what is pasted into a question is behind what was typed, and the whole its answer once enter is pressed; a permission takes no text |
| `Reread.RailState.HandleMsgs` | internal/tui/core_events.go:50-61 | a batch marks the rail for each edit and turn's end, then reads it again |
| `Reread.RailState.Reread` | internal/tui/chat_rail.go:96-115 | the rail is read when marked or never read, one read at a time |
| `Reread.RailState.ReadDone` | internal/tui/chat_rail.go:117-132 | a read that is done starts another when an edit landed meanwhile |
| `Reread.NoRailUpdateLost` | internal/tui/chat_rail.go:91-132 | over every run a marked rail is being read, and whenever none is, what is shown was read after the last edit |
| `Reread.GrowthPanel.HandleMsgs` | internal/tui/core_events.go:50-61 | the same of the growth panel |
| `Reread.GrowthPanel.MeasureDone` | internal/tui/chat_growth.go:150-163 | a measure of another project is thrown away and begun again |
| `Reread.GrowthPanel.Toggle` | internal/tui/chat_growth.go:290-301 | showing the panel measures what it missed |
| `Reread.NoGrowthUpdateLost` | internal/tui/chat_growth.go:140-190 | over every run a marked panel that is shown is being measured, and one not being measured shows what was measured after the last edit |
| `Reread.MeasureGrowth` | internal/tui/chat_growth.go:88-117 | the loop counts every code file it can read, taking a count kept for the same size and time; a failed listing finds nothing and leaves the counts as they were |
| `Reread.CacheChangesNothing` | internal/tui/chat_growth.go:88-117 | measuring with the kept counts gives what measuring from scratch gives, as long as equal stamps mean equal content, and keeps it so |
| `Reread.WindowShowsAllWhenCurrent` | internal/tui/chat_rail.go:96-105 | over every run, whatever order its reads are done in, the Changes window shows everything that has landed if and only if the read done last was begun after what last landed |
| `Reread.WindowShowsAllUnlessMissed` | internal/tui/chat_rail.go:96-105 | of reads done in the order they were begun: exactly when what last landed did not come in a batch that ended in an edit with a read under way, or a read was asked for since |
| `Reread.WindowCanLoseAnEdit` | internal/tui/chat_rail.go:96-105 | an edit that lands while the window loads can stay unshown |
| `Reread.WindowCanShowAnOlderRead` | internal/tui/app_changes.go:103-122 | a read begun at a turn's end and done before an older one leaves the older one shown |
| `Reread.ChangesWindow.BeginRead` | internal/tui/app_changes.go:103-110 | a read begins, whether or not one is under way |
| `Reread.ChangesWindow.Loaded` | internal/tui/app_changes.go:112-122 | a read that is done is shown and the window counts as read, though others may be under way |
| `Reread.ChangesWindow.HandleMsgs` | internal/tui/core_events.go:50-61 | a batch begins a read at each turn's end, and one after it for its edits when none is under way |
| `RereadSettles.RailLanded` | internal/tui/core_events.go:50-61 | over every run each edit and each end of a turn has landed on the rail |
| `RereadSettles.RailSettles` | internal/tui/chat_rail.go:96-132 | after any run at most two reads leave the rail at rest, showing everything |
| `RereadSettles.RailRests` | internal/tui/chat_rail.go:96-115 | at rest only something landing begins a read, and while one is under way no other is begun |
| `RereadSettles.GrowthLanded` | internal/tui/core_events.go:50-61 | over every run each edit of a named file and each end of a turn has landed on the growth panel |
| `RereadSettles.GrowthSettles` | internal/tui/chat_growth.go:140-190 | after any run, shown and measured at most twice, the panel is at rest and shows everything that has landed on the project last switched to |
| `RereadSettles.GrowthRests` | internal/tui/chat_growth.go:140-190 | at rest only something landing begins a measure, hidden nothing does, and while one is under way no other is begun |
| `RereadSettles.MeasuredFromScratch` | internal/tui/chat_growth.go:88-117 | from scratch a measure counts the lines, if any, of every listed code file that is no directory and no larger than two mebibytes |
| `RereadSettles.WindowLands` | internal/tui/app_changes.go:103-122 | over every run each edit and each end of a turn has landed on the Changes window |
| `Stream.SettledSplit` | internal/tui/chat_stream.go:21-46 | the one-pass loop computes the split |
| `Stream.SplitIsLastCut` | internal/tui/chat_stream.go:16-46 | the split is the last place right after a blank line, outside every fence, before text that stands apart; 0 when there is none |
| `Stream.SplitNeverMovesBack` | internal/tui/chat_stream.go:21-46 | whatever is written next the split never moves back, if and only if what follows it is more than a bare number of one to nine digits |
| `Stream.SplitCanMoveBack` | internal/tui/chat_stream.go:21-46 | a "1" after a blank line is cut off, and once it is "1." it is not |
| `Stream.JoinRendered` | internal/tui/chat_stream.go:48-74 | two rendered parts are joined with exactly one blank row, as wide as the first part, the blank rows at the seam dropped |
| `StreamMarks.FenceLines` | internal/tui/chat_stream.go:28-39 | a fence opens at a line indented by at most three spaces that starts with three backquotes or tildes and closes at the next such line of its own kind; no other line changes what is inside |
| `StreamMarks.ListItemIsItem` | internal/tui/chat_stream.go:76-77 | a list item is a dash, a star, a plus, or one to nine digits and a point or a parenthesis, with a blank or nothing after it |
| `StreamMarks.ApartBegins` | internal/tui/chat_stream.go:40 | what stands apart after a blank line begins with no blank, no empty line and no list item |
| `Limits.Trim` | internal/tui/core_limits.go:46-55 | the loop keeps what is within the window |
| `Limits.Judge` | internal/tui/core_limits.go:87-141 | the loop-built forecast is the worst pressure with the refusals added, its level the risk's band, and its reason exactly what raised it: the daily budget if and only if that is worse, refusals if and only if there were any |
| `Limits.LimitTracker.Predict` | internal/tui/core_limits.go:80-141 | a forecast trims what it no longer counts and judges the rest |
| `Limits.Risk` | internal/tui/core_limits.go:128-143 | the risk is a share |
| `Limits.HearingRaisesRisk` | internal/tui/core_limits.go:35-37 | a call, failure or refusal more never lowers the risk |
| `Limits.TimeLowersRisk` | internal/tui/core_limits.go:76-141 | as time alone passes the risk never rises |
| `Limits.ForecastsChangeNothing` | internal/tui/core_limits.go:46-55 | over every run, forecasts made on the way, each trimming, never change a later one: neither what it is made from nor its risk |
| `LimitLevels.CountedFor` | internal/tui/core_limits.go:46-55 | a call is counted for sixty seconds, a failure for ninety, a refusal for five minutes |
| `LimitLevels.ForecastGoesBy` | internal/tui/core_limits.go:85-86 | a forecast goes by the calls of the last sixty seconds, the failures of the last ninety and the refusals of the last five minutes |
| `LimitLevels.HeardCounts` | internal/tui/core_limits.go:35-37 | each call, failure or refusal heard is counted, as what it is, by the next forecast |
| `LimitLevels.AllowanceReplaces` | internal/tui/core_limits.go:39-43 | an allowance of something replaces the one before, and one of nothing is none |
| `LimitLevels.CapacityIs` | internal/tui/core_limits.go:87-91 | twenty calls a minute are all of a free provider's, or of one with a daily limit; of another it is sixty |
| `LimitLevels.CallsAlone` | internal/tui/core_limits.go:85-136 | of a free provider seven calls in a minute are many, twelve too many and seventeen the limit; of another 21, 36 and 51 |
| `LimitLevels.TwoFailuresAreACall` | internal/tui/core_limits.go:93 | two failures weigh as much as one call |
| `LimitLevels.RefusalAlone` | internal/tui/core_limits.go:122-136 | a refusal weighs a half and fades to nothing in five minutes; alone it warns for ninety seconds |
| `LimitLevels.RefusalsAdd` | internal/tui/core_limits.go:122-126 | and each further one weighs as much again |
| `LimitLevels.BudgetGone` | internal/tui/core_limits.go:99-119 | with the day's budget used up, or less than a twentieth left, the limit is near whatever the last minute was |
| `LimitLevels.BudgetLasts` | internal/tui/core_limits.go:99-106 | otherwise the budget presses by how far short of an hour it falls at this pace |
| `LimitLevels.ReasonGiven` | internal/tui/core_limits.go:93-98 | with no refusal and no budget the reason is the failures when they are three or more and more than half of the calls, else the requests |
| `Paths.PathTokens` | internal/tui/chat_images.go:65-96 | the loop over the characters finds the words |
| `Paths.TokensOfQuoted` | internal/tui/cmd_worktree.go:112-115 | tokenizing quoted words gives them back whatever characters they hold: the non-empty ones, so all of them if and only if none is empty |
| `PathWords.TypedOrOpen` | internal/tui/chat_images.go:65-96 | every text is a row of plain characters, characters after a backslash, quoted pieces and blanks, but for what stands open at its end |
| `PathWords.TokensOfTyped` | internal/tui/chat_images.go:65-96 | and it splits into the words these make between blanks, the last one closed by the text's end |
| `GrowthTree.ShownChildren` | internal/tui/chat_growth_tree.go:123-139 | at most six branches worth showing, and the rest summed up |
| `GrowthTree.ShownAddUp` | internal/tui/chat_growth_tree.go:123-139 | what is shown and what is summed up make the whole |
| `GrowthWords.FirstSixShown` | internal/tui/chat_growth_tree.go:120-139 | of a folder's branches the first six with code in them now or at first, with lines added, or planted are shown, and all from the seventh on are more, on one row of their own |
| `GrowthBuild.Climb` | internal/tui/chat_growth_tree.go:51-61 | a file is added to its folder and every folder above it, and to no other |
| `GrowthBuild.Builder.Node` | internal/tui/chat_growth_tree.go:41-50 | a folder is made once, after those above it, and hung under its parent |
| `GrowthBuild.Builder.Assemble` | internal/tui/chat_growth_tree.go:41-50 | following what was hung from the trunk gives the tree of the folders made, each under its parent, in the order they were made |
| `GrowthBuild.Builder.Each` | internal/tui/chat_growth_tree.go:51-75 | whatever was there before, every folder gains exactly the sum of the files at or below it |
| `GrowthWords.CountedWhereItIs` | internal/tui/chat_growth_tree.go:51-75 | each file is counted by the folders it is in, however deep below them, and by no other |
| `GrowthShape.Join` | internal/tui/chat_growth_tree.go:98-102 | the loop follows a chain of single folders to its end |
| `GrowthShape.Compress` | internal/tui/chat_growth_tree.go:95-105 | the in-place recursion gives the compressed tree |
| `GrowthShape.CompressedKeeps` | internal/tui/chat_growth_tree.go:95-105 | compressing leaves every branch's numbers exact for its path, and its name leading from the branch above |
| `GrowthShape.CompressedIsKept` | internal/tui/chat_growth_tree.go:95-105 | it leaves exactly the folders that are no link of a chain |
| `GrowthOrder.SortChildren` | internal/tui/chat_growth_tree.go:107-118 | the in-place recursion gives the sorted tree |
| `GrowthOrder.SortedInOrder` | internal/tui/chat_growth_tree.go:107-118 | at every level branches come out heaviest first, equals by name |
| `GrowthWords.SortedHeaviestFirst` | internal/tui/chat_growth_tree.go:107-118 | at every level each branch is heavier than those after it, or as heavy and not named later |
| `GrowthOrder.FinishedSame` | internal/tui/chat_growth_tree.go:95-118 | a folder comes out the same whichever order the folders were made in |
| `GrowthGrown.BuildGrowthTree` | internal/tui/chat_growth_tree.go:37-79 | the whole build: what it gives is sound, as the next row says |
| `GrowthGrown.GrownIsSound` | internal/tui/chat_growth_tree.go:37-79 | every tree a build can give is sound: each branch left counts exactly the files at or below its path, no two share a path, and the folders left are exactly those above some file that are no link of a chain |
| `GrowthWords.GrownUnplanned` | internal/tui/chat_growth_tree.go:37-79 | and none of its branches is a planned one |
| `GrowthGrown.GrownWhateverTheOrder` | internal/tui/chat_growth_tree.go:37-79 | whatever order the maps give their files in, the tree is the same |
| `GrowthOpen.Opening.Heaviest` | internal/tui/chat_growth_tree.go:153-166 | the first of the heaviest branches that may be opened |
| `GrowthOpen.OpenAdds` | internal/tui/chat_growth_tree.go:177-181 | opening a drawn branch draws its own and nothing else, at exactly their cost in rows |
| `GrowthOpen.Opening.OpenBranches` | internal/tui/chat_growth_tree.go:141-183 | the loop ends; the rows drawn never exceed the budget or the trunk's own; every branch opened is drawn and holds its share; every other that could be opened is too light or does not fit; and in a tree whose branches hold no more than what they hang on, no lighter one takes the room of a heavier one |
| `GrowthGreedy.GrownShrinks` | internal/tui/chat_growth_tree.go:37-79 | in every tree a build can give no branch has more code than the one it hangs on |
| `GrowthGreedy.OpenedHeaviestFirst` | internal/tui/chat_growth_tree.go:141-183 | so every branch opened holds twelve hundredths of the code, shows two branches or more and hangs at most three below the trunk; and any other such branch that is drawn would not fit beside the open ones no lighter than itself |
| `GrowthBuds.PlantedPaths` | internal/tui/chat_growth_tree.go:271-286 | planting makes exactly the folder asked for |
| `GrowthBuds.PlantedOnDeepest` | internal/tui/chat_growth_tree.go:271-286 | a folder planted is new, empty and marked, and hangs on the deepest folder of the tree above it, named from there |
| `GrowthBuds.DrawnAtIsNearest` | internal/tui/chat_growth_tree.go:288-309 | no folder nearer to the one asked for is held by an open branch |
| `GrowthMention.WordIn` | internal/tui/chat_growth_tree.go:251-265 | a word is found if and only if it stands somewhere with no letter, digit or underscore at either end |
| `GrowthMention.MentionedDir` | internal/tui/chat_growth_tree.go:229-249 | the loop over the folders keeps the best of those the text names |
| `GrowthMention.MentionedWhateverTheOrder` | internal/tui/chat_growth_tree.go:229-249 | it is the deepest, and of two as deep the first by name, whatever order the folders are looked at in |
| `GrowthBuds.MentionedInAnyOrder` | internal/tui/chat_growth_tree.go:229-249 | so the tree's own order does not matter |
| `GrowthWords.MeansTheDeepest` | internal/tui/chat_growth_tree.go:229-265 | a text mentions a folder by its whole path, or by its last name standing alone, when that has three letters at least; of those it mentions it means the deepest, of two as deep the one first by name |
| `GrowthSpelled.SpelledIsFirst` | internal/tui/chat_growth_tree.go:192-193 | the scan finds the leftmost stretch of two names or more joined by slashes, as long as it goes; nothing before it and nothing longer fits the pattern, and none found means none is there |
| `GrowthWords.FileNameDropped` | internal/tui/chat_growth_tree.go:271-286 | the folder spelled out is all of the names of the path found, less the last if that has a point in it |
| `GrowthWords.NameCharIs` | internal/tui/chat_growth_tree.go:192-193 | names are made of letters, digits, underscores, points and dashes |
| `GrowthBuds.Target` | internal/tui/chat_growth_tree.go:208-222 | an item's folder is that of the file recorded for it; without one, the folder its text names; without that, the one its text spells out, which is then planted |
| `GrowthBuds.FolderOrder` | internal/tui/chat_growth_tree.go:208-222 | an item with a recorded file goes to that file's folder whatever its text says; without one to the best folder of the tree its text names; when it names none to the one it spells out, then in the tree; and else to the trunk |
| `GrowthBuds.Planting.PlaceBuds` | internal/tui/chat_growth_tree.go:195-227 | every plan item goes on exactly one branch, in the plan's order, after those already there |
| `GrowthBuds.ChosenInOrder` | internal/tui/chat_growth_tree.go:195-227 | each item is on its own branch, between those of it before the item in the plan and those after |
| `GrowthBuds.PlacesStand` | internal/tui/chat_growth_tree.go:195-227 | every item's branch is in the tree |
| `GrowthPlaced.BudDrawnWhenShown` | internal/tui/chat_growth_tree.go:288-309 | whatever folder an item is about, it goes on the trunk or on a branch held by the trunk or an open, drawn one, and on that very folder when one of them holds it; the branch is drawn if and only if it is among the first six worth showing there |
| `GrowthPlaced.PlanDrawnWhenShown` | internal/tui/chat_growth_tree.go:195-227 | the same of every item in the tree that the whole plan leaves, planted folders among it: what was open is still drawn, and nothing that took an item ceases to |
| `GrowthPlaced.BudCanBeHidden` | internal/tui/chat_growth_tree.go:288-309 | an item about the seventh of seven folders goes on it and is not drawn |

## Left out

- QueueRuns.NothingLost: messages are not lost, but one may be sent twice: a steer in flight at a turn's end is queued again by the turn's unread list.
- AcpRuns.NoCallWaits: each call can go on by itself once the agent is gone; that the scheduler lets it is not modelled.
- Locate.LocatedPatchTurns: the file as written is taken to end its last line with a newline, and the changes replace whole lines.
- DiffFiles.EditRefsPointIntoFiles: the edit changes something, and its characters are ones the stripping of escape sequences leaves alone; tabs are allowed, a ref's code having them expanded.
- GrowthGrown.BuildGrowthTree: a node is addressed by its path, its children hung in a table and not in linked records, so the aliasing of nodes while chains are joined is not modelled; path cleaning is not, paths being lists of names; edits are those of code files.
- GrowthOpen.Opening.OpenBranches: a node's open flag and depth are kept by path beside the tree, not in linked nodes.
- GrowthBuds.Planting.PlaceBuds: lower casing is a parameter; a name's length is counted in characters; a `.` or `..` among the names of a path that a text spells out stays a name.
- GrowthOrder.SortChildren: the library's stable sort is modelled by insertion.
- Limits.LimitTracker.Predict: real arithmetic; the rounding of the time left to whole nanoseconds, and the wording of the reason, are not modelled.
- Transcript.History.Window: an item's rows depend on its version, the width and the expanded flag only; a reply whose fold is flipped without a new version would be drawn from the cache.
- DiffRead.DiffLineRefs: stripping escape sequences is a parameter, assumed to leave a line that has none alone.
- ZoneFrames.FrameScanned: a character's width is a parameter, so a row's width is the sum of its characters'.
- Stream.JoinRendered: how wide a rendered row is, and whether it shows nothing, are parameters.
- The cached head of a reply being written, which is not always what a fresh rendering gives.
- Drawing, themes, pictures, animation, Markdown rendering, the textarea and list widgets.
- The subagents' timeline, the desk's list cursor and the statistics histogram: easier than what is here.
- How the text behind a hunk's header is drawn; the error sent back for a request the client does not implement.
- Git, files, JSON, processes, HTTP and the clipboard; only the state they feed.
- Settings, providers, models, sessions, help, slash commands, translation and configuration.
- Review comments added to a message as it is sent, images attached to it, and the notices shown beside.
- Estimates of the time left.
