# Verified models of ai-guardian's editors, annotations and shared state

This project models the parts of ai-guardian that edit a user's files or share state between processes, and
proves what they promise. It has three parts.

**The lossless JSONC editor of the recovery tool** (`scripts/ai_guardian_recovery.py`). The tool removes its own
hooks, servers and plugins from a commented JSON file and keeps every other byte.

- `Lexical`, `Masking`: strings with their escapes, numbers, comments; the two masking passes, character by character.
- `Syntax`, `Printing`, `Values`, `Agreement`: a concrete syntax tree that holds every gap, its printer, a parser for
  strict JSON (sections 2 to 7 of RFC 8259) and for JSON with comments and trailing commas, soundness and completeness
  of the parser, and the proof that a strict parse of the masked text is the commented parse of the text.
- `Pruning`, `Spans`, `Placement`: removing members from a value, from a tree and from a text, and the offsets of members.
- `Editing`, `Deletion`: the methods that mask, locate and cut, in the order and with the loops of the program.
- `Hooks`, `Conditions`, `Recovery`, `FailedCheck`: what cleaning a configuration removes, the conditions of it read off
  the input, the proof that the check after the edit fails in one case only, when the top-level `hooks` container is
  itself dropped, and a file on which it does.
- `Tokens`: numbers, literals and strings as they are written, and that exactly these are loaded.
- `Composing`: comments and blanks, lists and objects, put together from texts that load.
- `Entries`, `KeyByKey`, `CleanFile`: what is left of every entry, plugin list, server mapping and other key, and what
  is reported, told from the fields of the input and of the output; the run over a whole file.
- `CleaningAgain`: when a second run leaves a cleaned file alone.
- `Apply`: putting an edit in place through system calls any of which may fail, with every state of the disk on record.

**Annotations** (`annotations.py`, `code_annotator.py`).

- `TextLines`, `Sorting`: `str.splitlines`, joining, and stable sorting.
- `Blocks`, `Annotations`: the stack that pairs block markers against a definition by depth, the order-sensitive
  inline pass against a recursive definition, and blanking.
- `Annotator`, `Insertion`, `RoundTrip`, `Planning`: merging planned annotations, inserting them bottom to top, the
  equality with inserting them at once, where every line ends up, and the end-to-end result: every finding a plan is
  made for is suppressed in the new text.
- `Saying`: the characters of the markers, and that they name the scanners of the due findings in order.
- `Exposure`, `Enclosing`: the converse warning. An annotation can take away the effect of an older one further down;
  for an inline and for a block annotation, for all scanners and for the secret scanner, exactly when and on which line.

**Shared state and algebra.**

- `Options`: a value that may be missing.
- `Sessions`: the context file of a session, every interleaving of locked savers and lock-free readers.
- `Provider`: the mock provider's counters, identities and tool offers, every interleaving of its handlers.
- `Suppressing`: progressive suppression over any batching.
- `IgnoreCache`: the cache keyed by modification time, over any run.
- `Policies`: the deep merge of policy fragments.
- `Versions`: the two version readers, one that splits and one that matches a pattern.

Methods follow the loops of the program and are proved against functions; the lemmas say what the functions mean.
Sorting a list and text concatenation stand for Python's own. `hide` statements keep proofs small and have no
other meaning.

Where the code and its descriptions differ, the model follows the code:

- `apply_suppressions` is described as keeping the line count. The pieces between line feeds correspond one to one, but
  every line end becomes a line feed and the last one goes, so that splitting the result gives one line less when the
  last line is blanked or empty (`Annotations.BlankedIsAligned`, `Annotations.BlankedCount`).
- `_observe_request` reuses the variable of the request's case for its loop over sensitive cases, so the counters are
  charged to the last of those (`Provider.ChargedTo`).
- `clean_json` guards its edit with a comparison that is to fail only on a defect; it also fails for every file whose
  `hooks` container is itself dropped, as an owned entry or because its own `hooks` list was emptied
  (`CleanFile.CleanJson`).
- A problem says that an entry is retained. It is reported when cleaning comes to the entry, which can still go with a
  dropped entry around it (`Entries.ReportedCanGo`); when nothing around it is dropped, it is retained
  (`Entries.ReportedIsKept`), and the result has an entry to report exactly then (`Entries.RetainedAreMet`).

## Model

| member | source | states |
|---|---|---|
| Masking.MaskPointwise | scripts/ai_guardian_recovery.py:88-123 | at every offset: comment characters become blanks, line feeds stay, quoted characters stay, and the two outputs differ exactly at unquoted commas whose next non-space is a closing bracket |
| Editing.CommentEnd | scripts/ai_guardian_recovery.py:96-104 | a line comment ends at the first line feed behind it or with the text, a block comment behind the first closing mark after its opening; no earlier line feed or mark, and 0 exactly when there is no closing mark |
| Editing.BlankComments | scripts/ai_guardian_recovery.py:90-109 | the in-place first pass succeeds exactly on texts whose strings and block comments close, and then leaves the text with comments blanked |
| Editing.BlankCommas | scripts/ai_guardian_recovery.py:110-122 | the in-place second pass blanks exactly the trailing commas of the comment-free text |
| Editing.FollowedByClosing | scripts/ai_guardian_recovery.py:115-118 | finds whether the next character that is not a space closes, looking at the array as it is being changed |
| Editing.JsoncText | scripts/ai_guardian_recovery.py:88-123 | both masked texts, or an error exactly when a string or block comment does not close |
| Agreement.AgreeOnValue | scripts/ai_guardian_recovery.py:139-143 | parsing one value strictly from the masked text and with comments from the text fails together or gives the same value and corresponding rests |
| Agreement.AgreeOnDocument | scripts/ai_guardian_recovery.py:139-143 | for every text the masking accepts, strict JSON on the masked text is commented JSON on the text |
| Printing.ValueReads | scripts/ai_guardian_recovery.py:139-143 | completeness: parsing what a well-formed tree prints gives the tree back, in front of any rest that does not run on |
| Printing.ValueSound | scripts/ai_guardian_recovery.py:139-143 | soundness: what the parser accepts is well formed and prints back to the very text consumed |
| Values.DocumentSound | scripts/ai_guardian_recovery.py:139-143 | a parsed document is well formed and prints to the text it was parsed from |
| Values.DocumentReads | scripts/ai_guardian_recovery.py:139-143 | a well-formed document is parsed back from its text |
| Values.LoadIsJsonc | scripts/ai_guardian_recovery.py:126-143 | load_json accepts exactly the commented-JSON texts without duplicate keys, with the value of that grammar; the rows of Tokens and Composing say in writing what these texts are |
| Values.LoadOfText | scripts/ai_guardian_recovery.py:126-143 | loading the text of a well-formed document with unique keys gives its value |
| Tokens.NumberLoads | scripts/ai_guardian_recovery.py:139-143 | a minus or none, figures, a fraction or none and a signed exponent or none, written out, load to that very token exactly when no part lacks a figure and the whole part has no leading zero |
| Tokens.NumberIsWritten | scripts/ai_guardian_recovery.py:139-143 | everything read as a number was written in that way |
| Tokens.WordLoads | scripts/ai_guardian_recovery.py:139-143 | of all words of letters, true, false and null load, to their own tokens |
| Tokens.StringLoads | scripts/ai_guardian_recovery.py:139-143 | a string written with any mix of plain characters, short escapes, code unit escapes and surrogate pairs loads to the code points it was written for |
| Tokens.EscapedLoads | scripts/ai_guardian_recovery.py:139-143 | every sequence of code points, unless a lone high surrogate is followed by a low one, can be written with escapes and loads to itself |
| Tokens.LiteralIsWritten | scripts/ai_guardian_recovery.py:139-143 | everything read as a string literal was written in that way |
| Composing.FilledLoads | scripts/ai_guardian_recovery.py:88-143 | any run of blanks, line comments and block comments in front of a text that loads, and behind it and a line feed, changes nothing of what it loads to |
| Composing.GapIsFilled | scripts/ai_guardian_recovery.py:88-109 | nothing but such runs is a gap |
| Composing.BoxLoads | scripts/ai_guardian_recovery.py:110-143 | texts that load, put between brackets with commas, load as the list of their values; with colons and written keys as the object of them, or not at all when two keys are the same; a comma may be left behind the last |
| Editing.JsonTree | scripts/ai_guardian_recovery.py:153-180 | terminates, reads inside the text, and finds the tree of the value that the text has there, at its offsets |
| Editing.ReadKey | scripts/ai_guardian_recovery.py:172-177 | the key of a member and the offset of its value |
| Placement.TreeIsPlaced | scripts/ai_guardian_recovery.py:146-180 | start <= entry start <= child start < child end <= next entry start < node end at every node, so member spans nest or are apart |
| Placement.KeysInOrder | scripts/ai_guardian_recovery.py:171-180 | the located keys are those of the parsed value, in its order, and count the elements of an array |
| Placement.TreeIsSeparated | scripts/ai_guardian_recovery.py:164-180 | in the masked text only spaces and commas lie between the brackets and the member spans, and only a string, spaces and a colon in front of a field's value, at every depth |
| Editing.WithoutSpans | scripts/ai_guardian_recovery.py:183-191 | keeps exactly the characters no span covers, for any order and overlap of spans |
| Deletion.FindComma | scripts/ai_guardian_recovery.py:212 | the first comma in a range, or none |
| Deletion.LastTrue | scripts/ai_guardian_recovery.py:201 | the last retained index, -1 when there is none |
| Deletion.CutComma | scripts/ai_guardian_recovery.py:207-218 | the comma after a member is cut exactly when the container changes and no later survivor needs it |
| Deletion.Visit | scripts/ai_guardian_recovery.py:198-218 | the collected spans are those of the members to remove and of their surplus commas, at every depth |
| Deletion.VisitMember | scripts/ai_guardian_recovery.py:202-218 | one member's own spans, the whole member or those inside it, and its comma's span |
| Spans.CutDocumentTexts | scripts/ai_guardian_recovery.py:183-221 | cutting the spans out of the text leaves the text of the tree without the members |
| Pruning.CutMeans | scripts/ai_guardian_recovery.py:194-221 | the value of the cut tree is the value with exactly the given members pruned |
| Pruning.CutIsWellFormed | scripts/ai_guardian_recovery.py:194-221 | the cut tree is well formed again, so one comma stays between consecutive survivors at every depth |
| Pruning.PruneKeepsUnique | scripts/ai_guardian_recovery.py:126-132 | pruning makes no duplicate keys |
| Pruning.LoadOfCut | scripts/ai_guardian_recovery.py:194-221 | loading the cut document gives the pruned value |
| Deletion.DeleteJsonMembers | scripts/ai_guardian_recovery.py:194-221 | the output is the input without the spans of the removed members and surplus commas, and loads to the value with exactly those members pruned |
| Hooks.CleanPrunes | scripts/ai_guardian_recovery.py:224-263 | what cleaning keeps is its input pruned at the paths it records |
| Hooks.RemovedBelow | scripts/ai_guardian_recovery.py:224-263 | every recorded path lies at or below the value's, and the value's own is recorded exactly when the value is dropped |
| Hooks.RemovalsAreJustified | scripts/ai_guardian_recovery.py:236-262 | every recorded path leads to an all-owned entry, a non-empty container that cleaning emptied, or an entry whose non-empty hooks list was emptied |
| Hooks.CleanTwice | scripts/ai_guardian_recovery.py:224-263 | a second run removes nothing exactly when the result of the first one is settled, and then changes nothing |
| Conditions.GoesIsDropped | scripts/ai_guardian_recovery.py:236-262 | a value is dropped exactly when it is an object whose command fields are all owned, one at least, or one without an owned command field whose non-empty hooks list has only elements that are dropped in the same sense |
| Conditions.FadesIsVanished | scripts/ai_guardian_recovery.py:250-255 | a field is removed exactly when its value is dropped in that sense or is a non-empty container of nothing but such values |
| Conditions.StaysCleanIsSettled | scripts/ai_guardian_recovery.py:224-263 | settled, read off the input: an object is unsettled exactly when none of its command fields is owned, one at least stays, and all that stay are lists that are owned once the elements that are dropped are left out |
| Conditions.SecondRunIsIdle | scripts/ai_guardian_recovery.py:224-263 | a second run removes nothing, and changes nothing, exactly when no such object is met in the input |
| Hooks.PlainIsSettled | scripts/ai_guardian_recovery.py:236-263 | values whose command fields are texts or lists of texts are settled, so cleaning them is idempotent |
| Hooks.CleaningTwiceCanDiffer | scripts/ai_guardian_recovery.py:236-253 | a value with a command list that holds an object is removed by a second run only |
| Entries.EntryIsCleaned | scripts/ai_guardian_recovery.py:236-262 | an object with owned commands only is dropped, one with owned and other ones is kept as it is, one whose non-empty hooks list leaves nothing is dropped, and any other has for every name the cleaned field, or none where the field was missing or goes |
| Entries.ListIsCleaned | scripts/ai_guardian_recovery.py:228-235 | a list keeps exactly the cleaned values of its elements that are not dropped, in order |
| Entries.NothingOwnedStays | scripts/ai_guardian_recovery.py:224-263 | a value in which no command field at any depth is owned is returned as it is |
| Entries.ProblemsAreMet | scripts/ai_guardian_recovery.py:236-249 | the problem of mixed commands is reported exactly when cleaning comes to an entry with owned and other commands, that of an odd command exactly when it comes to an entry with none owned and an odd one |
| Entries.ReportedIsKept | scripts/ai_guardian_recovery.py:236-249 | an entry that is reported is in the result when nothing around it is dropped |
| Entries.RetainedAreMet | scripts/ai_guardian_recovery.py:236-262 | where command lists have no containers in them, the result has an entry to report, for either kind, exactly when nothing around one of the entries reported of the input is dropped |
| Entries.ReportedCanGo | scripts/ai_guardian_recovery.py:236-262 | an entry that is reported as retained and goes with the entry it is in, because the hooks list beside it was emptied |
| Recovery.Cleaner.CleanHooks | scripts/ai_guardian_recovery.py:224-263 | returns the cleaned value and adds exactly its removals and problems to those recorded |
| Recovery.Cleaner.CleanEvents | scripts/ai_guardian_recovery.py:273-286 | the Copilot event lists are cleaned one by one, or a malformed one is refused |
| Recovery.Cleaner.CleanHooksKey | scripts/ai_guardian_recovery.py:287-293 | the hooks container is checked and cleaned; a dropped one leaves the marker in its place |
| Recovery.Cleaner.CleanGuardian | scripts/ai_guardian_recovery.py:294-301 | the tool's own Antigravity entry is cleaned, and deleted when dropped or emptied |
| Recovery.Cleaner.CleanServers | scripts/ai_guardian_recovery.py:302-322 | one key: its container and the nested servers of `mcp` are checked, owned servers deleted and others reported |
| Recovery.Cleaner.CleanContainer | scripts/ai_guardian_recovery.py:313-322 | one mapping: an owned server is deleted, another one is reported |
| Recovery.Cleaner.CleanPlugins | scripts/ai_guardian_recovery.py:323-339 | exactly the plugin entries that spell a known path are removed, by index |
| Recovery.Cleaner.CleanAll | scripts/ai_guardian_recovery.py:273-339 | the edited configuration is the input pruned at all recorded paths, but for a dropped hooks container |
| Recovery.PruneReplaces | scripts/ai_guardian_recovery.py:284-301 | replacing a member by its pruned value is pruning the whole at the member's removals |
| Recovery.PruneDeletes | scripts/ai_guardian_recovery.py:319-320 | deleting a member is pruning the whole at its path |
| CleanFile.CleanJson | scripts/ai_guardian_recovery.py:266-345 | the check after the edit fails exactly when the hooks container goes by the condition on the input; otherwise the output is the text without the spans of the removals and of the surplus commas, loads to the configuration pruned at them, which obeys the laws of KeyByKey.CleanedObeys, and comes with the problems of KeyByKey.ReportsObey; nothing removed, nothing changed |
| KeyByKey.CleanedObeys | scripts/ai_guardian_recovery.py:266-345 | told from the fields of the input and output alone: hooks and event lists are their cleaned values, the own Antigravity entry is cleaned or gone, server mappings lose exactly an own entry under the name ai-guardian, plugin lists exactly the texts that are plugins of the tool, in order, and every other key is as it was |
| KeyByKey.ReportsObey | scripts/ai_guardian_recovery.py:266-345 | each problem is reported exactly when its entry exists: one of mixed or of odd commands that cleaning comes to, or one under the name ai-guardian that the output retains among the servers |
| KeyByKey.PluginsAreLeft | scripts/ai_guardian_recovery.py:323-339 | a plugin list of the output is that of the input with exactly the texts of the tool left out, in order |
| KeyByKey.ServersAreLeft | scripts/ai_guardian_recovery.py:302-322 | a server mapping, and the one nested in mcp, has the entries of the input but for one under the name ai-guardian that is an object with the command and arguments of the own server |
| FailedCheck.CheckFails | scripts/ai_guardian_recovery.py:287-293 | the file {"hooks":{"command":"x"}} loads, has fit containers and a hooks container that goes when x is owned, so the check fails on it |
| CleaningAgain.SecondFileRun | scripts/ai_guardian_recovery.py:266-345 | the cleaned configuration is fit for a second run, which removes nothing exactly when every value that the first one cleaned stays clean or went; the hooks container is not dropped then |
| CleanFile.CleanJsonTwice | scripts/ai_guardian_recovery.py:266-345 | under that condition a second run on the output returns it unchanged |
| Apply.Validate | scripts/ai_guardian_recovery.py:616-621 | accepts exactly when the file reads and has the previewed bytes and mode, and it and its directory are writable |
| Apply.MakeBackup | scripts/ai_guardian_recovery.py:625-634 | creates a complete, synced backup that its owner alone may read under a name that was not there, and touches nothing else on the way; succeeds when no call fails and the name is free |
| Apply.Replace | scripts/ai_guardian_recovery.py:640-654 | writes beside the target and moves in one step, and does so when no call fails and the temporary name is free; on a failure the target is as it was, and the temporary file is gone unless the call that removes it failed |
| Apply.ApplyChange | scripts/ai_guardian_recovery.py:623-655 | in every state of the disk from start to end, wherever a call fails, the target is untouched or the edit is there in full beside a complete new backup; when no call fails, the target is as previewed and writable with its directory, and the names needed are free, the edit is applied and in place, for a replacement and for a removal |
| TextLines.SplitOfJoin | src/ai_guardian/code_annotator.py:231-254 | joining lines that can follow one another and splitting gives the lines back |
| TextLines.JoinOfSplit | src/ai_guardian/code_annotator.py:231-254 | splitting with line ends kept loses nothing |
| TextLines.WrittenIsSplit | src/ai_guardian/annotations.py:103 | lines written one behind the other with any of the eleven line ends, the last one perhaps with none, are split into exactly these |
| Annotations.ExtendedHasBoth | src/ai_guardian/annotations.py:31-58 | configured aliases extend the defaults and never replace them |
| Annotations.AliasesAreRead | src/ai_guardian/annotations.py:31-83 | a line begins a block, ends one, is allowed inline or is for the secret scanner exactly when it has the marker itself or one of the aliases configured for that purpose; block markers come before the inline one |
| Blocks.StackIsExact | src/ai_guardian/annotations.py:119-138 | the stack pairs begin i with end j exactly when j is the first mark at which ends exceed begins counted after i; what is left open are the begins without an end, and begins are pairs plus warnings |
| Blocks.PairsAreLaminar | src/ai_guardian/annotations.py:121-138 | two pairs are nested or apart |
| Blocks.PairsAreUnique | src/ai_guardian/annotations.py:121-138 | a begin has one end at most and an end one begin |
| Blocks.SortedEvents | src/ai_guardian/annotations.py:125-126 | sorting begins and ends together puts the markers in line order |
| Annotations.PairBlocks | src/ai_guardian/annotations.py:109-143 | collecting, sorting and pairing computes the stack run over the marks of the lines |
| Annotations.CoverPairs | src/ai_guardian/annotations.py:145-151 | a line is covered exactly when some pair spans it |
| Annotations.InlinePass | src/ai_guardian/annotations.py:153-186 | over a set it extends as it goes, the pass finds a line suppressed exactly when a block covers it or its own or the previous line's annotation is active, active meaning marked, in no block, and not after an active line; the secrets-only set likewise |
| Annotations.GetSuppressedLines | src/ai_guardian/annotations.py:86-188 | both sets are exactly the suppressed lines, and the warnings exactly the begins that stay open |
| Annotations.ApplySuppressions | src/ai_guardian/annotations.py:191-199 | the content unchanged for an empty set, else its lines joined by line feeds, blank where suppressed |
| Annotations.BlankedIsAligned | src/ai_guardian/annotations.py:191-199 | the pieces between the line feeds of the result are the input's lines one to one, blank if suppressed and unchanged otherwise |
| Annotations.BlankedCount | src/ai_guardian/annotations.py:191-199 | with a non-empty set the result splits into as many lines as the content exactly when there are none or the last one is neither empty nor suppressed |
| Annotations.ProcessAnnotations | src/ai_guardian/annotations.py:202-240 | the two contents have, line by line, what is suppressed for all scanners and for the secret scanner blanked, and are the content where nothing is |
| Annotator.MergeOverlappingBlocks | src/ai_guardian/code_annotator.py:199-222 | one annotation a range, in the place of the first, with the types of all |
| Annotator.MergedTypes | src/ai_guardian/code_annotator.py:210-214 | merged types are the union of both |
| Annotator.MergeIsDescending | src/ai_guardian/code_annotator.py:199-222 | merging a plan gives annotations each of which lies above the one before, and every planned one is said by one of them |
| Insertion.ApplyAnnotations | src/ai_guardian/code_annotator.py:225-254 | inserts the annotations one after another into the list of lines, each with its begin and end line or its suffix |
| Insertion.ApplyAbove | src/ai_guardian/code_annotator.py:233-252 | annotations further up leave the lines below them alone |
| Insertion.SequentialIsTogether | src/ai_guardian/code_annotator.py:225-254 | inserting bottom to top equals inserting all at once |
| Insertion.LineAt | src/ai_guardian/code_annotator.py:225-254 | every original line is at its shifted place, and without what was added it is that line |
| Insertion.AnnotationAt | src/ai_guardian/code_annotator.py:236-252 | an annotation's begin line, lines and end line stand together at the shifted place |
| Insertion.ErasingGivesBack | src/ai_guardian/code_annotator.py:225-254 | without the inserted text the lines join to what they were |
| Insertion.ErasingContent | src/ai_guardian/code_annotator.py:225-254 | the same for a content and for the list the insertions leave |
| RoundTrip.MarkerReads | src/ai_guardian/code_annotator.py:245-252 | an annotated line carries the inline marker, stays one line, and gets no block marker |
| RoundTrip.MarkerStaysOnLine | src/ai_guardian/code_annotator.py:247-252 | the inline marker stands on the annotated line exactly when that ends in carriage returns and line feeds only |
| RoundTrip.BeginLineIsOneLine | src/ai_guardian/code_annotator.py:236-241 | the begin line is one line exactly when the block's first line has text; the indentation of a blank line takes its line end along |
| RoundTrip.OpeningReads | src/ai_guardian/code_annotator.py:238-241 | the begin line is read as a begin |
| RoundTrip.ClosingReads | src/ai_guardian/code_annotator.py:238-242 | the end line is read as an end |
| RoundTrip.ShownAreLines | src/ai_guardian/code_annotator.py:231-254 | what the new text shows for each annotation, run-on ends and carried line ends included, makes lines |
| RoundTrip.SplitIsShown | src/ai_guardian/code_annotator.py:231-254 | splitting the annotated text gives exactly the lines shown |
| RoundTrip.ShownAt | src/ai_guardian/code_annotator.py:236-252 | the lines shown for an annotation stand together, and each of its lines is where it is said to move |
| RoundTrip.OrdinaryIsTogether | src/ai_guardian/code_annotator.py:225-254 | where every block's first line has text and its last line an end, the lines shown are the list the insertions leave and lines move by the count of lines inserted above |
| RoundTrip.OrdinaryTakes | src/ai_guardian/code_annotator.py:236-252 | such a block can be written exactly when its lines have no block marker and its end line has no begin alias |
| RoundTrip.RangeIsBlock | src/ai_guardian/annotations.py:121-138 | a begin and an end with no marker between them are a pair |
| RoundTrip.AppliedIsSuppressed | src/ai_guardian/code_annotator.py:225-254 | after applying, every annotated line and every line of an annotated range is suppressed at the place it moves to and begins there with what it was, blocks with a blank first line or an unended last line included |
| Saying.TypesSplit | src/ai_guardian/code_annotator.py:237-251 | the joined names, taken apart at their commas, are the names |
| Saying.MergedNames | src/ai_guardian/code_annotator.py:210-217 | a merged annotation has sorted names without repetition, exactly those of the planned annotations for its range |
| Saying.AppliedSays | src/ai_guardian/code_annotator.py:225-254 | in the new text an annotated line is its old body, two blanks, the prefix, the inline marker and the names in ascending order between commas; a block has in front and behind the prefix with the begin marker and the names, and with the end marker, indented as its first line, when that has text and the last line an end |
| Exposure.RunTurnsOver | src/ai_guardian/annotations.py:153-171 | a marker on a line that was not suppressed turns over which markers of the run behind it are active |
| Exposure.AnnotatingExposes | src/ai_guardian/annotations.py:153-171 | for the scanners that look at all lines: putting an inline marker on line i takes the suppression of line l away exactly when l is the line behind the run of older markers that follows i, the run is odd and no block covers l; and gives it exactly to i and, when the run is even, to the line behind it |
| Exposure.AnnotatingExposesSecrets | src/ai_guardian/annotations.py:153-186 | for the secret scanner: line l is hidden before and not after exactly when it is not secrets-only itself and is the line behind an odd run that no block covers, or the line after the line behind an even run when that one is secrets-only, in no block, and l is not suppressed |
| Exposure.AnnotationExposes | src/ai_guardian/code_annotator.py:247-252 | both, for an inline annotation as it is inserted into a content |
| Exposure.ExampleIsExposed | src/ai_guardian/code_annotator.py:247-252 | annotating the first of three lines, the second of which has an inline marker, exposes the third to all scanners |
| Exposure.SecretIsExposed | src/ai_guardian/code_annotator.py:247-252 | annotating the first of three lines, the second of which has a secrets-only marker, exposes the third to the secret scanner |
| Enclosing.BlocksStay | src/ai_guardian/annotations.py:119-151 | a block put around lines without markers leaves all other pairs, shifted, and so the lines in blocks but for its own |
| Enclosing.EnclosingExposes | src/ai_guardian/annotations.py:153-171 | for the scanners that look at all lines: a block annotation exposes line l exactly when the last line of its range had an active marker and l is the line behind the run of older markers that follows, the run is even and no block covers l |
| Enclosing.EnclosingExposesSecrets | src/ai_guardian/annotations.py:153-186 | for the secret scanner: exactly which lines it exposes, the line behind the range that a secrets-only marker on its last line hid among them |
| Enclosing.BlockAnnotationExposes | src/ai_guardian/code_annotator.py:236-244 | both, for a block annotation as it is inserted into a content |
| Enclosing.BlockExampleIsExposed | src/ai_guardian/code_annotator.py:236-244 | a block around the first two of three lines, the second of which has an inline marker, exposes the third |
| Planning.Collect | src/ai_guardian/code_annotator.py:144-156 | the lines to annotate are those with a finding of a known scanner that is not suppressed yet, with exactly the scanners of their findings |
| Planning.DrawAll | src/ai_guardian/code_annotator.py:161-185 | one annotation for each line, with sorted types, a block exactly inside a multi-line string, from the bottom up |
| Planning.PlanIsPlanned | src/ai_guardian/code_annotator.py:161-187 | when enclosing strings are the enclosing strings of all their lines, plans are what merging and inserting expect |
| Planning.MergeIsWritable | src/ai_guardian/code_annotator.py:187-189 | what can be written stays so when merged |
| Planning.PlannedIsSuppressed | src/ai_guardian/code_annotator.py:187-189 | after merging and applying, every planned line and range is suppressed at the place it moves to and begins there with what it was |
| Planning.PlanSays | src/ai_guardian/code_annotator.py:161-196 | at the line of a due finding, or around the string it is in, the new text has the prefix, the marker and exactly the scanner names of the due findings there, sorted and once each |
| Planning.PlanFileAnnotations | src/ai_guardian/code_annotator.py:124-196 | there is a plan exactly when a finding is due, and its text is the content with the annotations inserted; every due finding, with the whole string it is in, is suppressed in the new text under all aliases for which its lines can take the annotation, and what is written there is the prefix, the marker and the scanners of the due findings of that line or string; the findings skipped are counted |
| Sessions.StepKeeps | src/ai_guardian/hook_context.py:169-255 | every step of every process, failing calls and short writes included, keeps the invariant: the file holds the saves so far, only the lock holder writes, nobody reads a file being written |
| Sessions.WhatIsThere | src/ai_guardian/hook_context.py:180-186 | a key has the entry of its last save, if that is whole and no later one started over or was torn by a short write, and nothing else is there |
| Sessions.FileHoldsTheSaves | src/ai_guardian/hook_context.py:169-192 | after any run the file holds all saves in the order they took effect |
| Sessions.NoSaveIsLost | src/ai_guardian/hook_context.py:169-192 | a whole save that has returned stays visible until its key is saved again, a save whose own read failed starts over, or one is torn by a short write |
| Sessions.LaterSaveLosesIt | src/ai_guardian/hook_context.py:180-186 | a run in which a save has returned and is there, and a later save of another key whose read fails or whose write is short takes it away |
| Sessions.LoadSeesOneMoment | src/ai_guardian/hook_context.py:194-224 | a load reads the whole map of one moment since it began, and answers with the last save of its key then unless that has expired |
| Sessions.LoadSucceeds | src/ai_guardian/hook_context.py:194-224 | over every run a load whose open and read succeed ends with a map |
| Sessions.LoadAfterSave | src/ai_guardian/hook_context.py:169-224 | after a whole undisturbed save of a key an undisturbed load of it returns what was saved when 300 seconds are not over, and nothing afterwards |
| Provider.StepKeeps | scripts/agent_cli_mock_provider.py:239-375 | every step of every handler keeps the counters' sums and ties each offer to one handler or one response |
| Provider.OutputsAreConserved | scripts/agent_cli_mock_provider.py:275-304 | for each case key, known plus unknown outputs are the outputs, are the sum of shapes, are the sum of categories; offers are one exactly after the first request with a native shell for a tool case |
| Provider.OneOfferACase | scripts/agent_cli_mock_provider.py:358-375 | over every interleaving two responses for one case with a tool call are one |
| Provider.AnOfferIsMade | scripts/agent_cli_mock_provider.py:358-375 | once a tool case has advertised a native shell there is such a response, with its identity known, unless its handler is still at work or failed |
| Provider.RequestIsAnswered | scripts/agent_cli_mock_provider.py:358-375 | a request that nothing disturbs is counted under its case and answered, with a tool call of the advertised name exactly when it is the first with a native shell for its tool case |
| Provider.IdentitiesStay | scripts/agent_cli_mock_provider.py:136-148 | an issued identity resolves to its case ever after |
| Provider.KnownIsIssued | scripts/agent_cli_mock_provider.py:265-269 | over every interleaving an output is correlated as known exactly when a response has issued its call id for an output case before |
| Provider.KnownIsCounted | scripts/agent_cli_mock_provider.py:265-304 | what was correlated as known is counted as known, and the rest as unknown, for the case that is charged and no other |
| Provider.NameResolvesToLast | scripts/agent_cli_mock_provider.py:588-609 | over every interleaving a name that Gemini calls resolves exactly when an output case was offered under it, and to the last such case |
| Suppressing.ProgressiveSuppressor.Call | src/ai_guardian/scan_analyzer.py:62-81 | what is kept of a batch continues what is kept of all before it, and the counters, the suppressed set and skip_rules are those of all findings seen |
| Suppressing.SuppressBatches | src/ai_guardian/scan_analyzer.py:55-89 | any batching keeps the same findings, kept plus suppressed are all, and skip_rules are exactly the seen rules all of whose seen sub-types are suppressed |
| Suppressing.KeptOfEach | src/ai_guardian/scan_analyzer.py:62-81 | of a fingerprint min(occurrences, threshold - 1) findings are kept, of a never-suppress rule all |
| Suppressing.KeptWasSeen | src/ai_guardian/scan_analyzer.py:62-81 | nothing is kept that was not seen |
| Suppressing.ThresholdOne | src/ai_guardian/scan_analyzer.py:74-79 | at a threshold of one only never-suppress rules are kept |
| Policies.MergeValues | container/compose_openshell_policy.py:40-51 | filling a copy key by key computes the merge |
| Policies.MergeAt | container/compose_openshell_policy.py:40-51 | what a merge has at every path: the overlay's value, merged with the base's where both have one, nothing where the overlay blocks the way, else the base's |
| Policies.LastWriterWins | container/compose_openshell_policy.py:54-57 | the last fragment that touches a path decides what is there |
| Policies.UntouchedStays | container/compose_openshell_policy.py:54-57 | what no fragment touches is kept |
| Policies.MergeTwice | container/compose_openshell_policy.py:40-51 | applying the last overlay again changes nothing |
| Policies.CoveredAddsNothing | container/compose_openshell_policy.py:40-51 | a base adds nothing exactly when the overlay has everything it has |
| Policies.RegroupsUnlessClash | container/compose_openshell_policy.py:40-57 | three fragments may be regrouped exactly when no path clashes |
| Policies.ClashHasPath | container/compose_openshell_policy.py:40-57 | a clash is a path with a mapping, something else, and a mapping that lacks some of the first |
| Policies.PathClashes | container/compose_openshell_policy.py:40-57 | such a path is a clash |
| Policies.Compose | container/compose_openshell_policy.py:54-69 | refuses exactly when a fragment does not load, the version is not one or network_policies is no mapping, else the fold with its version |
| Policies.ComposedFromLast | container/compose_openshell_policy.py:54-69 | a composed policy has at a path what the last fragment to touch it has |
| Policies.ComposedWhen | container/compose_openshell_policy.py:54-69 | files compose exactly when each is empty or a mapping and their merge has no version or version 1, which true equals, and nothing, null or a mapping under network_policies |
| Policies.OrdinaryComposes | container/compose_openshell_policy.py:54-69 | empty files, and mappings with no version or version 1 and no network policies or a mapping of them, compose to a policy of version 1, with all their keys and no others |
| Policies.OddIsRefused | container/compose_openshell_policy.py:58-68 | a last version that is another number is refused, and so are last network policies that are a list |
| Versions.ParsersAgree | rust/openshell-middleware/src/compatibility.rs:46-69 | on printable text, splitting gives a release exactly when the pattern of the Python check does and its numbers fit 32 bits |
| Versions.ChecksAgree | scripts/check_openshell_compatibility.py:65-85 | both checks accept the same printable texts, but for patch numbers beyond 32 bits |
| Versions.MatchIsSplit | scripts/check_openshell_compatibility.py:65-69 | what matches the pattern is split into the same three parts |
| Versions.SplitIsMatch | rust/openshell-middleware/src/compatibility.rs:46-69 | what is split into three numbers matches the pattern |
| Versions.OneRelease | scripts/check_openshell_compatibility.py:65-69 | a text is matched as one release at most |
| Versions.WrittenIsAccepted | rust/openshell-middleware/src/compatibility.rs:71-89 | a written release is accepted exactly when its major and minor numbers are those of the policy and its patch number is at least the policy's |
| Versions.AcceptedFromOwnPatch | rust/openshell-middleware/src/compatibility.rs:71-89 | the policy's own release and every later patch of it are accepted, by splitting as far as 32 bits go, and no earlier patch is |
| Versions.OtherLineRefused | rust/openshell-middleware/src/compatibility.rs:71-89 | a release of another major or minor number is refused |
| IgnoreCache.Cache.LoadConfig | src/ai_guardian/aiguardignore.py:102-164 | a load answers with what the text of the entry parses as when the time read is the entry's, else with a fresh parse of what the file has by then; it stamps the root, and stores what it parsed under the time read before |
| IgnoreCache.LoadIsFresh | src/ai_guardian/aiguardignore.py:118-163 | in a coherent cache a load returns what the file parses as at its beginning or at its end, and leaves the cache coherent |
| IgnoreCache.Cache.ResetCache | src/ai_guardian/aiguardignore.py:186-189 | empties both maps |
| IgnoreCache.Cache.CleanupStaleEntries | src/ai_guardian/aiguardignore.py:192-200 | removes exactly the roots not accessed for too long, from both maps |
| IgnoreCache.Cache.WriteText | src/ai_guardian/aiguardignore.py:373-411 | a write of the module's own resets the cache, so its time may be any |
| IgnoreCache.RunEvents | src/ai_guardian/aiguardignore.py:81-200 | over every run whatsoever of loads, edits, writes, resets and cleanups the results are those of the entries' texts |
| IgnoreCache.FreshWhenHitsAgree | src/ai_guardian/aiguardignore.py:118-163 | over every run in which nothing changes during a load, the loads return what uncached ones would exactly when at every hit the text the entry was read from parses as the file's does |
| IgnoreCache.HonestFromStart | src/ai_guardian/aiguardignore.py:81-200 | over every run in which files from outside do not bring a time back with another text, nor one that went while a load had read it only, each load returns a fresh parse of its beginning or its end |
| IgnoreCache.TimeKept | src/ai_guardian/aiguardignore.py:124-135 | after an edit that keeps the time, the load is right exactly when the texts parse alike, so the proviso is needed |
| IgnoreCache.TimeComesBack | src/ai_guardian/aiguardignore.py:118-163 | after an edit in the middle of a load and a return to the earlier time, the load is right exactly when the texts parse alike |

## Left out

- Hooks.Clean: whether a command is the tool's own is a parameter; shell tokenising and path forms are library lexing.
- Values.LoadJson: numbers and literals are scalar tokens compared by their text; limits on recursion depth and on the digits of a number are not modelled.
- Editing.JsonTree: nodes are values and not objects that are filled in place, and the ghost arguments stand for the parse that validated the text.
- CleanFile.CleanJson: a dropped hooks container is a flag beside the configuration and not a marker object inside it.
- `clean_toml`: it needs a TOML parser, and promises only what its own comparison checks.
- `inventory`, `safe_read` beyond the bytes and mode it compares, `main`: path tables, link checks and printing.
- Apply.ApplyChange: no other process writes meanwhile; the backup and temporary names are parameters; a sync is taken to keep what it says.
- Annotations.GetSuppressedLines: the audit records it returns beside the sets are not modelled, and warnings are the lines they name.
- Annotator.MergeOverlappingBlocks: annotations are values; that the merged one is the same object as the first planned one is not modelled.
- RoundTrip.AppliedIsSuppressed: asks that an inline-annotated line ends in carriage returns and line feeds only and has no block marker, that no line shown of a block has one before its end marker and that line does not read as a begin, and that prefix and types have no block marker or line end.
- Enclosing.BlockAnnotationExposes: for blocks whose first line has text and whose last line has an end; a whole plan is one such step after another, and what its steps expose together is not stated.
- Planning.PlanFileAnnotations: suppression is promised for lines that can take their annotations, as for RoundTrip.AppliedIsSuppressed; the enclosing string of a line and the scanner of a rule are parameters; reading the file and the choice of comment prefix are left out.
- Sessions.Step: a short write leaves a file that does not read, as no proper part of an object's text does; a file that is valid JSON but no object is not modelled; unlocked `cleanup` and `cleanup_session` are left out, as are systems without file locks and the in-memory daemon store.
- Provider.Step: the case of a request, the categories of its outputs and the count of clean results may be any; a random identity that repeats is not modelled; event formatting and HTTP are left out.
- Suppressing.ProgressiveSuppressor.Call: how a finding's sub-type is computed is left out; that progressive and exact scans lead to the same recommendations is not claimed.
- Policies.Merge: the order of a mapping's keys and keys that are not texts are not modelled; a fresh copy and the original are the same value.
- Versions.ParsersAgree: for printable ASCII; other spaces, digits and line ends are read differently by the two, and Python's limit on the number of digits of an integer, leading zeros included, is not modelled.
- IgnoreCache.Cache.LoadConfig: parsing and path validation are a parameter; one change at most falls into a load, and loads do not overlap; a write that fails changes nothing and is left out.
- Daemon state, scanners, dialogs, tool policy, hook protocol tables and the command line: not part of this model.
