# niceyaml in Dafny

A model of the pipeline that turns YAML tokens into lines, compares and searches them, and
paints them, with proofs of what that pipeline promises.

| module | what it models |
|---|---|
| `Lcs`, `EditScript`, `Hirschberg` | the diff engine: longest common subsequences, what an edit script is, and the engine with its two swapped rows, reused buffers and growing list of operations |
| `Position`, `DiffResult`, `Alignment`, `Differ` | spans with context, prefix sums, hunks as a patch, side-by-side rows, and the object that computes and keeps them |
| `Tokens`, `Splitter`, `Lines`, `Builder` | tokens with identity, segments, the builder that cuts a token stream at line feeds, the way back, and the queries for all places of a token |
| `Utf8`, `Search`, `ByteSearch`, `Source`, `Finder` | UTF-8 (section 3 of RFC 3629), iteration over positions and runes, overlays on lines, and the search over a byte index |
| `Blender`, `Separator`, `Painting`, `Printer` | the style cache with its packed keys, the white space before a value, what a painted line is, and the sweep that paints it |
| `Showing` | highlights and search results, from the call to the painted runes |
| `Revision` | the doubly linked list of revisions |
| `Seqs`, `Ints` | lists: flattening, repeating, selecting; the larger and the smaller number |

Where the program works in place, so does the model: the engine overwrites arrays, the builder,
the finder, the cache, a source and a revision are classes whose methods change their fields.
Every such method is proved against a function of its inputs (`EditScript.Diff`,
`Builder.AfterTokens`, `Alignment.Rows`, `Finder.RangesFrom`, `Painting.Fold`, ...), and the lemmas say what those
functions mean in terms that do not use them: which lines, in which order, at which places, with
which looks.

Some results are about where a promise ends. Each is an if-and-only-if, with an input at which the
promise fails:

| promise | holds if and only if | fails at |
|---|---|---|
| lines give back the token stream | no token directly follows itself (`Builder.RoundTrip`) | one token twice (`Builder.RepeatedTokenLost`) |
| cache keys of different combinations differ | keys stay below 2^31: the flag bit lies inside the shifted key of the base (`Blender.PackInjectiveUpTo`) | the key 2^31 (`Blender.PackCollides`) |
| content ranges do not end after a space | no carriage return comes between trailing spaces and the line feed (`Tokens.ContentSpanTrimmed`) | "ab", a space and a CRLF (`Tokens.SpaceKeptBeforeCrlf`) |
| a search comes to an end | it has nothing to look for or in, or its normal form is not empty; the code checks the raw search only (`Finder.FindEndsIff`) | a lone accent that the normaliser drops (`Finder.FindForAccentNeverEnds`) |
| cutting a range into lines keeps its positions | they are on its last line or below column 1 000 000 (`Position.SlicesCover`) | that column on the first of two lines (`Position.LastColumnsLost`) |
| neighbouring chunks of a line differ in style | wherever one text of the line ends and the next begins, base style or overlays change (`Painting.SomeNeighboursShareIff`) | two tokens of one kind (`Painting.TwoTokensOneStyle`) |
| a rune is painted at its own column | no CRLF is repeated after the line feed of its line (`Showing.PaintedAtItsColumnIff`) | "a" and a line feed on line 1, then a CRLF that says to be on line 2 (`Showing.CrlfMoves`) |
| after appending, every old revision is in the list it sees | the append was at the tip (`Revision.AppendKeepsListIff`) | any other append |

Where comments and code disagree, the model follows the code: `Init` says that the engine's rows need
room for the shorter input, but `Diff` fills as many entries as `after` has lines and one more, and
allocates again when `Init` made the rows too small (diff/hirschberg.go:31-41, 63-70).

How to read the contracts of the classes: `old(memo)` and the other ghost state record what has
been asked so far, so "over every run" is an invariant (`Valid`) that every method keeps.

## Model

| member | source | states |
|---|---|---|
| `Lcs.LengthIsUpperBound` | diff/hirschberg.go:184-196 | no common subsequence of two lists is longer than the recurrence that the two-row tables fill in |
| `Lcs.LengthIsAttained` | diff/hirschberg.go:184-196 | some common subsequence is as long as that recurrence says |
| `Lcs.SplitLower` | diff/hirschberg.go:117-131 | cutting both lists anywhere never gives more than the whole |
| `Lcs.SplitAttained` | diff/hirschberg.go:117-131 | for any cut of the first list some cut of the second loses nothing |
| `Lcs.DropFirst` | diff/hirschberg.go:225-237 | the table may as well be computed from the end: prefix and suffix recurrence agree |
| `EditScript.TransformsPatches` | diff/hirschberg.go:50-59 | a script that is valid by its cursors, replayed on `before`, yields `after` |
| `EditScript.KeepsAtMostLcs` | diff/hirschberg.go:50-59 | every valid script keeps at most as many lines as a longest common subsequence has, and its length is fixed by how many it keeps |
| `EditScript.CutIsUnique` | diff/hirschberg.go:117-127 | the first maximiser is the only cut with no larger score anywhere and only smaller ones before it |
| `EditScript.CutIsOptimal` | diff/hirschberg.go:111-127 | the chosen cut divides the longest common subsequence without loss |
| `EditScript.DropFinalInsert` | diff/hirschberg.go:117-127 | an optimal script that ends in an insertion stays optimal without its last line, which an earlier cut would have used |
| `EditScript.LeftEndsWithoutInsert` | diff/hirschberg.go:117-131 | since ties go to the first maximiser, an optimal left half never ends in an insertion |
| `EditScript.HalvesCanonical` | diff/hirschberg.go:129-131 | joining optimal halves in normal form at the chosen cut keeps optimality and normal form |
| `EditScript.DiffCanonical` | diff/hirschberg.go:60-167 | for all inputs the script is valid, keeps exactly the longest common subsequence, and never has an insertion directly before a deletion |
| `EditScript.DiffPatches` | diff/hirschberg.go:50-75 | replaying the script on `before` yields `after` |
| `EditScript.DiffMinimal` | diff/hirschberg.go:50-75 | no valid script for the same two lists has fewer operations |
| `EditScript.OneLineKeepsFirst` | diff/hirschberg.go:136-167 | a single line is matched with the first equal one |
| `EditScript.DiffOfHalves` | diff/hirschberg.go:79-132 | the script of two lists is that of the first half of `before`, as a list of its own, with what comes before the first best cut of `after`, and then that of the rest, moved: together with the one-line case this leaves one script only |
| `Hirschberg.Engine.Init` | diff/hirschberg.go:34-48 | the rows have room for the shorter input and one more, the list for both, neither ever shrinks, and the engine stays usable |
| `Hirschberg.Engine.Diff` | diff/hirschberg.go:60-75 | after any history of calls the operations returned are exactly those of `EditScript.Diff` |
| `Hirschberg.Engine.Recurse` | diff/hirschberg.go:79-132 | appends exactly the script of the sub-rectangle to the operations already there |
| `Hirschberg.Engine.Split` | diff/hirschberg.go:111-127 | the two passes and the scan for the best score find the unique first maximiser |
| `Hirschberg.Engine.SingleBeforeLine` | diff/hirschberg.go:136-167 | the base case: deletion before insertions, or the first equal line kept |
| `Hirschberg.Engine.Forward` | diff/hirschberg.go:175-208 | entry j is the longest common subsequence of the upper half and the first j lines, in spite of the row swaps |
| `Hirschberg.Engine.Backward` | diff/hirschberg.go:216-249 | entry k is the longest common subsequence of the lower half and the last k lines |
| `Position.ContainsIsHalfOpen` | position/position.go:68-81 | the two early exits amount to the half-open interval of the lexicographic order |
| `Position.SliceLines` | position/position.go:89-122 | one slice for every line of the range, in order |
| `Position.SlicesCover` | position/position.go:89-122 | the slices together contain exactly the positions of the range, but for columns beyond the limit on lines before the last |
| `Position.LastColumnsLost` | position/position.go:101-117 | a two-line range contains column 1 000 000 of its first line, and none of its slices does |
| `Position.OverlapsIsCommonPoint` | position/position.go:146-152 | two spans overlap exactly when some point is in both |
| `Position.GroupIndices` | position/position.go:268-294 | the loop that extends the last span computes the recursive grouping |
| `Position.HunkSpansExact` | position/position.go:162-194 | for sorted indices, grouping, expanding and clamping give non-empty spans with a gap between neighbours, which cover exactly the points within the context of some index |
| `Position.SeparatedUnique` | error.go:338-358 | such a list of spans is determined by what it covers: it is the only list of maximal runs |
| `Position.RangeIsSum` | position/position.go:297-321 | the difference of two prefix sums is the sum of the values between them |
| `DiffResult.DiffSides` | diff.go:90-126 | for any valid script, leaving out insertions shows `before` line for line, leaving out deletions is `after` |
| `DiffResult.ScriptShowsLines` | diff.go:107-124 | every operation shows the next line of its own side: deletions the line before itself, all others the line after itself |
| `DiffResult.SumsLocate` | diff.go:72-79 | a prefix sum is where an operation's lines start in its side, and a range of sums is how many they are |
| `DiffResult.SelectHunkSpans` | diff.go:453-471 | the spans of the changes, with context and clamped |
| `DiffResult.HunkSpansAreMaximalRuns` | diff.go:453-471 | hunks are the maximal runs of operations within the context of a change |
| `DiffResult.GapAgrees` | diff.go:178-203 | between hunks both sides read the same |
| `DiffResult.HunksPatch` | diff.go:416-420 | for every context, putting each hunk's after-part in the place of its before-part, by the header's numbers alone, rebuilds `after` |
| `Differ.DiffHunksPatch` | diff.go:178-203 | the same for the diff of any two lists of lines by any algorithm whose scripts are valid |
| `Differ.Differ.Diff` | diff.go:66-87 | any engine history, any two lists of lines: the result holds the specified operations and their sums |
| `Differ.Result.Hunks` | diff.go:178-203 | no lines without changes; otherwise every operation's flagged line, and on exactly the first line of each hunk, after its own annotations, a header; the numbers printed in the headers patch `before` into `after` |
| `Differ.Result.Unified` | diff.go:160-165 | every operation's own line, flagged as deleted, inserted or not at all |
| `Differ.Result.GetAlignedRows` | diff.go:229-299 | computed at most once and the same at every call |
| `Differ.Result.Before` | diff.go:314-334 | one line for every row: the one on its left, or an empty line where there is none |
| `Differ.Result.After` | diff.go:337-346 | one line for every row: the one on its right, or an empty line where there is none |
| `Differ.Result.Stats` | diff.go:206-222 | how many operations insert and how many delete |
| `Differ.DiffStats` | diff.go:206-222 | with an optimal script these numbers are the sizes of the two sides less a longest common subsequence |
| `Alignment.CollectConsecutive` | diff.go:350-359 | the longest run of one kind from an index on |
| `Alignment.ComputeRows` | diff.go:229-299 | the index loop draws the recursive pairing, with an empty line wherever a side has none |
| `Alignment.LoneRow` | diff.go:239-246 | an unchanged line has a row of its own, on both sides, and so has an insertion that follows no deletion, on the right |
| `Alignment.ChangeRows` | diff.go:248-281 | of deletions and the insertions after them, the j-th deletion and the j-th insertion share the j-th row |
| `Alignment.RowsShowBothSides` | diff.go:229-299 | without placeholders each column is one side of the diff, complete, in order and flagged |
| `Alignment.UnchangedRowsAreEqual` | diff.go:229-299 | rows with an unflagged line on both sides are those of the unchanged operations, in order |
| `Alignment.RowCount` | diff.go:229-299 | in normal form a block of changes takes as many rows as the larger of its two numbers |
| `Differ.DiffSideBySide` | diff.go:301-346 | for any two lists of lines, also with lines without tokens, and any optimal script in normal form: both columns show their side, the unchanged rows are a longest common subsequence, and no row is wasted |
| `Differ.SideBySide` | diff.go:301-346 | for any engine history and any two lists of lines: the left column holds all lines before in order and placeholders, a deleted line itself and flagged; the right column all lines after, themselves; and an unflagged line stands next to itself |
| `Differ.DiffOpsCanonical` | diff.go:49-57 | the script of the algorithm used by default is one of these |
| `Tokens.SourceTokens` | tokens/tokens.go:144-162 | the data of the first segment's token of every run of segments of one token, in order |
| `Tokens.DedupKeepsFirsts` | tokens/tokens.go:149-159 | collapsing a list of tokens keeps the first of every run, in order, and nothing else |
| `Tokens.DedupLossless` | tokens/tokens.go:144-162 | collapsing runs loses nothing if and only if no token follows itself |
| `Tokens.SourceTokenAt` | tokens/tokens.go:215-228 | the owner of a column |
| `Tokens.OwnerOfColumn` | tokens/tokens.go:215-228 | segments lie next to each other in order, and each owns exactly its own columns |
| `Tokens.NoOwnerOutside` | tokens/tokens.go:215-228 | other columns have no owner |
| `Tokens.TokenRangesAt` | tokens/tokens.go:240-269 | the places of the owner of the queried cell on all lines |
| `Tokens.TokenRangesAreOwnershipClass` | tokens/tokens.go:240-269 | these ranges are disjoint and ascending, cover exactly the cells with the same owner, and any covered cell gives the same answer |
| `Tokens.OneRangePerSegment` | tokens/tokens.go:240-325 | the answer is, in order, one range for every segment of the token with columns to contribute, and where its columns are |
| `Tokens.ContentRangesAt` | tokens/tokens.go:286-325 | the trimmed places of the owner of the queried cell |
| `Tokens.ContentSpanTrimmed` | tokens/tokens.go:271-280 | trimming leaves no space at the start, and none at the end unless a carriage return follows it, which is when there is one |
| `Tokens.SpaceKeptBeforeCrlf` | tokens/tokens.go:306-314 | the content of "ab" with a space and a CRLF after it ends in the space |
| `Tokens.ContentInsideTokenRanges` | tokens/tokens.go:286-325 | every content range lies in a range of the token query, on the same line |
| `Tokens.ContentRangesAreOwnedContent` | tokens/tokens.go:286-325 | content ranges are disjoint and ascending, and cover exactly the cells of the queried cell's owner that are in the content of their segment |
| `Tokens.ContentSpanExact` | tokens/tokens.go:306-314 | a column is in the content if and only if something other than a space stands at or before it and at or after it; before a CRLF the content has one column more |
| `Splitter.SplitOriginIntoParts` | line/builder.go:491-507 | splitting and dropping empty strings gives the parts of the origin |
| `Splitter.PartsAreLines` | line/builder.go:484-507 | glued together the parts are the origin; a line feed occurs only at the end of a part, and every part but the last ends in one |
| `Splitter.FindLastContentPartIndex` | line/builder.go:513-521 | the last part that is not a bare line feed, or the last part |
| `Splitter.ExactlyOneCarriesValue` | line/builder.go:528-534 | one part, and only one, is told to carry the value |
| `Splitter.SimpleIsOnePart` | line/builder.go:340-345 | the tokens that may open a gap are exactly those that are not cut |
| `Builder.PartColumnAndValue` | line/builder.go:386-400 | the value goes only where it should; the first content part and the one with the value have the token's column |
| `Builder.NewPart` | line/builder.go:225-315 | the part's origin, type and value; of a token that is cut, the part that keeps the token's position; all others are on the line being filled, at the token's column, at column 1, or after all others |
| `Builder.LinesBuilder.constructor` | line/builder.go:34-72 | starts at the first position's line, counted back by the line feeds before the first token's content |
| `Builder.StartLineExact` | line/builder.go:43-52 | without a position line 1; else the position's line, less the line feeds among the line endings that the origin begins with, as long as a line above 0 is left |
| `Builder.LinesBuilder.AddToken` | line/builder.go:75-118 | for an arbitrary token, adds one non-empty group of segments, each of them fixed by the token and by what is in place already, puts each where the rules say, and nothing else; every line break and number stays explained, no token comes too late, and after a line feed only repeated line endings follow |
| `Builder.LinesBuilder.ProcessPart` | line/builder.go:168-336 | puts the part right after what came before it; a duplicate line feed goes to the line closed last and nothing else does |
| `Builder.AfterSegmentsExact` | line/builder.go:168-336 | a token's first segment ends the line closed last exactly when it is a bare line feed or CRLF, the token before has ended in a line feed and the token says that it is on the line to be filled, and then no number changes; otherwise it follows the line being filled, and so do all its other segments; a line ends at every line feed and nowhere else |
| `Builder.PrevEndedExact` | line/builder.go:116-118 | whether the last token's origin ends in a line feed is what is remembered |
| `Builder.PartSegmentExact` | line/builder.go:179-205 | a line ending that joins the line closed last has no value and is on the line before the next one, after all others |
| `Builder.PartTokenExact` | line/builder.go:225-281 | origin, value and type of every part, and the position of a token that is not cut |
| `Builder.CutPartPositionExact` | line/builder.go:283-315 | which part of a token that is cut keeps its position, and where the others are |
| `Builder.FollowsBlockHeaderIff` | line/builder.go:452-472 | going back from a block scalar's content, the first token that is no comment is a literal or folded header |
| `Builder.LinesBuilder.HandleGap` | line/builder.go:340-371 | a jump in line numbers of two or more leaves the line, emits and loses nothing, and never goes back |
| `Builder.AfterGapExact` | line/builder.go:340-371 | a token with a line feed inside, or without a position, changes nothing; any other, if it is further down, moves an empty line to its own number, and leaves one being filled if it skips a number |
| `Builder.LinesBuilder.Build` | line/builder.go:121-134 | returns the lines closed and the one being filled; they hold all segments emitted, and every break and number is explained |
| `Builder.BuiltIsPlain` | line/builder.go:121-134 | the line being filled becomes the last one, and no line has a flag, overlays or annotations |
| `Builder.NewLines` | line/line.go:251-266 | for any token stream, the lines are those that the rules for gaps, line feeds and repeated line endings make of it, token by token; no line is empty; a line ends only at a line feed, and then the next number follows, or at a gap, and then the number is the line of a token; numbers increase strictly, from 1 if the first position allows |
| `Builder.PlacedUnique` | line/builder.go:75-118 | these rules leave no choice: the stream alone determines segments and lines |
| `Builder.ExplainedIncreases` | line/builder.go:121-149 | lines whose breaks are so explained are numbered upwards |
| `Lines.TokensOf` | line/line.go:269-281 | over all lines, the data of the first segment's token of every run of segments of one token, in order |
| `Builder.CutRecovers` | line/line.go:266-281 | what the segments collapse to depends only on the tokens they were cut from |
| `Builder.CutConserves` | line/builder.go:168-336 | the part origins in line order are the token origins: no character is lost, added or moved |
| `Builder.RoundTrip` | line/line.go:251-281 | lines give back a stream equal in value if and only if no token in it follows itself, and always give back its text |
| `Builder.CutAndRead` | line/line.go:251-281 | cutting any stream into lines and reading it back gives the data of the first token of every run, in order; without neighbours that are the same token, that is every token's data at its own place |
| `Builder.RepeatedTokenLost` | tokens/tokens.go:144-162 | a token that is there twice in a row comes back once |
| `Builder.NoNewlineInContent` | line/line.go:66-81 | no line's content contains a line feed |
| `Builder.ValueOnExactlyOneSegment` | line/builder.go:386-400 | a token with content and a value has that value on exactly one of its segments, and the others have none |
| `Lines.BuildContent` | line/line.go:70-81 | strips one line ending from every segment |
| `Lines.ContentIsStripped` | line/line.go:66-81 | a line's content is the origins of its segments, each less one line feed, carriage return or CRLF at its end |
| `Lines.Validate` | line/line.go:403-474 | no complaint if and only if line numbers that are given increase from 0, all parts of a line name one source line, and the columns of those that take room increase from 0; otherwise the complaint is about the first line, and the first part on it, where one of these fails |
| `Lines.NeverNotIncreasing` | line/line.go:403-421 | lines numbered as the builder does never get the complaint about line numbers |
| `Utf8.DecodeEncode` | find.go:127-133 | decoding undoes encoding, whatever bytes follow |
| `Utf8.EncodingTable` | find.go:127-133 | how many bytes a character takes, how they begin, and that their other bits are the character's |
| `Utf8.PrefixOfEncoding` | find.go:166-171 | an encoded text is a prefix of another exactly when the text is |
| `Utf8.LeadByteStartsCharacter` | find.go:115-136 | a byte starts a character if and only if it is not a continuation byte |
| `Utf8.NextCharacter` | find.go:127-133 | decoding at the start of a character gives it and leads to the start of the next |
| `Utf8.RuneCount` | find.go:157 | counting decoded runes counts the characters |
| `Source.CellsAreAscending` | source.go:339-386 | positions increase strictly along the runes |
| `Source.CellsExact` | source.go:339-386 | there is a cell for every column of every line, with the rune there, and no other |
| `Source.LineTextIsOrigins` | source.go:366-381 | the columns of a line run through the origins of its segments, one after the other |
| `Source.CellsInExact` | source.go:345-356 | of a range, exactly the cells inside it, in order |
| `Source.ForEachRange` | source.go:339-386 | several ranges give what each of them gives, one after the other |
| `Source.LinesInExact` | source.go:306-334 | of a span, the lines from its start to its end, each at column 0 of its own place |
| `Source.ForEachSpan` | source.go:306-334 | several spans give what each of them gives, one after the other |
| `Source.Source.AllRunes` | source.go:339-386 | all runes, or for each range the runes whose position lies in it |
| `Source.Source.AllLines` | source.go:306-334 | all lines, or for each span the lines inside it, in order |
| `Source.Source.AddOverlay` | line/line.go:478-486 | appends to each line the overlays its highlights put there, in order, and changes nothing else |
| `Source.Source.AddOverlayRange` | line/line.go:489-497 | one overlay for every line of the range |
| `Source.OverlaysForExact` | line/line.go:489-497 | the overlay starts at the range's first column on its first line, ends at its last on its last line, and takes all columns below the limit otherwise |
| `Source.Source.ClearOverlays` | line/line.go:500-504 | no overlay is left, and nothing else changes |
| `Source.OverlaysAreHighlights` | line/line.go:476-497 | below the column limit the overlays that cover a column are, in order, the highlights whose range contains that position |
| `Source.ContainingInOrder` | line/line.go:476-497 | these are exactly the highlights that contain the position, in the order in which they were added |
| `Finder.MatchesAreLeftmost` | find.go:159-183 | the matches do not overlap, all occur, and every occurrence meets one that starts no later |
| `ByteSearch.ByteMatchOnBoundary` | find.go:165-177 | a byte match starts at a character if and only if the pattern's first byte is not a continuation byte |
| `ByteSearch.IndexIsFirstMatch` | find.go:165-169 | the byte search from a boundary finds the first match of the characters, at that character's offset |
| `Finder.BuildByteToRuneIndex` | find.go:117-136 | at the start of each character and at the end the table holds the number of characters before it |
| `Finder.PositionMap.Lookup` | find.go:255-269 | the binary search finds the entry with the largest index up to the one asked for |
| `Finder.Finder.Load` | find.go:102-114 | the index is that of the normalised stream of the source, unless the same source was loaded last |
| `Finder.Finder.BuildSourceAndPositionMap` | find.go:195-238 | text and position map both describe the stream, where every normalised rune has its original position |
| `Finder.StreamIsForms` | find.go:212-233 | the searched text is the normal forms of all runes, one after the other, and every rune of a normal form has the position of the rune it stands for |
| `Finder.FoundInForms` | find.go:143-186 | so with a normaliser the ranges found are the leftmost occurrences of the search's normal form in those normal forms, from the position of the first rune to one past that of the last |
| `Finder.StreamWithoutNormalizer` | find.go:216-224 | without a normaliser the stream is the source itself |
| `Finder.Finder.Find` | find.go:143-186 | terminates with exactly the ranges of the naive leftmost search on the normalised stream |
| `Finder.RangesOfMatches` | find.go:173-180 | there is one range for every match, in order, from its first position to one past its last |
| `Finder.SearchEndsIffNotEmpty` | find.go:160-183 | the loop comes to an end after some number of rounds if and only if the pattern is not empty |
| `Finder.FindEndsIff` | find.go:143-183 | so a search of a loaded source ends if and only if the raw search or the text is empty, or the normalised search is not |
| `Finder.FindForAccentNeverEnds` | find.go:147-183 | with a normaliser that drops an accent, the search for the accent alone never ends |
| `Finder.InMatchRange` | find.go:173-180 | a cell lies inside the range of a match if and only if it is one of its cells |
| `Finder.FoundRangesHoldSearch` | source.go:339-386 | without a normaliser, iterating over a range that was found yields the search text |
| `Blender.PackIsFields` | internal/colors/colors.go:164-173 | below 2^31 shifting and or-ing put three fields side by side |
| `Blender.PackCollides` | internal/colors/colors.go:164-173 | at 2^31 override and blend share a key |
| `Blender.PackInjectiveUpTo` | internal/colors/colors.go:164-173 | keys are injective below a limit if and only if it is at most 2^31 |
| `Blender.HitIsSame` | internal/colors/colors.go:187-191 | a hit answers the very combination asked for |
| `Blender.NewAnswerDiffers` | internal/colors/colors.go:193-203 | different combinations never share an answer |
| `Blender.Blender.Key` | internal/colors/colors.go:151-161 | a style keeps its key, and no two share one |
| `Blender.Blender.Blend` | internal/colors/colors.go:181-204 | the overlay replaces the base if told to override and blends with it if not; asked again the result is the same pointer, and every earlier answer stands |
| `Painting.ComputeStyleBoundaries` | print.go:640-661 | strictly ascending from start to end, and between them exactly the edges of overlays |
| `Painting.StylesConstant` | print.go:634-661 | between neighbouring boundaries the overlays in force do not change |
| `Printer.Printer.constructor` | print.go:95-103 | a printer has a cache of its own, in which no style of the sheet is an answer; every method keeps that |
| `Printer.Printer.ComputeStyleForPoint` | print.go:671-690 | the ordered fold of the overlays that contain the point |
| `Painting.StylesAtInOrder` | print.go:671-690 | the overlays of the fold are exactly those that contain the point, in order |
| `Painting.FoldLookLayers` | print.go:671-690 | unless always blending, the first overlay replaces the look below it and every other one blends with what is below; always blending, all of them do |
| `Painting.AddPiece` | print.go:612-631 | merging by pointer keeps the text and every rune's style, and neighbours stay different |
| `Printer.Printer.StyleLineWithRanges` | print.go:550-634 | the chunks are the text, none of them empty; each rune has the fold of all overlays that contain its column; neighbouring chunks differ in style |
| `Printer.Printer.RenderToken` | print.go:731-762 | adds the chunks of the separator and of the content, each as one part, where the line ends so far |
| `Printer.Printer.RenderTokenLine` | print.go:721-765 | the chunks of a line fall into one part for every text that is not empty; no chunk is empty, neighbours within a part differ in style, and each rune has the fold of all overlays that contain its column over the base style of its text |
| `Painting.LineTextsExact` | print.go:731-762 | the texts are every token's separator and the rest of it, unless empty |
| `Painting.RenderedIsTexts` | print.go:736-745 | together they are the origins of the line's tokens, each without the line feed at its end |
| `Painting.LineBasesAreConcat` | print.go:731-762 | every token's runes have that token's base styles |
| `Painting.BasesOfExact` | print.go:731-762 | which are the default style for its separator and the style of its kind for the rest |
| `Painting.ChunksSpelledOut` | print.go:612-631 | every rune has the style of its chunk |
| `Painting.FoldLooksRight` | print.go:671-690 | a fold through the cache looks like the fold without a cache |
| `Painting.FoldInjective` | print.go:663-690 | folds over different base styles or overlays give different pointers |
| `Painting.SameStyleIff` | print.go:663-670 | two runes have the same pointer if and only if they have the same base style and the same overlays |
| `Painting.LineNeighboursShareIff` | print.go:721-765 | anywhere on a line, also between two tokens, neighbouring chunks share a style if and only if base style and overlays are the same on both sides of the border |
| `Painting.SomeNeighboursShareIff` | print.go:721-765 | some neighbouring chunks of a line share a style if and only if, from one of its texts to the next, base style and overlays stay the same, which can be told before painting |
| `Painting.TwoTokensOneStyle` | print.go:731-762 | two tokens of one kind without overlays are two chunks of one style |
| `Painting.HighlightsShow` | print.go:721-765 | a painted rune has the style, and the look, of the ordered fold of exactly the highlights whose range contains its position |
| `Showing.AddHighlights` | line/line.go:476-504 | after clearing, any calls leave on each line the overlays of all their highlights, in order, and change nothing else |
| `Showing.HighlightAndRender` | print.go:721-765 | clear, highlight anything with any calls, render: every rune below the column limit looks like the fold of exactly the highlights that contain its position |
| `Showing.ShownLayers` | print.go:663-690 | so the look of a rune is its token's, replaced by the style of the first highlight added with its position inside, and blended with those of all further ones in order |
| `Showing.AllHighlightsInOrder` | line/line.go:476-504 | which are the highlights of all calls, one call after the other |
| `Showing.PaintedAtItsColumnIff` | print.go:736-745 | every painted rune of a line of the builder is the one at its column if and only if no CRLF is repeated after the line's line feed |
| `Showing.CrlfMoves` | line/builder.go:179-205 | of "a" and a line feed on line 1 and a CRLF that says to be on line 2 the builder makes one line, where the carriage return is cell 2 and is painted at column 1 |
| `Showing.PaintedRuneIsFoundCell` | source.go:345-356 | on any other line each painted rune is that of the cell at its column |
| `Showing.RunesAreTheStream` | source.go:339-386 | iterating over the lines made of a token stream gives the text of the stream, rune by rune |
| `Showing.ContainingFound` | find.go:159-183 | a position lies in the range of at most one match, and in that one if and only if its cell is part of it |
| `Showing.StreamInOrder` | find.go:212-238 | after normalising, positions never go back, and all runes of one normal form share a position |
| `Showing.MatchRangeHolds` | find.go:173-180 | so with any normaliser a range that was found holds exactly the positions from its match's first rune to its last |
| `Showing.LoadAndFind` | find.go:102-186 | a source that was loaded before is not indexed again, and the answer is the same |
| `Showing.FoundNormalised` | find.go:102-186 | what a loaded source is searched for and where it is found, in terms of the normal forms of its runes |
| `Showing.SearchAndRender` | find.go:102-186 | load, find, highlight what was found, render, and again, as often as wanted, for any normaliser: what is painted is the highlights of exactly the ranges found; without a normaliser, exactly the runes that were found have the search style over their token's, and all others look as before |
| `Separator.LeadingWhitespaceRunes` | print.go:773-784 | works on bytes and answers in characters |
| `Separator.WidthIsBlankBeforeValue` | tokens/tokens.go:331-342 | n > 0 characters of white space precede the byte offset of the value if and only if the value first occurs n characters into the first line, after white space only |
| `Separator.LeadingIsWidth` | print.go:736-737 | so what is computed on bytes is the separator in characters |
| `Separator.BlankExact` | print.go:773-784 | white space is spaces and tabs |
| `Revision.OneView` | revision.go:3-17 | the links alone determine what a node sees before it, after it and from the origin |
| `Revision.AllSeeTheList` | revision.go:3-17 | in a list every node sees its two parts of it, and all of it from the origin |
| `Revision.ListHasNoRepeats` | revision.go:3-17 | no node is in a list twice |
| `Revision.SameAnswers` | revision.go:36-149 | so in a list every node gives the same length, names, origin and tip, its own place, and steps lead n places away or to the nearest end |
| `Revision.Revision.Seek` | revision.go:38-62 | lands on the node n away by the links in that direction, or on the last one there |
| `Revision.Revision.Tip` | revision.go:65-72 | the last node ahead |
| `Revision.Revision.Origin` | revision.go:75-82 | the first node back |
| `Revision.Revision.At` | revision.go:87-89 | the node at an index ahead of the origin, or the nearest end |
| `Revision.Revision.Names` | revision.go:102-119 | the names of all nodes ahead of the origin, in order |
| `Revision.Revision.Index` | revision.go:122-133 | how many nodes there are back |
| `Revision.Revision.Len` | revision.go:136-149 | the nodes back and ahead together |
| `Revision.Revision.AtTip` | revision.go:92-94 | whether nothing lies ahead |
| `Revision.Revision.AtOrigin` | revision.go:97-99 | whether nothing lies back |
| `Revision.Revision.Append` | revision.go:152-160 | after any history, also to a node that was cut off: says what every node sees from then on, and the new one |
| `Revision.Revision.Prepend` | revision.go:164-172 | after any history, also to a node that was cut off: says what every node sees from then on, and the new one |
| `Revision.AppendToList` | revision.go:152-160 | in a list the nodes up to the one appended to now end in the new node, and those cut off list it but do not reach it |
| `Revision.PrependToList` | revision.go:164-172 | in a list the nodes from the one prepended to on now start with the new node, and those cut off keep their view |
| `Revision.NewNodeEndsList` | revision.go:152-160 | the new node ends a list: that up to the node it was appended to |
| `Revision.NewNodeStartsList` | revision.go:164-172 | the new node starts a list: that from the node it was prepended to on |
| `Revision.AppendAtTip` | revision.go:152-160 | at the tip every old node sees the list with the new node at its end |
| `Revision.AppendKeepsListIff` | revision.go:152-160 | every old node is in the list it sees if and only if the append was at the tip |
| `Revision.AppendLengths` | revision.go:136-160 | nodes cut off still count the old length; length and number of names agree for all nodes if and only if at most one was cut off |
| `Revision.PrependKeepsListIff` | revision.go:164-172 | length and names agree for every node, and every old node sees the new one if and only if it was prepended to the origin; those cut off see the old list |

## Left out

- Texts are lists of Unicode scalar values; invalid UTF-8 in a source or in a search is not represented.
- Integers are unbounded, except for the 64-bit keys of the style cache.
- Mutexes and `sync.Once`: the sequential behaviour only. Iterators return everything at once; stopping early is not modelled.
- A token's `Offset`, `IndentNum`, `IndentLevel`, `CharacterType`, `Indicator` and `Error`, and the tracking of indentation in the builder: they mirror quirks of the lexer.
- A token's `Prev` chain is the finite list of the types on it; nil tokens and nil parts do not occur, as nothing in the program makes a segment without them.
- Pre-allocated capacities, except those of the engine's buffers and operations.
- The columns and line numbers that the builder gives to parts are stated exactly (`Builder.PartToken`), but not for which streams they satisfy `Validate`.
- Hirschberg.Engine.Diff: returns a snapshot of the operations; the slice that the program returns shares its memory with the engine, so the next call overwrites it.
- Hunk headers stand for their four numbers; their text, which prints counts 0 and 1 alike away from line 1, is formatting.
- Finder.Finder.Find: requires a search that is not empty to have a normal form that is not empty, because the program's loop never ends otherwise.
- Source.Source.AddOverlay: requires ranges on lines that exist, since the program indexes out of bounds for others; ranges that end more than one line above their start make it panic, too.
- Blender.Blender.Blend: requires room for three more keys below 2^31; beyond it the cache can answer with another combination's style. What is painted requires as much room as all its combinations could take.
- How colours are mixed is left open: a look is the term of the combinations that made it, so what is proved holds for every way of mixing.
- Two guards in the painting loop that can never hold, the escaping of control characters and the terminal codes of a style.
- Which kind of style a token has is an arbitrary function of the line's tokens and the token's index.
- The normaliser is an arbitrary function from text to text.
- `slices.Sort`, `strings.SplitAfter`, `strings.Index` and `sort.Search` are library functions, modelled by functions of the same meaning.
- Word wrapping, gutters, the layout of annotations, themes, and the viewport.
- The YAML lexer, parser and decoder, paths, encoding, schemas and their loading, and the resolution of error positions.
