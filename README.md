# Korean learning tool: the practice engine and the pages around it

This project models the front end of a Korean learning web application. The front end is a set of React pages over a small persisted store.

- **The "AI Barista" analysis engine** (`Barista`). It takes the character diff between a target sentence and what the learner typed. It walks the diff and reports one correction per discrepancy: a particle confusion, a spacing mistake, a spelling mistake, missing text or extra text. It scores the attempt from 0 to 100 and picks one of eight feedback tiers.
- **The user store** (`UserStore`). It holds the profile, the settings, the points and level, the join date, the typing history and the saved mistakes. Its actions are modelled as a class whose methods update those fields.
- **The typing drill** (`Typing`). Ordering a "coffee" (genre, difficulty, batch size), brewing, typing ("tasting") and the receipt form a state machine. Around it sit the live accuracy, the clock display, the points earned, and the records that a finished sentence writes to the store.
- **The vocabulary page** (`Vocabulary`). It merges the built-in word lists with imported words, deduplicating them by normalised Korean text. It imports words from CSV or JSON, and it runs the flash-card session.
- **The profile page** (`ProfilePage`). It computes the practice streak, the activity heat map and its colour buckets, the top speed, the chart window, the calendar and the latest mistakes.
- **The grammar page** (`Grammar`). It selects a category and rule from the URL parameters, filters the sidebar by search, and grades practice answers with the engine at 0 wpm.

The JavaScript string operations the pages use live in `Text`: `trim`, `toLowerCase`, `includes`, `split`, `padStart` and number printing. `Common` holds the optional value.

The diff library (diff-match-patch with semantic cleanup) is not part of this model. Its result is an input, constrained only by `ValidDiff`: the spans rebuild the target and the input. Clocks, random choices and generated ids are parameters too.

Where the code and its design description differ, the model follows the code:

- **Empty input.** An empty answer to a target of n characters is one missing correction. It scores round((n - 1) * 100 / n), which is 0 only when n = 1 (`Barista.EmptyInput`).
- **Typing into an empty target.** This is one extra correction. By the same formula it scores 0 only for a one-character input (`Barista.EmptyTarget`).
- **A dropped space.** When nothing is typed in its place, the diff is a lone deletion. It is reported as missing text, not as a spacing mistake (`Barista.DroppedSpaceIsMissing`).
- **A single mistake.** It does not always lower the score: from 200 characters on, one mistake still rounds to 100 (`Barista.OneMistakeCanStillScorePerfect`).
- **Saved mistakes.** Every correction is saved as a mistake record, missing and extra ones included. This holds although the record type names only spelling, particle, spacing and unknown.
- **Imported level.** An import keeps the document's level even when it disagrees with its points, and it does not recompute the level (`UserStore.ImportKeepsInconsistentLevel`).

## Model

| member | source | states |
|---|---|---|
| Common.FirstIndex | frontend/src/pages/Grammar.tsx:26 | the index found is that of the first element satisfying the test, and when none is found no element satisfies it; the four `find`/`findIndex` searches of the pages are instances |
| Barista.Walk | frontend/src/utils/aiBarista.ts:23-89 | defines the corrections the loop reports, span by span from a cursor; its properties are WalkWellShaped, WalkAccountsForEveryEdit, WalkPositions, WalkPositionIsCursor, WalkCount and WalkAt |
| Barista.RoundDiv | frontend/src/utils/aiBarista.ts:93 | defines `Math.round(n / d)` on integers; RoundDivNearest, RoundDivMonotone, RoundPercentBounds and RoundDivExact state its meaning |
| Barista.Score | frontend/src/utils/aiBarista.ts:92-93 | defines the score as the rounded share of correct characters over the longer sentence, floored at 0; ScoreBounds, ScorePerfect and ScoreMonotone state its properties |
| Barista.Classify | frontend/src/utils/aiBarista.ts:41-66 | a substitution is a particle error exactly when either side is one of the fifteen particles; it is a spacing error exactly when it is not a particle error and a lone space was replaced by something else; otherwise it is spelling; a substitution is never missing or extra |
| Barista.WalkWellShaped | frontend/src/utils/aiBarista.ts:28-89 | every reported correction has its kind's shape: missing has no actual text, extra has no expected text, spacing reports the space marker for a space replaced by something else, and particle involves a particle on one side |
| Barista.WalkAccountsForEveryEdit | frontend/src/utils/aiBarista.ts:28-89 | nothing is lost or invented: the actual texts of the corrections, in order, are exactly the inserted text of the diff, and the expected texts (a space for the marker) are exactly the deleted text |
| Barista.WalkPositions | frontend/src/utils/aiBarista.ts:26-89 | every correction lies between the starting cursor and the cursor after all equal spans, and positions never decrease along the list |
| Barista.PositionsWithinTarget | frontend/src/utils/aiBarista.ts:26-34 | every position is an offset into the target sentence: none exceeds its length |
| Barista.WalkPositionIsCursor | frontend/src/utils/aiBarista.ts:26-34 | each correction's position is the total length of the equal spans before the edit it reports |
| Barista.WalkCount | frontend/src/utils/aiBarista.ts:36-88 | the number of corrections lies between half the number of edit spans and that number: a delete-insert pair is one correction and every other edit is one |
| Barista.WalkAt | frontend/src/utils/aiBarista.ts:28-89 | one loop step at span i: an equal span advances the cursor; a deletion followed by an insertion is one substitution and skips both; a lone deletion is missing text; an insertion is extra text |
| Barista.InsertBeforeDeleteIsTwoCorrections | frontend/src/utils/aiBarista.ts:36-88 | an insertion followed by a deletion does not pair up: it is extra text then missing text at one position |
| Barista.WalkAllEqual | frontend/src/utils/aiBarista.ts:31-34 | a diff of equal spans only reports nothing, and its two sentences coincide |
| Barista.AllEqualIsPerfect | frontend/src/utils/aiBarista.ts:18-93 | when the diff is all matches, the input is the target, there is no correction and the score is 100 |
| Barista.EmptyInput | frontend/src/utils/aiBarista.ts:68-93 | an empty answer to a non-empty target is one missing correction of the whole target at position 0; the score is 0 exactly when the target has one character and at least 50 otherwise |
| Barista.EmptyTarget | frontend/src/utils/aiBarista.ts:79-88 | typing into an empty target is one extra correction of the whole input at position 0 |
| Barista.ParticleConfusionExample | frontend/src/utils/aiBarista.ts:42-49 | 나은 typed for 나는 is one particle correction at position 1, expecting 는 and reading 은; one mistake in seven characters scores 86, which draws the decent tier |
| Barista.DroppedSpaceIsMissing | frontend/src/utils/aiBarista.ts:68-77 | a space left out with nothing in its place is reported as missing text at the space's position, not as a spacing error |
| Barista.RoundDivNearest | frontend/src/utils/aiBarista.ts:93 | the rounding is to the nearest integer, halves going up, as `Math.round` does |
| Barista.RoundDivMonotone | frontend/src/utils/aiBarista.ts:93 | rounding is monotone in the numerator |
| Barista.RoundPercentBounds | frontend/src/utils/aiBarista.ts:93 | a rounded percentage of a ratio within [0, 1] lies within 0..100 |
| Barista.RoundDivExact | frontend/src/utils/aiBarista.ts:93 | a whole quotient is left unchanged by rounding |
| Barista.ScoreBounds | frontend/src/utils/aiBarista.ts:92-93 | the score is always within 0..100, whatever the number of mistakes |
| Barista.ScorePerfect | frontend/src/utils/aiBarista.ts:92-93 | without mistakes the score is 100, including for two empty sentences |
| Barista.ScoreMonotone | frontend/src/utils/aiBarista.ts:92-93 | more mistakes never raise the score |
| Barista.OneMistakeCanStillScorePerfect | frontend/src/utils/aiBarista.ts:92-93 | from 200 characters on one mistake still rounds to 100; at 199 characters it gives 99 |
| Barista.Feedback | frontend/src/utils/aiBarista.ts:95-117 | each of the eight tiers is chosen exactly on its region: 100 split by speed above 60, above 40 or not; 90..99 split by at most two mistakes; 80..89; 60..79; below 60 |
| Barista.FeedbackMonotone | frontend/src/utils/aiBarista.ts:95-117 | for scores within 0..100, a better score never gives a lower tier |
| Barista.AnalyzeInput | frontend/src/utils/aiBarista.ts:18-124 | the corrections are the walk of the diff from position 0, the score is the rounded percentage over the longer sentence (100 for two empty sentences) and lies within 0..100, and the feedback is the tier of that score |
| Barista.ClassifyPair | frontend/src/utils/aiBarista.ts:38-67 | a deletion followed by an insertion gives one substitution correction whose actual text is the inserted text and whose kind is neither missing nor extra |
| Barista.CollectCorrections | frontend/src/utils/aiBarista.ts:23-89 | the loop reports exactly the corrections of the walk, and counts one mistake per correction |
| Barista.PickFeedback | frontend/src/utils/aiBarista.ts:95-117 | the if-cascade picks the tier the decision table assigns |
| UserStore.PatchProfile | frontend/src/store/useStore.ts:79-81 | defines `{...profile, ...updates}`; ProfilePatchLaws states its laws |
| UserStore.PatchSettings | frontend/src/store/useStore.ts:83-85 | defines `{...settings, ...updates}`; SettingsPatchLaws states its laws |
| UserStore.LevelFor | frontend/src/store/useStore.ts:113 | defines the level `floor(points / 100) + 1`; LevelBands states its bands and monotonicity |
| UserStore.Imported | frontend/src/store/useStore.ts:93-102 | defines the state an accepted import produces; ImportRestoresBackup and ImportKeepsInconsistentLevel state what it keeps |
| UserStore.ProfilePatchLaws | frontend/src/store/useStore.ts:79-81 | an empty profile update changes nothing; a field absent from the update keeps its value; a given field takes the new value; applying an update twice is applying it once; two updates in a row are their merge |
| UserStore.SettingsPatchLaws | frontend/src/store/useStore.ts:83-85 | the same laws for settings updates |
| UserStore.LevelBands | frontend/src/store/useStore.ts:110-115 | level k + 1 holds exactly for points from 100k to 100k + 99; non-negative points give a level of at least 1; the level never falls as points rise |
| UserStore.ImportRestoresBackup | frontend/src/store/useStore.ts:87-108 | a backup with every field is accepted, and importing it restores exactly the backed-up state whatever the current state, except that a level of 0 reads as absent and becomes 1 |
| UserStore.ImportKeepsInconsistentLevel | frontend/src/store/useStore.ts:93-102 | an import keeps the document's level (7) even when its points (250) call for level 3 |
| UserStore.Store.constructor | frontend/src/store/useStore.ts:62-76 | a first visit starts with the default profile and settings, no points, level 1, no history or mistakes, and the current time as join date |
| UserStore.Store.UpdateProfile | frontend/src/store/useStore.ts:79-81 | only the profile changes, to the update laid over it |
| UserStore.Store.UpdateSettings | frontend/src/store/useStore.ts:83-85 | only the settings change, to the update laid over them |
| UserStore.Store.ImportData | frontend/src/store/useStore.ts:87-108 | a missing document or one without a history array is refused and leaves the store unchanged; otherwise the store becomes the imported state and the call reports success |
| UserStore.Store.AddPoints | frontend/src/store/useStore.ts:110-115 | the points grow by the amount, the level is recomputed from them, and nothing else changes |
| UserStore.Store.AddHistory | frontend/src/store/useStore.ts:117-119 | the record is appended under the fresh id; nothing else changes |
| UserStore.Store.AddMistake | frontend/src/store/useStore.ts:121-123 | the mistake is appended under the fresh id; nothing else changes |
| UserStore.Store.ClearHistory | frontend/src/store/useStore.ts:125-130 | history and mistakes are emptied, points reset to 0 and level to 1, and the level again agrees with the points |
| Typing.MatchesCountsPositions | frontend/src/pages/Typing.tsx:130-133 | the running count of correct keystrokes is the number of positions where the input holds the target's character |
| Typing.AllMatchIffPrefix | frontend/src/pages/Typing.tsx:130-135 | every typed character is correct exactly when the input is a prefix of the target |
| Typing.Accuracy | frontend/src/pages/Typing.tsx:135 | the live accuracy lies within 0..100 and is 100 when every typed character is correct |
| Typing.AccuracyAllMatch | frontend/src/pages/Typing.tsx:135 | a non-empty input with all characters correct rounds to exactly 100 |
| Typing.CalculateStats | frontend/src/pages/Typing.tsx:125-137 | the loop counts as mistakes the positions that do not match, and the accuracy is the rounded share of matching positions (100 for an empty input) |
| Typing.FormatTimeReadsBack | frontend/src/pages/Typing.tsx:249-253 | the clock text reads back as the seconds it displays: at least two minute digits, a colon, two second digits below 60 |
| Typing.FormatTime | frontend/src/pages/Typing.tsx:249-253 | defines the `mm:ss` clock text; FormatTimeReadsBack states that it reads back as the seconds |
| Typing.PointsEarned | frontend/src/pages/Typing.tsx:195 | defines the points of one sentence; PointsEarnedBounds states their range and monotonicity |
| Typing.PointsEarnedBounds | frontend/src/pages/Typing.tsx:195 | a sentence earns 0 to 15 points, never fewer for a better accuracy; a perfect one earns 15 above 40 wpm and 10 otherwise |
| Typing.MenuGenre | frontend/src/pages/Typing.tsx:202 | the recorded genre is the chosen genre when one is chosen and non-empty, and 'unknown' otherwise |
| Typing.MenuDifficulty | frontend/src/pages/Typing.tsx:203 | the recorded difficulty is the chosen difficulty when one is chosen and non-empty, and 'unknown' otherwise |
| Typing.BatchStep | frontend/src/pages/Typing.tsx:229-245 | defines one completed sentence's effect on the batch counter and phase; BatchEndsAfterTargetCount states when the receipt is reached |
| Typing.BatchEndsAfterTargetCount | frontend/src/pages/Typing.tsx:229-245 | a batch of n sentences stays in tasting with k counted after k < n sentences, and reaches the receipt with n counted after the n-th |
| Typing.Average | frontend/src/pages/Typing.tsx:374-375 | defines the receipt's rounded mean, absent for an empty batch; AverageBounds bounds it |
| Typing.AverageBounds | frontend/src/pages/Typing.tsx:373-375 | the receipt's rounded average of a non-empty batch lies within any bounds of its values, so the average accuracy stays within 0..100 |
| Typing.ReceiptAccuracyIsPercent | frontend/src/pages/Typing.tsx:373-375 | every batch result has an accuracy within 0..100 (an invariant of the session), so the receipt's average accuracy of a non-empty batch exists and lies within 0..100 |
| Typing.NewMistakes | frontend/src/pages/Typing.tsx:208-216 | one mistake record per correction, in order, each carrying the sentence, the input, the correction's expected text and kind, and its own clock reading |
| Typing.TypingSession.constructor | frontend/src/pages/Typing.tsx:20-43 | the page opens on the order screen with no menu, a batch of one, nothing completed, no sentence, empty input, stats 0 wpm, 100 % and 0 mistakes, and no analysis |
| Typing.TypingSession.ApplyParams | frontend/src/pages/Typing.tsx:48-61 | both parameters given and known select that menu and start brewing, changing nothing else; otherwise nothing changes |
| Typing.TypingSession.SelectGenre | frontend/src/pages/Typing.tsx:275 | the genre is set and the chosen difficulty (or none) is kept |
| Typing.TypingSession.SelectDifficulty | frontend/src/pages/Typing.tsx:302 | the difficulty is set and the chosen genre (or none) is kept |
| Typing.TypingSession.ChooseCount | frontend/src/pages/Typing.tsx:324-327 | the batch size becomes one of the offered sizes 1, 5, 10, 20 and 50 |
| Typing.TypingSession.HandleOrder | frontend/src/pages/Typing.tsx:94-99 | without a menu nothing changes; otherwise brewing starts with an empty batch and nothing else changes |
| Typing.TypingSession.Serve | frontend/src/pages/Typing.tsx:100-116 | the picked sentence is served in tasting with the typing state reset; menu, batch size, counter and batch results are kept |
| Typing.TypingSession.ChangeSentence | frontend/src/pages/Typing.tsx:118-123 | without a menu nothing changes; otherwise only the sentence is replaced and the typing state reset |
| Typing.TypingSession.RestartBatch | frontend/src/pages/Typing.tsx:454-460 | another batch empties the counter and results and returns to tasting, with a fresh sentence when a menu is chosen |
| Typing.TypingSession.NewOrder | frontend/src/pages/Typing.tsx:466 | a new order goes back to the order screen |
| Typing.TypingSession.InputChange | frontend/src/pages/Typing.tsx:139-162 | without a sentence nothing changes; otherwise the input is stored and the live stats count its mismatching positions, with the accuracy of the input against the sentence (within 0..100) and the given speed |
| Typing.TypingSession.FinishTyping | frontend/src/pages/Typing.tsx:172-246 | without a sentence or with an empty input, neither the page nor the store changes; otherwise the page shows the analysis and final stats, appends the batch result and advances the batch, and the store gains the earned points with a recomputed level, one history record and one mistake record per correction |
| Typing.TypingSession.CompleteSentence | frontend/src/pages/Typing.tsx:219-245 | the analysis and final stats are shown, the result is appended, and the counter advances, or the receipt is reached at the batch size |
| Typing.RecordAttempt | frontend/src/pages/Typing.tsx:195-216 | the store gains the points, with the level recomputed, one history record and one mistake record per correction; nothing else in it changes |
| Typing.RecordMistakes | frontend/src/pages/Typing.tsx:207-216 | the loop appends exactly one record per correction, in order, and changes nothing else in the store |
| Vocabulary.FindCategory | frontend/src/pages/Vocabulary.tsx:26 | the index found is that of the first category with the id; when none is found no category has it |
| Vocabulary.ImportedIn | frontend/src/pages/Vocabulary.tsx:29-30 | the imported words of the category, order kept: every one filed under it (all of them for 'all') and no other |
| Vocabulary.DefaultIdsDistinct | frontend/src/pages/Vocabulary.tsx:32 | the ids generated in one pass for different positions differ |
| Vocabulary.ShownWord | frontend/src/pages/Vocabulary.tsx:31-39 | an imported word keeps its texts and always has an id, a pronunciation and a level: its own when present, the default otherwise |
| Vocabulary.ExtraWordsShown | frontend/src/pages/Vocabulary.tsx:29-39 | one shown word per imported word of the category, in order, keeping its texts, with an id, pronunciation and level filled in, and pairwise different generated ids for words without their own |
| Vocabulary.Dedup | frontend/src/pages/Vocabulary.tsx:41-50 | defines the first-wins deduplication by normalised key; DedupProperties states what it keeps |
| Vocabulary.DedupProperties | frontend/src/pages/Vocabulary.tsx:41-50 | the kept words have non-empty, pairwise distinct keys, appear in the list in order, each is the first word with its key, and every key of the list is represented |
| Vocabulary.DedupFromKeys | frontend/src/pages/Vocabulary.tsx:41-50 | the kept words have non-empty keys not seen before, pairwise distinct |
| Vocabulary.DedupFromFirstWins | frontend/src/pages/Vocabulary.tsx:41-50 | the kept words are a subsequence of the list and each is the first word with its key |
| Vocabulary.DedupFromCovers | frontend/src/pages/Vocabulary.tsx:41-50 | every non-empty key of the list was seen before or is kept |
| Vocabulary.MergeBaseAndImported | frontend/src/pages/Vocabulary.tsx:21-52 | the merged list is the base words of the category followed by its imported words, deduplicated by key |
| Vocabulary.KeepFirstOfEachKey | frontend/src/pages/Vocabulary.tsx:41-50 | the loop with its set of seen keys keeps exactly the deduplicated list |
| Vocabulary.Lines | frontend/src/pages/Vocabulary.tsx:64 | one line per newline-separated piece of the text, in order: the piece itself, less one carriage return when it ends in one and a newline follows; no line contains a newline |
| Vocabulary.NonBlank | frontend/src/pages/Vocabulary.tsx:64 | the non-blank lines, order kept: every line that is not all whitespace and no other |
| Vocabulary.FindColumn | frontend/src/pages/Vocabulary.tsx:66 | the first header that lower-cases to the key; when none is found no header does |
| Vocabulary.Cell | frontend/src/pages/Vocabulary.tsx:70-80 | the non-empty cell under the first column with the name; the default when no column has the name, the row is too short for it or its cell is empty; the result is the default or one of the cells |
| Vocabulary.CsvRow | frontend/src/pages/Vocabulary.tsx:67-82 | defines the row one CSV line describes, each field from its named column with its default; Cell states how each field is read |
| Vocabulary.ParseCsv | frontend/src/pages/Vocabulary.tsx:63-83 | defines the CSV branch of the import; ParseCsvShape states its shape |
| Vocabulary.ParseCsvShape | frontend/src/pages/Vocabulary.tsx:63-83 | a file yields no rows exactly when it has no non-blank line (the header read fails), otherwise one row per non-blank line after the header |
| Vocabulary.CompleteRows | frontend/src/pages/Vocabulary.tsx:85 | the rows with a Korean and a Chinese text, order kept: every such row and no other |
| Vocabulary.NormalRow | frontend/src/pages/Vocabulary.tsx:86-95 | a kept row keeps its texts and always has an id, pronunciation, level and category: its own when present, the default otherwise |
| Vocabulary.Normalize | frontend/src/pages/Vocabulary.tsx:84-95 | defines the normalisation of imported rows; NormalizeProperties states what it yields |
| Vocabulary.NormalizeProperties | frontend/src/pages/Vocabulary.tsx:84-95 | one imported word per complete row, in order, each with every field a card needs filled in, and pairwise different generated ids for rows without their own |
| Vocabulary.VocabularyPage.constructor | frontend/src/pages/Vocabulary.tsx:9-16 | the page opens on all categories in card view with no imports, no cards, index 0, unflipped and no counts |
| Vocabulary.VocabularyPage.LoadCards | frontend/src/pages/Vocabulary.tsx:134-153 | the cards become the merged words of the selected category and the session starts over |
| Vocabulary.VocabularyPage.SelectCategory | frontend/src/pages/Vocabulary.tsx:134-153 | choosing the category already selected changes nothing (the effect does not run); a new category reloads its merged words and restarts the session; view mode and imports are kept |
| Vocabulary.VocabularyPage.SetViewMode | frontend/src/pages/Vocabulary.tsx:134-153 | choosing the view mode already shown changes nothing; a new view mode reloads the merged words and restarts the session; category and imports are kept |
| Vocabulary.VocabularyPage.ImportCsv | frontend/src/pages/Vocabulary.tsx:54-102 | a CSV file appends its normalised rows to the imports; a file without a header imports nothing; the cards are not reloaded |
| Vocabulary.VocabularyPage.ImportRows | frontend/src/pages/Vocabulary.tsx:84-96 | JSON rows are appended normalised |
| Vocabulary.VocabularyPage.HandleNext | frontend/src/pages/Vocabulary.tsx:155-173 | at the last card or without cards nothing changes; otherwise the card counts as learned or to review, the next one shows unflipped, and the index stays on a card equal to the cards counted |
| Vocabulary.VocabularyPage.HandleFlip | frontend/src/pages/Vocabulary.tsx:175-177 | the card turns over |
| ProfilePage.DayOf | frontend/src/pages/Profile.tsx:90 | defines the calendar day of a drill's timestamp; ActiveDays states which days are active |
| ProfilePage.ActiveDays | frontend/src/pages/Profile.tsx:90 | the active days are exactly the days of the drills |
| ProfilePage.CalculateStreak | frontend/src/pages/Profile.tsx:88-110 | 0 without history or when neither today nor yesterday is active; otherwise the length of the run of consecutive active days ending today, or ending yesterday when today is not active; never more than the number of active days |
| ProfilePage.RunIsUnique | frontend/src/pages/Profile.tsx:105-108 | a run ending on a given day has one length, so the streak is determined |
| ProfilePage.RunAtMostActiveDays | frontend/src/pages/Profile.tsx:105-108 | a run of active days is no longer than the number of active days |
| ProfilePage.Count | frontend/src/pages/Profile.tsx:123-128 | defines the number of drills on a day; HeatmapData, CellCountIsCount and CountsSumToHistory state its use |
| ProfilePage.HeatmapData | frontend/src/pages/Profile.tsx:123-130 | the map holds exactly the days with drills, each with its number of drills |
| ProfilePage.CellCountIsCount | frontend/src/pages/Profile.tsx:249 | a calendar cell shows the day's number of drills, 0 for a day without any |
| ProfilePage.CountsSumToHistory | frontend/src/pages/Profile.tsx:123-133 | over distinct days that include every drill's day, the counts add up to the number of drills |
| ProfilePage.Bucket | frontend/src/pages/Profile.tsx:249-254 | gray for no drill, then greener bands for 1-2, 3-5, 6-10 and more than 10 drills, each exactly on its band |
| ProfilePage.BucketMonotone | frontend/src/pages/Profile.tsx:249-254 | more drills never give a lighter cell |
| ProfilePage.TopSpeed | frontend/src/pages/Profile.tsx:188 | the top speed is at least 0 and every drill's speed, and it is 0 or the speed of some drill |
| ProfilePage.ChartEntries | frontend/src/pages/Profile.tsx:115 | the chart shows the last 30 drills, or all of them when there are fewer |
| ProfilePage.CalendarDays | frontend/src/pages/Profile.tsx:133 | 140 consecutive days, oldest first, ending today |
| ProfilePage.CalendarDaysDistinct | frontend/src/pages/Profile.tsx:133 | no day appears twice in the calendar |
| ProfilePage.ReversedAt | frontend/src/pages/Profile.tsx:364 | the reversal of a list has its length and holds at each index the element as far from the end |
| ProfilePage.RecentMistakes | frontend/src/pages/Profile.tsx:364 | the five latest mistakes, or all when fewer, newest first: taken from the reversal of the list, and read backwards they are the tail of the list |
| Grammar.FindCategory | frontend/src/pages/Grammar.tsx:26 | the index found is that of the first category with the id; when none is found no category has it |
| Grammar.FindRule | frontend/src/pages/Grammar.tsx:30 | the index found is that of the first rule with the id; when none is found no rule has it |
| Grammar.CurrentCategory | frontend/src/pages/Grammar.tsx:43 | the shown category has rules, is the selected one when it exists, and is the first category otherwise |
| Grammar.CurrentRule | frontend/src/pages/Grammar.tsx:44 | the shown rule belongs to the category, is the selected one when it exists there, and is the category's first rule otherwise |
| Grammar.ShownIsSelected | frontend/src/pages/Grammar.tsx:43-44 | when the selected ids name a category and one of its rules, exactly those are shown |
| Grammar.SidebarFilter | frontend/src/pages/Grammar.tsx:128-129 | a rule is listed exactly when it matches the query, and the list is no longer than the category's rules |
| Grammar.EmptyQueryKeepsAll | frontend/src/pages/Grammar.tsx:128-129 | an empty search lists every rule, in order |
| Grammar.ListedIffOccurs | frontend/src/pages/Grammar.tsx:129 | a rule is listed exactly when the query occurs in its title or its summary |
| Grammar.VisibleRules | frontend/src/pages/Grammar.tsx:126-130 | a rule is listed under a category exactly when it belongs to it, the category is selected or a search is typed, and the query occurs in its title or summary; the selected category without a search lists all its rules in order |
| Grammar.PracticeFeedback | frontend/src/pages/Grammar.tsx:65 | graded at 0 wpm, a practice answer never gets the speed-praising tiers, and a perfect one gets the tier that suggests working on speed |
| Grammar.GrammarPage.constructor | frontend/src/pages/Grammar.tsx:10-18 | the first category and its first rule are selected, with no search, no answer, no feedback and no challenge |
| Grammar.GrammarPage.ApplyParams | frontend/src/pages/Grammar.tsx:21-40 | a known category parameter selects it; then a known rule parameter selects that rule, no rule parameter selects the category's first rule, and an unknown one keeps the previous rule; an absent or unknown category changes nothing |
| Grammar.GrammarPage.SelectCategory | frontend/src/pages/Grammar.tsx:120 | clicking a category heading selects it |
| Grammar.GrammarPage.SelectRule | frontend/src/pages/Grammar.tsx:75 | clicking a rule selects it |
| Grammar.GrammarPage.Search | frontend/src/pages/Grammar.tsx:109 | the search box sets the query |
| Grammar.GrammarPage.TypePractice | frontend/src/pages/Grammar.tsx:237 | the answer box sets the answer |
| Grammar.GrammarPage.LoadChallenge | frontend/src/pages/Grammar.tsx:47-55 | a shown rule with examples makes the drawn example the challenge and clears the answer and feedback; a rule without examples changes nothing |
| Grammar.GrammarPage.SubmitPractice | frontend/src/pages/Grammar.tsx:57-69 | a blank answer or no challenge leaves the feedback; otherwise the feedback is the analysis of the answer against the challenge at 0 wpm, scored within 0..100, and a perfect answer gets the tier that suggests working on speed |
| Text.TrimEmptyIffAllSpace | frontend/src/pages/Grammar.tsx:58 | a text trims to nothing exactly when it is all whitespace |
| Text.TrimStartShape | frontend/src/pages/Vocabulary.tsx:44 | trimming the start removes exactly a leading run of whitespace, leaving a suffix that is empty or starts with a non-space |
| Text.TrimEndShape | frontend/src/pages/Vocabulary.tsx:44 | trimming the end removes exactly a trailing run of whitespace, leaving a prefix that is empty or ends with a non-space |
| Text.LowerIdempotent | frontend/src/pages/Vocabulary.tsx:44 | lower-casing a key twice is lower-casing it once |
| Text.ContainsIffOccurs | frontend/src/pages/Grammar.tsx:129 | the search finds the query exactly when it occurs at some index of the text |
| Text.ContainsEmpty | frontend/src/pages/Grammar.tsx:129 | every text contains the empty query |
| Text.SplitJoin | frontend/src/pages/Vocabulary.tsx:64-68 | splitting loses nothing: the pieces joined by the separator give back the text, and no piece contains the separator |
| Text.PadStart | frontend/src/pages/Typing.tsx:252 | padding gives the width (or the text when it is longer), ends with the text and is filled in front with the pad character |
| Text.NatToStringRoundTrip | frontend/src/pages/Typing.tsx:252 | reading back a printed number gives the number |
| Text.LeadingZeros | frontend/src/pages/Typing.tsx:252 | zeros padded in front keep a digit string's value |

## Left out

- The diff computation (diff-match-patch `diff_main` and `diff_cleanupSemantic`) is a library that is not part of this model. The analysis takes its result as an input that must rebuild both sentences, so which alignment the library chooses is not modelled.
- The explanation strings of corrections and the feedback messages are left out. Corrections and tiers carry their fields and names instead, so the text is not modelled.
- Timers and delays are left out: the 1500 ms brewing delay, the 500 ms pause between sentences, the 800 ms grading delay with its submitting flag, the live timer effect and the input focus. The step that follows each delay is a separate method (`Serve`, `ChangeSentence`, `SubmitPractice`).
- Clock readings are parameters: `Date.now()`, the drill date and duration, `today`, and the join date.
- Random choices are parameters: the sentence pick (`pickSentence`), the grammar example pick, and the generated ids of records and imported words.
- Typing.TypingSession.FinishTyping: the speed and duration are taken as given integers. Their floating-point computation from the elapsed time (the wpm formula, `timeInSeconds`) is left out, as is the receipt's floating-point total duration.
- Vocabulary.VocabularyPage.HandleNext: the counts are updated at once but the index moves only after a 200 ms delay (Vocabulary.tsx:168-172), and the answer buttons stay enabled meanwhile. A second click within the delay passes the last-card guard again, counts the card twice, and from the second-to-last card moves the index past the last card. The model takes the delay as zero, so `Valid` (counts equal to the index, index on a card) holds; these double-click states are not modelled.
- Vocabulary.VocabularyPage.LoadCards: the cards are stated in merged order. The shuffle of card mode (`sort(() => Math.random() - 0.5)`) is a random permutation and is not modelled.
- Barista.RoundDivNearest: `Math.round` is modelled on exact rationals `n / d`. Floating-point error in `(totalLen - mistakes) / totalLen * 100` at exact halves is not modelled.
- ProfilePage.CalculateStreak: days are whole UTC days of the millisecond timestamp. The local time zone used by `format(…, 'yyyy-MM-dd')` is not modelled.
- Text.TrimStartShape: whitespace is the listed set of characters, not the full Unicode whitespace and line-terminator set of `String.prototype.trim`.
- Text.LowerIdempotent: case mapping covers ASCII letters only, not the full Unicode lower-casing of `toLowerCase`.
- String lengths count characters, not the UTF-16 code units of JavaScript strings (Korean syllables are one unit either way).
- Persistence is left out as browser I/O: the zustand persist middleware, `localStorage`, the export download, the `FileReader` and `file.text()` reads.
- `JSON.parse` of imported files is left out. So is the unwrapping of a persisted wrapper (`json.state || json`) on the profile page. `ImportData` and `ImportRows` take the decoded document.
- UserStore.Store.ImportData: the spread `...data` also copies unknown keys of the document into the store. Only the store's own fields (with join date) are modelled.
- Importing falsy numbers: `data.points || 0` and `data.level || 1` are modelled for absent values and 0. Other falsy values (NaN, empty string) are out of scope because the fields are integers here.
- The built-in TOPIK word pack fetched from `/vocab/topik_pack.json` is network I/O and is left out. Its rows would be normalised like JSON imports, with a `pack_` id prefix.
- The Profile page's clear-history button only shows an alert and never calls the store's `clearHistory`. It changes no state, so it has no model; `UserStore.Store.ClearHistory` models the store action itself.
- The profile page's "total hours" (`toFixed(1)` of a floating-point estimate) is display-only floating point and is left out.
- The profile edit form (`handleSaveProfile`) and the settings controls are covered by `UserStore.Store.UpdateProfile` and `UserStore.Store.UpdateSettings`. The `parseInt` of the goal slider is not modelled.
- Rendering, animation, confetti, icons and tab switching are presentation only and are left out.
