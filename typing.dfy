/** The typing drill ("coffee order"): live accuracy, the clock display, the points a
    finished sentence earns, and the order → brewing → tasting → receipt batch flow that
    feeds the analysis engine and the user store. */
module Typing {
  import opened Common
  import opened Text
  import Barista
  import UserStore

  /** Number of positions of `input` that hold the target's character at the same
      index; positions past the end of the target never match. */
  function Matches(input: string, target: string): (n: nat)
    ensures n <= |input|
  {
    if input == [] then 0
    else
      var i := |input| - 1;
      Matches(input[..i], target) + (if i < |target| && input[i] == target[i] then 1 else 0)
  }

  /** The matching positions, as a set. */
  function MatchingPositions(input: string, target: string): set<int> {
    set i | 0 <= i < |input| && i < |target| && input[i] == target[i]
  }

  /** The running count is the number of matching positions. */
  lemma {:induction false} MatchesCountsPositions(input: string, target: string)
    ensures Matches(input, target) == |MatchingPositions(input, target)|
    decreases |input|
  {
    if input != [] {
      var i := |input| - 1;
      MatchesCountsPositions(input[..i], target);
      var before := MatchingPositions(input[..i], target);
      var after := MatchingPositions(input, target);
      if i < |target| && input[i] == target[i] {
        assert after == before + {i};
      } else {
        assert after == before;
      }
    }
  }

  /** Every typed character matches exactly when the input is a prefix of the target. */
  lemma {:induction false} AllMatchIffPrefix(input: string, target: string)
    ensures Matches(input, target) == |input| <==> |input| <= |target| && input == target[..|input|]
    decreases |input|
  {
    if input != [] {
      var i := |input| - 1;
      AllMatchIffPrefix(input[..i], target);
      if |input| <= |target| && input == target[..|input|] {
        assert input[..i] == target[..i];
      }
      if Matches(input, target) == |input| {
        assert Matches(input[..i], target) == i;
        assert input == input[..i] + [input[i]];
      }
    }
  }

  /** The live accuracy: the rounded percentage of matching positions, 100 for an
      empty input; 100 whenever every typed character matches. */
  function Accuracy(input: string, target: string): (a: int)
    ensures 0 <= a <= 100
    ensures Matches(input, target) == |input| ==> a == 100
  {
    if |input| > 0 then
      Barista.RoundPercentBounds(Matches(input, target), |input|);
      AccuracyAllMatch(input, target);
      Barista.RoundDiv(Matches(input, target) * 100, |input|)
    else 100
  }

  lemma AccuracyAllMatch(input: string, target: string)
    requires |input| > 0
    ensures Matches(input, target) == |input| ==> Barista.RoundDiv(Matches(input, target) * 100, |input|) == 100
  {
    if Matches(input, target) == |input| {
      Barista.RoundDivExact(100, |input|);
      assert |input| * 100 == 100 * |input|;
    }
  }

  /** `calculateStats(input, target)`: counts correct and wrong positions one by one;
      accuracy is the rounded percentage of correct positions, 100 for an empty input. */
  method CalculateStats(input: string, target: string) returns (accuracy: int, mistakes: nat)
    ensures mistakes == |input| - Matches(input, target)
    ensures accuracy == Accuracy(input, target)
  {
    var correct := 0;
    mistakes := 0;
    var len := |input|;
    for i := 0 to len
      invariant correct == Matches(input[..i], target)
      invariant correct + mistakes == i
    {
      assert input[..i + 1][..i] == input[..i];
      if i < |target| && input[i] == target[i] {
        correct := correct + 1;
      } else {
        mistakes := mistakes + 1;
      }
    }
    assert input[..len] == input;
    accuracy := if len > 0 then Barista.RoundDiv(correct * 100, len) else 100;
  }

  /** `formatTime(seconds)`: minutes and seconds, each padded to two digits. */
  function FormatTime(seconds: nat): string {
    TwoDigits(seconds / 60) + ":" + TwoDigits(seconds % 60)
  }

  /** `String(n).padStart(2, '0')`. */
  function TwoDigits(n: nat): string {
    PadStart(NatToString(n), 2, '0')
  }

  predicate AllDigits(s: string) {
    forall i :: 0 <= i < |s| ==> IsDigit(s[i])
  }

  /** Reads a clock "m…m:ss" back as a number of seconds: at least two minute digits,
      a colon, two second digits below 60; None for anything else. */
  function ReadClock(r: string): Option<nat> {
    if |r| >= 5 && r[|r| - 3] == ':' && AllDigits(r[..|r| - 3]) && AllDigits(r[|r| - 2..])
       && DigitsValue(r[|r| - 2..]) < 60
    then Some(DigitsValue(r[..|r| - 3]) * 60 + DigitsValue(r[|r| - 2..]))
    else None
  }

  /** The clock reads back as the time it shows. */
  lemma FormatTimeReadsBack(seconds: nat)
    ensures ReadClock(FormatTime(seconds)) == Some(seconds)
  {
    var m, s := seconds / 60, seconds % 60;
    PaddedNat(m);
    PaddedNat(s);
    ClockParts(TwoDigits(m), TwoDigits(s), seconds);
  }

  /** A clock reading built from two digit strings whose values give `seconds`. */
  lemma ClockParts(mp: string, sp: string, seconds: nat)
    requires |mp| >= 2 && |sp| == 2 && AllDigits(mp) && AllDigits(sp)
    requires DigitsValue(sp) < 60 && DigitsValue(mp) * 60 + DigitsValue(sp) == seconds
    ensures ReadClock(mp + ":" + sp) == Some(seconds)
  {
    var r := mp + ":" + sp;
    assert r[..|r| - 3] == mp && r[|r| - 2..] == sp;
  }

  /** A number padded to two digits: all digits, at least two of them, exactly two
      below 100, and reading back to the number. */
  lemma PaddedNat(n: nat)
    ensures var p := TwoDigits(n);
      |p| >= 2 && (n < 100 ==> |p| == 2) && AllDigits(p) && DigitsValue(p) == n
  {
    var ns := NatToString(n);
    NatToStringRoundTrip(n);
    if 10 <= n < 100 {
      assert ns == NatToString(n / 10) + [DigitChar(n % 10)];
    }
    PaddedValue(ns);
  }

  /** Padding with zeros keeps digits and their value. */
  lemma PaddedValue(s: string)
    requires AllDigits(s)
    ensures AllDigits(PadStart(s, 2, '0'))
    ensures DigitsValue(PadStart(s, 2, '0')) == DigitsValue(s)
  {
    var z := if |s| < 2 then 2 - |s| else 0;
    LeadingZeros(z, s);
    assert PadStart(s, 2, '0') == seq(z, _ => '0') + s;
  }

  /** Points for one sentence: `Math.round(accuracy / 10)`, plus 5 above 40 wpm. */
  function PointsEarned(accuracy: int, wpm: int): int {
    Barista.RoundDiv(accuracy, 10) + (if wpm > 40 then 5 else 0)
  }

  /** For an accuracy within 0..100 a sentence earns 0 to 15 points, never fewer for a
      higher accuracy, and exactly 15 for a perfect fast sentence. */
  lemma PointsEarnedBounds(accuracy: int, better: int, wpm: int)
    requires 0 <= accuracy <= better <= 100
    ensures 0 <= PointsEarned(accuracy, wpm) <= 15
    ensures PointsEarned(accuracy, wpm) <= PointsEarned(better, wpm)
    ensures PointsEarned(100, wpm) == if wpm > 40 then 15 else 10
  {
    Barista.RoundDivMonotone(0, accuracy, 10);
    Barista.RoundDivMonotone(accuracy, 100, 10);
    Barista.RoundDivMonotone(accuracy, better, 10);
  }

  datatype TypingState = Ordering | Brewing | Tasting | Receipt

  /** The batch sizes on offer. */
  const BatchSizes: seq<nat> := [1, 5, 10, 20, 50]

  /** The difficulty ids on offer. */
  const Difficulties: seq<string> := ["sugar-100", "sugar-50", "sugar-0"]

  datatype Menu = Menu(genre: string, difficulty: string)

  datatype Stats = Stats(wpm: int, accuracy: int, mistakes: nat)

  datatype BatchResult = BatchResult(accuracy: int, wpm: int, mistakes: nat, sentence: string, duration: int)

  /** The fields of the typing page, as one value. */
  datatype SessionView = SessionView(
    state: TypingState, selectedMenu: Option<Menu>, targetCount: nat, completedCount: nat,
    batchResults: seq<BatchResult>, currentSentence: Option<string>, inputValue: string,
    stats: Stats, aiResult: Option<Barista.Analysis>)

  /** `selectedMenu?.genre || 'unknown'`. */
  function MenuGenre(m: Option<Menu>): (g: string)
    ensures g != []
    ensures m.Some? && m.value.genre != [] ==> g == m.value.genre
    ensures !(m.Some? && m.value.genre != []) ==> g == "unknown"
  {
    if m.Some? && m.value.genre != [] then m.value.genre else "unknown"
  }

  /** `selectedMenu?.difficulty || 'unknown'`. */
  function MenuDifficulty(m: Option<Menu>): (d: string)
    ensures d != []
    ensures m.Some? && m.value.difficulty != [] ==> d == m.value.difficulty
    ensures !(m.Some? && m.value.difficulty != []) ==> d == "unknown"
  {
    if m.Some? && m.value.difficulty != [] then m.value.difficulty else "unknown"
  }

  /** The counter and page state after one more sentence of the batch is finished:
      the count goes up and the page stays where it is, or the batch is complete and
      the receipt shows. */
  function BatchStep(completed: nat, targetCount: nat, st: TypingState): (nat, TypingState) {
    if completed + 1 < targetCount then (completed + 1, st) else (targetCount, Receipt)
  }

  /** Counter and page state after `k` sentences of a fresh batch, typed while tasting. */
  function AfterSentences(k: nat, targetCount: nat): (nat, TypingState) {
    if k == 0 then (0, Tasting)
    else
      var (c, st) := AfterSentences(k - 1, targetCount);
      if st == Receipt then (c, st) else BatchStep(c, targetCount, st)
  }

  /** A batch of `n` sentences stays in tasting with k sentences counted for every
      k < n, and reaches the receipt with all n counted at the n-th sentence. */
  lemma {:induction false} BatchEndsAfterTargetCount(n: nat, k: nat)
    requires n >= 1 && k <= n
    ensures AfterSentences(k, n) == if k < n then (k, Tasting) else (n, Receipt)
  {
    if k > 0 {
      BatchEndsAfterTargetCount(n, k - 1);
    }
  }

  function Sum(xs: seq<int>): int {
    if xs == [] then 0 else Sum(xs[..|xs| - 1]) + xs[|xs| - 1]
  }

  /** The receipt's `Math.round(sum / length)`; an empty batch has no average (the page
      would show `NaN`). */
  function Average(xs: seq<int>): Option<int> {
    if xs == [] then None else Some(Barista.RoundDiv(Sum(xs), |xs|))
  }

  /** The sum of values within [lo, hi] lies within [n lo, n hi]. */
  lemma {:induction false} SumBounds(xs: seq<int>, lo: int, hi: int)
    requires forall i :: 0 <= i < |xs| ==> lo <= xs[i] <= hi
    ensures |xs| * lo <= Sum(xs) <= |xs| * hi
  {
    if xs != [] {
      SumBounds(xs[..|xs| - 1], lo, hi);
      assert |xs| * lo == (|xs| - 1) * lo + lo;
      assert |xs| * hi == (|xs| - 1) * hi + hi;
    }
  }

  /** The average of a non-empty batch lies between any bounds of its values: so an
      average accuracy is within 0..100, and a batch typed at 90% or better throughout
      averages 90% or better. */
  lemma AverageBounds(xs: seq<int>, lo: int, hi: int)
    requires xs != []
    requires forall i :: 0 <= i < |xs| ==> lo <= xs[i] <= hi
    ensures Average(xs).Some? && lo <= Average(xs).value <= hi
  {
    var n := |xs|;
    SumBounds(xs, lo, hi);
    assert n * lo == lo * n && n * hi == hi * n;
    Barista.RoundDivMonotone(lo * n, Sum(xs), n);
    Barista.RoundDivMonotone(Sum(xs), hi * n, n);
    Barista.RoundDivExact(lo, n);
    Barista.RoundDivExact(hi, n);
  }

  /** The accuracies of a batch, in order. */
  function BatchAccuracies(rs: seq<BatchResult>): (r: seq<int>)
    ensures |r| == |rs| && forall i :: 0 <= i < |rs| ==> r[i] == rs[i].accuracy
  {
    seq(|rs|, i requires 0 <= i < |rs| => rs[i].accuracy)
  }

  /** The mistake records a finished sentence adds: one per correction, in order, with
      the correction's expected text as target, the sentence as original, and the
      clock reading taken for that record (`Date.now()` is read once per record). */
  function NewMistakes(sentence: string, input: string, cs: seq<Barista.Correction>, stamps: nat -> int,
                       ids: nat -> string, from: nat): (r: seq<UserStore.MistakeRecord>)
    ensures |r| == |cs|
    ensures forall k :: 0 <= k < |cs| ==>
      && r[k].target == cs[k].expected && r[k].kind == cs[k].kind
      && r[k].original == sentence && r[k].input == input && r[k].id == ids(from + k)
      && r[k].timestamp == stamps(from + k)
    decreases |cs|
  {
    if cs == [] then []
    else [UserStore.MistakeRecord(ids(from), sentence, input, cs[0].expected, cs[0].kind, stamps(from))]
         + NewMistakes(sentence, input, cs[1..], stamps, ids, from + 1)
  }

  class TypingSession {
    var state: TypingState
    var selectedMenu: Option<Menu>
    var targetCount: nat
    var completedCount: nat
    var batchResults: seq<BatchResult>
    var currentSentence: Option<string>
    var inputValue: string
    var stats: Stats
    var aiResult: Option<Barista.Analysis>
    const store: UserStore.Store

    /** Everything the page holds, as one value. */
    function View(): SessionView
      reads this
    {
      SessionView(state, selectedMenu, targetCount, completedCount, batchResults,
                  currentSentence, inputValue, stats, aiResult)
    }

    /** The batch size is one on offer, and every result of the batch has an accuracy
      within 0..100. (The counter may exceed a batch size chosen after a receipt;
      ordering resets it.) */
    predicate Valid()
      reads this
    {
      && targetCount in BatchSizes
      && forall i :: 0 <= i < |batchResults| ==> 0 <= batchResults[i].accuracy <= 100
    }

    constructor(store: UserStore.Store)
      ensures Valid() && this.store == store
      ensures state == Ordering && selectedMenu == None && targetCount == 1 && completedCount == 0
      ensures batchResults == [] && currentSentence == None && inputValue == []
      ensures stats == Stats(0, 100, 0) && aiResult == None
    {
      this.store := store;
      state := Ordering;
      selectedMenu := None;
      targetCount := 1;
      completedCount := 0;
      batchResults := [];
      currentSentence := None;
      inputValue := [];
      stats := Stats(0, 100, 0);
      aiResult := None;
    }

    /** The URL parameters `genre` and `difficulty` select a menu and start brewing,
      only when both are given and both exist. */
    method ApplyParams(genreParam: Option<string>, difficultyParam: Option<string>, genres: seq<string>)
      modifies this
      ensures var accepted := genreParam.Some? && genreParam.value != []
                              && difficultyParam.Some? && difficultyParam.value != []
                              && genreParam.value in genres && difficultyParam.value in Difficulties;
        if accepted then
          && selectedMenu == Some(Menu(genreParam.value, difficultyParam.value)) && state == Brewing
          && targetCount == old(targetCount) && completedCount == old(completedCount)
          && batchResults == old(batchResults) && currentSentence == old(currentSentence)
          && inputValue == old(inputValue) && stats == old(stats) && aiResult == old(aiResult)
        else unchanged(this)
    {
      if genreParam.Some? && genreParam.value != [] && difficultyParam.Some? && difficultyParam.value != [] {
        if genreParam.value in genres && difficultyParam.value in Difficulties {
          selectedMenu := Some(Menu(genreParam.value, difficultyParam.value));
          state := Brewing;
        }
      }
    }

    /** Choosing a genre on the order screen keeps the chosen difficulty, or none. */
    method SelectGenre(genre: string)
      modifies this`selectedMenu
      ensures selectedMenu == Some(Menu(genre, if old(selectedMenu).Some? then old(selectedMenu).value.difficulty else []))
    {
      var difficulty := if selectedMenu.Some? then selectedMenu.value.difficulty else [];
      selectedMenu := Some(Menu(genre, difficulty));
    }

    /** Choosing a difficulty keeps the chosen genre, or none. */
    method SelectDifficulty(difficulty: string)
      modifies this`selectedMenu
      ensures selectedMenu == Some(Menu(if old(selectedMenu).Some? then old(selectedMenu).value.genre else [], difficulty))
    {
      var genre := if selectedMenu.Some? then selectedMenu.value.genre else [];
      selectedMenu := Some(Menu(genre, difficulty));
    }

    /** Choosing a batch size on the order screen; the buttons offer `BatchSizes`. */
    method ChooseCount(count: nat)
      requires Valid() && count in BatchSizes
      modifies this`targetCount
      ensures Valid() && targetCount == count
    {
      targetCount := count;
    }

    /** `handleOrder()`: without a menu nothing happens; otherwise brewing starts with an
      empty batch. */
    method HandleOrder()
      requires Valid()
      modifies this
      ensures Valid()
      ensures old(selectedMenu).None? ==> unchanged(this)
      ensures old(selectedMenu).Some? ==>
        && state == Brewing && completedCount == 0 && batchResults == []
        && selectedMenu == old(selectedMenu) && targetCount == old(targetCount)
        && currentSentence == old(currentSentence) && inputValue == old(inputValue)
        && stats == old(stats) && aiResult == old(aiResult)
    {
      if selectedMenu.None? {
        return;
      }
      state := Brewing;
      completedCount := 0;
      batchResults := [];
    }

    /** The end of brewing: the picked sentence is served and the typing state reset. */
    method Serve(sentence: string)
      requires Valid()
      modifies this
      ensures Valid()
      ensures state == Tasting && currentSentence == Some(sentence)
      ensures inputValue == [] && stats == Stats(0, 100, 0) && aiResult == None
      ensures selectedMenu == old(selectedMenu) && targetCount == old(targetCount)
      ensures completedCount == old(completedCount) && batchResults == old(batchResults)
    {
      currentSentence := Some(sentence);
      inputValue := [];
      stats := Stats(0, 100, 0);
      aiResult := None;
      state := Tasting;
    }

    /** `handleChangeSentence()`, also run after a finished sentence when the batch
      goes on: with a menu, the freshly picked sentence replaces the current one and
      the typing state is reset; without one nothing happens. */
    method ChangeSentence(sentence: string)
      modifies this
      ensures old(selectedMenu).None? ==> View() == old(View())
      ensures old(selectedMenu).Some? ==> View() == old(View()).(
        currentSentence := Some(sentence), inputValue := [], stats := Stats(0, 100, 0), aiResult := None)
    {
      if selectedMenu.None? {
        return;
      }
      currentSentence := Some(sentence);
      inputValue := [];
      stats := Stats(0, 100, 0);
      aiResult := None;
    }

    /** "Another batch" on the receipt: the same order starts over with an empty batch. */
    method RestartBatch(sentence: string)
      modifies this
      ensures old(selectedMenu).None? ==> View() == old(View()).(completedCount := 0, batchResults := [], state := Tasting)
      ensures old(selectedMenu).Some? ==> View() == old(View()).(
        completedCount := 0, batchResults := [], state := Tasting,
        currentSentence := Some(sentence), inputValue := [], stats := Stats(0, 100, 0), aiResult := None)
    {
      completedCount := 0;
      batchResults := [];
      ChangeSentence(sentence);
      state := Tasting;
    }

    /** "New order" on the receipt: back to the order screen, everything else kept. */
    method NewOrder()
      modifies this`state
      ensures state == Ordering
    {
      state := Ordering;
    }

    /** `handleInputChange`: the input and live accuracy and mistakes follow each
      keystroke; `wpm` is the live speed. Without a sentence nothing happens. */
    method InputChange(value: string, wpm: int)
      modifies this`inputValue, this`stats
      ensures currentSentence.None? ==> inputValue == old(inputValue) && stats == old(stats)
      ensures currentSentence.Some? ==>
        && inputValue == value && stats.wpm == wpm
        && stats.mistakes == |value| - Matches(value, currentSentence.value)
        && stats.accuracy == Accuracy(value, currentSentence.value)
        && 0 <= stats.accuracy <= 100
    {
      if currentSentence.None? {
        return;
      }
      inputValue := value;
      var accuracy, mistakes := CalculateStats(value, currentSentence.value);
      stats := Stats(wpm, accuracy, mistakes);
    }

    /** `finishTyping()`: with a sentence and a non-empty input, analyses the attempt
      (`diffs` is the diff of the sentence against the input), awards points, records
      the drill and one mistake per correction, and advances the batch. `finalWpm`,
      `now` (the history record's date), `duration`, the record ids and the clock
      reading taken for each mistake record (`mistakeStamps`) come from the clock and
      the id generator. */
    method FinishTyping(finalWpm: int, now: int, duration: int, diffs: seq<Barista.Span>,
                        historyId: string, mistakeIds: nat -> string, mistakeStamps: nat -> int)
      requires Valid()
      requires currentSentence.Some? ==> Barista.ValidDiff(diffs, currentSentence.value, inputValue)
      modifies this, store
      ensures Valid()
      ensures old(currentSentence).None? || old(inputValue) == [] ==>
        View() == old(View()) && store.State() == old(store.State())
      ensures old(currentSentence).Some? && old(inputValue) != [] ==>
        var sentence, input := old(currentSentence).value, old(inputValue);
        var accuracy := Accuracy(input, sentence);
        var mistakes := |input| - Matches(input, sentence);
        var cs := Barista.Walk(diffs, 0);
        var score := Barista.Score(|input|, |sentence|, |cs|);
        var next := BatchStep(old(completedCount), old(targetCount), old(state));
        View() == old(View()).(
          aiResult := Some(Barista.Analysis(score, Barista.Feedback(score, |cs|, finalWpm), cs)),
          stats := Stats(finalWpm, accuracy, mistakes),
          batchResults := old(batchResults) + [BatchResult(accuracy, finalWpm, mistakes, sentence, duration)],
          completedCount := next.0, state := next.1)
      ensures old(currentSentence).Some? && old(inputValue) != [] ==>
        var sentence, input := old(currentSentence).value, old(inputValue);
        var accuracy := Accuracy(input, sentence);
        var mistakes := |input| - Matches(input, sentence);
        var record := UserStore.TypingRecord(historyId, now, finalWpm, accuracy,
          MenuGenre(old(selectedMenu)), MenuDifficulty(old(selectedMenu)), mistakes);
        store.State() == old(store.State()).(
          points := old(store.points) + PointsEarned(accuracy, finalWpm),
          level := UserStore.LevelFor(old(store.points) + PointsEarned(accuracy, finalWpm)),
          history := old(store.history) + [record],
          mistakes := old(store.mistakes) + NewMistakes(sentence, input, Barista.Walk(diffs, 0), mistakeStamps, mistakeIds, 0))
    {
      if currentSentence.None? || |inputValue| == 0 {
        return;
      }
      var sentence, input := currentSentence.value, inputValue;
      var accuracy, mistakes := CalculateStats(input, sentence);

      var analysis := Barista.AnalyzeInput(input, sentence, finalWpm, diffs);

      var record := UserStore.TypingRecord([], now, finalWpm, accuracy,
        MenuGenre(selectedMenu), MenuDifficulty(selectedMenu), mistakes);
      ghost var page := View();
      RecordAttempt(store, PointsEarned(accuracy, finalWpm), record, historyId, sentence, input, analysis.corrections, mistakeStamps, mistakeIds);
      assert View() == page;

      CompleteSentence(analysis, BatchResult(accuracy, finalWpm, mistakes, sentence, duration));
    }

    /** The page side of `finishTyping`: shows the analysis and the final stats, adds
      the result to the batch and advances the batch counter. */
    method CompleteSentence(analysis: Barista.Analysis, result: BatchResult)
      requires Valid() && 0 <= result.accuracy <= 100
      modifies this
      ensures Valid()
      ensures View() == old(View()).(
        aiResult := Some(analysis),
        stats := Stats(result.wpm, result.accuracy, result.mistakes),
        batchResults := old(batchResults) + [result],
        completedCount := BatchStep(old(completedCount), old(targetCount), old(state)).0,
        state := BatchStep(old(completedCount), old(targetCount), old(state)).1)
    {
      aiResult, stats := Some(analysis), Stats(result.wpm, result.accuracy, result.mistakes);
      batchResults := batchResults + [result];
      if completedCount + 1 < targetCount {
        completedCount := completedCount + 1;
      } else {
        completedCount := targetCount;
        state := Receipt;
      }
    }
  }

  /** The receipt's average accuracy is a percentage: every result of a session's batch
      has one, so their rounded mean is one too. */
  lemma ReceiptAccuracyIsPercent(session: TypingSession)
    requires session.Valid() && session.batchResults != []
    ensures var average := Average(BatchAccuracies(session.batchResults));
      average.Some? && 0 <= average.value <= 100
  {
    AverageBounds(BatchAccuracies(session.batchResults), 0, 100);
  }

  /** The store side of `finishTyping`: `addPoints`, then `addHistory`, then one
      `addMistake` per correction. */
  method RecordAttempt(store: UserStore.Store, pointsEarned: int, record: UserStore.TypingRecord,
                       historyId: string, sentence: string, input: string,
                       cs: seq<Barista.Correction>, stamps: nat -> int, mistakeIds: nat -> string)
    modifies store
    ensures store.State() == old(store.State()).(
      points := old(store.points) + pointsEarned,
      level := UserStore.LevelFor(old(store.points) + pointsEarned),
      history := old(store.history) + [record.(id := historyId)],
      mistakes := old(store.mistakes) + NewMistakes(sentence, input, cs, stamps, mistakeIds, 0))
  {
    store.AddPoints(pointsEarned);
    store.AddHistory(record, historyId);
    RecordMistakes(store, sentence, input, cs, stamps, mistakeIds);
  }

  /** The loop of `addMistake` calls in `finishTyping`: one record per correction, in
      order, each under the next fresh id; nothing else in the store changes. */
  method RecordMistakes(store: UserStore.Store, sentence: string, input: string,
                        cs: seq<Barista.Correction>, stamps: nat -> int, ids: nat -> string)
    modifies store
    ensures store.State() == old(store.State()).(mistakes := old(store.mistakes) + NewMistakes(sentence, input, cs, stamps, ids, 0))
  {
    ghost var before := store.mistakes;
    var k := 0;
    while k < |cs|
      invariant 0 <= k <= |cs|
      invariant store.mistakes == before + NewMistakes(sentence, input, cs[..k], stamps, ids, 0)
      invariant store.State() == old(store.State()).(mistakes := store.mistakes)
    {
      var c := cs[k];
      store.AddMistake(UserStore.MistakeRecord([], sentence, input, c.expected, c.kind, stamps(k)), ids(k));
      NewMistakesSnoc(sentence, input, cs, k, stamps, ids);
      k := k + 1;
    }
    assert cs[..k] == cs;
  }

  /** Extending the corrections by one extends the records by one. */
  lemma NewMistakesSnoc(sentence: string, input: string, cs: seq<Barista.Correction>, k: nat,
                        stamps: nat -> int, ids: nat -> string)
    requires k < |cs|
    ensures NewMistakes(sentence, input, cs[..k + 1], stamps, ids, 0)
         == NewMistakes(sentence, input, cs[..k], stamps, ids, 0)
            + [UserStore.MistakeRecord(ids(k), sentence, input, cs[k].expected, cs[k].kind, stamps(k))]
  {
    var a := NewMistakes(sentence, input, cs[..k + 1], stamps, ids, 0);
    var b := NewMistakes(sentence, input, cs[..k], stamps, ids, 0)
             + [UserStore.MistakeRecord(ids(k), sentence, input, cs[k].expected, cs[k].kind, stamps(k))];
    assert |a| == |b|;
    forall j | 0 <= j < |a| ensures a[j] == b[j] {
      NewMistakesAt(sentence, input, cs[..k + 1], stamps, ids, 0, j);
      if j < k {
        NewMistakesAt(sentence, input, cs[..k], stamps, ids, 0, j);
      }
    }
  }

  /** Record `j` is built from correction `j` alone. */
  lemma {:induction false} NewMistakesAt(sentence: string, input: string, cs: seq<Barista.Correction>,
                                         stamps: nat -> int, ids: nat -> string, from: nat, j: nat)
    requires j < |cs|
    ensures NewMistakes(sentence, input, cs, stamps, ids, from)[j]
         == UserStore.MistakeRecord(ids(from + j), sentence, input, cs[j].expected, cs[j].kind, stamps(from + j))
    decreases j
  {
    if j > 0 {
      NewMistakesAt(sentence, input, cs[1..], stamps, ids, from + 1, j - 1);
    }
  }
}
