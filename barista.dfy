/** The input-analysis engine ("AI Barista"): it walks a character diff between the
    target sentence and what the learner typed, classifies every discrepancy, counts
    the mistakes, scores the attempt from 0 to 100 and picks a feedback tier.

    The diff itself (diff-match-patch's `diff_main` followed by `diff_cleanupSemantic`)
    is an input here: a sequence of spans that must rebuild both sentences. */
module Barista {

  /** diff-match-patch's operation codes: DIFF_DELETE (-1), DIFF_EQUAL (0), DIFF_INSERT (1).
      A Delete span is text of the target missing from the input; an Insert span is text
      of the input absent from the target. */
  datatype Op = Delete | Equal | Insert

  /** One `[op, text]` tuple of the diff. */
  datatype Span = Span(op: Op, text: string)

  /** The target sentence the diff describes: its Equal and Delete spans, in order. */
  function TargetText(diffs: seq<Span>): string {
    if diffs == [] then []
    else (if diffs[0].op != Insert then diffs[0].text else []) + TargetText(diffs[1..])
  }

  /** The typed input the diff describes: its Equal and Insert spans, in order. */
  function InputText(diffs: seq<Span>): string {
    if diffs == [] then []
    else (if diffs[0].op != Delete then diffs[0].text else []) + InputText(diffs[1..])
  }

  /** The guarantee of the diff library: the spans rebuild both sentences. */
  predicate ValidDiff(diffs: seq<Span>, target: string, input: string) {
    TargetText(diffs) == target && InputText(diffs) == input
  }

  /** The text of the Delete spans, in order. */
  function DeletedText(diffs: seq<Span>): string {
    if diffs == [] then []
    else (if diffs[0].op == Delete then diffs[0].text else []) + DeletedText(diffs[1..])
  }

  /** The text of the Insert spans, in order. */
  function InsertedText(diffs: seq<Span>): string {
    if diffs == [] then []
    else (if diffs[0].op == Insert then diffs[0].text else []) + InsertedText(diffs[1..])
  }

  /** Total length of the Equal spans: how far the target cursor advances. */
  function EqualLength(diffs: seq<Span>): nat {
    if diffs == [] then 0
    else (if diffs[0].op == Equal then |diffs[0].text| else 0) + EqualLength(diffs[1..])
  }

  /** Number of Delete and Insert spans. */
  function EditSpans(diffs: seq<Span>): nat {
    if diffs == [] then 0
    else (if diffs[0].op != Equal then 1 else 0) + EditSpans(diffs[1..])
  }

  /** The fifteen Korean particles the classifier recognises. */
  const Particles: seq<string> :=
    ["은", "는", "이", "가", "을", "를", "에", "에서", "로", "으로", "의", "도", "만", "과", "와"]

  /** `PARTICLES.includes(s)`: an exact match against the table. */
  predicate IsParticle(s: string) {
    s in Particles
  }

  /** What a spacing correction reports as expected instead of the space itself. */
  const SpaceMarker: string := "[空格]"

  datatype Kind = Spelling | Particle | Spacing | Missing | Extra

  /** One reported discrepancy; the explanation text is a function of these fields. */
  datatype Correction = Correction(kind: Kind, position: nat, expected: string, actual: string)

  /** Classification of a deletion immediately followed by an insertion: the first
      matching rule of particle, spacing, spelling. */
  function Classify(deleted: string, inserted: string): (k: Kind)
    ensures k == Particle <==> IsParticle(deleted) || IsParticle(inserted)
    ensures k == Spacing <==>
      !IsParticle(deleted) && !IsParticle(inserted) && deleted == " " && inserted != " "
    ensures k != Missing && k != Extra
  {
    if IsParticle(deleted) || IsParticle(inserted) then Particle
    else if deleted == " " && inserted != " " then Spacing
    else Spelling
  }

  /** The single correction a substitution yields. */
  function Substitution(deleted: string, inserted: string, position: nat): Correction {
    var kind := Classify(deleted, inserted);
    Correction(kind, position, if kind == Spacing then SpaceMarker else deleted, inserted)
  }

  /** The corrections the classification pass reports for `diffs` when the target
      cursor stands at `position`: Equal spans move the cursor, a Delete followed by an
      Insert is one substitution, a lone Delete is missing text and a lone Insert is
      extra text. */
  function Walk(diffs: seq<Span>, position: nat): seq<Correction>
    decreases |diffs|
  {
    if diffs == [] then []
    else
      match diffs[0].op
      case Equal => Walk(diffs[1..], position + |diffs[0].text|)
      case Delete =>
        if |diffs| > 1 && diffs[1].op == Insert then
          [Substitution(diffs[0].text, diffs[1].text, position)] + Walk(diffs[2..], position)
        else
          [Correction(Missing, position, diffs[0].text, [])] + Walk(diffs[1..], position)
      case Insert => [Correction(Extra, position, [], diffs[0].text)] + Walk(diffs[1..], position)
  }

  /** The `actual` texts of the corrections, concatenated. */
  function ActualText(cs: seq<Correction>): string {
    if cs == [] then [] else cs[0].actual + ActualText(cs[1..])
  }

  /** The target text the corrections account for: `expected`, except that a spacing
      correction stands for the single space its marker replaces. */
  function ExpectedText(cs: seq<Correction>): string {
    if cs == [] then []
    else (if cs[0].kind == Spacing then " " else cs[0].expected) + ExpectedText(cs[1..])
  }

  /** Every correction has the shape its kind promises: a missing text has no actual
      text, an extra text has no expected text, a spacing error replaced a space by
      something else and is reported with the marker, a particle error involves a
      particle on one side. */
  predicate WellShaped(c: Correction) {
    && (c.kind == Missing ==> c.actual == [])
    && (c.kind == Extra ==> c.expected == [])
    && (c.kind == Spacing ==> c.expected == SpaceMarker && c.actual != " ")
    && (c.kind == Particle ==> IsParticle(c.expected) || IsParticle(c.actual))
  }

  lemma {:induction false} WalkWellShaped(diffs: seq<Span>, position: nat)
    ensures forall c :: c in Walk(diffs, position) ==> WellShaped(c)
    decreases |diffs|
  {
    if diffs != [] {
      if diffs[0].op == Equal {
        WalkWellShaped(diffs[1..], position + |diffs[0].text|);
      } else if diffs[0].op == Delete && |diffs| > 1 && diffs[1].op == Insert {
        WalkWellShaped(diffs[2..], position);
      } else {
        WalkWellShaped(diffs[1..], position);
      }
    }
  }

  /** Nothing is lost or invented: read in order, the corrections' actual texts are
      exactly the inserted text of the diff, and their expected texts (with the space
      behind each spacing marker) are exactly the deleted text. */
  lemma WalkAccountsForEveryEdit(diffs: seq<Span>, position: nat)
    ensures ActualText(Walk(diffs, position)) == InsertedText(diffs)
    ensures ExpectedText(Walk(diffs, position)) == DeletedText(diffs)
  {
    WalkActualText(diffs, position);
    WalkExpectedText(diffs, position);
  }

  /** The inserted half of WalkAccountsForEveryEdit. */
  lemma {:induction false} WalkActualText(diffs: seq<Span>, position: nat)
    ensures ActualText(Walk(diffs, position)) == InsertedText(diffs)
    decreases |diffs|
  {
    if diffs != [] {
      var w := Walk(diffs, position);
      if diffs[0].op == Equal {
        WalkActualText(diffs[1..], position + |diffs[0].text|);
      } else if diffs[0].op == Delete && |diffs| > 1 && diffs[1].op == Insert {
        WalkActualText(diffs[2..], position);
        assert w == [Substitution(diffs[0].text, diffs[1].text, position)] + Walk(diffs[2..], position);
        assert w[1..] == Walk(diffs[2..], position);
        assert diffs[1..][1..] == diffs[2..];
        assert InsertedText(diffs[1..]) == diffs[1].text + InsertedText(diffs[2..]);
      } else {
        WalkActualText(diffs[1..], position);
        assert w[1..] == Walk(diffs[1..], position);
      }
    }
  }

  /** The deleted half of WalkAccountsForEveryEdit. */
  lemma {:induction false} WalkExpectedText(diffs: seq<Span>, position: nat)
    ensures ExpectedText(Walk(diffs, position)) == DeletedText(diffs)
    decreases |diffs|
  {
    if diffs != [] {
      var w := Walk(diffs, position);
      if diffs[0].op == Equal {
        WalkExpectedText(diffs[1..], position + |diffs[0].text|);
      } else if diffs[0].op == Delete && |diffs| > 1 && diffs[1].op == Insert {
        WalkExpectedText(diffs[2..], position);
        assert w == [Substitution(diffs[0].text, diffs[1].text, position)] + Walk(diffs[2..], position);
        assert w[1..] == Walk(diffs[2..], position);
        assert diffs[1..][1..] == diffs[2..];
        assert DeletedText(diffs[1..]) == DeletedText(diffs[2..]);
      } else {
        WalkExpectedText(diffs[1..], position);
        assert w[1..] == Walk(diffs[1..], position);
      }
    }
  }

  /** Every correction sits between the starting cursor and the cursor after all
      Equal spans, and positions never decrease along the list. */
  lemma WalkPositions(diffs: seq<Span>, position: nat)
    ensures forall c :: c in Walk(diffs, position) ==>
      position <= c.position <= position + EqualLength(diffs)
    ensures forall j, k :: 0 <= j < k < |Walk(diffs, position)| ==>
      Walk(diffs, position)[j].position <= Walk(diffs, position)[k].position
  {
    WalkPositionsBounded(diffs, position);
    WalkPositionsOrdered(diffs, position);
  }

  /** The first half of WalkPositions: the bounds. */
  lemma {:induction false} WalkPositionsBounded(diffs: seq<Span>, position: nat)
    ensures forall c :: c in Walk(diffs, position) ==>
      position <= c.position <= position + EqualLength(diffs)
    decreases |diffs|
  {
    if diffs != [] {
      var w := Walk(diffs, position);
      if diffs[0].op == Equal {
        WalkPositionsBounded(diffs[1..], position + |diffs[0].text|);
      } else {
        var skip := if diffs[0].op == Delete && |diffs| > 1 && diffs[1].op == Insert then 2 else 1;
        var rest := diffs[skip..];
        WalkPositionsBounded(rest, position);
        assert w == [w[0]] + Walk(rest, position);
        assert w[0].position == position;
        assert EqualLength(rest) <= EqualLength(diffs) by {
          if skip == 2 {
            assert diffs[1..][1..] == diffs[2..];
          }
        }
      }
    }
  }

  /** The second half of WalkPositions: the order. */
  lemma {:induction false} WalkPositionsOrdered(diffs: seq<Span>, position: nat)
    ensures forall j, k :: 0 <= j < k < |Walk(diffs, position)| ==>
      Walk(diffs, position)[j].position <= Walk(diffs, position)[k].position
    decreases |diffs|
  {
    if diffs != [] {
      var w := Walk(diffs, position);
      if diffs[0].op == Equal {
        WalkPositionsOrdered(diffs[1..], position + |diffs[0].text|);
      } else {
        var skip := if diffs[0].op == Delete && |diffs| > 1 && diffs[1].op == Insert then 2 else 1;
        var rest := diffs[skip..];
        WalkPositionsBounded(rest, position);
        WalkPositionsOrdered(rest, position);
        var wr := Walk(rest, position);
        assert w == [w[0]] + wr;
        assert w[0].position == position;
        forall j, k | 0 <= j < k < |w| ensures w[j].position <= w[k].position {
          assert w[k] == wr[k - 1] && w[k] in wr;
          if j > 0 {
            assert w[j] == wr[j - 1];
          }
        }
      }
    }
  }

  /** The Equal spans never cover more than the target they belong to. */
  lemma {:induction false} EqualLengthWithinTarget(diffs: seq<Span>)
    ensures EqualLength(diffs) + |DeletedText(diffs)| == |TargetText(diffs)|
    decreases |diffs|
  {
    if diffs != [] {
      EqualLengthWithinTarget(diffs[1..]);
    }
  }

  /** Positions are offsets into the target: none exceeds its length. */
  lemma PositionsWithinTarget(diffs: seq<Span>, target: string, input: string)
    requires ValidDiff(diffs, target, input)
    ensures forall c :: c in Walk(diffs, 0) ==> c.position <= |target|
  {
    WalkPositions(diffs, 0);
    EqualLengthWithinTarget(diffs);
  }

  /** Span `j` is an edit and the cursor before it stands at `pos`. */
  predicate EditAt(diffs: seq<Span>, position: nat, j: int, pos: nat) {
    0 <= j < |diffs| && diffs[j].op != Equal && pos == position + EqualLength(diffs[..j])
  }

  /** Each correction's position is the total length of the Equal spans before the
      edit span it was made from. */
  lemma {:induction false} WalkPositionIsCursor(diffs: seq<Span>, position: nat)
    ensures forall c :: c in Walk(diffs, position) ==>
      exists j :: EditAt(diffs, position, j, c.position)
    decreases |diffs|
  {
    if diffs != [] {
      var w := Walk(diffs, position);
      var d0 := diffs[0];
      var shift := if d0.op == Equal then |d0.text| else 0;
      var skip := if d0.op == Delete && |diffs| > 1 && diffs[1].op == Insert then 2 else 1;
      var rest := diffs[skip..];
      WalkPositionIsCursor(rest, position + shift);
      forall c | c in w ensures exists j :: EditAt(diffs, position, j, c.position) {
        if d0.op != Equal && c == w[0] {
          assert diffs[..0] == [];
          assert EditAt(diffs, position, 0, c.position);
        } else {
          assert c in Walk(rest, position + shift);
          var j :| EditAt(rest, position + shift, j, c.position);
          PrefixEqualLength(diffs, skip, j);
          assert EditAt(diffs, position, j + skip, c.position);
        }
      }
    }
  }

  /** The Equal length of a prefix that starts with the first `skip` spans. */
  lemma PrefixEqualLength(diffs: seq<Span>, skip: nat, j: nat)
    requires 1 <= skip <= 2 && skip + j <= |diffs|
    requires skip == 2 ==> diffs[0].op == Delete && diffs[1].op == Insert
    ensures EqualLength(diffs[..skip + j])
      == (if diffs[0].op == Equal then |diffs[0].text| else 0) + EqualLength(diffs[skip..][..j])
  {
    var p := diffs[..skip + j];
    assert p[1..] == diffs[1..][..skip - 1 + j];
    if skip == 2 {
      assert p[1..][1..] == diffs[skip..][..j];
      assert EqualLength(p[1..]) == EqualLength(p[1..][1..]);
    } else {
      assert p[1..] == diffs[skip..][..j];
    }
  }

  /** A pair of a deletion and the following insertion is one correction: the walk
      reports at least one correction for every two edit spans and at most one per edit
      span. */
  lemma {:induction false} WalkCount(diffs: seq<Span>, position: nat)
    ensures |Walk(diffs, position)| <= EditSpans(diffs) <= 2 * |Walk(diffs, position)|
    decreases |diffs|
  {
    if diffs != [] {
      if diffs[0].op == Equal {
        WalkCount(diffs[1..], position + |diffs[0].text|);
      } else if diffs[0].op == Delete && |diffs| > 1 && diffs[1].op == Insert {
        WalkCount(diffs[2..], position);
        assert diffs[1..][1..] == diffs[2..];
      } else {
        WalkCount(diffs[1..], position);
      }
    }
  }

  function Max(a: int, b: int): int {
    if a >= b then a else b
  }

  /** `Math.round(n / d)` for a positive `d`: the nearest integer, halves rounded up. */
  function RoundDiv(n: int, d: int): int
    requires d > 0
  {
    (2 * n + d) / (2 * d)
  }

  /** RoundDiv is the integer nearest to n / d, with halves going up:
      r - 1/2 <= n / d < r + 1/2. */
  lemma RoundDivNearest(n: int, d: int)
    requires d > 0
    ensures d * (2 * RoundDiv(n, d) - 1) <= 2 * n < d * (2 * RoundDiv(n, d) + 1)
  {
    var q, m := (2 * n + d) / (2 * d), (2 * n + d) % (2 * d);
    assert 2 * n + d == 2 * d * q + m && 0 <= m < 2 * d;
    assert d * (2 * q - 1) == 2 * d * q - d;
    assert d * (2 * q + 1) == 2 * d * q + d;
  }

  /** Rounding is monotone in the numerator. */
  lemma RoundDivMonotone(a: int, b: int, d: int)
    requires d > 0 && a <= b
    ensures RoundDiv(a, d) <= RoundDiv(b, d)
  {
    RoundDivNearest(a, d);
    RoundDivNearest(b, d);
    var ra, rb := RoundDiv(a, d), RoundDiv(b, d);
    var x := (2 * rb + 1) - (2 * ra - 1);
    assert d * x == d * (2 * rb + 1) - d * (2 * ra - 1);
    NonPositiveProduct(d, x);
  }

  /** Rounding a ratio that lies in [0, 1] times 100 gives an integer in [0, 100]. */
  lemma RoundPercentBounds(n: int, d: int)
    requires d > 0 && 0 <= n <= d
    ensures 0 <= RoundDiv(n * 100, d) <= 100
  {
    RoundDivMonotone(0, n * 100, d);
    RoundDivMonotone(n * 100, 100 * d, d);
    RoundDivExact(0, d);
    RoundDivExact(100, d);
  }

  /** A whole quotient needs no rounding. */
  lemma RoundDivExact(k: int, d: int)
    requires d > 0
    ensures RoundDiv(k * d, d) == k
  {
    var q, m := (2 * (k * d) + d) / (2 * d), (2 * (k * d) + d) % (2 * d);
    assert 2 * (k * d) + d == 2 * d * q + m;
    assert (2 * d) * (k - q) == m - d;
    MulBetweenIsZero(2 * d, k - q);
  }

  /** A multiple of `b` strictly between `-b` and `b` is zero. */
  lemma MulBetweenIsZero(b: int, x: int)
    requires b > 0 && -b < b * x < b
    ensures x == 0
  {
    assert b * (1 - x) == b - b * x;
    assert b * (x + 1) == b * x + b;
    NonPositiveProduct(b, 1 - x);
    NonPositiveProduct(b, x + 1);
  }

  lemma {:induction false} NonPositiveProduct(b: nat, y: int)
    ensures y <= 0 ==> b * y <= 0
    decreases if y < 0 then -y else 0
  {
    if y < 0 {
      NonPositiveProduct(b, y + 1);
      assert b * y == b * (y + 1) - b;
    }
  }

  /** The score: 100 when both sentences are empty, otherwise the rounded percentage of
      the longer length not taken by mistakes, never below 0. */
  function Score(inputLength: nat, targetLength: nat, mistakes: nat): int {
    var total := Max(inputLength, targetLength);
    if total == 0 then 100 else Max(0, RoundDiv((total - mistakes) * 100, total))
  }

  /** The score is always a percentage. */
  lemma ScoreBounds(inputLength: nat, targetLength: nat, mistakes: nat)
    ensures 0 <= Score(inputLength, targetLength, mistakes) <= 100
  {
    var total := Max(inputLength, targetLength);
    if total > 0 {
      if mistakes <= total {
        RoundPercentBounds(total - mistakes, total);
      }
    }
  }

  /** Without mistakes the score is perfect. */
  lemma ScorePerfect(inputLength: nat, targetLength: nat)
    ensures Score(inputLength, targetLength, 0) == 100
  {
    var total := Max(inputLength, targetLength);
    if total > 0 {
      RoundDivExact(100, total);
    }
  }

  /** More mistakes never raise the score. */
  lemma ScoreMonotone(inputLength: nat, targetLength: nat, fewer: nat, more: nat)
    requires fewer <= more
    ensures Score(inputLength, targetLength, more) <= Score(inputLength, targetLength, fewer)
  {
    var total := Max(inputLength, targetLength);
    if total > 0 {
      RoundDivMonotone((total - more) * 100, (total - fewer) * 100, total);
    }
  }

  /** A mistake does not always cost a point: past 200 characters a single mistake
      still rounds to a perfect 100. */
  lemma OneMistakeCanStillScorePerfect()
    ensures Score(201, 201, 1) == 100
    ensures Score(200, 200, 1) == 100
    ensures Score(199, 199, 1) == 99
  {
  }

  /** The eight feedback tiers, in the order the decision table lists them. */
  datatype Tier =
    | NativeLevel       // perfect and faster than 60 wpm
    | PerfectTrySpeed   // perfect and faster than 40 wpm
    | PerfectFocusSpeed // perfect, slower
    | Excellent         // 90 or more with at most two mistakes
    | GoodMindDetails   // 90 or more with more mistakes
    | Decent            // 80 or more
    | RoughStart        // 60 or more
    | Encouragement     // below 60

  /** The row of the decision table a tier comes from. */
  function Rank(t: Tier): nat {
    match t
    case NativeLevel => 0
    case PerfectTrySpeed => 1
    case PerfectFocusSpeed => 2
    case Excellent => 3
    case GoodMindDetails => 4
    case Decent => 5
    case RoughStart => 6
    case Encouragement => 7
  }

  /** The feedback tier, described region by region: each tier owns the scores and
      speeds that reach it past every earlier row of the table. */
  function Feedback(score: int, mistakes: nat, wpm: int): (t: Tier)
    ensures t == NativeLevel <==> score == 100 && wpm > 60
    ensures t == PerfectTrySpeed <==> score == 100 && 40 < wpm <= 60
    ensures t == PerfectFocusSpeed <==> score == 100 && wpm <= 40
    ensures t == Excellent <==> score != 100 && score >= 90 && mistakes <= 2
    ensures t == GoodMindDetails <==> score != 100 && score >= 90 && mistakes > 2
    ensures t == Decent <==> 80 <= score < 90
    ensures t == RoughStart <==> 60 <= score < 80
    ensures t == Encouragement <==> score < 60
  {
    if score == 100 then
      (if wpm > 60 then NativeLevel else if wpm > 40 then PerfectTrySpeed else PerfectFocusSpeed)
    else if 90 <= score then (if mistakes <= 2 then Excellent else GoodMindDetails)
    else if 80 <= score then Decent
    else if 60 <= score then RoughStart
    else Encouragement
  }

  /** For scores within 0..100, a better score never moves the feedback further down
      the table. */
  lemma FeedbackMonotone(s1: int, s2: int, mistakes: nat, wpm: int)
    requires 0 <= s1 <= s2 <= 100
    ensures Rank(Feedback(s2, mistakes, wpm)) <= Rank(Feedback(s1, mistakes, wpm))
  {
  }

  /** One step of the walk over the suffix starting at span `i`. */
  lemma WalkAt(diffs: seq<Span>, i: nat, position: nat)
    requires i < |diffs|
    ensures diffs[i].op == Equal ==>
      Walk(diffs[i..], position) == Walk(diffs[i + 1..], position + |diffs[i].text|)
    ensures diffs[i].op == Delete && i + 1 < |diffs| && diffs[i + 1].op == Insert ==>
      Walk(diffs[i..], position)
      == [Substitution(diffs[i].text, diffs[i + 1].text, position)] + Walk(diffs[i + 2..], position)
    ensures diffs[i].op == Delete && !(i + 1 < |diffs| && diffs[i + 1].op == Insert) ==>
      Walk(diffs[i..], position)
      == [Correction(Missing, position, diffs[i].text, [])] + Walk(diffs[i + 1..], position)
    ensures diffs[i].op == Insert ==>
      Walk(diffs[i..], position)
      == [Correction(Extra, position, [], diffs[i].text)] + Walk(diffs[i + 1..], position)
  {
    var rest := diffs[i..];
    assert rest[1..] == diffs[i + 1..];
    if i + 1 < |diffs| {
      assert rest[2..] == diffs[i + 2..];
    }
  }

  /** A diff of Equal spans only reports nothing, and both sentences are its text. */
  lemma {:induction false} WalkAllEqual(diffs: seq<Span>, position: nat)
    requires forall j :: 0 <= j < |diffs| ==> diffs[j].op == Equal
    ensures Walk(diffs, position) == []
    ensures TargetText(diffs) == InputText(diffs)
    decreases |diffs|
  {
    if diffs != [] {
      WalkAllEqual(diffs[1..], position + |diffs[0].text|);
    }
  }

  /** When the diff finds nothing but matches (as it does for identical sentences),
      the input is the target, there are no corrections and the score is 100. */
  lemma AllEqualIsPerfect(diffs: seq<Span>, target: string, input: string)
    requires ValidDiff(diffs, target, input)
    requires forall j :: 0 <= j < |diffs| ==> diffs[j].op == Equal
    ensures input == target
    ensures Walk(diffs, 0) == []
    ensures Score(|input|, |target|, |Walk(diffs, 0)|) == 100
  {
    WalkAllEqual(diffs, 0);
    ScorePerfect(|input|, |target|);
  }

  /** An empty input against a non-empty target (the diff is one deletion) yields one
      missing correction covering the whole target; the score is 0 only for a
      one-character target and at least 50 otherwise. */
  lemma EmptyInput(target: string)
    requires target != []
    ensures ValidDiff([Span(Delete, target)], target, [])
    ensures Walk([Span(Delete, target)], 0) == [Correction(Missing, 0, target, [])]
    ensures Score(0, |target|, 1) == 0 <==> |target| == 1
    ensures |target| > 1 ==> Score(0, |target|, 1) >= 50
  {
    var n := |target|;
    assert [Span(Delete, target)][1..] == [];
    if n > 1 {
      RoundDivMonotone(50 * n, (n - 1) * 100, n);
      RoundDivExact(50, n);
    } else {
      assert Score(0, n, 1) == Max(0, RoundDiv(0, 1));
    }
  }

  /** Typing into an empty target (the diff is one insertion) yields one extra
      correction holding the whole input. */
  lemma EmptyTarget(input: string)
    requires input != []
    ensures ValidDiff([Span(Insert, input)], [], input)
    ensures Walk([Span(Insert, input)], 0) == [Correction(Extra, 0, [], input)]
  {
    assert [Span(Insert, input)][1..] == [];
  }

  /** "나은 학생이다" typed for "나는 학생이다": the substituted syllable is a particle
      confusion, one mistake in seven characters scores 86 and draws the "decent" tier. */
  lemma ParticleConfusionExample()
    ensures var diffs := [Span(Equal, "나"), Span(Delete, "는"), Span(Insert, "은"), Span(Equal, " 학생이다")];
      && ValidDiff(diffs, "나는 학생이다", "나은 학생이다")
      && Walk(diffs, 0) == [Correction(Particle, 1, "는", "은")]
      && Score(7, 7, 1) == 86
      && Feedback(86, 1, 0) == Decent
  {
    var diffs := [Span(Equal, "나"), Span(Delete, "는"), Span(Insert, "은"), Span(Equal, " 학생이다")];
    assert diffs[1..][1..] == diffs[2..];
    assert diffs[2..][1..] == diffs[3..];
    assert diffs[3..][1..] == [];
    assert IsParticle("는");
  }

  /** A dropped space with nothing typed in its place is a lone deletion, so it is
      reported as missing text, not as a spacing error: spacing needs an insertion
      right after the deleted space. */
  lemma DroppedSpaceIsMissing()
    ensures var diffs := [Span(Equal, "나는"), Span(Delete, " "), Span(Equal, "학생이다")];
      && ValidDiff(diffs, "나는 학생이다", "나는학생이다")
      && Walk(diffs, 0) == [Correction(Missing, 2, " ", [])]
  {
    var diffs := [Span(Equal, "나는"), Span(Delete, " "), Span(Equal, "학생이다")];
    assert diffs[1..][1..] == diffs[2..];
    assert diffs[2..][1..] == [];
  }

  /** Only a deletion followed by an insertion pairs up: an insertion followed by a
      deletion is two corrections, extra text and then missing text, at one position. */
  lemma InsertBeforeDeleteIsTwoCorrections(inserted: string, deleted: string, position: nat)
    ensures Walk([Span(Insert, inserted), Span(Delete, deleted)], position)
         == [Correction(Extra, position, [], inserted), Correction(Missing, position, deleted, [])]
  {
    var diffs := [Span(Insert, inserted), Span(Delete, deleted)];
    var tail := [Span(Delete, deleted)];
    assert diffs[1..] == tail && tail[1..] == [];
    assert Walk(tail, position) == [Correction(Missing, position, deleted, [])];
    assert Walk(diffs, position) == [Correction(Extra, position, [], inserted)] + Walk(tail, position);
  }

  /** The result of one analysis (the explanation strings are left out). */
  datatype Analysis = Analysis(score: int, feedback: Tier, corrections: seq<Correction>)

  /** `analyzeInput(input, target, wpm)` given the diff from `target` to `input`.
      The loop counts one mistake per pushed correction, so the score is computed from
      exactly as many mistakes as there are corrections. */
  method AnalyzeInput(input: string, target: string, wpm: int, diffs: seq<Span>)
    returns (result: Analysis)
    requires ValidDiff(diffs, target, input)
    ensures result.corrections == Walk(diffs, 0)
    ensures result.score == Score(|input|, |target|, |result.corrections|)
    ensures 0 <= result.score <= 100
    ensures result.feedback == Feedback(result.score, |result.corrections|, wpm)
  {
    var corrections, mistakes := CollectCorrections(diffs);

    var totalLen := Max(|input|, |target|);
    var accuracy := if totalLen == 0 then 100 else Max(0, RoundDiv((totalLen - mistakes) * 100, totalLen));
    ScoreBounds(|input|, |target|, mistakes);
    var feedback := PickFeedback(accuracy, mistakes, wpm);
    result := Analysis(accuracy, feedback, corrections);
  }

  /** The classification of a deletion followed by an insertion, as the loop writes it. */
  method ClassifyPair(text: string, nextText: string, position: nat) returns (c: Correction)
    ensures c == Substitution(text, nextText, position)
    ensures c.kind != Missing && c.kind != Extra && c.actual == nextText
  {
    if IsParticle(text) || IsParticle(nextText) {
      c := Correction(Particle, position, text, nextText);
    } else if text == " " && nextText != " " {
      c := Correction(Spacing, position, SpaceMarker, nextText);
    } else {
      c := Correction(Spelling, position, text, nextText);
    }
  }

  /** The loop of `analyzeInput` over the diff: it reports exactly the corrections of
      the walk and counts one mistake per correction. */
  method CollectCorrections(diffs: seq<Span>) returns (corrections: seq<Correction>, mistakes: nat)
    ensures corrections == Walk(diffs, 0)
    ensures mistakes == |corrections|
  {
    mistakes := 0;
    corrections := [];
    var currentIndex: nat := 0;
    var i := 0;
    while i < |diffs|
      invariant 0 <= i <= |diffs|
      invariant mistakes == |corrections|
      invariant corrections + Walk(diffs[i..], currentIndex) == Walk(diffs, 0)
    {
      var op, text := diffs[i].op, diffs[i].text;
      WalkAt(diffs, i, currentIndex);
      if op == Equal {
        currentIndex := currentIndex + |text|;
      } else if op == Delete {
        if i + 1 < |diffs| && diffs[i + 1].op == Insert {
          var c := ClassifyPair(text, diffs[i + 1].text, currentIndex);
          assert corrections + [c] + Walk(diffs[i + 2..], currentIndex) == Walk(diffs, 0);
          corrections := corrections + [c];
          i := i + 1; // the insertion is consumed by the substitution
        } else {
          var c := Correction(Missing, currentIndex, text, []);
          assert corrections + [c] + Walk(diffs[i + 1..], currentIndex) == Walk(diffs, 0);
          corrections := corrections + [c];
        }
        mistakes := mistakes + 1;
      } else {
        var c := Correction(Extra, currentIndex, [], text);
        assert corrections + [c] + Walk(diffs[i + 1..], currentIndex) == Walk(diffs, 0);
        corrections := corrections + [c];
        mistakes := mistakes + 1;
      }
      i := i + 1;
    }
    assert diffs[|diffs|..] == [];
  }

  /** The feedback cascade of `analyzeInput`, first matching row wins. */
  method PickFeedback(accuracy: int, mistakes: nat, wpm: int) returns (feedback: Tier)
    ensures feedback == Feedback(accuracy, mistakes, wpm)
  {
    if accuracy == 100 {
      if wpm > 60 {
        feedback := NativeLevel;
      } else if wpm > 40 {
        feedback := PerfectTrySpeed;
      } else {
        feedback := PerfectFocusSpeed;
      }
    } else if accuracy >= 90 {
      if mistakes <= 2 {
        feedback := Excellent;
      } else {
        feedback := GoodMindDetails;
      }
    } else if accuracy >= 80 {
      feedback := Decent;
    } else if accuracy >= 60 {
      feedback := RoughStart;
    } else {
      feedback := Encouragement;
    }
  }
}
