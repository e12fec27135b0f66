/** The end-of-lesson screen: the percentage score, whether it passes, and
    the colour and text the screen shows for it. */
module LessonComplete {
  import opened Strings

  const PassingScore := 70

  /** `Math.round((correct / total) * 100)`, or 100 when there are no
      questions; `Math.round` rounds halves up, so this is
      `floor(100 * correct / total + 1/2)`, computed exactly. */
  function Score(correct: nat, total: nat): (s: int)
    ensures total == 0 ==> s == 100
  {
    if total > 0 then (200 * correct + total) / (2 * total) else 100
  }

  predicate Passed(correct: nat, total: nat) {
    Score(correct, total) >= PassingScore
  }

  /** Integer division by a positive divisor is a floor: `n / d >= k` exactly
      when `n >= k * d`. */
  lemma FloorDivAtLeast(n: int, d: int, k: int)
    requires d > 0
    ensures n / d >= k <==> n >= k * d
  {
    var q, r := n / d, n % d;
    assert n == d * q + r && 0 <= r < d;
    if q >= k {
      assert d * q >= d * k by { MulMonotone(d, k, q); }
    } else {
      assert d * (q + 1) <= d * k by { MulMonotone(d, q + 1, k); }
    }
  }

  lemma MulMonotone(d: int, a: int, b: int)
    requires d >= 0 && a <= b
    ensures d * a <= d * b
  {
    assert d * b - d * a == d * (b - a);
  }

  /** The score is the ratio rounded to the nearest whole percent, halves
      up: `score - 1/2 <= 100 * correct / total < score + 1/2`. */
  lemma ScoreRoundsToNearest(correct: nat, total: nat)
    requires total > 0
    ensures var s := Score(correct, total);
      2 * total * s - total <= 200 * correct < 2 * total * s + total
  {
    var n, d := 200 * correct + total, 2 * total;
    var s := n / d;
    assert n == d * s + n % d && 0 <= n % d < d;
    assert d * s == 2 * total * s;
  }

  /** No other whole number meets the rounding condition. */
  lemma ScoreIsUnique(correct: nat, total: nat, s: int)
    requires total > 0
    requires 2 * total * s - total <= 200 * correct < 2 * total * s + total
    ensures s == Score(correct, total)
  {
    var n, d := 200 * correct + total, 2 * total;
    assert d * s <= n < d * (s + 1);
    FloorDivAtLeast(n, d, s);
    FloorDivAtLeast(n, d, s + 1);
  }

  /** With `0 <= correct <= total` the score is a percentage, and all
      questions right scores 100. */
  lemma ScoreIsPercentage(correct: nat, total: nat)
    requires correct <= total
    ensures 0 <= Score(correct, total) <= 100
    ensures correct == total ==> Score(correct, total) == 100
  {
    if total > 0 {
      var n, d := 200 * correct + total, 2 * total;
      FloorDivAtLeast(n, d, 0);
      FloorDivAtLeast(n, d, 101);
      assert 200 * correct <= 200 * total;
      if correct == total {
        FloorDivAtLeast(n, d, 100);
        assert 101 * d == 202 * total;
      }
    }
  }

  /** One more right answer never lowers the score. */
  lemma ScoreMonotone(c1: nat, c2: nat, total: nat)
    requires c1 <= c2
    ensures Score(c1, total) <= Score(c2, total)
  {
    if total > 0 {
      var s := Score(c1, total);
      var d := 2 * total;
      FloorDivAtLeast(200 * c1 + total, d, s);
      FloorDivAtLeast(200 * c2 + total, d, s);
    }
  }

  /** A lesson passes exactly when at least 69.5 % of its questions were
      answered correctly (139/200 of them), and always when it has none. */
  lemma PassedIffRatio(correct: nat, total: nat)
    ensures total == 0 ==> Passed(correct, total)
    ensures total > 0 ==> (Passed(correct, total) <==> 200 * correct >= 139 * total)
  {
    if total > 0 {
      FloorDivAtLeast(200 * correct + total, 2 * total, 70);
    }
  }

  /** The colour of the score: emerald, amber or red. */
  datatype Tier = Emerald | Amber | Red

  function ScoreTier(correct: nat, total: nat): Tier {
    if Passed(correct, total) then Emerald
    else if Score(correct, total) >= 50 then Amber
    else Red
  }

  /** The tiers by the share of right answers: emerald from 69.5 %, amber
      from 49.5 %, red below. */
  lemma TierByRatio(correct: nat, total: nat)
    requires total > 0
    ensures ScoreTier(correct, total) == Emerald <==> 200 * correct >= 139 * total
    ensures ScoreTier(correct, total) == Amber <==> 99 * total <= 200 * correct < 139 * total
    ensures ScoreTier(correct, total) == Red <==> 200 * correct < 99 * total
  {
    PassedIffRatio(correct, total);
    FloorDivAtLeast(200 * correct + total, 2 * total, 50);
  }

  /** What the screen shows: heading, score text, colour, message, and
      whether "Try Again" is offered next to "Back to Lessons". */
  datatype Screen = Screen(title: string, scoreText: string, tier: Tier, message: string, offersRetry: bool)

  const PassedMessage := "Great job! You've mastered this lesson. Continue to the next one!"

  function FailedMessage(): string {
    "You need at least " + NatToString(PassingScore) + "% to pass. Review the material and try again!"
  }

  /** The rendered screen for `correct` of `total`. */
  function View(correct: nat, total: nat): (v: Screen)
    ensures v.offersRetry <==> v.tier != Emerald
    ensures v.tier == Emerald <==> v.title == "Lesson Complete!"
    ensures v.message == (if v.offersRetry then FailedMessage() else PassedMessage)
  {
    var passed := Passed(correct, total);
    var s := Score(correct, total);
    Screen(
      if passed then "Lesson Complete!" else "Keep Practicing!",
      (if s >= 0 then NatToString(s) else "-" + NatToString(-s)) + "%",
      ScoreTier(correct, total),
      if passed then PassedMessage else FailedMessage(),
      !passed)
  }

  /** The failure message names the passing score. */
  lemma FailedMessageNamesThreshold()
    ensures FailedMessage() == "You need at least " + "70" + "% to pass. Review the material and try again!"
  {
    assert NatToString(70) == "70" by {
      assert DigitChar(7) == '7' && DigitChar(0) == '0';
      assert NatToString(70) == NatToString(7) + [DigitChar(0)];
    }

  }
}
