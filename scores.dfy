/** Averaging evaluation scores. Scores are integers 1–5; sums and means are
    exact (`real`), where the application computes in floating point. */
module Scores {
  import opened Common
  import opened Grouping

  /** The lowest and highest score a star widget can give. */
  const MinScore := 1
  const MaxScore := 5

  predicate InRange(xs: seq<int>)
  {
    forall i :: 0 <= i < |xs| ==> MinScore <= xs[i] <= MaxScore
  }

  /** `xs.reduce((sum, x) => sum + x, 0)`. */
  function Sum(xs: seq<int>): int
  {
    if xs == [] then 0 else Sum(xs[..|xs| - 1]) + xs[|xs| - 1]
  }

  /** The sum of a list bounded element-wise is bounded by its length. */
  lemma {:induction false} SumBounds(xs: seq<int>, lo: int, hi: int)
    requires forall i :: 0 <= i < |xs| ==> lo <= xs[i] <= hi
    ensures lo * |xs| <= Sum(xs) <= hi * |xs|
  {
    if xs != [] {
      var n := |xs| - 1;
      SumBounds(xs[..n], lo, hi);
      assert lo * |xs| == lo * n + lo && hi * |xs| == hi * n + hi;
    }
  }

  /** `sum / length` for a non-empty list. */
  function Mean(xs: seq<int>): real
    requires |xs| > 0
  {
    Sum(xs) as real / |xs| as real
  }

  /** The mean of scores 1–5 is itself between 1 and 5. */
  lemma MeanInRange(xs: seq<int>)
    requires |xs| > 0 && InRange(xs)
    ensures MinScore as real <= Mean(xs) <= MaxScore as real
  {
    SumBounds(xs, MinScore, MaxScore);
    var total, n := Sum(xs) as real, |xs| as real;
    assert 1.0 * n <= total <= 5.0 * n;
    QuotientBounds(total, n, 1.0, 5.0);
  }

  /** A quotient by a positive number keeps the bounds its dividend keeps
      relative to that number. */
  lemma QuotientBounds(total: real, n: real, lo: real, hi: real)
    requires n > 0.0 && lo * n <= total <= hi * n
    ensures lo <= total / n <= hi
  {
    var q := total / n;
    assert q * n == total;
    assert (q - lo) * n == total - lo * n;
    assert (hi - q) * n == hi * n - total;
    ProductSign(q - lo, n);
    ProductSign(hi - q, n);
  }

  /** A negative number times a positive one is negative. */
  lemma ProductSign(a: real, n: real)
    requires n > 0.0
    ensures a < 0.0 ==> a * n < 0.0
  {
    if a < 0.0 {
      assert (0.0 - a) * n > 0.0;
    }
  }

  /** Multiplying a quotient back by its divisor. */
  lemma TimesQuotient(total: real, n: real)
    requires n != 0.0
    ensures n * (total / n) == total
  {
  }

  // ---------------------------------------------------------------------------
  // Per-skill statistics

  /** A score row reduced to the two columns the aggregations read. */
  datatype ScoreRow = ScoreRow(skillId: Id, score: int)

  function SkillKey(r: ScoreRow): Id { r.skillId }

  /** The `score` column of some rows. */
  function ScoreValues(rows: seq<ScoreRow>): (xs: seq<int>)
    ensures |xs| == |rows|
    ensures forall i :: 0 <= i < |rows| ==> xs[i] == rows[i].score
  {
    seq(|rows|, i requires 0 <= i < |rows| => rows[i].score)
  }

  lemma ScoreValuesAppend(a: seq<ScoreRow>, b: seq<ScoreRow>)
    ensures ScoreValues(a + b) == ScoreValues(a) + ScoreValues(b)
  {
  }

  /** The scores given to one skill. */
  function ScoresFor(rows: seq<ScoreRow>, skill: Id): seq<int>
  {
    ScoreValues(Group(rows, SkillKey, skill))
  }

  /** One entry of a statistics list: the mean of a skill's scores and how
      many scores there are. */
  datatype SkillStat = SkillStat(skillId: Id, averageRating: real, evaluationCount: nat)

  function StatOf(rows: seq<ScoreRow>, skill: Id): SkillStat
    requires skill in Keys(rows, SkillKey)
  {
    GroupNonEmptyIffKey(rows, SkillKey, skill);
    SkillStat(skill, Mean(ScoresFor(rows, skill)), |ScoresFor(rows, skill)|)
  }

  /** The reference statistics: one entry per distinct skill, in order of the
      skill's first row. */
  function Stats(rows: seq<ScoreRow>): seq<SkillStat>
  {
    StatsOf(rows, Keys(rows, SkillKey))
  }

  /** The entries for the skills `ks`, in that order. */
  function StatsOf(rows: seq<ScoreRow>, ks: seq<Id>): (st: seq<SkillStat>)
    requires forall k :: k in ks ==> k in Keys(rows, SkillKey)
    ensures |st| == |ks|
    ensures forall i :: 0 <= i < |ks| ==> st[i] == StatOf(rows, ks[i])
  {
    seq(|ks|, i requires 0 <= i < |ks| => StatOf(rows, ks[i]))
  }

  /** Dropping the last skill drops the last entry. */
  lemma StatsOfInit(rows: seq<ScoreRow>, ks: seq<Id>)
    requires ks != [] && forall k :: k in ks ==> k in Keys(rows, SkillKey)
    ensures StatsOf(rows, ks)[..|ks| - 1] == StatsOf(rows, ks[..|ks| - 1])
  {
  }

  /** The `reduce` into `{scores, count}` per skill followed by the
      `Object.entries(...).map(...)` that turns each entry into a mean. */
  method SkillStats(rows: seq<ScoreRow>) returns (stats: seq<SkillStat>)
    ensures stats == Stats(rows)
  {
    var order, groups := GroupBy(rows, SkillKey);
    forall k | k in order ensures |groups[k]| > 0 {
      GroupNonEmptyIffKey(rows, SkillKey, k);
    }
    stats := seq(|order|, i requires 0 <= i < |order| && order[i] in groups && |groups[order[i]]| > 0 =>
                 SkillStat(order[i], Mean(ScoreValues(groups[order[i]])), |groups[order[i]]|));
  }

  /** What the statistics mean: entry `i` is about the `i`-th distinct skill,
      its count is the number of that skill's rows and its average is the mean
      of exactly those rows' scores. */
  lemma StatsMeaning(rows: seq<ScoreRow>, i: int)
    requires 0 <= i < |Stats(rows)|
    ensures var st := Stats(rows)[i];
            && st.evaluationCount == |Group(rows, SkillKey, st.skillId)| > 0
            && st.averageRating == Mean(ScoresFor(rows, st.skillId))
            && (forall j :: 0 <= j < |Group(rows, SkillKey, st.skillId)| ==>
                  Group(rows, SkillKey, st.skillId)[j].skillId == st.skillId)
  {
    var k := Keys(rows, SkillKey)[i];
    GroupNonEmptyIffKey(rows, SkillKey, k);
    GroupKey(rows, SkillKey, k);
  }

  /** Exactly one entry per distinct skill: entries name distinct skills, and
      a skill has an entry exactly when some row scores it. */
  lemma StatsOnePerSkill(rows: seq<ScoreRow>, skill: Id)
    ensures forall i, j :: 0 <= i < j < |Stats(rows)| ==> Stats(rows)[i].skillId != Stats(rows)[j].skillId
    ensures (exists i :: 0 <= i < |Stats(rows)| && Stats(rows)[i].skillId == skill)
            <==> (exists j :: 0 <= j < |rows| && rows[j].skillId == skill)
  {
    KeysDistinct(rows, SkillKey);
    KeysExact(rows, SkillKey, skill);
    var ks := Keys(rows, SkillKey);
    if exists j :: 0 <= j < |rows| && rows[j].skillId == skill {
      var j :| 0 <= j < |rows| && rows[j].skillId == skill;
      assert SkillKey(rows[j]) == skill;
      var i :| 0 <= i < |ks| && ks[i] == skill;
      assert Stats(rows)[i].skillId == skill;
    }
    if exists i :: 0 <= i < |Stats(rows)| && Stats(rows)[i].skillId == skill {
      var i :| 0 <= i < |Stats(rows)| && Stats(rows)[i].skillId == skill;
      assert ks[i] == skill;
      var j :| 0 <= j < |rows| && SkillKey(rows[j]) == skill;
    }
  }

  /** No rows, no statistics. */
  lemma StatsEmpty()
    ensures Stats([]) == []
  {
  }

  function CountTotal(stats: seq<SkillStat>): nat
  {
    if stats == [] then 0 else CountTotal(stats[..|stats| - 1]) + stats[|stats| - 1].evaluationCount
  }

  lemma {:induction false} CountTotalIsTotalSize(rows: seq<ScoreRow>, ks: seq<Id>)
    requires forall k :: k in ks ==> k in Keys(rows, SkillKey)
    ensures CountTotal(StatsOf(rows, ks)) == TotalSize(rows, SkillKey, ks)
    decreases |ks|
  {
    if ks != [] {
      StatsOfInit(rows, ks);
      CountTotalIsTotalSize(rows, ks[..|ks| - 1]);
    }
  }

  /** The counts add up to the number of rows: every row is counted once. */
  lemma StatsCountAll(rows: seq<ScoreRow>)
    ensures CountTotal(Stats(rows)) == |rows|
  {
    CountTotalIsTotalSize(rows, Keys(rows, SkillKey));
    GroupsPartition(rows, SkillKey);
  }

  /** `xs.reduce(+)` over `xs + [v]` adds `v`. */
  lemma SumSnoc(xs: seq<int>, v: int)
    ensures Sum(xs + [v]) == Sum(xs) + v
  {
    var ys := xs + [v];
    assert ys[..|ys| - 1] == xs;
  }

  /** A new row adds its score to its own skill's scores only. */
  lemma ScoresForSnoc(rows: seq<ScoreRow>, x: ScoreRow, k: Id)
    ensures ScoresFor(rows + [x], k) == ScoresFor(rows, k) + (if x.skillId == k then [x.score] else [])
  {
    var ys := rows + [x];
    assert ys[..|ys| - 1] == rows;
    ScoreValuesAppend(Group(rows, SkillKey, k), if SkillKey(x) == k then [x] else []);
  }

  /** The total of the scores of the skills named by `ks`. */
  function GroupSum(rows: seq<ScoreRow>, ks: seq<Id>): int
  {
    if ks == [] then 0 else GroupSum(rows, ks[..|ks| - 1]) + Sum(ScoresFor(rows, ks[|ks| - 1]))
  }

  lemma {:induction false} GroupSumSnoc(rows: seq<ScoreRow>, x: ScoreRow, ks: seq<Id>)
    requires forall i, j :: 0 <= i < j < |ks| ==> ks[i] != ks[j]
    ensures GroupSum(rows + [x], ks) == GroupSum(rows, ks) + (if x.skillId in ks then x.score else 0)
    decreases |ks|
  {
    if ks != [] {
      var init, last := ks[..|ks| - 1], ks[|ks| - 1];
      GroupSumSnoc(rows, x, init);
      ScoresForSnoc(rows, x, last);
      assert x.skillId in ks <==> x.skillId in init || x.skillId == last;
      if x.skillId == last {
        assert x.skillId !in init;
        SumSnoc(ScoresFor(rows, last), x.score);
      } else {
        assert ScoresFor(rows + [x], last) == ScoresFor(rows, last);
      }
    }
  }

  /** Summing skill by skill gives the sum of all scores. */
  lemma {:induction false} GroupsSumAll(rows: seq<ScoreRow>)
    ensures GroupSum(rows, Keys(rows, SkillKey)) == Sum(ScoreValues(rows))
    decreases |rows|
  {
    if rows != [] {
      var init, x := rows[..|rows| - 1], rows[|rows| - 1];
      assert rows == init + [x];
      GroupsSumAll(init);
      GroupsSumStep(init, x);
    }
  }

  /** The induction step: a new row adds its score to both sides. */
  lemma GroupsSumStep(init: seq<ScoreRow>, x: ScoreRow)
    requires GroupSum(init, Keys(init, SkillKey)) == Sum(ScoreValues(init))
    ensures GroupSum(init + [x], Keys(init + [x], SkillKey)) == Sum(ScoreValues(init + [x]))
  {
    var rows, ks := init + [x], Keys(init, SkillKey);
    KeysDistinct(init, SkillKey);
    GroupSumSnoc(init, x, ks);
    ScoreValuesAppend(init, [x]);
    SumSnoc(ScoreValues(init), x.score);
    if x.skillId in ks {
      assert rows[..|rows| - 1] == init;
      assert Keys(rows, SkillKey) == ks;
    } else {
      NewKeyAddsScore(init, x);
    }
  }

  /** A row with a skill not seen before lists that skill last, and the
      skill's scores are that row's score alone. */
  lemma NewKeyAddsScore(init: seq<ScoreRow>, x: ScoreRow)
    requires x.skillId !in Keys(init, SkillKey)
    ensures Keys(init + [x], SkillKey) == Keys(init, SkillKey) + [x.skillId]
    ensures GroupSum(init + [x], Keys(init + [x], SkillKey)) == GroupSum(init + [x], Keys(init, SkillKey)) + x.score
  {
    var rows, ks := init + [x], Keys(init, SkillKey);
    assert rows[..|rows| - 1] == init;
    GroupNonEmptyIffKey(init, SkillKey, x.skillId);
    assert Group(init, SkillKey, x.skillId) == [];
    ScoresForSnoc(init, x, x.skillId);
    assert (ks + [x.skillId])[..|ks|] == ks;
    assert Sum([x.score]) == x.score by { assert [x.score][..0] == []; }
  }

  /** The count-weighted total of some statistics: count times average,
      summed. */
  function WeightedTotal(stats: seq<SkillStat>): real
  {
    if stats == [] then 0.0 else WeightedTotal(stats[..|stats| - 1]) + Weight(stats[|stats| - 1])
  }

  /** An entry's count times its average. */
  function Weight(st: SkillStat): real
  {
    st.evaluationCount as real * st.averageRating
  }

  lemma {:induction false} WeightedTotalIsGroupSum(rows: seq<ScoreRow>, ks: seq<Id>)
    requires forall k :: k in ks ==> k in Keys(rows, SkillKey)
    ensures WeightedTotal(StatsOf(rows, ks)) == GroupSum(rows, ks) as real
    decreases |ks|
  {
    if ks != [] {
      WeightedTotalIsGroupSum(rows, ks[..|ks| - 1]);
      WeightedTotalStep(rows, ks);
    }
  }

  /** The induction step: the last skill adds its count times its average on
      one side and its total on the other. */
  lemma WeightedTotalStep(rows: seq<ScoreRow>, ks: seq<Id>)
    requires ks != [] && forall k :: k in ks ==> k in Keys(rows, SkillKey)
    requires WeightedTotal(StatsOf(rows, ks[..|ks| - 1])) == GroupSum(rows, ks[..|ks| - 1]) as real
    ensures WeightedTotal(StatsOf(rows, ks)) == GroupSum(rows, ks) as real
  {
    var init, k := ks[..|ks| - 1], ks[|ks| - 1];
    var st := StatsOf(rows, ks);
    StatsOfInit(rows, ks);
    assert st[|ks| - 1] == StatOf(rows, k);
    assert WeightedTotal(st) == WeightedTotal(StatsOf(rows, init)) + Weight(StatOf(rows, k));
    StatWeight(rows, k);
    assert GroupSum(rows, ks) == GroupSum(rows, init) + Sum(ScoresFor(rows, k));
  }

  /** Count times average gives back the skill's total. */
  lemma StatWeight(rows: seq<ScoreRow>, k: Id)
    requires k in Keys(rows, SkillKey)
    ensures Weight(StatOf(rows, k)) == Sum(ScoresFor(rows, k)) as real
  {
    GroupNonEmptyIffKey(rows, SkillKey, k);
    var xs := ScoresFor(rows, k);
    TimesQuotient(Sum(xs) as real, |xs| as real);
  }

  /** The flattened mean over all score rows is the mean of the per-skill
      averages weighted by their counts. */
  lemma FlattenedIsWeightedMean(rows: seq<ScoreRow>)
    requires |rows| > 0
    ensures Mean(ScoreValues(rows)) == WeightedTotal(Stats(rows)) / |rows| as real
  {
    WeightedTotalIsGroupSum(rows, Keys(rows, SkillKey));
    GroupsSumAll(rows);
  }

  /** With scores 1–5 every average is between 1 and 5. */
  lemma StatsInRange(rows: seq<ScoreRow>)
    requires InRange(ScoreValues(rows))
    ensures forall i :: 0 <= i < |Stats(rows)| ==>
              MinScore as real <= Stats(rows)[i].averageRating <= MaxScore as real
  {
    forall i | 0 <= i < |Stats(rows)|
      ensures MinScore as real <= Stats(rows)[i].averageRating <= MaxScore as real
    {
      var k := Keys(rows, SkillKey)[i];
      GroupNonEmptyIffKey(rows, SkillKey, k);
      GroupInRange(rows, k);
      MeanInRange(ScoresFor(rows, k));
    }
  }

  /** The scores of one skill are among the scores of the rows, so they
      keep any bound the rows' scores keep. */
  lemma {:induction false} GroupInRange(rows: seq<ScoreRow>, k: Id)
    requires InRange(ScoreValues(rows))
    ensures InRange(ScoresFor(rows, k))
    decreases |rows|
  {
    if rows != [] {
      var init, last := rows[..|rows| - 1], rows[|rows| - 1];
      assert ScoreValues(rows) == ScoreValues(init) + [last.score];
      GroupInRange(init, k);
      ScoreValuesAppend(Group(init, SkillKey, k), if SkillKey(last) == k then [last] else []);
    }
  }

  // ---------------------------------------------------------------------------
  // Means of reals

  function SumReal(xs: seq<real>): real
  {
    if xs == [] then 0.0 else SumReal(xs[..|xs| - 1]) + xs[|xs| - 1]
  }

  lemma {:induction false} SumRealBounds(xs: seq<real>, lo: real, hi: real)
    requires forall i :: 0 <= i < |xs| ==> lo <= xs[i] <= hi
    ensures lo * |xs| as real <= SumReal(xs) <= hi * |xs| as real
  {
    if xs != [] {
      var n := |xs| - 1;
      SumRealBounds(xs[..n], lo, hi);
      assert lo * |xs| as real == lo * n as real + lo && hi * |xs| as real == hi * n as real + hi;
    }
  }

  /** `xs.length > 0 ? xs.reduce(+) / xs.length : 0`: the plain mean of some
      averages, and 0 for none. */
  function MeanOrZero(xs: seq<real>): real
  {
    if xs == [] then 0.0 else SumReal(xs) / |xs| as real
  }

  /** The mean of values within bounds is within the same bounds. */
  lemma MeanOrZeroBounds(xs: seq<real>, lo: real, hi: real)
    requires xs != []
    requires forall i :: 0 <= i < |xs| ==> lo <= xs[i] <= hi
    ensures lo <= MeanOrZero(xs) <= hi
  {
    SumRealBounds(xs, lo, hi);
    QuotientBounds(SumReal(xs), |xs| as real, lo, hi);
  }

  /** The averages of a statistics list, in order. */
  function Averages(stats: seq<SkillStat>): (xs: seq<real>)
    ensures |xs| == |stats|
    ensures forall i :: 0 <= i < |stats| ==> xs[i] == stats[i].averageRating
  {
    seq(|stats|, i requires 0 <= i < |stats| => stats[i].averageRating)
  }

  /** With scores 1–5 the mean of the per-skill means is 0 without rows and
      between 1 and 5 otherwise. */
  lemma MeanOfMeansBounds(rows: seq<ScoreRow>)
    requires InRange(ScoreValues(rows))
    ensures rows == [] ==> MeanOrZero(Averages(Stats(rows))) == 0.0
    ensures rows != [] ==> MinScore as real <= MeanOrZero(Averages(Stats(rows))) <= MaxScore as real
  {
    if rows != [] {
      StatsOnePerSkill(rows, rows[0].skillId);
      StatsInRange(rows);
      MeanOrZeroBounds(Averages(Stats(rows)), MinScore as real, MaxScore as real);
    } else {
      StatsEmpty();
    }
  }

  /** Skill A scored 5 and 5, skill B scored 1. */
  const ExampleRows := [ScoreRow("A", 5), ScoreRow("A", 5), ScoreRow("B", 1)]

  /** The example's skills and their scores. */
  lemma ExampleGroups()
    ensures Keys(ExampleRows, SkillKey) == ["A", "B"]
    ensures ScoresFor(ExampleRows, "A") == [5, 5] && ScoresFor(ExampleRows, "B") == [1]
    ensures ScoreValues(ExampleRows) == [5, 5, 1]
  {
    var rows := ExampleRows;
    var r1, r2 := rows[..1], rows[..2];
    assert r2[..1] == r1 && rows[..2] == r2 && r1[..0] == [];
    assert Keys(r1, SkillKey) == ["A"];
    assert Keys(r2, SkillKey) == ["A"];
    assert Group(r1, SkillKey, "A") == [ScoreRow("A", 5)];
    assert Group(r2, SkillKey, "A") == [ScoreRow("A", 5), ScoreRow("A", 5)];
    assert Group(r1, SkillKey, "B") == [];
    assert Group(r2, SkillKey, "B") == [];
    assert Group(rows, SkillKey, "B") == [ScoreRow("B", 1)];
  }

  /** A mean of per-skill means is not the flattened mean: the example gives
      11/3 over all scores, but 3 as a mean of the two per-skill means. */
  lemma FlattenedIsNotMeanOfMeans()
    ensures Mean(ScoreValues(ExampleRows)) == 11.0 / 3.0
    ensures MeanOrZero(Averages(Stats(ExampleRows))) == 3.0
  {
    ExampleGroups();
    assert [5, 5][..1] == [5];
    assert Sum([5, 5]) == 10;
    assert [5, 5, 1][..2] == [5, 5];
    assert Sum([5, 5, 1]) == 11;
    var st := Stats(ExampleRows);
    assert st[0] == StatOf(ExampleRows, "A") && st[1] == StatOf(ExampleRows, "B");
    assert st[0].averageRating == 5.0 && st[1].averageRating == 1.0;
    assert Averages(st) == [5.0, 1.0];
    assert [5.0, 1.0][..1] == [5.0];
    assert SumReal([5.0, 1.0]) == 6.0;
  }
}
