/** The profile page's skills panel: the remove button or the "Protected"
    badge on each skill, the removal flow and its local list update, and the
    figures drawn from the evaluation statistics (per-skill average, bar,
    stars and the "Average Level"). */
module Profile {
  import opened Common
  import opened Tables
  import opened Scores
  import opened Grouping
  import Store

  // ---------------------------------------------------------------------------
  // the remove button

  /** The remove button is offered on a row without the evaluations flag. */
  predicate RemoveButtonShown(row: UserSkillRow)
  {
    !row.hasEvaluations
  }

  /** The "Protected" badge is shown on a row with the evaluations flag. */
  predicate ProtectedBadgeShown(row: UserSkillRow)
  {
    row.hasEvaluations
  }

  /** Every row shows exactly one of the two; a row with the badge is one the
      removal check refuses. */
  lemma BadgeMeansRefused(reachable: bool, rows: seq<UserSkillRow>, speeches: seq<SpeechRow>,
                          links: seq<SpeechSkillRow>, row: UserSkillRow)
    requires row in rows
    ensures RemoveButtonShown(row) != ProtectedBadgeShown(row)
    ensures ProtectedBadgeShown(row) ==> !Removable(reachable, rows, speeches, links, row.userId, row.skillId).canRemove
  {
    if ProtectedBadgeShown(row) {
      EvaluatedIsProtected(reachable, rows, speeches, links, row.userId, row.skillId, row);
    }
  }

  /** The button does not promise removal: a skill practised by one of the
      user's speeches shows the button and is still refused. */
  lemma ButtonDoesNotPromiseRemoval()
    ensures var row := UserSkillRow("u", "s", false, 0);
            var speeches := [SpeechRow(1, "u", "Talk", None, "draft", false, None)];
            var links := [SpeechSkillRow(1, "s")];
            && RemoveButtonShown(row)
            && !Removable(true, [row], speeches, links, "u", "s").canRemove
  {
    var speeches := [SpeechRow(1, "u", "Talk", None, "draft", false, None)];
    var links := [SpeechSkillRow(1, "s")];
    assert speeches[0].id == 1 && speeches[0].userId == "u";
    assert OwnsSpeech(speeches, "u", 1);
    LinkedIsProtected(true, [UserSkillRow("u", "s", false, 0)], speeches, links, "u", "s", links[0]);
  }

  // ---------------------------------------------------------------------------
  // the removal flow

  /** The local list after a removal: without the rows of that skill. */
  function WithoutSkill(rows: seq<UserSkillRow>, skill: Id): seq<UserSkillRow>
  {
    Filter(rows, (r: UserSkillRow) => r.skillId != skill)
  }

  lemma WithoutSkillExact(rows: seq<UserSkillRow>, skill: Id, r: UserSkillRow)
    ensures r in WithoutSkill(rows, skill) <==> r in rows && r.skillId != skill
  {
    var kept := WithoutSkill(rows, skill);
    if r in kept {
      var i :| 0 <= i < |kept| && kept[i] == r;
    }
    if r in rows {
      var i :| 0 <= i < |rows| && rows[i] == r;
    }
  }

  /** The local list and the table agree after a removal: when the local list
      held the user's rows of the table, it holds them again afterwards. */
  lemma LocalListFollowsTable(table: seq<UserSkillRow>, user: Id, skill: Id, r: UserSkillRow)
    ensures r in WithoutSkill(RowsOfUser(table, user), skill) <==> r in RowsOfUser(WithoutUserSkill(table, user, skill), user)
  {
    WithoutSkillExact(RowsOfUser(table, user), skill, r);
    var mine := RowsOfUser(table, user);
    var after := WithoutUserSkill(table, user, skill);
    if r in mine {
      var i :| 0 <= i < |mine| && mine[i] == r;
    }
    if r in table && r.userId == user {
      var i :| 0 <= i < |table| && table[i] == r;
    }
    WithoutUserSkillExact(table, user, skill, r);
    if r in RowsOfUser(after, user) {
      var i :| 0 <= i < |RowsOfUser(after, user)| && RowsOfUser(after, user)[i] == r;
    }
    if r in after && r.userId == user {
      var i :| 0 <= i < |after| && after[i] == r;
    }
  }

  /** The panel's state. */
  class ProfilePage {
    var userSkills: seq<UserSkillRow>
    var stats: seq<SkillStat>
    var skillToRemove: Option<Id>
    var showRemovalModal: bool
    var removalMessage: string

    constructor(userSkills: seq<UserSkillRow>, stats: seq<SkillStat>)
      ensures this.userSkills == userSkills && this.stats == stats
      ensures skillToRemove == None && !showRemovalModal && removalMessage == ""
    {
      this.userSkills := userSkills;
      this.stats := stats;
      skillToRemove := None;
      showRemovalModal := false;
      removalMessage := "";
    }

    /** `handleRemoveSkillClick`: opens the modal for the skill. */
    method RemoveSkillClick(skill: Id)
      modifies this
      ensures skillToRemove == Some(skill) && showRemovalModal && removalMessage == ""
      ensures userSkills == old(userSkills) && stats == old(stats)
    {
      skillToRemove := Some(skill);
      showRemovalModal := true;
      removalMessage := "";
    }

    /** `confirmRemoveSkill`: a successful removal drops the skill's rows from
        the local list and closes the modal; a refused one shows the
        returned message and keeps the list. */
    method ConfirmRemoveSkill(db: Store.Database, user: Option<Id>)
      modifies this, db
      ensures stats == old(stats)
      ensures db.reachable == old(db.reachable) && db.speeches == old(db.speeches)
      ensures db.speechSkills == old(db.speechSkills) && db.evaluations == old(db.evaluations) && db.scores == old(db.scores)
      ensures old(skillToRemove).None? || user.None? ==>
                userSkills == old(userSkills) && skillToRemove == old(skillToRemove)
                && showRemovalModal == old(showRemovalModal) && removalMessage == old(removalMessage)
                && db.userSkills == old(db.userSkills)
      ensures old(skillToRemove).Some? && user.Some? ==>
                var d := Removable(old(db.reachable), old(db.userSkills), old(db.speeches), old(db.speechSkills),
                                   user.value, old(skillToRemove).value);
                && (d.canRemove ==>
                      userSkills == WithoutSkill(old(userSkills), old(skillToRemove).value)
                      && !showRemovalModal && skillToRemove == None && removalMessage == ""
                      && db.userSkills == WithoutUserSkill(old(db.userSkills), user.value, old(skillToRemove).value))
                && (!d.canRemove ==>
                      userSkills == old(userSkills) && showRemovalModal == old(showRemovalModal)
                      && skillToRemove == old(skillToRemove) && db.userSkills == old(db.userSkills)
                      && removalMessage == (if d.reason.Some? then d.reason.value else "Skill cannot be removed"))
    {
      if skillToRemove.None? || user.None? {
        return;
      }
      removalMessage := "";
      var skill := skillToRemove.value;
      var success, message := db.RemoveUserSkill(user.value, skill);
      if success {
        userSkills := WithoutSkill(userSkills, skill);
        showRemovalModal := false;
        skillToRemove := None;
      } else {
        removalMessage := message;
      }
    }
  }

  // ---------------------------------------------------------------------------
  // figures from the statistics

  /** `stats.find(stat => stat.skillId === skill)`. */
  function FindStat(stats: seq<SkillStat>, skill: Id): Option<SkillStat>
  {
    if stats == [] then None
    else if stats[0].skillId == skill then Some(stats[0])
    else FindStat(stats[1..], skill)
  }

  /** The average and count shown for a skill: those of its entry, or 0 and
      0 without one. */
  function Shown(stats: seq<SkillStat>, skill: Id): (real, nat)
  {
    var st := FindStat(stats, skill);
    if st.Some? then (st.value.averageRating, st.value.evaluationCount) else (0.0, 0)
  }

  lemma {:induction false} FindStatSpec(stats: seq<SkillStat>, skill: Id)
    requires forall i, j :: 0 <= i < j < |stats| ==> stats[i].skillId != stats[j].skillId
    ensures FindStat(stats, skill).None? <==> forall i :: 0 <= i < |stats| ==> stats[i].skillId != skill
    ensures forall i :: 0 <= i < |stats| && stats[i].skillId == skill ==> FindStat(stats, skill) == Some(stats[i])
  {
    if stats != [] {
      var tail := stats[1..];
      FindStatSpec(tail, skill);
      assert forall i :: 1 <= i < |stats| ==> stats[i] == tail[i - 1];
    }
  }

  /** Over the statistics of some score rows, a skill shows the mean and
      number of its scores, and 0 and 0 when it has none. */
  lemma ShownFromStats(rows: seq<ScoreRow>, skill: Id)
    ensures var xs := ScoresFor(rows, skill);
            Shown(Stats(rows), skill) == if |xs| > 0 then (Mean(xs), |xs|) else (0.0, 0)
  {
    var st := Stats(rows);
    StatsOnePerSkill(rows, skill);
    FindStatSpec(st, skill);
    GroupNonEmptyIffKey(rows, SkillKey, skill);
    KeysExact(rows, SkillKey, skill);
    if exists i :: 0 <= i < |st| && st[i].skillId == skill {
      var i :| 0 <= i < |st| && st[i].skillId == skill;
      StatsMeaning(rows, i);
    } else if exists j :: 0 <= j < |rows| && rows[j].skillId == skill {
      assert false;
    } else {
      forall k | 0 <= k < |rows| ensures SkillKey(rows[k]) != skill { }
    }
  }

  /** "Average Level": the plain mean of the per-skill averages, 0 without
      statistics. */
  function AverageLevel(stats: seq<SkillStat>): real
  {
    MeanOrZero(Averages(stats))
  }

  /** With scores 1–5 the level is 0 without statistics and between 1 and 5
      otherwise. */
  lemma AverageLevelBounds(rows: seq<ScoreRow>)
    requires InRange(ScoreValues(rows))
    ensures rows == [] ==> AverageLevel(Stats(rows)) == 0.0
    ensures rows != [] ==> MinScore as real <= AverageLevel(Stats(rows)) <= MaxScore as real
  {
    MeanOfMeansBounds(rows);
  }

  /** The rating bar's width in percent: `Math.min((avg / 5) * 100, 100)`. */
  function BarWidth(average: real): real
  {
    var w := average / 5.0 * 100.0;
    if w < 100.0 then w else 100.0
  }

  /** The width never exceeds 100, is proportional to the average up to 5,
      and is never negative for a non-negative average. */
  lemma BarWidthSpec(average: real)
    ensures BarWidth(average) <= 100.0
    ensures average <= 5.0 ==> BarWidth(average) == average * 20.0
    ensures average >= 5.0 ==> BarWidth(average) == 100.0
    ensures average >= 0.0 ==> BarWidth(average) >= 0.0
  {
  }

  /** The five stars: star `i` is filled when `i < Math.floor(avg)`. */
  function Stars(average: real): (stars: seq<bool>)
    ensures |stars| == 5
    ensures forall i :: 0 <= i < 5 ==> (stars[i] <==> i < average.Floor)
  {
    seq(5, i requires 0 <= i < 5 => i < average.Floor)
  }

  function CountFilled(stars: seq<bool>): nat
  {
    if stars == [] then 0 else CountFilled(stars[..|stars| - 1]) + (if stars[|stars| - 1] then 1 else 0)
  }

  lemma {:induction false} CountFilledPrefix(stars: seq<bool>, n: nat)
    requires n <= |stars|
    requires forall i :: 0 <= i < |stars| ==> (stars[i] <==> i < n)
    ensures CountFilled(stars) == n
  {
    if stars != [] {
      var init := stars[..|stars| - 1];
      if n == |stars| {
        CountFilledPrefix(init, n - 1);
      } else {
        CountFilledPrefix(init, n);
      }
    }
  }

  /** A rating between 1 and 5 fills as many stars as its whole part. */
  lemma FilledStars(average: real)
    requires MinScore as real <= average <= MaxScore as real
    ensures CountFilled(Stars(average)) == average.Floor
    ensures 1 <= CountFilled(Stars(average)) <= 5
  {
    CountFilledPrefix(Stars(average), average.Floor);
  }
}
