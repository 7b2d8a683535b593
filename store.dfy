/** The data service: the five tables held in memory, and one member per
    helper of the client's data layer. A request fails exactly when the
    backend is unreachable; each helper then reacts as its source does
    (returns an empty result, reports an error, or carries on). */
module Store {
  import opened Common
  import opened Tables
  import Scores

  class Database {
    /** Whether requests reach the backend. */
    var reachable: bool
    var userSkills: seq<UserSkillRow>
    var speeches: seq<SpeechRow>
    var speechSkills: seq<SpeechSkillRow>
    var evaluations: seq<EvaluationRow>
    var scores: seq<EvalScoreRow>

    constructor(reachable: bool, userSkills: seq<UserSkillRow>, speeches: seq<SpeechRow>,
                speechSkills: seq<SpeechSkillRow>, evaluations: seq<EvaluationRow>, scores: seq<EvalScoreRow>)
      ensures this.reachable == reachable && this.userSkills == userSkills && this.speeches == speeches
      ensures this.speechSkills == speechSkills && this.evaluations == evaluations && this.scores == scores
    {
      this.reachable := reachable;
      this.userSkills := userSkills;
      this.speeches := speeches;
      this.speechSkills := speechSkills;
      this.evaluations := evaluations;
      this.scores := scores;
    }

    // -------------------------------------------------------------------------
    // user_skills

    /** `getUserSkills`: the user's rows; an empty list when the request fails. */
    function GetUserSkills(user: Id): (r: seq<UserSkillRow>)
      reads this
      ensures forall i :: 0 <= i < |r| ==> r[i] in userSkills && r[i].userId == user
      ensures reachable ==> forall i :: 0 <= i < |userSkills| && userSkills[i].userId == user ==> userSkills[i] in r
      ensures !reachable ==> r == []
    {
      if reachable then RowsOfUser(userSkills, user) else []
    }

    /** `updateUserSkills`: reads the current skills (an empty list when the
        read fails), deletes the unprotected rows not in the target, inserts
        the target skills not yet held. Because a failed read yields no
        current skills, an unreachable backend fails only when there is
        something to insert. */
    method UpdateUserSkills(user: Id, target: seq<Id>) returns (ok: bool)
      modifies this
      ensures reachable == old(reachable) && speeches == old(speeches) && speechSkills == old(speechSkills)
      ensures evaluations == old(evaluations) && scores == old(scores)
      ensures ok <==> old(reachable) || target == []
      ensures userSkills == if old(reachable) then Reconciled(old(userSkills), user, target) else old(userSkills)
    {
      var current := SkillIds(GetUserSkills(user));
      var toAdd := Missing(target, current);
      var toRemove := Missing(current, target);
      if !reachable {
        FilterAll(target, (id: Id) => id !in current);
      }
      if |toRemove| > 0 {
        if !reachable {
          return false;
        }
        userSkills := DeleteUnprotected(userSkills, user, toRemove);
      } else {
        FilterAll(userSkills, (r: UserSkillRow) => !(r.userId == user && r.skillId in toRemove && !r.hasEvaluations));
      }
      if |toAdd| > 0 {
        if !reachable {
          return false;
        }
        userSkills := userSkills + NewUserSkillRows(user, toAdd);
      }
      ok := true;
    }

    /** `canRemoveSkill` over the current tables: removal is allowed exactly
        when the lookup finds the single row, the row is not flagged as
        evaluated, and none of the user's speeches practises the skill. */
    function CanRemoveSkill(user: Id, skill: Id): (d: Removability)
      reads this
      ensures d.canRemove <==>
                && reachable
                && |MatchingRows(userSkills, user, skill)| == 1
                && (forall r :: r in userSkills && r.userId == user && r.skillId == skill ==> !r.hasEvaluations)
                && (forall l :: l in speechSkills && l.skillId == skill ==> !OwnsSpeech(speeches, user, l.speechId))
      ensures d.canRemove <==> d.reason == None
    {
      RemovableIff(reachable, userSkills, speeches, speechSkills, user, skill);
      Removable(reachable, userSkills, speeches, speechSkills, user, skill)
    }

    /** `removeUserSkill`: asks `canRemoveSkill` first; a refusal deletes
        nothing and reports the reason; otherwise the user's rows for the
        skill are deleted. */
    method RemoveUserSkill(user: Id, skill: Id) returns (success: bool, message: string)
      modifies this
      ensures reachable == old(reachable) && speeches == old(speeches) && speechSkills == old(speechSkills)
      ensures evaluations == old(evaluations) && scores == old(scores)
      ensures var d := Removable(old(reachable), old(userSkills), old(speeches), old(speechSkills), user, skill);
              && (success <==> d.canRemove)
              && (!d.canRemove ==> userSkills == old(userSkills)
                                   && message == (if d.reason.Some? then d.reason.value else "Skill cannot be removed"))
              && (d.canRemove ==> userSkills == WithoutUserSkill(old(userSkills), user, skill)
                                  && message == "Skill removed successfully")
    {
      var d := CanRemoveSkill(user, skill);
      if !d.canRemove {
        return false, if d.reason.Some? then d.reason.value else "Skill cannot be removed";
      }
      userSkills := WithoutUserSkill(userSkills, user, skill);
      return true, "Skill removed successfully";
    }

    /** `getUserSkillEvaluationStats`: one entry per skill among the score rows
        of the user's speeches; an empty list when the request fails or there
        are no rows. */
    method GetUserSkillEvaluationStats(user: Id) returns (stats: seq<Scores.SkillStat>)
      ensures stats == if reachable then Scores.Stats(UserScoreRows(speeches, evaluations, scores, user)) else []
    {
      if !reachable {
        return [];
      }
      var rows := UserScoreRows(speeches, evaluations, scores, user);
      if |rows| == 0 {
        Scores.StatsEmpty();
        return [];
      }
      stats := Scores.SkillStats(rows);
    }

    // -------------------------------------------------------------------------
    // speeches

    /** `getUserSpeeches`: the user's speeches; an empty list when the request
        fails. */
    function GetUserSpeeches(user: Id): (r: seq<SpeechRow>)
      reads this
      ensures forall i :: 0 <= i < |r| ==> r[i] in speeches && r[i].userId == user
      ensures reachable ==> forall i :: 0 <= i < |speeches| && speeches[i].userId == user ==> speeches[i] in r
      ensures !reachable ==> r == []
    {
      if reachable then Filter(speeches, (s: SpeechRow) => s.userId == user) else []
    }

    /** `createSpeech`: inserts a draft, private, unshared speech under an id
        no speech uses, and returns the stored row; `None` when the insert
        fails. */
    method CreateSpeech(user: Id, title: string, description: Option<string>) returns (r: Option<SpeechRow>)
      modifies this
      ensures reachable == old(reachable) && userSkills == old(userSkills) && speechSkills == old(speechSkills)
      ensures evaluations == old(evaluations) && scores == old(scores)
      ensures r.Some? <==> old(reachable)
      ensures r.Some? ==> && r.value.userId == user && r.value.title == title && r.value.description == description
                          && r.value.status == "draft" && !r.value.isPublic && r.value.shareToken == None
                          && r.value.id == FreshSpeechId(old(speeches), old(speechSkills))
                          && speeches == old(speeches) + [r.value]
      ensures r.None? ==> speeches == old(speeches)
    {
      if !reachable {
        return None;
      }
      var row := SpeechRow(FreshSpeechId(speeches, speechSkills), user, title, description, "draft", false, None);
      speeches := speeches + [row];
      r := Some(row);
    }

    /** `createSpeechSkills`: inserts the rows. */
    method CreateSpeechSkills(rows: seq<SpeechSkillRow>) returns (ok: bool)
      modifies this
      ensures reachable == old(reachable) && userSkills == old(userSkills) && speeches == old(speeches)
      ensures evaluations == old(evaluations) && scores == old(scores)
      ensures ok <==> old(reachable)
      ensures speechSkills == if ok then old(speechSkills) + rows else old(speechSkills)
    {
      if !reachable {
        return false;
      }
      speechSkills := speechSkills + rows;
      ok := true;
    }

    /** `updateSpeechSkills`: deletes every row of the speech (a failed delete
        is ignored), then inserts one row per id when there are ids. */
    method UpdateSpeechSkills(speech: nat, ids: seq<Id>) returns (ok: bool)
      modifies this
      ensures reachable == old(reachable) && userSkills == old(userSkills) && speeches == old(speeches)
      ensures evaluations == old(evaluations) && scores == old(scores)
      ensures ok <==> old(reachable) || ids == []
      ensures speechSkills == if old(reachable) then Replaced(old(speechSkills), speech, ids) else old(speechSkills)
    {
      if reachable {
        speechSkills := Filter(speechSkills, (l: SpeechSkillRow) => l.speechId != speech);
      }
      ok := true;
      if |ids| > 0 {
        ok := CreateSpeechSkills(NewSpeechSkillRows(speech, ids));
      }
    }

    /** `deleteSpeech`: removes the speech's row. */
    method DeleteSpeech(speech: nat) returns (ok: bool)
      modifies this
      ensures reachable == old(reachable) && userSkills == old(userSkills) && speechSkills == old(speechSkills)
      ensures evaluations == old(evaluations) && scores == old(scores)
      ensures ok <==> old(reachable)
      ensures speeches == if ok then Filter(old(speeches), (s: SpeechRow) => s.id != speech) else old(speeches)
    {
      if !reachable {
        return false;
      }
      speeches := Filter(speeches, (s: SpeechRow) => s.id != speech);
      ok := true;
    }

    /** `generateSpeechShareToken`: the token is drawn at random by the
        caller; the update's outcome is not checked, so the token is returned
        whether or not it was stored. */
    method GenerateSpeechShareToken(speech: nat, token: Id) returns (issued: Id)
      modifies this
      ensures reachable == old(reachable) && userSkills == old(userSkills) && speechSkills == old(speechSkills)
      ensures evaluations == old(evaluations) && scores == old(scores)
      ensures issued == token
      ensures speeches == if old(reachable) then WithShareToken(old(speeches), speech, token) else old(speeches)
    {
      if reachable {
        speeches := WithShareToken(speeches, speech, token);
      }
      issued := token;
    }

    /** `getSpeechByShareToken`: the single public speech carrying the token;
        `None` stands for the error thrown when there is no such single row or
        the request fails. */
    function GetSpeechByShareToken(token: Id): (r: Option<SpeechRow>)
      reads this
      ensures r.Some? ==> r.value in speeches && r.value.shareToken == Some(token) && r.value.isPublic
      ensures r.Some? <==> reachable && |PublicWithToken(speeches, token)| == 1
    {
      if reachable then LookupByToken(speeches, token) else None
    }

    /** `getSpeechSkills`: the skill ids of the speech; an empty list when the
        request fails. */
    function GetSpeechSkills(speech: nat): (ids: seq<Id>)
      reads this
      ensures !reachable ==> ids == []
      ensures reachable ==> forall id :: id in ids <==> SpeechSkillRow(speech, id) in speechSkills
    {
      if reachable then
        var mine := RowsOfSpeech(speechSkills, speech);
        assert forall id :: id in SkillColumn(mine) <==> SpeechSkillRow(speech, id) in speechSkills by {
          forall id | SpeechSkillRow(speech, id) in speechSkills
            ensures id in SkillColumn(mine)
          {
            var i :| 0 <= i < |speechSkills| && speechSkills[i] == SpeechSkillRow(speech, id);
            var j :| 0 <= j < |mine| && mine[j] == SpeechSkillRow(speech, id);
            assert SkillColumn(mine)[j] == id;
          }
        }
        SkillColumn(mine)
      else []
    }

    /** `getSpeechEvaluationCount`: the number of evaluations of the speech; 0
        when the request fails. */
    function GetSpeechEvaluationCount(speech: nat): (n: nat)
      reads this
      ensures n <= |evaluations|
      ensures !reachable ==> n == 0
      ensures reachable ==> (n == 0 <==> forall i :: 0 <= i < |evaluations| ==> evaluations[i].speechId != speech)
    {
      if reachable then
        var mine := EvaluationsOf(evaluations, speech);
        assert |mine| > 0 ==> exists i :: 0 <= i < |evaluations| && evaluations[i] == mine[0];
        |mine|
      else 0
    }

    /** The score rows of the speech's evaluations; an empty list when the
        request fails. */
    function GetSpeechScoreRows(speech: nat): seq<Scores.ScoreRow>
      reads this
    {
      if reachable then SpeechScoreRows(evaluations, scores, speech) else []
    }

    // -------------------------------------------------------------------------
    // evaluations

    /** `createEvaluation`: inserts the evaluation under an id no evaluation
        and no score row uses, and returns the stored row; `None` when the
        insert fails. */
    method CreateEvaluation(speech: nat, evaluatorName: string, whatWentWell: string, whatCouldBeImproved: string)
      returns (r: Option<EvaluationRow>)
      modifies this
      ensures reachable == old(reachable) && userSkills == old(userSkills) && speeches == old(speeches)
      ensures speechSkills == old(speechSkills) && scores == old(scores)
      ensures r.Some? <==> old(reachable)
      ensures r.Some? ==> && r.value == EvaluationRow(FreshEvaluationId(old(evaluations), old(scores)), speech,
                                                        evaluatorName, whatWentWell, whatCouldBeImproved)
                          && evaluations == old(evaluations) + [r.value]
      ensures r.None? ==> evaluations == old(evaluations)
    {
      if !reachable {
        return None;
      }
      var row := EvaluationRow(FreshEvaluationId(evaluations, scores), speech, evaluatorName, whatWentWell, whatCouldBeImproved);
      evaluations := evaluations + [row];
      r := Some(row);
    }

    /** `createEvaluationSkillScores`: inserts the rows. */
    method CreateEvaluationSkillScores(rows: seq<EvalScoreRow>) returns (ok: bool)
      modifies this
      ensures reachable == old(reachable) && userSkills == old(userSkills) && speeches == old(speeches)
      ensures speechSkills == old(speechSkills) && evaluations == old(evaluations)
      ensures ok <==> old(reachable)
      ensures scores == if ok then old(scores) + rows else old(scores)
    {
      if !reachable {
        return false;
      }
      scores := scores + rows;
      ok := true;
    }
  }
}
