/** The page listing a user's speeches: loading each speech with its skills,
    evaluation count and ratings, the split into new and evaluated speeches,
    the summary figures, and the local list updates after a delete or a
    share. */
module SpeechManager {
  import opened Common
  import opened Tables
  import opened Scores
  import opened Grouping
  import Store

  /** A speech skill with its rating; `None` stands for `undefined`. */
  datatype SkillRating = SkillRating(skillId: Id, averageRating: Option<real>, evaluationCount: nat)

  /** A listed speech. */
  datatype SpeechEntry = SpeechEntry(speech: SpeechRow, skills: seq<SkillRating>, evaluationCount: nat,
                                     averageRating: Option<real>)

  // ---------------------------------------------------------------------------
  // ratings

  /** A skill's rating over a speech's score rows: the mean and number of
      its rows, or `undefined` and 0 when it has none. */
  function RatingOf(rows: seq<ScoreRow>, skill: Id): SkillRating
  {
    var xs := ScoresFor(rows, skill);
    if |xs| > 0 then SkillRating(skill, Some(Mean(xs)), |xs|) else SkillRating(skill, None, 0)
  }

  /** A skill is rated exactly when some row scores it; its count is the
      number of those rows and its average lies within the score range. */
  lemma RatingMeaning(rows: seq<ScoreRow>, skill: Id)
    ensures RatingOf(rows, skill).averageRating.Some? <==> exists j :: 0 <= j < |rows| && rows[j].skillId == skill
    ensures RatingOf(rows, skill).evaluationCount == |Group(rows, SkillKey, skill)|
    ensures InRange(ScoreValues(rows)) && RatingOf(rows, skill).averageRating.Some? ==>
              MinScore as real <= RatingOf(rows, skill).averageRating.value <= MaxScore as real
  {
    GroupNonEmptyIffKey(rows, SkillKey, skill);
    KeysExact(rows, SkillKey, skill);
    if InRange(ScoreValues(rows)) && RatingOf(rows, skill).averageRating.Some? {
      GroupInRange(rows, skill);
      MeanInRange(ScoresFor(rows, skill));
    }
    if exists j :: 0 <= j < |rows| && rows[j].skillId == skill {
      var j :| 0 <= j < |rows| && rows[j].skillId == skill;
      assert SkillKey(rows[j]) == skill;
    }
  }

  /** The list page and the profile's statistics agree: a rated skill has
      the statistics entry's average and count. */
  lemma RatingAgreesWithStats(rows: seq<ScoreRow>, i: int)
    requires 0 <= i < |Stats(rows)|
    ensures var st := Stats(rows)[i];
            RatingOf(rows, st.skillId) == SkillRating(st.skillId, Some(st.averageRating), st.evaluationCount)
  {
    StatsMeaning(rows, i);
  }

  function RatedSkills(rows: seq<ScoreRow>, skills: seq<Id>): (r: seq<SkillRating>)
    ensures |r| == |skills|
    ensures forall i :: 0 <= i < |skills| ==> r[i] == RatingOf(rows, skills[i])
  {
    seq(|skills|, i requires 0 <= i < |skills| => RatingOf(rows, skills[i]))
  }

  function UnratedSkills(skills: seq<Id>): (r: seq<SkillRating>)
    ensures |r| == |skills|
    ensures forall i :: 0 <= i < |skills| ==> r[i] == SkillRating(skills[i], None, 0)
  {
    seq(|skills|, i requires 0 <= i < |skills| => SkillRating(skills[i], None, 0))
  }

  /** The speech's average: the flattened mean of all its score rows, or
      `undefined` without rows. */
  function SpeechAverage(rows: seq<ScoreRow>): Option<real>
  {
    if |rows| > 0 then Some(Mean(ScoreValues(rows))) else None
  }

  /** The speech average weights each skill by its number of scores: it is
      the count-weighted mean of the per-skill averages, not their plain
      mean. */
  lemma SpeechAverageIsWeighted(rows: seq<ScoreRow>)
    ensures SpeechAverage(rows).Some? <==> |rows| > 0
    ensures |rows| > 0 ==> SpeechAverage(rows).value == WeightedTotal(Stats(rows)) / |rows| as real
  {
    if |rows| > 0 {
      FlattenedIsWeightedMean(rows);
    }
  }

  /** A speech's listed entry. A speech whose details fail to load is listed
      with no skills and no evaluations; the ratings are computed only when
      the speech has evaluations. */
  function EntryOf(speech: SpeechRow, failed: bool, skills: seq<Id>, count: nat, rows: seq<ScoreRow>): SpeechEntry
  {
    if failed then SpeechEntry(speech, [], 0, None)
    else if count > 0 then SpeechEntry(speech, RatedSkills(rows, skills), count, SpeechAverage(rows))
    else SpeechEntry(speech, UnratedSkills(skills), 0, None)
  }

  /** A speech without evaluations has no score rows, so computing its
      ratings regardless would give the same unrated entry. */
  lemma NoEvaluationsNoScores(evaluations: seq<EvaluationRow>, scores: seq<EvalScoreRow>, speech: nat, skills: seq<Id>)
    requires forall i :: 0 <= i < |evaluations| ==> evaluations[i].speechId != speech
    ensures SpeechScoreRows(evaluations, scores, speech) == []
    ensures RatedSkills([], skills) == UnratedSkills(skills)
  {
    FilterNone(scores, (r: EvalScoreRow) =>
      EvaluationWith(evaluations, r.evaluationId, (e: EvaluationRow) => e.speechId == speech));
    forall k | k in skills ensures ScoresFor([], k) == [] { }
  }

  /** `loadUserSpeeches`: one pass over the user's speeches that fetches each
      speech's skills and evaluation count and, for an evaluated speech, its
      score rows, accumulates them per skill and averages them. `failing`
      names the speeches whose detail requests fail. */
  method LoadUserSpeeches(db: Store.Database, user: Id, failing: set<nat>) returns (entries: seq<SpeechEntry>)
    ensures entries == LoadedAll(db, db.GetUserSpeeches(user), failing)
  {
    var speeches := db.GetUserSpeeches(user);
    entries := [];
    for i := 0 to |speeches|
      invariant entries == LoadedAll(db, speeches[..i], failing)
    {
      var e := RequestSpeech(db, speeches[i], failing);
      LoadedAllNext(db, speeches, i, failing);
      entries := entries + [e];
    }
    assert speeches[..|speeches|] == speeches;
  }

  /** The entries listed for some speeches, in their order. */
  function LoadedAll(db: Store.Database, speeches: seq<SpeechRow>, failing: set<nat>): (r: seq<SpeechEntry>)
    reads db
    ensures |r| == |speeches|
  {
    if speeches == [] then []
    else LoadedAll(db, speeches[..|speeches| - 1], failing) + [Loaded(db, speeches[|speeches| - 1], failing)]
  }

  lemma LoadedAllNext(db: Store.Database, speeches: seq<SpeechRow>, i: nat, failing: set<nat>)
    requires i < |speeches|
    ensures LoadedAll(db, speeches[..i + 1], failing) == LoadedAll(db, speeches[..i], failing) + [Loaded(db, speeches[i], failing)]
  {
    assert speeches[..i + 1][..i] == speeches[..i];
  }

  /** The list holds one entry per speech, in the speeches' order. */
  lemma {:induction false} LoadedAllAt(db: Store.Database, speeches: seq<SpeechRow>, failing: set<nat>, i: int)
    requires 0 <= i < |speeches|
    ensures LoadedAll(db, speeches, failing)[i] == Loaded(db, speeches[i], failing)
  {
    var front := speeches[..|speeches| - 1];
    assert LoadedAll(db, speeches, failing) == LoadedAll(db, front, failing) + [Loaded(db, speeches[|speeches| - 1], failing)];
    if i < |speeches| - 1 {
      LoadedAllAt(db, front, failing, i);
      assert front[i] == speeches[i];
    }
  }

  /** The entry listed for a speech of the database. */
  function Loaded(db: Store.Database, s: SpeechRow, failing: set<nat>): SpeechEntry
    reads db
  {
    EntryOf(s, s.id in failing, db.GetSpeechSkills(s.id), db.GetSpeechEvaluationCount(s.id), db.GetSpeechScoreRows(s.id))
  }

  /** The three requests made for one speech, and the entry built from their
      answers. */
  method RequestSpeech(db: Store.Database, s: SpeechRow, failing: set<nat>) returns (e: SpeechEntry)
    ensures e == Loaded(db, s, failing)
  {
    var skills := db.GetSpeechSkills(s.id);
    var count := db.GetSpeechEvaluationCount(s.id);
    var rows := db.GetSpeechScoreRows(s.id);
    e := LoadSpeech(s, s.id in failing, skills, count, rows);
  }

  /** One speech of `loadUserSpeeches`, from what its three requests
      returned: when it has evaluations its score rows are grouped by skill
      and averaged. */
  method LoadSpeech(s: SpeechRow, failed: bool, skills: seq<Id>, count: nat, rows: seq<ScoreRow>) returns (e: SpeechEntry)
    ensures e == EntryOf(s, failed, skills, count, rows)
  {
    if failed {
      return SpeechEntry(s, [], 0, None);
    }
    if count == 0 {
      return SpeechEntry(s, UnratedSkills(skills), 0, None);
    }
    var order, groups := GroupBy(rows, SkillKey);
    forall k | k !in groups ensures ScoresFor(rows, k) == [] {
      GroupNonEmptyIffKey(rows, SkillKey, k);
    }
    var ratings := seq(|skills|, k requires 0 <= k < |skills| =>
                     if skills[k] in groups && |groups[skills[k]]| > 0
                     then SkillRating(skills[k], Some(Mean(ScoreValues(groups[skills[k]]))), |groups[skills[k]]|)
                     else SkillRating(skills[k], None, 0));
    assert ratings == RatedSkills(rows, skills);
    var average: Option<real> := None;
    if |rows| > 0 {
      average := Some(Mean(ScoreValues(rows)));
    }
    e := SpeechEntry(s, ratings, count, average);
  }

  // ---------------------------------------------------------------------------
  // the split and the summary figures

  function NewSpeeches(entries: seq<SpeechEntry>): seq<SpeechEntry>
  {
    Filter(entries, (e: SpeechEntry) => e.evaluationCount == 0)
  }

  function EvaluatedSpeeches(entries: seq<SpeechEntry>): seq<SpeechEntry>
  {
    Filter(entries, (e: SpeechEntry) => e.evaluationCount > 0)
  }

  /** Edit and delete are offered only on a speech nobody has evaluated. */
  predicate CanEditOrDelete(e: SpeechEntry)
  {
    e.evaluationCount == 0
  }

  /** Every speech is in exactly one of the two lists, and the editable ones
      are exactly the new ones. */
  lemma {:induction false} PartitionExact(entries: seq<SpeechEntry>)
    ensures |NewSpeeches(entries)| + |EvaluatedSpeeches(entries)| == |entries|
    ensures forall e :: e in entries ==> (e in NewSpeeches(entries) <==> CanEditOrDelete(e))
    ensures forall e :: e in entries ==> (e in EvaluatedSpeeches(entries) <==> !CanEditOrDelete(e))
  {
    if entries != [] {
      PartitionExact(entries[..|entries| - 1]);
    }
    forall e | e in entries
      ensures (e in NewSpeeches(entries) <==> CanEditOrDelete(e))
      ensures (e in EvaluatedSpeeches(entries) <==> !CanEditOrDelete(e))
    {
      var i :| 0 <= i < |entries| && entries[i] == e;
      if e in NewSpeeches(entries) {
        var j :| 0 <= j < |NewSpeeches(entries)| && NewSpeeches(entries)[j] == e;
      }
      if e in EvaluatedSpeeches(entries) {
        var j :| 0 <= j < |EvaluatedSpeeches(entries)| && EvaluatedSpeeches(entries)[j] == e;
      }
    }
  }

  /** "Total Evaluations". */
  function TotalEvaluations(entries: seq<SpeechEntry>): nat
  {
    if entries == [] then 0 else TotalEvaluations(entries[..|entries| - 1]) + entries[|entries| - 1].evaluationCount
  }

  /** New speeches add nothing to the total: it is the evaluated speeches'
      total, and it is 0 exactly when no speech is evaluated. */
  lemma {:induction false} TotalFromEvaluated(entries: seq<SpeechEntry>)
    ensures TotalEvaluations(entries) == TotalEvaluations(EvaluatedSpeeches(entries))
    ensures TotalEvaluations(entries) == 0 <==> EvaluatedSpeeches(entries) == []
  {
    if entries != [] {
      var init, last := entries[..|entries| - 1], entries[|entries| - 1];
      TotalFromEvaluated(init);
      var ev := EvaluatedSpeeches(init);
      if last.evaluationCount > 0 {
        assert EvaluatedSpeeches(entries) == ev + [last];
        assert (ev + [last])[..|ev|] == ev;
        assert TotalEvaluations(ev + [last]) == TotalEvaluations(ev) + last.evaluationCount;
      } else {
        assert EvaluatedSpeeches(entries) == ev;
      }
    }
  }

  /** The defined averages of some entries, in order. */
  function DefinedAverages(entries: seq<SpeechEntry>): (xs: seq<real>)
  {
    if entries == [] then []
    else DefinedAverages(entries[..|entries| - 1])
         + (var e := entries[|entries| - 1]; if e.averageRating.Some? then [e.averageRating.value] else [])
  }

  /** `overallAverageRating`: 0 without evaluated speeches; otherwise the
      plain mean of the evaluated speeches' defined averages. `None` stands
      for the `NaN` of 0 / 0 when none of them has an average. */
  function OverallAverageRating(entries: seq<SpeechEntry>): Option<real>
  {
    var evaluated := EvaluatedSpeeches(entries);
    if |evaluated| == 0 then Some(0.0)
    else
      var xs := DefinedAverages(evaluated);
      if |xs| == 0 then None else Some(SumReal(xs) / |xs| as real)
  }

  lemma {:induction false} DefinedAveragesBounds(entries: seq<SpeechEntry>, lo: real, hi: real)
    requires forall i :: 0 <= i < |entries| && entries[i].averageRating.Some? ==>
               lo <= entries[i].averageRating.value <= hi
    ensures forall j :: 0 <= j < |DefinedAverages(entries)| ==> lo <= DefinedAverages(entries)[j] <= hi
  {
    if entries != [] {
      DefinedAveragesBounds(entries[..|entries| - 1], lo, hi);
    }
  }

  /** With speech averages between 1 and 5 the overall average is 0 when
      nothing is evaluated, lies between 1 and 5 when some evaluated speech
      has an average, and is `NaN` otherwise. */
  lemma OverallAverageBounds(entries: seq<SpeechEntry>)
    requires forall i :: 0 <= i < |entries| && entries[i].averageRating.Some? ==>
               MinScore as real <= entries[i].averageRating.value <= MaxScore as real
    ensures EvaluatedSpeeches(entries) == [] ==> OverallAverageRating(entries) == Some(0.0)
    ensures DefinedAverages(EvaluatedSpeeches(entries)) != [] ==>
              OverallAverageRating(entries).Some?
              && MinScore as real <= OverallAverageRating(entries).value <= MaxScore as real
    ensures EvaluatedSpeeches(entries) != [] && DefinedAverages(EvaluatedSpeeches(entries)) == [] ==>
              OverallAverageRating(entries) == None
  {
    var evaluated := EvaluatedSpeeches(entries);
    forall i | 0 <= i < |evaluated| && evaluated[i].averageRating.Some?
      ensures MinScore as real <= evaluated[i].averageRating.value <= MaxScore as real
    {
      var j :| 0 <= j < |entries| && entries[j] == evaluated[i];
    }
    DefinedAveragesBounds(evaluated, MinScore as real, MaxScore as real);
    var xs := DefinedAverages(evaluated);
    if xs != [] {
      MeanOrZeroBounds(xs, MinScore as real, MaxScore as real);
      assert OverallAverageRating(entries) == Some(MeanOrZero(xs));
    }
  }

  /** The "Average Rating" figure: the overall average when it is positive,
      0.0 otherwise, so the `NaN` case shows as 0.0. */
  function DisplayedAverage(entries: seq<SpeechEntry>): (v: real)
    ensures v >= 0.0
    ensures OverallAverageRating(entries).None? ==> v == 0.0
  {
    var overall := OverallAverageRating(entries);
    if overall.Some? && overall.value > 0.0 then overall.value else 0.0
  }

  // ---------------------------------------------------------------------------
  // local list updates

  /** The list after a delete: without the deleted speech. */
  function WithoutSpeech(entries: seq<SpeechEntry>, id: nat): seq<SpeechEntry>
  {
    Filter(entries, (e: SpeechEntry) => e.speech.id != id)
  }

  lemma WithoutSpeechExact(entries: seq<SpeechEntry>, id: nat, e: SpeechEntry)
    ensures e in WithoutSpeech(entries, id) <==> e in entries && e.speech.id != id
  {
    var r := WithoutSpeech(entries, id);
    if e in r {
      var i :| 0 <= i < |r| && r[i] == e;
    }
    if e in entries {
      var i :| 0 <= i < |entries| && entries[i] == e;
    }
  }

  /** The list after a share: the matching speech carries the token and is
      public, every other entry is unchanged. */
  function WithToken(entries: seq<SpeechEntry>, id: nat, token: Id): (r: seq<SpeechEntry>)
    ensures |r| == |entries|
    ensures forall i :: 0 <= i < |entries| && entries[i].speech.id != id ==> r[i] == entries[i]
    ensures forall i :: 0 <= i < |entries| && entries[i].speech.id == id ==>
              r[i] == entries[i].(speech := entries[i].speech.(shareToken := Some(token), isPublic := true))
  {
    seq(|entries|, i requires 0 <= i < |entries| =>
          if entries[i].speech.id == id
          then entries[i].(speech := entries[i].speech.(shareToken := Some(token), isPublic := true))
          else entries[i])
  }

  /** `!shareToken` is false: a token is stored and it is not the empty
      string. */
  predicate HasToken(s: SpeechRow)
  {
    s.shareToken.Some? && s.shareToken.value != ""
  }

  /** The page's state. */
  class ManagerPage {
    var speeches: seq<SpeechEntry>
    var error: Option<string>

    constructor(speeches: seq<SpeechEntry>)
      ensures this.speeches == speeches && error == None
    {
      this.speeches := speeches;
      error := None;
    }

    /** `confirmDelete`: after a successful delete the speech leaves the
        list; a failed delete keeps the list and shows an error. */
    method ConfirmDelete(db: Store.Database, id: nat)
      modifies this, db
      ensures db.reachable == old(db.reachable) && db.userSkills == old(db.userSkills)
      ensures db.speechSkills == old(db.speechSkills) && db.evaluations == old(db.evaluations) && db.scores == old(db.scores)
      ensures old(db.reachable) ==> speeches == WithoutSpeech(old(speeches), id) && error == old(error)
                                    && db.speeches == Filter(old(db.speeches), (s: SpeechRow) => s.id != id)
      ensures !old(db.reachable) ==> speeches == old(speeches) && error == Some("Failed to delete speech. Please try again.")
                                     && db.speeches == old(db.speeches)
    {
      var ok := db.DeleteSpeech(id);
      if ok {
        speeches := WithoutSpeech(speeches, id);
      } else {
        error := Some("Failed to delete speech. Please try again.");
      }
    }

    /** `handleShareClick`: a speech without a token gets a new one, stored
        and reflected in the list; a speech with a token keeps it. Returns the
        token the share link is built from. */
    method ShareClick(db: Store.Database, entry: SpeechEntry, token: Id) returns (shared: Id)
      modifies this, db
      ensures db.reachable == old(db.reachable) && db.userSkills == old(db.userSkills)
      ensures db.speechSkills == old(db.speechSkills) && db.evaluations == old(db.evaluations) && db.scores == old(db.scores)
      ensures error == old(error)
      ensures HasToken(entry.speech) ==>
                shared == entry.speech.shareToken.value && speeches == old(speeches) && db.speeches == old(db.speeches)
      ensures !HasToken(entry.speech) ==>
                && shared == token
                && speeches == WithToken(old(speeches), entry.speech.id, token)
                && db.speeches == if old(db.reachable) then WithShareToken(old(db.speeches), entry.speech.id, token)
                                  else old(db.speeches)
    {
      if HasToken(entry.speech) {
        return entry.speech.shareToken.value;
      }
      shared := db.GenerateSpeechShareToken(entry.speech.id, token);
      speeches := WithToken(speeches, entry.speech.id, shared);
    }
  }
}
