/** The evaluation form shared by the public evaluation page and the speech
    player: a score per skill, two free-text answers and the evaluator's name,
    and the two inserts a submission performs. */
module EvaluationForm {
  import opened Common
  import opened Tables
  import Store

  /** `skillScores: Record<string, number>`: skill id and score in the order
      the keys were first set. */
  type ScoreSheet = seq<(Id, int)>

  datatype Form = Form(skillScores: ScoreSheet, whatWentWell: string, whatCouldBeImproved: string, evaluatorName: string)

  /** The empty form the pages start from and reset to. */
  const EmptyForm := Form([], "", "", "")

  /** `skillScores[id]`. */
  function ScoreOf(sheet: ScoreSheet, id: Id): Option<int>
  {
    if sheet == [] then None
    else if sheet[0].0 == id then Some(sheet[0].1)
    else ScoreOf(sheet[1..], id)
  }

  /** The keys of the sheet, in order. */
  function SheetKeys(sheet: ScoreSheet): (ks: seq<Id>)
    ensures |ks| == |sheet|
    ensures forall i :: 0 <= i < |sheet| ==> ks[i] == sheet[i].0
  {
    seq(|sheet|, i requires 0 <= i < |sheet| => sheet[i].0)
  }

  /** `{ ...skillScores, [id]: score }`: an existing key keeps its place and
      takes the new score; a new key goes last. */
  function SetScore(sheet: ScoreSheet, id: Id, score: int): ScoreSheet
  {
    if sheet == [] then [(id, score)]
    else if sheet[0].0 == id then [(id, score)] + sheet[1..]
    else [sheet[0]] + SetScore(sheet[1..], id, score)
  }

  /** Setting a score changes that skill's score and no other, and adds the
      key at the end when it was missing. */
  lemma {:induction false} SetScoreSpec(sheet: ScoreSheet, id: Id, score: int, other: Id)
    ensures ScoreOf(SetScore(sheet, id, score), id) == Some(score)
    ensures other != id ==> ScoreOf(SetScore(sheet, id, score), other) == ScoreOf(sheet, other)
    ensures SheetKeys(SetScore(sheet, id, score)) == if id in SheetKeys(sheet) then SheetKeys(sheet) else SheetKeys(sheet) + [id]
  {
    if sheet != [] && sheet[0].0 != id {
      SetScoreSpec(sheet[1..], id, score, other);
      assert SheetKeys(sheet) == [sheet[0].0] + SheetKeys(sheet[1..]);
      assert SetScore(sheet, id, score) == [sheet[0]] + SetScore(sheet[1..], id, score);
      assert SheetKeys(SetScore(sheet, id, score)) == [sheet[0].0] + SheetKeys(SetScore(sheet[1..], id, score));
    } else if sheet != [] {
      assert SheetKeys(sheet) == [id] + SheetKeys(sheet[1..]);
      assert SheetKeys(SetScore(sheet, id, score)) == [id] + SheetKeys(sheet[1..]);
    }
  }

  /** `handleSkillScore`: only the given skill's score changes. */
  function HandleSkillScore(f: Form, id: Id, score: int): (r: Form)
    ensures r.whatWentWell == f.whatWentWell && r.whatCouldBeImproved == f.whatCouldBeImproved
    ensures r.evaluatorName == f.evaluatorName
    ensures ScoreOf(r.skillScores, id) == Some(score)
    ensures forall other :: other != id ==> ScoreOf(r.skillScores, other) == ScoreOf(f.skillScores, other)
  {
    forall other | other != id
      ensures ScoreOf(SetScore(f.skillScores, id, score), other) == ScoreOf(f.skillScores, other)
    {
      SetScoreSpec(f.skillScores, id, score, other);
    }
    SetScoreSpec(f.skillScores, id, score, id);
    f.(skillScores := SetScore(f.skillScores, id, score))
  }

  /** A score that is present sits in the sheet. */
  lemma {:induction false} ScoreOfIn(sheet: ScoreSheet, id: Id)
    ensures ScoreOf(sheet, id).Some? ==> (id, ScoreOf(sheet, id).value) in sheet
    ensures ScoreOf(sheet, id).None? ==> id !in SheetKeys(sheet)
  {
    if sheet != [] {
      ScoreOfIn(sheet[1..], id);
      assert SheetKeys(sheet) == [sheet[0].0] + SheetKeys(sheet[1..]);
    }
  }

  /** `!skillScores[id]`: no score, or the falsy score 0. */
  predicate Unrated(sheet: ScoreSheet, id: Id)
  {
    ScoreOf(sheet, id).None? || ScoreOf(sheet, id).value == 0
  }

  /** `!skillScores[id] || skillScores[id] < 1`. */
  predicate Unscored(sheet: ScoreSheet, id: Id)
  {
    ScoreOf(sheet, id).None? || ScoreOf(sheet, id).value < 1
  }

  /** With no negative scores in the sheet the two tests agree. */
  lemma UnratedIffUnscored(sheet: ScoreSheet, id: Id)
    requires forall i :: 0 <= i < |sheet| ==> sheet[i].1 >= 0
    ensures Unrated(sheet, id) <==> Unscored(sheet, id)
  {
    ScoreOfIn(sheet, id);
  }

  /** `Object.entries(skillScores).map(...)`: one score row per entry. */
  function ScoreRowsFor(evaluation: nat, sheet: ScoreSheet): (rows: seq<EvalScoreRow>)
    ensures |rows| == |sheet|
    ensures forall i :: 0 <= i < |sheet| ==> rows[i] == EvalScoreRow(evaluation, sheet[i].0, sheet[i].1)
  {
    seq(|sheet|, i requires 0 <= i < |sheet| => EvalScoreRow(evaluation, sheet[i].0, sheet[i].1))
  }

  /** The submission's writes, as both pages perform them: one evaluation
      with the trimmed name and answers, then, when any score was set, one
      score row per entry referencing the new evaluation. */
  method RecordEvaluation(db: Store.Database, speech: nat, f: Form) returns (ok: bool)
    modifies db
    ensures db.reachable == old(db.reachable) && db.userSkills == old(db.userSkills)
    ensures db.speeches == old(db.speeches) && db.speechSkills == old(db.speechSkills)
    ensures ok <==> old(db.reachable)
    ensures !ok ==> db.evaluations == old(db.evaluations) && db.scores == old(db.scores)
    ensures ok ==>
              var id := FreshEvaluationId(old(db.evaluations), old(db.scores));
              && db.evaluations == old(db.evaluations)
                                   + [EvaluationRow(id, speech, Trim(f.evaluatorName), Trim(f.whatWentWell), Trim(f.whatCouldBeImproved))]
              && db.scores == old(db.scores) + ScoreRowsFor(id, f.skillScores)
  {
    var name, wentWell, couldImprove := Trim(f.evaluatorName), Trim(f.whatWentWell), Trim(f.whatCouldBeImproved);
    var created := db.CreateEvaluation(speech, name, wentWell, couldImprove);
    if created.None? {
      return false;
    }
    ok := true;
    if |f.skillScores| > 0 {
      ok := db.CreateEvaluationSkillScores(ScoreRowsFor(created.value.id, f.skillScores));
    } else {
      assert ScoreRowsFor(created.value.id, f.skillScores) == [];
    }
  }

  /** The recorded score rows are the new evaluation's only score rows, and
      they carry exactly the sheet's scores. */
  lemma RecordedScoresExact(scores: seq<EvalScoreRow>, evaluation: nat, sheet: ScoreSheet)
    requires forall i :: 0 <= i < |scores| ==> scores[i].evaluationId != evaluation
    ensures ScoresOfEvaluation(scores + ScoreRowsFor(evaluation, sheet), evaluation) == ScoreRowsFor(evaluation, sheet)
  {
    var added := ScoreRowsFor(evaluation, sheet);
    FilterAppend(scores, added, (r: EvalScoreRow) => r.evaluationId == evaluation);
    FilterNone(scores, (r: EvalScoreRow) => r.evaluationId == evaluation);
    FilterAll(added, (r: EvalScoreRow) => r.evaluationId == evaluation);
  }
}
