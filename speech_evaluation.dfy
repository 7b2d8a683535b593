/** The public page on which anyone holding a share link evaluates a speech:
    the validation that collects every error at once, the submit button's
    enabled state, and the submission. */
module SpeechEvaluation {
  import opened Common
  import opened Tables
  import opened EvaluationForm
  import Store

  const NameError := "Please enter your name"
  const RateError := "Please rate all skills (1-5 stars each)"
  const SubmitError := "Error submitting evaluation. Please try again."

  /** Some skill of the speech has no usable score. */
  predicate SomeUnscored(sheet: ScoreSheet, skills: seq<Id>)
  {
    exists i :: 0 <= i < |skills| && Unscored(sheet, skills[i])
  }

  /** The errors `validateForm` collects: the name error, then the rating
      error, each when it applies. */
  function Errors(f: Form, skills: seq<Id>): seq<string>
  {
    (if IsBlank(f.evaluatorName) then [NameError] else [])
    + (if SomeUnscored(f.skillScores, skills) then [RateError] else [])
  }

  /** `validateForm`: collects the name error, then the rating error. The
      result mentions neither free-text answer. */
  method ValidateForm(f: Form, skills: seq<Id>) returns (errors: seq<string>)
    ensures errors == Errors(f, skills)
    ensures NameError in errors <==> IsBlank(f.evaluatorName)
    ensures RateError in errors <==> SomeUnscored(f.skillScores, skills)
    ensures forall i :: 0 <= i < |errors| ==> errors[i] == NameError || errors[i] == RateError
    ensures |errors| <= 2 && NoDuplicates(errors)
    ensures |errors| == 2 ==> errors[0] == NameError
  {
    var nameMissing := NameMissing(f.evaluatorName);
    var unscored := UnscoredCount(f, skills);
    ErrorsDiffer();
    errors := [];
    if nameMissing {
      errors := errors + [NameError];
    }
    if unscored > 0 {
      errors := errors + [RateError];
    }
  }

  /** `!evaluatorName.trim()`. */
  method NameMissing(name: string) returns (missing: bool)
    ensures missing <==> IsBlank(name)
  {
    TrimEmptyIffBlank(name);
    missing := Trim(name) == "";
  }

  /** The number of skills without a score of 1 to 5. */
  method UnscoredCount(f: Form, skills: seq<Id>) returns (n: nat)
    ensures n > 0 <==> SomeUnscored(f.skillScores, skills)
    ensures n <= |skills|
  {
    UnscoredListed(f, skills);
    n := |Filter(skills, (id: Id) => Unscored(f.skillScores, id))|;
  }

  lemma ErrorsDiffer()
    ensures NameError != RateError
  {
    assert |NameError| != |RateError|;
  }

  /** The skills left unscored are listed exactly when there is one. */
  lemma UnscoredListed(f: Form, skills: seq<Id>)
    ensures |Filter(skills, (id: Id) => Unscored(f.skillScores, id))| > 0 <==> SomeUnscored(f.skillScores, skills)
  {
    var unscored := Filter(skills, (id: Id) => Unscored(f.skillScores, id));
    if SomeUnscored(f.skillScores, skills) {
      var i :| 0 <= i < |skills| && Unscored(f.skillScores, skills[i]);
      assert skills[i] in unscored;
    }
    if |unscored| > 0 {
      assert unscored[0] in skills;
    }
  }

  /** Validation collects some error exactly when the form is invalid. */
  lemma ErrorsIffInvalid(f: Form, skills: seq<Id>)
    ensures |Errors(f, skills)| > 0 <==> Invalid(f, skills)
  {
  }

  /** The submit button's `disabled`. */
  predicate SubmitDisabled(isSubmitting: bool, f: Form, skills: seq<Id>)
  {
    isSubmitting || Trim(f.evaluatorName) == "" || exists i :: 0 <= i < |skills| && Unrated(f.skillScores, skills[i])
  }

  /** With scores from the star widget (never negative), the idle button is
      enabled exactly when validation would pass. */
  lemma EnabledIffValid(f: Form, skills: seq<Id>)
    requires forall i :: 0 <= i < |f.skillScores| ==> f.skillScores[i].1 >= 0
    ensures !SubmitDisabled(false, f, skills) <==> !IsBlank(f.evaluatorName) && !SomeUnscored(f.skillScores, skills)
  {
    TrimEmptyIffBlank(f.evaluatorName);
    forall i | 0 <= i < |skills|
      ensures Unrated(f.skillScores, skills[i]) <==> Unscored(f.skillScores, skills[i])
    {
      UnratedIffUnscored(f.skillScores, skills[i]);
    }
  }

  /** The form fails validation. */
  predicate Invalid(f: Form, skills: seq<Id>)
  {
    IsBlank(f.evaluatorName) || SomeUnscored(f.skillScores, skills)
  }

  /** The evaluation row a valid submission writes. */
  function Recorded(id: nat, speech: nat, f: Form): EvaluationRow
  {
    EvaluationRow(id, speech, Trim(f.evaluatorName), Trim(f.whatWentWell), Trim(f.whatCouldBeImproved))
  }

  /** The page's state. */
  class EvaluationPage {
    var speech: Option<SpeechRow>
    var speechSkills: seq<Id>
    var form: Form
    var isSubmitted: bool
    var validationErrors: seq<string>

    constructor(speech: Option<SpeechRow>, speechSkills: seq<Id>)
      ensures this.speech == speech && this.speechSkills == speechSkills
      ensures form == EmptyForm && !isSubmitted && validationErrors == []
    {
      this.speech := speech;
      this.speechSkills := speechSkills;
      form := EmptyForm;
      isSubmitted := false;
      validationErrors := [];
    }

    /** `handleSkillScore`. */
    method ScoreSkill(id: Id, score: int)
      modifies this
      ensures form == HandleSkillScore(old(form), id, score)
      ensures speech == old(speech) && speechSkills == old(speechSkills)
      ensures isSubmitted == old(isSubmitted) && validationErrors == old(validationErrors)
    {
      form := HandleSkillScore(form, id, score);
    }

    /** `handleSubmitEvaluation`: nothing happens without a speech; a form
        that fails validation writes nothing and shows its errors; otherwise
        the evaluation and its scores are recorded and the page shows the
        thank-you state, or the submission error when a write fails. */
    method SubmitEvaluation(db: Store.Database)
      modifies this, db
      ensures speech == old(speech) && speechSkills == old(speechSkills) && form == old(form)
      ensures db.reachable == old(db.reachable) && db.userSkills == old(db.userSkills)
      ensures db.speeches == old(db.speeches) && db.speechSkills == old(db.speechSkills)
      ensures old(speech).None? ==> db.evaluations == old(db.evaluations) && db.scores == old(db.scores)
                                    && isSubmitted == old(isSubmitted) && validationErrors == old(validationErrors)
      ensures old(speech).Some? && Invalid(old(form), old(speechSkills)) ==>
                db.evaluations == old(db.evaluations) && db.scores == old(db.scores)
                && isSubmitted == old(isSubmitted) && validationErrors == Errors(old(form), old(speechSkills))
      ensures old(speech).Some? && !Invalid(old(form), old(speechSkills)) ==>
                && (isSubmitted <==> old(db.reachable) || old(isSubmitted))
                && validationErrors == (if old(db.reachable) then [] else [SubmitError])
      ensures old(speech).Some? && !Invalid(old(form), old(speechSkills)) && old(db.reachable) ==>
                var id := FreshEvaluationId(old(db.evaluations), old(db.scores));
                && db.evaluations == old(db.evaluations) + [Recorded(id, old(speech).value.id, old(form))]
                && db.scores == old(db.scores) + ScoreRowsFor(id, old(form).skillScores)
    {
      if speech.None? {
        return;
      }
      var errors := ValidateForm(form, speechSkills);
      ErrorsIffInvalid(form, speechSkills);
      if |errors| > 0 {
        validationErrors := errors;
        return;
      }
      validationErrors := [];
      var ok := RecordEvaluation(db, speech.value.id, form);
      if !ok {
        validationErrors := [SubmitError];
        return;
      }
      isSubmitted := true;
    }
  }
}
