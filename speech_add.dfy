/** The page on which a user adds a speech: the skill picker with its cap of
    five, the form's validation, the two writes that create the speech and
    its skills, and the searchable skill lists. */
module SpeechAdd {
  import opened Common
  import opened Tables
  import opened Catalog
  import Store

  /** The form: title, description, selected skill ids and the shown error. */
  datatype AddForm = AddForm(title: string, description: string, selected: seq<Id>, error: Option<string>)

  /** The most skills a speech may practise. */
  const MaxSkills: nat := 5

  const CapError := "You can select a maximum of 5 skills to focus on"

  // ---------------------------------------------------------------------------
  // the skill picker

  /** `handleSkillToggle`: a selected id is removed; an unselected one is
      appended only below the cap, which also clears a cap error; at the cap
      the selection stays and the cap error is shown. */
  function ToggleSkill(f: AddForm, id: Id): AddForm
  {
    if id in f.selected then f.(selected := Filter(f.selected, (x: Id) => x != id))
    else if |f.selected| >= MaxSkills then f.(error := Some(CapError))
    else f.(selected := f.selected + [id],
            error := if f.error.Some? && Includes(f.error.value, "maximum of 5 skills") then None else f.error)
  }

  /** What one toggle does to the selection. */
  lemma ToggleSkillSpec(f: AddForm, id: Id)
    ensures var r := ToggleSkill(f, id);
            && r.title == f.title && r.description == f.description
            && (id in f.selected ==>
                  && id !in r.selected && r.error == f.error
                  && forall x :: x != id ==> (x in r.selected <==> x in f.selected))
            && (id !in f.selected && |f.selected| >= MaxSkills ==>
                  r.selected == f.selected && r.error == Some(CapError))
            && (id !in f.selected && |f.selected| < MaxSkills ==> r.selected == f.selected + [id])
  {
    if id in f.selected {
      var kept := Filter(f.selected, (x: Id) => x != id);
      forall x | x != id && x in f.selected
        ensures x in kept
      {
        var i :| 0 <= i < |f.selected| && f.selected[i] == x;
      }
      assert id !in kept by {
        forall i | 0 <= i < |kept| ensures kept[i] != id { }
      }
    }
  }

  /** The selection holds at most five distinct ids, and toggling keeps it so. */
  predicate ValidSelection(selected: seq<Id>)
  {
    |selected| <= MaxSkills && NoDuplicates(selected)
  }

  lemma ToggleKeepsValid(f: AddForm, id: Id)
    requires ValidSelection(f.selected)
    ensures ValidSelection(ToggleSkill(f, id).selected)
  {
    if id in f.selected {
      FilterNoDuplicates(f.selected, (x: Id) => x != id);
    }
  }

  // ---------------------------------------------------------------------------
  // validation and submission

  /** `handleSubmit`'s checks, in order. */
  function AddGuard(user: Option<Id>, f: AddForm): (error: Option<string>)
    ensures error == None <==> user.Some? && !IsBlank(f.title) && f.selected != []
  {
    TrimEmptyIffBlank(f.title);
    if user.None? then Some("User not authenticated")
    else if Trim(f.title) == "" then Some("Please enter a speech title")
    else if f.selected == [] then Some("Please select at least one skill to practice")
    else None
  }

  /** `description.trim() || undefined`. */
  function DescriptionOf(d: string): (r: Option<string>)
    ensures r.None? <==> IsBlank(d)
    ensures r.Some? ==> r.value == Trim(d) && !IsSpace(r.value[0]) && !IsSpace(r.value[|r.value| - 1])
  {
    TrimEmptyIffBlank(d);
    if Trim(d) == "" then None else Some(Trim(d))
  }

  const CreateFailed := "Failed to create speech. Please try again."

  /** `handleSubmit`: after the checks, creates the speech with the trimmed
      title and description, then one `speech_skills` row per selected id. */
  method Submit(db: Store.Database, user: Option<Id>, f: AddForm) returns (r: AddForm, created: Option<SpeechRow>)
    modifies db
    ensures db.reachable == old(db.reachable) && db.userSkills == old(db.userSkills)
    ensures db.evaluations == old(db.evaluations) && db.scores == old(db.scores)
    ensures r == f.(error := r.error)
    ensures AddGuard(user, f).Some? ==>
              r.error == AddGuard(user, f) && created == None
              && db.speeches == old(db.speeches) && db.speechSkills == old(db.speechSkills)
    ensures AddGuard(user, f).None? && !old(db.reachable) ==>
              r.error == Some(CreateFailed) && created == None
              && db.speeches == old(db.speeches) && db.speechSkills == old(db.speechSkills)
    ensures AddGuard(user, f).None? && old(db.reachable) ==>
              && r.error == None && created.Some?
              && created.value.userId == user.value
              && created.value.title == Trim(f.title)
              && created.value.description == DescriptionOf(f.description)
              && created.value.id == FreshSpeechId(old(db.speeches), old(db.speechSkills))
              && db.speeches == old(db.speeches) + [created.value]
              && db.speechSkills == old(db.speechSkills) + NewSpeechSkillRows(created.value.id, f.selected)
  {
    var guard := AddGuard(user, f);
    if guard.Some? {
      return f.(error := guard), None;
    }
    r := f.(error := None);
    created := db.CreateSpeech(user.value, Trim(f.title), DescriptionOf(f.description));
    if created.None? {
      return f.(error := Some(CreateFailed)), None;
    }
    var linked := db.CreateSpeechSkills(NewSpeechSkillRows(created.value.id, f.selected));
    if !linked {
      r := f.(error := Some(CreateFailed));
    }
  }

  /** After a successful submission the new speech practises exactly the
      selected skills. */
  lemma SubmittedSkillsExact(links: seq<SpeechSkillRow>, speech: nat, selected: seq<Id>)
    requires forall i :: 0 <= i < |links| ==> links[i].speechId != speech
    ensures SpeechSkillIds(links + NewSpeechSkillRows(speech, selected), speech) == selected
  {
    var added := NewSpeechSkillRows(speech, selected);
    FilterAppend(links, added, (l: SpeechSkillRow) => l.speechId == speech);
    FilterNone(links, (l: SpeechSkillRow) => l.speechId == speech);
    FilterAll(added, (l: SpeechSkillRow) => l.speechId == speech);
    assert SkillColumn(added) == selected;
  }

  // ---------------------------------------------------------------------------
  // the skill lists

  /** A `user_skills` row with its joined catalogue entry, which may be
      missing. */
  datatype UserSkillView = UserSkillView(row: UserSkillRow, skill: Option<Skill>)

  /** `filteredUserSkills`: a row without its catalogue entry never matches. */
  function FilterUserSkills(views: seq<UserSkillView>, term: string): seq<UserSkillView>
  {
    Filter(views, (v: UserSkillView) => v.skill.Some? && MatchesSearch(v.skill.value, term))
  }

  lemma FilterUserSkillsIff(views: seq<UserSkillView>, term: string, v: UserSkillView)
    ensures v in FilterUserSkills(views, term) <==> v in views && v.skill.Some? && MatchesSearch(v.skill.value, term)
  {
    var r := FilterUserSkills(views, term);
    if v in r {
      var i :| 0 <= i < |r| && r[i] == v;
    }
    if v in views {
      var i :| 0 <= i < |views| && views[i] == v;
    }
  }

  /** The user already holds the skill. */
  predicate Holds(held: seq<UserSkillView>, id: Id)
  {
    exists i :: 0 <= i < |held| && held[i].row.skillId == id
  }

  /** "All Available Skills": the matching catalogue skills the user does not
      hold yet. */
  function AvailableSkills(skills: seq<Skill>, term: string, held: seq<UserSkillView>): seq<Skill>
  {
    Filter(FilterSkills(skills, term), (s: Skill) => !Holds(held, s.id))
  }

  lemma AvailableSkillsIff(skills: seq<Skill>, term: string, held: seq<UserSkillView>, s: Skill)
    ensures s in AvailableSkills(skills, term, held) <==> s in skills && MatchesSearch(s, term) && !Holds(held, s.id)
  {
    var matching := FilterSkills(skills, term);
    var r := AvailableSkills(skills, term, held);
    FilterSkillsIff(skills, term, s);
    if s in r {
      var i :| 0 <= i < |r| && r[i] == s;
    }
    if s in matching {
      var i :| 0 <= i < |matching| && matching[i] == s;
    }
  }
}
