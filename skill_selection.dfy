/** The onboarding page on which a user picks the skills to practise, also
    reached from the profile to edit that choice: per-skill toggling that
    never drops a protected skill, "all skills" on and off, the "basics"
    preset, the protected set computed from the removal check, and the
    submission that reconciles the user's skills. */
module SkillSelection {
  import opened Common
  import opened Tables
  import opened Catalog
  import Store

  /** The page's state. `current` and `protectedSkills` are the user's skills
      when the page was opened and those among them that may not be removed. */
  datatype Onboarding = Onboarding(catalog: seq<Skill>, selected: seq<Id>, wantsAll: bool,
                                   current: seq<Id>, protectedSkills: set<Id>, fromProfile: bool)

  /** `skills.map(skill => skill.id)`. */
  function Ids(skills: seq<Skill>): (ids: seq<Id>)
    ensures |ids| == |skills|
    ensures forall i :: 0 <= i < |skills| ==> ids[i] == skills[i].id
  {
    seq(|skills|, i requires 0 <= i < |skills| => skills[i].id)
  }

  /** Some skill of the list carries this id. */
  predicate HasId(skills: seq<Skill>, id: Id)
  {
    exists i :: 0 <= i < |skills| && skills[i].id == id
  }

  lemma IdsIff(skills: seq<Skill>, id: Id)
    ensures id in Ids(skills) <==> HasId(skills, id)
  {
    if id in Ids(skills) {
      var i :| 0 <= i < |skills| && Ids(skills)[i] == id;
    }
  }

  // ---------------------------------------------------------------------------
  // toggling

  /** `handleSkillToggle`. */
  function Toggle(st: Onboarding, id: Id): Onboarding
  {
    if st.wantsAll then st
    else if st.fromProfile && id in st.protectedSkills && id in st.selected then st
    else if id in st.selected then st.(selected := Filter(st.selected, (x: Id) => x != id))
    else st.(selected := st.selected + [id])
  }

  /** Toggling changes only the selection; it is frozen while "all skills" is
      on and for a selected protected skill when coming from the profile;
      otherwise it flips exactly the given id. A protected skill that is
      selected stays selected. */
  lemma ToggleSpec(st: Onboarding, id: Id)
    ensures var r := Toggle(st, id);
            && r == st.(selected := r.selected)
            && (st.wantsAll ==> r == st)
            && (st.fromProfile && id in st.protectedSkills && id in st.selected ==> r == st)
            && (!st.wantsAll && !(st.fromProfile && id in st.protectedSkills && id in st.selected) ==>
                  && (id in r.selected <==> id !in st.selected)
                  && (forall x :: x != id ==> (x in r.selected <==> x in st.selected)))
            && (st.fromProfile ==> forall p :: p in st.protectedSkills && p in st.selected ==> p in r.selected)
  {
    var r := Toggle(st, id);
    if !st.wantsAll && !(st.fromProfile && id in st.protectedSkills && id in st.selected) && id in st.selected {
      var kept := Filter(st.selected, (x: Id) => x != id);
      forall x | x != id && x in st.selected
        ensures x in kept
      {
        var i :| 0 <= i < |st.selected| && st.selected[i] == x;
      }
      assert id !in kept by {
        forall i | 0 <= i < |kept| ensures kept[i] != id { }
      }
    }
  }

  /** `handleWantsAllSkills`. */
  function ToggleAll(st: Onboarding): Onboarding
  {
    if !st.wantsAll then st.(wantsAll := true, selected := Ids(st.catalog))
    else st.(wantsAll := false,
             selected := if st.fromProfile then Filter(st.current, (id: Id) => id in st.protectedSkills) else [])
  }

  /** Turning "all skills" on selects every catalogue id; turning it off
      keeps only the protected current skills when coming from the profile,
      and nothing otherwise. */
  lemma ToggleAllSpec(st: Onboarding, id: Id)
    ensures var r := ToggleAll(st);
            && r.wantsAll == !st.wantsAll
            && r == st.(wantsAll := r.wantsAll, selected := r.selected)
            && (r.wantsAll ==> (id in r.selected <==> HasId(st.catalog, id)))
            && (!r.wantsAll ==> (id in r.selected <==> st.fromProfile && id in st.current && id in st.protectedSkills))
  {
    IdsIff(st.catalog, id);
    if st.wantsAll && st.fromProfile && id in st.current && id in st.protectedSkills {
      var i :| 0 <= i < |st.current| && st.current[i] == id;
    }
  }

  /** The "Start with basics" preset. */
  function Basics(st: Onboarding): Onboarding
  {
    st.(wantsAll := false, selected := Ids(Filter(st.catalog, (s: Skill) => s.difficulty == "Beginner")))
  }

  /** The preset selects exactly the ids of the Beginner skills. */
  lemma BasicsSpec(st: Onboarding, id: Id)
    ensures var r := Basics(st);
            && !r.wantsAll
            && (id in r.selected <==> exists i :: 0 <= i < |st.catalog| && st.catalog[i].id == id && st.catalog[i].difficulty == "Beginner")
  {
    var beginners := Filter(st.catalog, (s: Skill) => s.difficulty == "Beginner");
    IdsIff(beginners, id);
    if exists i :: 0 <= i < |st.catalog| && st.catalog[i].id == id && st.catalog[i].difficulty == "Beginner" {
      var i :| 0 <= i < |st.catalog| && st.catalog[i].id == id && st.catalog[i].difficulty == "Beginner";
      assert st.catalog[i] in beginners;
      var j :| 0 <= j < |beginners| && beginners[j] == st.catalog[i];
    }
    if HasId(beginners, id) {
      var j :| 0 <= j < |beginners| && beginners[j].id == id;
      var i :| 0 <= i < |st.catalog| && st.catalog[i] == beginners[j];
    }
  }

  // ---------------------------------------------------------------------------
  // loading the current skills

  /** `loadCurrentUserSkills`: the current skills become the selection, each
      is put to the removal check one by one and the refused ones form the
      protected set; "all skills" is switched on when the user holds as many
      skills as the catalogue has. */
  method LoadCurrentUserSkills(db: Store.Database, user: Id, st: Onboarding) returns (r: Onboarding)
    ensures r.current == SkillIds(db.GetUserSkills(user)) && r.selected == r.current
    ensures r.protectedSkills == Refused(db, user, r.current)
    ensures r.wantsAll == (st.wantsAll || (|st.catalog| > 0 && |r.current| == |st.catalog|))
    ensures r.catalog == st.catalog && r.fromProfile == st.fromProfile
  {
    var rows := db.GetUserSkills(user);
    var current := SkillIds(rows);
    var protectedIds: set<Id> := {};
    var k := 0;
    while k < |rows|
      invariant 0 <= k <= |rows|
      invariant protectedIds == Refused(db, user, current[..k])
    {
      var d := db.CanRemoveSkill(user, current[k]);
      RefusedNext(db, user, current, k);
      if !d.canRemove {
        protectedIds := protectedIds + {current[k]};
      }
      k := k + 1;
    }
    assert current[..k] == current;
    var wantsAll := st.wantsAll;
    if |st.catalog| > 0 && |current| == |st.catalog| {
      wantsAll := true;
    }
    r := st.(current := current, selected := current, protectedSkills := protectedIds, wantsAll := wantsAll);
  }

  /** The skills of `ids` that the removal check refuses. */
  function Refused(db: Store.Database, user: Id, ids: seq<Id>): set<Id>
    reads db
  {
    set id | id in ids && !db.CanRemoveSkill(user, id).canRemove
  }

  lemma RefusedNext(db: Store.Database, user: Id, ids: seq<Id>, k: nat)
    requires k < |ids|
    ensures Refused(db, user, ids[..k + 1])
            == Refused(db, user, ids[..k]) + (if db.CanRemoveSkill(user, ids[k]).canRemove then {} else {ids[k]})
  {
    assert ids[..k + 1] == ids[..k] + [ids[k]];
  }

  /** A skill the user has been evaluated on is among the loaded ones and is
      refused by the removal check, so loading puts it in the protected set. */
  lemma EvaluatedSkillsProtected(db: Store.Database, user: Id, i: nat)
    requires db.reachable && i < |db.userSkills|
    requires db.userSkills[i].userId == user && db.userSkills[i].hasEvaluations
    ensures db.userSkills[i].skillId in SkillIds(db.GetUserSkills(user))
    ensures !db.CanRemoveSkill(user, db.userSkills[i].skillId).canRemove
    ensures db.userSkills[i].skillId in Refused(db, user, SkillIds(db.GetUserSkills(user)))
  {
    var rows := db.GetUserSkills(user);
    var row := db.userSkills[i];
    var j :| 0 <= j < |rows| && rows[j] == row;
    assert SkillIds(rows)[j] == row.skillId;
  }

  // ---------------------------------------------------------------------------
  // submission

  /** Ids of the built-in catalogue used when the skills cannot be loaded. */
  predicate IsFallbackId(id: Id)
  {
    |id| >= 9 && id[..9] == "fallback-"
  }

  /** Offline mode: some catalogue skill is a built-in one. */
  predicate UsesFallback(catalog: seq<Skill>)
  {
    exists i :: 0 <= i < |catalog| && IsFallbackId(catalog[i].id)
  }

  /** `handleSubmit`'s guard: a signed-in user whose profile has loaded, with
      a non-empty selection. */
  function SubmitGuard(user: Option<Id>, profileLoaded: bool, st: Onboarding): (error: Option<string>)
    ensures error == None <==> user.Some? && profileLoaded && st.selected != []
    ensures (user.None? || !profileLoaded) ==> error == Some("User not authenticated")
    ensures user.Some? && profileLoaded && st.selected == [] ==>
              error == Some("Please select at least one skill to get started")
  {
    if user.None? || !profileLoaded then Some("User not authenticated")
    else if st.selected == [] then Some("Please select at least one skill to get started")
    else None
  }

  /** `handleSubmit`: after the guard, offline mode writes nothing; online
      the skills are reconciled (a failure is swallowed) and the outcome of
      the profile update, which lies outside the tables, decides the error. */
  method Submit(db: Store.Database, user: Option<Id>, profileLoaded: bool, st: Onboarding, profileSaved: bool)
    returns (error: Option<string>)
    modifies db
    ensures db.reachable == old(db.reachable) && db.speeches == old(db.speeches) && db.speechSkills == old(db.speechSkills)
    ensures db.evaluations == old(db.evaluations) && db.scores == old(db.scores)
    ensures SubmitGuard(user, profileLoaded, st).Some? ==> error == SubmitGuard(user, profileLoaded, st) && db.userSkills == old(db.userSkills)
    ensures SubmitGuard(user, profileLoaded, st).None? && UsesFallback(st.catalog) ==> error == None && db.userSkills == old(db.userSkills)
    ensures SubmitGuard(user, profileLoaded, st).None? && !UsesFallback(st.catalog) ==>
              && error == (if profileSaved then None else Some("Failed to complete onboarding. Please try again."))
              && db.userSkills == if old(db.reachable) then Reconciled(old(db.userSkills), user.value, st.selected)
                                  else old(db.userSkills)
  {
    error := SubmitGuard(user, profileLoaded, st);
    if error.Some? {
      return;
    }
    if UsesFallback(st.catalog) {
      return None;
    }
    var _ := db.UpdateUserSkills(user.value, st.selected);
    error := if profileSaved then None else Some("Failed to complete onboarding. Please try again.");
  }
}
