/** The rows of the hosted database that the application reads and writes,
    and the pure table transformations that its data helpers perform: set
    differences and deletes on `user_skills`, the removal decision, the
    wholesale replacement of `speech_skills`, share-token issue and lookup on
    `speeches`, and the joins that feed the score averages. */
module Tables {
  import opened Common
  import Scores

  /** A `user_skills` row: the user practises the skill. A row whose
      `hasEvaluations` flag is set is protected from deletion. */
  datatype UserSkillRow = UserSkillRow(userId: Id, skillId: Id, hasEvaluations: bool, evaluationCount: nat)

  /** A `speeches` row. Generated ids are numbers here. */
  datatype SpeechRow = SpeechRow(id: nat, userId: Id, title: string, description: Option<string>,
                                 status: string, isPublic: bool, shareToken: Option<Id>)

  /** A `speech_skills` row: the speech practises the skill. */
  datatype SpeechSkillRow = SpeechSkillRow(speechId: nat, skillId: Id)

  /** An `evaluations` row. */
  datatype EvaluationRow = EvaluationRow(id: nat, speechId: nat, evaluatorName: string,
                                         whatWentWell: string, whatCouldBeImproved: string)

  /** An `evaluation_skill_scores` row. */
  datatype EvalScoreRow = EvalScoreRow(evaluationId: nat, skillId: Id, score: int)

  // ---------------------------------------------------------------------------
  // user_skills: reconciliation against a target set

  /** The user's rows, in table order. */
  function RowsOfUser(rows: seq<UserSkillRow>, user: Id): seq<UserSkillRow>
  {
    Filter(rows, (r: UserSkillRow) => r.userId == user)
  }

  /** The `skill_id` column. */
  function SkillIds(rows: seq<UserSkillRow>): (ids: seq<Id>)
    ensures |ids| == |rows|
    ensures forall i :: 0 <= i < |rows| ==> ids[i] == rows[i].skillId
  {
    seq(|rows|, i requires 0 <= i < |rows| => rows[i].skillId)
  }

  /** `xs.filter(id => !ys.includes(id))`. */
  function Missing(xs: seq<Id>, ys: seq<Id>): seq<Id>
  {
    Filter(xs, (id: Id) => id !in ys)
  }

  /** The two differences `updateUserSkills` computes are set differences:
      an id is to be added exactly when it is in the target and not held, and
      to be removed exactly when it is held and not in the target. */
  lemma MissingIsDifference(xs: seq<Id>, ys: seq<Id>, id: Id)
    ensures id in Missing(xs, ys) <==> id in xs && id !in ys
  {
    if id in xs && id !in ys {
      var i :| 0 <= i < |xs| && xs[i] == id;
    }
    if id in Missing(xs, ys) {
      var i :| 0 <= i < |Missing(xs, ys)| && Missing(xs, ys)[i] == id;
    }
  }

  /** The delete of `updateUserSkills`: the user's rows whose skill is listed
      go, unless `has_evaluations` is set. */
  function DeleteUnprotected(rows: seq<UserSkillRow>, user: Id, ids: seq<Id>): seq<UserSkillRow>
  {
    Filter(rows, (r: UserSkillRow) => !(r.userId == user && r.skillId in ids && !r.hasEvaluations))
  }

  /** The inserted rows: user and skill given, the other columns at the
      table's defaults. */
  function NewUserSkillRows(user: Id, ids: seq<Id>): (rows: seq<UserSkillRow>)
    ensures |rows| == |ids|
    ensures forall i :: 0 <= i < |ids| ==> rows[i] == UserSkillRow(user, ids[i], false, 0)
  {
    seq(|ids|, i requires 0 <= i < |ids| => UserSkillRow(user, ids[i], false, 0))
  }

  /** The skills the user currently holds, in table order. */
  function CurrentSkillIds(rows: seq<UserSkillRow>, user: Id): seq<Id>
  {
    SkillIds(RowsOfUser(rows, user))
  }

  /** `updateUserSkills(user, target)` when every request succeeds. */
  function Reconciled(rows: seq<UserSkillRow>, user: Id, target: seq<Id>): seq<UserSkillRow>
  {
    var current := CurrentSkillIds(rows, user);
    DeleteUnprotected(rows, user, Missing(current, target)) + NewUserSkillRows(user, Missing(target, current))
  }

  /** The set of skills a user holds. */
  function UserSkillSet(rows: seq<UserSkillRow>, user: Id): set<Id>
  {
    set r | r in rows && r.userId == user :: r.skillId
  }

  /** The skills a user holds through a protected row. */
  function ProtectedSkillSet(rows: seq<UserSkillRow>, user: Id): set<Id>
  {
    set r | r in rows && r.userId == user && r.hasEvaluations :: r.skillId
  }

  lemma HeldIsCurrent(rows: seq<UserSkillRow>, user: Id, id: Id)
    ensures id in CurrentSkillIds(rows, user) <==> id in UserSkillSet(rows, user)
  {
    var mine := RowsOfUser(rows, user);
    if id in CurrentSkillIds(rows, user) {
      var i :| 0 <= i < |mine| && SkillIds(mine)[i] == id;
      assert mine[i] in rows;
    }
    if id in UserSkillSet(rows, user) {
      var r :| r in rows && r.userId == user && r.skillId == id;
      var j :| 0 <= j < |rows| && rows[j] == r;
      assert r in mine;
      var i :| 0 <= i < |mine| && mine[i] == r;
      assert SkillIds(mine)[i] == id;
    }
  }

  /** Rows that are protected, belong to another user, or name a target skill
      all survive the reconciliation. */
  lemma ReconcileKeeps(rows: seq<UserSkillRow>, user: Id, target: seq<Id>, r: UserSkillRow)
    requires r in rows
    requires r.hasEvaluations || r.userId != user || r.skillId in target
    ensures r in Reconciled(rows, user, target)
  {
    var current := CurrentSkillIds(rows, user);
    MissingIsDifference(current, target, r.skillId);
    var i :| 0 <= i < |rows| && rows[i] == r;
    assert r in DeleteUnprotected(rows, user, Missing(current, target));
  }

  /** An unprotected row of the user whose skill is not in the target is
      deleted. */
  lemma ReconcileDeletes(rows: seq<UserSkillRow>, user: Id, target: seq<Id>, r: UserSkillRow)
    requires r in rows && r.userId == user && !r.hasEvaluations && r.skillId !in target
    ensures r !in Reconciled(rows, user, target)
  {
    var current := CurrentSkillIds(rows, user);
    HeldIsCurrent(rows, user, r.skillId);
    MissingIsDifference(current, target, r.skillId);
    MissingIsDifference(target, current, r.skillId);
    var toAdd := Missing(target, current);
    var kept := DeleteUnprotected(rows, user, Missing(current, target));
    var added := NewUserSkillRows(user, toAdd);
    assert forall i :: 0 <= i < |kept| ==> kept[i] != r;
    assert forall i :: 0 <= i < |added| ==> added[i].skillId == toAdd[i] && toAdd[i] !in current;
  }

  /** After a successful run the user holds exactly the target skills plus
      the protected skills outside the target. */
  lemma ReconcileSkillSet(rows: seq<UserSkillRow>, user: Id, target: seq<Id>)
    ensures UserSkillSet(Reconciled(rows, user, target), user)
            == (set id | id in target) + ProtectedSkillSet(rows, user)
  {
    var current := CurrentSkillIds(rows, user);
    var toRemove, toAdd := Missing(current, target), Missing(target, current);
    var kept := DeleteUnprotected(rows, user, toRemove);
    var added := NewUserSkillRows(user, toAdd);
    var result := Reconciled(rows, user, target);
    forall id | id in UserSkillSet(result, user)
      ensures id in target || id in ProtectedSkillSet(rows, user)
    {
      var r :| r in result && r.userId == user && r.skillId == id;
      if r in kept {
        var i :| 0 <= i < |kept| && kept[i] == r;
        MissingIsDifference(current, target, id);
        HeldIsCurrent(rows, user, id);
      } else {
        var i :| 0 <= i < |added| && added[i] == r;
        assert toAdd[i] == id && toAdd[i] in target;
      }
    }
    forall id | id in target
      ensures id in UserSkillSet(result, user)
    {
      MissingIsDifference(target, current, id);
      HeldIsCurrent(rows, user, id);
      if id in current {
        var r :| r in rows && r.userId == user && r.skillId == id;
        ReconcileKeeps(rows, user, target, r);
      } else {
        var i :| 0 <= i < |toAdd| && toAdd[i] == id;
        assert added[i] in result;
      }
    }
    forall id | id in ProtectedSkillSet(rows, user)
      ensures id in UserSkillSet(result, user)
    {
      var r :| r in rows && r.userId == user && r.hasEvaluations && r.skillId == id;
      ReconcileKeeps(rows, user, target, r);
    }
  }

  /** The reconciliation neither creates nor loses protected skills. */
  lemma ReconcileProtectedSet(rows: seq<UserSkillRow>, user: Id, target: seq<Id>)
    ensures ProtectedSkillSet(Reconciled(rows, user, target), user) == ProtectedSkillSet(rows, user)
  {
    var current := CurrentSkillIds(rows, user);
    var kept := DeleteUnprotected(rows, user, Missing(current, target));
    var added := NewUserSkillRows(user, Missing(target, current));
    var result := Reconciled(rows, user, target);
    forall id | id in ProtectedSkillSet(result, user)
      ensures id in ProtectedSkillSet(rows, user)
    {
      var r :| r in result && r.userId == user && r.hasEvaluations && r.skillId == id;
      assert forall i :: 0 <= i < |added| ==> !added[i].hasEvaluations;
      assert r in kept;
    }
    forall id | id in ProtectedSkillSet(rows, user)
      ensures id in ProtectedSkillSet(result, user)
    {
      var r :| r in rows && r.userId == user && r.hasEvaluations && r.skillId == id;
      ReconcileKeeps(rows, user, target, r);
    }
  }

  /** Running the reconciliation a second time with the same target leaves
      the user's skill set as the first run left it. */
  lemma ReconcileStable(rows: seq<UserSkillRow>, user: Id, target: seq<Id>)
    ensures UserSkillSet(Reconciled(Reconciled(rows, user, target), user, target), user)
            == UserSkillSet(Reconciled(rows, user, target), user)
  {
    var once := Reconciled(rows, user, target);
    ReconcileSkillSet(rows, user, target);
    ReconcileSkillSet(once, user, target);
    ReconcileProtectedSet(rows, user, target);
  }

  /** Other users' rows are neither added nor removed. */
  lemma ReconcileOtherUsers(rows: seq<UserSkillRow>, user: Id, target: seq<Id>, r: UserSkillRow)
    requires r.userId != user
    ensures r in Reconciled(rows, user, target) <==> r in rows
  {
    var current := CurrentSkillIds(rows, user);
    var kept := DeleteUnprotected(rows, user, Missing(current, target));
    var added := NewUserSkillRows(user, Missing(target, current));
    if r in rows {
      ReconcileKeeps(rows, user, target, r);
    }
    if r in Reconciled(rows, user, target) {
      assert forall i :: 0 <= i < |added| ==> added[i].userId == user;
      assert r in kept;
    }
  }

  // ---------------------------------------------------------------------------
  // user_skills: the removal decision and the single-row delete

  /** `{ canRemove, reason }`. */
  datatype Removability = Removability(canRemove: bool, reason: Option<string>)

  const UnableToVerify := "Unable to verify skill status"

  /** "s" after a count other than one. */
  function Plural(n: nat, suffix: string): string
  {
    if n != 1 then suffix else ""
  }

  function EvaluationsReason(n: nat): string
  {
    "This skill has " + NatToString(n) + " evaluation" + Plural(n, "s") + " and cannot be removed"
  }

  function SpeechesReason(n: nat): string
  {
    "This skill is associated with " + NatToString(n) + " speech" + Plural(n, "es") + " and cannot be removed"
  }

  /** The rows the `.eq('user_id').eq('skill_id')` query selects. */
  function MatchingRows(rows: seq<UserSkillRow>, user: Id, skill: Id): seq<UserSkillRow>
  {
    Filter(rows, (r: UserSkillRow) => r.userId == user && r.skillId == skill)
  }

  /** Some speech with this id belongs to the user. */
  predicate OwnsSpeech(speeches: seq<SpeechRow>, user: Id, speechId: nat)
  {
    exists i :: 0 <= i < |speeches| && speeches[i].id == speechId && speeches[i].userId == user
  }

  /** The `speech_skills` rows of this skill whose speech belongs to the user
      (the inner join on `speeches`). */
  function LinkedRows(speeches: seq<SpeechRow>, links: seq<SpeechSkillRow>, user: Id, skill: Id): seq<SpeechSkillRow>
  {
    Filter(links, (l: SpeechSkillRow) => l.skillId == skill && OwnsSpeech(speeches, user, l.speechId))
  }

  /** `canRemoveSkill`: the `.single()` lookup fails unless exactly one row
      matches; a set `has_evaluations` flag refuses; a speech of the user that
      practises the skill refuses; otherwise removal is allowed. */
  function Removable(reachable: bool, rows: seq<UserSkillRow>, speeches: seq<SpeechRow>,
                     links: seq<SpeechSkillRow>, user: Id, skill: Id): Removability
  {
    var m := MatchingRows(rows, user, skill);
    if !reachable || |m| != 1 then Removability(false, Some(UnableToVerify))
    else if m[0].hasEvaluations then Removability(false, Some(EvaluationsReason(m[0].evaluationCount)))
    else
      var linked := LinkedRows(speeches, links, user, skill);
      if |linked| > 0 then Removability(false, Some(SpeechesReason(|linked|)))
      else Removability(true, None)
  }

  /** The removal decision in terms of the tables: a skill may be removed
      exactly when the lookup succeeds on a single row, no row of the user for
      the skill is protected, and no speech of the user practises it; a
      refusal always carries a reason. */
  lemma RemovableIff(reachable: bool, rows: seq<UserSkillRow>, speeches: seq<SpeechRow>,
                     links: seq<SpeechSkillRow>, user: Id, skill: Id)
    ensures var d := Removable(reachable, rows, speeches, links, user, skill);
            && (d.canRemove <==>
                  && reachable
                  && |MatchingRows(rows, user, skill)| == 1
                  && (forall r :: r in rows && r.userId == user && r.skillId == skill ==> !r.hasEvaluations)
                  && (forall l :: l in links && l.skillId == skill ==> !OwnsSpeech(speeches, user, l.speechId)))
            && (d.canRemove <==> d.reason == None)
  {
    var m := MatchingRows(rows, user, skill);
    var linked := LinkedRows(speeches, links, user, skill);
    if reachable && |m| == 1 {
      forall r | r in rows && r.userId == user && r.skillId == skill
        ensures r == m[0]
      {
        var i :| 0 <= i < |rows| && rows[i] == r;
        assert r in m;
      }
      if |linked| > 0 {
        assert linked[0] in links;
      }
      forall l | l in links && l.skillId == skill
        ensures !OwnsSpeech(speeches, user, l.speechId) || |linked| > 0
      {
        var i :| 0 <= i < |links| && links[i] == l;
      }
      assert m[0] in rows;
    }
  }

  /** A skill with a protected row is never removable, and the reason quotes
      the row's evaluation count. */
  lemma EvaluatedIsProtected(reachable: bool, rows: seq<UserSkillRow>, speeches: seq<SpeechRow>,
                             links: seq<SpeechSkillRow>, user: Id, skill: Id, r: UserSkillRow)
    requires r in rows && r.userId == user && r.skillId == skill && r.hasEvaluations
    ensures !Removable(reachable, rows, speeches, links, user, skill).canRemove
    ensures MatchingRows(rows, user, skill) == [r] ==>
              Removable(reachable, rows, speeches, links, user, skill).reason
              == if reachable then Some(EvaluationsReason(r.evaluationCount)) else Some(UnableToVerify)
  {
    RemovableIff(reachable, rows, speeches, links, user, skill);
  }

  /** A skill practised by one of the user's speeches is never removable. */
  lemma LinkedIsProtected(reachable: bool, rows: seq<UserSkillRow>, speeches: seq<SpeechRow>,
                          links: seq<SpeechSkillRow>, user: Id, skill: Id, l: SpeechSkillRow)
    requires l in links && l.skillId == skill && OwnsSpeech(speeches, user, l.speechId)
    ensures !Removable(reachable, rows, speeches, links, user, skill).canRemove
  {
    RemovableIff(reachable, rows, speeches, links, user, skill);
  }

  /** Only `has_evaluations` is consulted: an unflagged, unlinked single row
      is removable whatever its `evaluation_count`. */
  lemma CountNotConsulted(rows: seq<UserSkillRow>, speeches: seq<SpeechRow>, links: seq<SpeechSkillRow>,
                          user: Id, skill: Id, n: nat)
    requires MatchingRows(rows, user, skill) == [UserSkillRow(user, skill, false, n)]
    requires LinkedRows(speeches, links, user, skill) == []
    ensures Removable(true, rows, speeches, links, user, skill) == Removability(true, None)
  {
  }

  /** The delete of `removeUserSkill`: every row of the user for the skill. */
  function WithoutUserSkill(rows: seq<UserSkillRow>, user: Id, skill: Id): seq<UserSkillRow>
  {
    Filter(rows, (r: UserSkillRow) => !(r.userId == user && r.skillId == skill))
  }

  /** The single-row delete removes exactly the user's rows for the skill. */
  lemma WithoutUserSkillExact(rows: seq<UserSkillRow>, user: Id, skill: Id, r: UserSkillRow)
    ensures r in WithoutUserSkill(rows, user, skill) <==> r in rows && !(r.userId == user && r.skillId == skill)
  {
    var after := WithoutUserSkill(rows, user, skill);
    if r in after {
      var i :| 0 <= i < |after| && after[i] == r;
    }
    if r in rows {
      var i :| 0 <= i < |rows| && rows[i] == r;
    }
  }

  // ---------------------------------------------------------------------------
  // speech_skills: wholesale replacement

  /** The skill ids of one speech, in table order. */
  function SpeechSkillIds(links: seq<SpeechSkillRow>, speech: nat): seq<Id>
  {
    SkillColumn(RowsOfSpeech(links, speech))
  }

  /** The rows of one speech, in table order. */
  function RowsOfSpeech(links: seq<SpeechSkillRow>, speech: nat): seq<SpeechSkillRow>
  {
    Filter(links, (l: SpeechSkillRow) => l.speechId == speech)
  }

  /** The `skill_id` column. */
  function SkillColumn(links: seq<SpeechSkillRow>): (ids: seq<Id>)
    ensures |ids| == |links|
    ensures forall i :: 0 <= i < |links| ==> ids[i] == links[i].skillId
  {
    seq(|links|, i requires 0 <= i < |links| => links[i].skillId)
  }

  function NewSpeechSkillRows(speech: nat, ids: seq<Id>): (rows: seq<SpeechSkillRow>)
    ensures |rows| == |ids|
    ensures forall i :: 0 <= i < |ids| ==> rows[i] == SpeechSkillRow(speech, ids[i])
  {
    seq(|ids|, i requires 0 <= i < |ids| => SpeechSkillRow(speech, ids[i]))
  }

  /** `updateSpeechSkills(speech, ids)`: delete every row of the speech, then
      insert one row per id. */
  function Replaced(links: seq<SpeechSkillRow>, speech: nat, ids: seq<Id>): seq<SpeechSkillRow>
  {
    Filter(links, (l: SpeechSkillRow) => l.speechId != speech) + NewSpeechSkillRows(speech, ids)
  }

  /** After the replacement the speech's skills are exactly `ids`, in order;
      with no ids the speech has no skills. */
  lemma ReplacedExact(links: seq<SpeechSkillRow>, speech: nat, ids: seq<Id>)
    ensures SpeechSkillIds(Replaced(links, speech, ids), speech) == ids
  {
    ReplacedRows(links, speech, ids);
    assert SkillColumn(NewSpeechSkillRows(speech, ids)) == ids;
  }

  lemma ReplacedRows(links: seq<SpeechSkillRow>, speech: nat, ids: seq<Id>)
    ensures RowsOfSpeech(Replaced(links, speech, ids), speech) == NewSpeechSkillRows(speech, ids)
  {
    var others := Filter(links, (l: SpeechSkillRow) => l.speechId != speech);
    var added := NewSpeechSkillRows(speech, ids);
    FilterAppend(others, added, (l: SpeechSkillRow) => l.speechId == speech);
    FilterNone(others, (l: SpeechSkillRow) => l.speechId == speech);
    FilterAll(added, (l: SpeechSkillRow) => l.speechId == speech);
  }

  /** The other speeches' skills are untouched. */
  lemma ReplacedOthers(links: seq<SpeechSkillRow>, speech: nat, ids: seq<Id>, other: nat)
    requires other != speech
    ensures SpeechSkillIds(Replaced(links, speech, ids), other) == SpeechSkillIds(links, other)
  {
    var others := Filter(links, (l: SpeechSkillRow) => l.speechId != speech);
    var added := NewSpeechSkillRows(speech, ids);
    FilterAppend(others, added, (l: SpeechSkillRow) => l.speechId == other);
    FilterNone(added, (l: SpeechSkillRow) => l.speechId == other);
    FilterOfFilter(links, speech, other);
  }

  lemma {:induction false} FilterOfFilter(links: seq<SpeechSkillRow>, speech: nat, other: nat)
    requires other != speech
    ensures Filter(Filter(links, (l: SpeechSkillRow) => l.speechId != speech), (l: SpeechSkillRow) => l.speechId == other)
            == Filter(links, (l: SpeechSkillRow) => l.speechId == other)
  {
    if links != [] {
      var init := links[..|links| - 1];
      FilterOfFilter(init, speech, other);
      var last := links[|links| - 1];
      FilterAppend(Filter(init, (l: SpeechSkillRow) => l.speechId != speech),
                   if last.speechId != speech then [last] else [],
                   (l: SpeechSkillRow) => l.speechId == other);
    }
  }

  /** Replacing twice with the same ids gives the same table as replacing once. */
  lemma ReplacedIdempotent(links: seq<SpeechSkillRow>, speech: nat, ids: seq<Id>)
    ensures Replaced(Replaced(links, speech, ids), speech, ids) == Replaced(links, speech, ids)
  {
    var others := Filter(links, (l: SpeechSkillRow) => l.speechId != speech);
    var added := NewSpeechSkillRows(speech, ids);
    FilterAppend(others, added, (l: SpeechSkillRow) => l.speechId != speech);
    FilterAll(others, (l: SpeechSkillRow) => l.speechId != speech);
    FilterNone(added, (l: SpeechSkillRow) => l.speechId != speech);
  }

  // ---------------------------------------------------------------------------
  // speeches: share tokens

  /** The update of `generateSpeechShareToken`: the speech with this id gets
      the token and becomes public; every other row is unchanged. */
  function WithShareToken(speeches: seq<SpeechRow>, speech: nat, token: Id): (r: seq<SpeechRow>)
    ensures |r| == |speeches|
    ensures forall i :: 0 <= i < |speeches| ==>
              r[i] == if speeches[i].id == speech
                      then speeches[i].(shareToken := Some(token), isPublic := true)
                      else speeches[i]
  {
    seq(|speeches|, i requires 0 <= i < |speeches| =>
          if speeches[i].id == speech then speeches[i].(shareToken := Some(token), isPublic := true)
          else speeches[i])
  }

  /** The rows the public lookup selects: an equal token on a public speech. */
  function PublicWithToken(speeches: seq<SpeechRow>, token: Id): seq<SpeechRow>
  {
    Filter(speeches, (s: SpeechRow) => s.shareToken == Some(token) && s.isPublic)
  }

  /** `getSpeechByShareToken`: `.single()` succeeds only on exactly one row. */
  function LookupByToken(speeches: seq<SpeechRow>, token: Id): Option<SpeechRow>
  {
    var m := PublicWithToken(speeches, token);
    if |m| == 1 then Some(m[0]) else None
  }

  /** A lookup finds only a public speech carrying the token. */
  lemma LookupSound(speeches: seq<SpeechRow>, token: Id)
    ensures LookupByToken(speeches, token).Some? ==>
              var s := LookupByToken(speeches, token).value;
              s in speeches && s.shareToken == Some(token) && s.isPublic
  {
  }

  /** Regenerating a speech's token invalidates the old one: once the speech
      that carried token `old` gets a different token, no public speech
      carries `old` any more. */
  lemma RegenerationInvalidatesOld(speeches: seq<SpeechRow>, speech: nat, stale: Id, token: Id)
    requires stale != token
    requires forall i :: 0 <= i < |speeches| && speeches[i].shareToken == Some(stale) ==> speeches[i].id == speech
    ensures LookupByToken(WithShareToken(speeches, speech, token), stale) == None
  {
    var after := WithShareToken(speeches, speech, token);
    FilterNone(after, (s: SpeechRow) => s.shareToken == Some(stale) && s.isPublic);
  }

  /** A freshly issued token resolves to the speech, now public with that
      token, when the speech id is unique and no other speech uses the token. */
  lemma IssuedTokenResolves(speeches: seq<SpeechRow>, k: int, token: Id)
    requires 0 <= k < |speeches|
    requires forall i :: 0 <= i < |speeches| && i != k ==>
               speeches[i].id != speeches[k].id && speeches[i].shareToken != Some(token)
    ensures LookupByToken(WithShareToken(speeches, speeches[k].id, token), token)
            == Some(speeches[k].(shareToken := Some(token), isPublic := true))
  {
    var after := WithShareToken(speeches, speeches[k].id, token);
    FilterSingle(after, k, (s: SpeechRow) => s.shareToken == Some(token) && s.isPublic);
  }

  // ---------------------------------------------------------------------------
  // evaluations and their scores

  /** The evaluations of one speech. */
  function EvaluationsOf(evaluations: seq<EvaluationRow>, speech: nat): seq<EvaluationRow>
  {
    Filter(evaluations, (e: EvaluationRow) => e.speechId == speech)
  }

  /** Some evaluation with this id satisfies `p`. */
  predicate EvaluationWith(evaluations: seq<EvaluationRow>, evaluation: nat, p: EvaluationRow -> bool)
  {
    exists i :: 0 <= i < |evaluations| && evaluations[i].id == evaluation && p(evaluations[i])
  }

  function AsScoreRows(rows: seq<EvalScoreRow>): (r: seq<Scores.ScoreRow>)
    ensures |r| == |rows|
    ensures forall i :: 0 <= i < |rows| ==> r[i] == Scores.ScoreRow(rows[i].skillId, rows[i].score)
  {
    seq(|rows|, i requires 0 <= i < |rows| => Scores.ScoreRow(rows[i].skillId, rows[i].score))
  }

  /** The score rows of one speech's evaluations (the `evaluation.speech_id`
      join), in table order. */
  function SpeechScoreRows(evaluations: seq<EvaluationRow>, scores: seq<EvalScoreRow>, speech: nat): seq<Scores.ScoreRow>
  {
    AsScoreRows(Filter(scores, (r: EvalScoreRow) =>
      EvaluationWith(evaluations, r.evaluationId, (e: EvaluationRow) => e.speechId == speech)))
  }

  /** The score rows of every evaluation of the user's speeches (the
      `evaluation.speech.user_id` join), in table order. */
  function UserScoreRows(speeches: seq<SpeechRow>, evaluations: seq<EvaluationRow>,
                         scores: seq<EvalScoreRow>, user: Id): seq<Scores.ScoreRow>
  {
    AsScoreRows(Filter(scores, (r: EvalScoreRow) =>
      EvaluationWith(evaluations, r.evaluationId, (e: EvaluationRow) => OwnsSpeech(speeches, user, e.speechId))))
  }

  /** The score rows of one evaluation. */
  function ScoresOfEvaluation(scores: seq<EvalScoreRow>, evaluation: nat): seq<EvalScoreRow>
  {
    Filter(scores, (r: EvalScoreRow) => r.evaluationId == evaluation)
  }

  // ---------------------------------------------------------------------------
  // generated ids

  function MaxSpeechId(speeches: seq<SpeechRow>): nat
  {
    if speeches == [] then 0
    else var m := MaxSpeechId(speeches[..|speeches| - 1]);
         if speeches[|speeches| - 1].id > m then speeches[|speeches| - 1].id else m
  }

  function MaxLinkedSpeechId(links: seq<SpeechSkillRow>): nat
  {
    if links == [] then 0
    else var m := MaxLinkedSpeechId(links[..|links| - 1]);
         if links[|links| - 1].speechId > m then links[|links| - 1].speechId else m
  }

  function MaxEvaluationId(evaluations: seq<EvaluationRow>): nat
  {
    if evaluations == [] then 0
    else var m := MaxEvaluationId(evaluations[..|evaluations| - 1]);
         if evaluations[|evaluations| - 1].id > m then evaluations[|evaluations| - 1].id else m
  }

  function MaxScoredEvaluationId(scores: seq<EvalScoreRow>): nat
  {
    if scores == [] then 0
    else var m := MaxScoredEvaluationId(scores[..|scores| - 1]);
         if scores[|scores| - 1].evaluationId > m then scores[|scores| - 1].evaluationId else m
  }

  lemma {:induction false} MaxSpeechIdBounds(speeches: seq<SpeechRow>)
    ensures forall i :: 0 <= i < |speeches| ==> speeches[i].id <= MaxSpeechId(speeches)
  {
    if speeches != [] { MaxSpeechIdBounds(speeches[..|speeches| - 1]); }
  }

  lemma {:induction false} MaxLinkedSpeechIdBounds(links: seq<SpeechSkillRow>)
    ensures forall i :: 0 <= i < |links| ==> links[i].speechId <= MaxLinkedSpeechId(links)
  {
    if links != [] { MaxLinkedSpeechIdBounds(links[..|links| - 1]); }
  }

  lemma {:induction false} MaxEvaluationIdBounds(evaluations: seq<EvaluationRow>)
    ensures forall i :: 0 <= i < |evaluations| ==> evaluations[i].id <= MaxEvaluationId(evaluations)
  {
    if evaluations != [] { MaxEvaluationIdBounds(evaluations[..|evaluations| - 1]); }
  }

  lemma {:induction false} MaxScoredEvaluationIdBounds(scores: seq<EvalScoreRow>)
    ensures forall i :: 0 <= i < |scores| ==> scores[i].evaluationId <= MaxScoredEvaluationId(scores)
  {
    if scores != [] { MaxScoredEvaluationIdBounds(scores[..|scores| - 1]); }
  }

  /** An id no speech and no `speech_skills` row uses yet. */
  function FreshSpeechId(speeches: seq<SpeechRow>, links: seq<SpeechSkillRow>): (id: nat)
    ensures forall i :: 0 <= i < |speeches| ==> speeches[i].id != id
    ensures forall i :: 0 <= i < |links| ==> links[i].speechId != id
  {
    MaxSpeechIdBounds(speeches);
    MaxLinkedSpeechIdBounds(links);
    1 + (if MaxSpeechId(speeches) > MaxLinkedSpeechId(links) then MaxSpeechId(speeches) else MaxLinkedSpeechId(links))
  }

  /** An id no evaluation and no score row uses yet. */
  function FreshEvaluationId(evaluations: seq<EvaluationRow>, scores: seq<EvalScoreRow>): (id: nat)
    ensures forall i :: 0 <= i < |evaluations| ==> evaluations[i].id != id
    ensures forall i :: 0 <= i < |scores| ==> scores[i].evaluationId != id
  {
    MaxEvaluationIdBounds(evaluations);
    MaxScoredEvaluationIdBounds(scores);
    1 + (if MaxEvaluationId(evaluations) > MaxScoredEvaluationId(scores) then MaxEvaluationId(evaluations) else MaxScoredEvaluationId(scores))
  }
}
