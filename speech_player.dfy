/** The owner's page for one speech: the generated summary of its
    evaluations, the per-skill average shown beside each skill, and the two
    evaluation forms (in-app and transcribed from paper). */
module SpeechPlayer {
  import opened Common
  import opened Tables
  import opened Scores
  import opened Grouping
  import opened EvaluationForm
  import SpeechEvaluation
  import Store

  /** A speech skill joined with its catalogue entry, whose name may be
      missing. */
  datatype NamedSkill = NamedSkill(skillId: Id, name: Option<string>)

  /** `speechSkills.find(ss => ss.skill_id === id)?.skill?.name || 'Unknown'`. */
  function NameOf(skills: seq<NamedSkill>, id: Id): (name: string)
    ensures name != ""
    ensures (forall i :: 0 <= i < |skills| ==> skills[i].skillId != id) ==> name == "Unknown"
    ensures forall i :: (0 <= i < |skills| && skills[i].skillId == id && skills[i].name.Some? && skills[i].name.value != ""
                         && (forall j :: 0 <= j < i ==> skills[j].skillId != id)) ==> name == skills[i].name.value
    ensures forall i :: (0 <= i < |skills| && skills[i].skillId == id && (skills[i].name.None? || skills[i].name.value == "")
                         && (forall j :: 0 <= j < i ==> skills[j].skillId != id)) ==> name == "Unknown"
  {
    if skills == [] then "Unknown"
    else if skills[0].skillId == id then
      (if skills[0].name.Some? && skills[0].name.value != "" then skills[0].name.value else "Unknown")
    else
      var rest := NameOf(skills[1..], id);
      assert forall i :: 1 <= i < |skills| ==> skills[i] == skills[1..][i - 1];
      rest
  }

  /** One entry of `avgSkillScores`. */
  datatype SkillAverage = SkillAverage(skillId: Id, average: real, skillName: string)

  /** A line of the summary: fixed text, or `${verb} ${skill} (${average}/5)`
      with the average printed to one decimal. */
  datatype Line = Text(text: string) | Rated(verb: string, skill: string, average: real)

  datatype Summary = Summary(overallScore: real, strengths: seq<Line>, improvements: seq<Line>,
                             recommendations: seq<string>, practiceAreas: seq<string>,
                             practiceTips: seq<string>, nextSteps: seq<string>)

  /** The summary shown before any evaluation exists. */
  const Placeholder := Summary(0.0,
    [Text("No evaluations available for analysis")],
    [Text("Share your speech to receive evaluations first")],
    ["Get feedback from multiple evaluators for comprehensive insights"],
    [],
    ["Record yourself practicing to identify areas for improvement"],
    ["Share your speech link with colleagues, friends, or mentors"])

  // ---------------------------------------------------------------------------
  // inputs of the summary

  /** All score rows, evaluation by evaluation. */
  function Flatten(lists: seq<seq<ScoreRow>>): seq<ScoreRow>
  {
    if lists == [] then [] else Flatten(lists[..|lists| - 1]) + lists[|lists| - 1]
  }

  /** The feedback texts of one column, empty ones dropped, joined by spaces
      and lower-cased. */
  function Feedback(texts: seq<string>): string
  {
    Lower(Join(Filter(texts, (t: string) => t != ""), " "))
  }

  /** The feedback is empty exactly when every text is. */
  lemma FeedbackEmpty(texts: seq<string>)
    ensures Feedback(texts) == "" <==> forall i :: 0 <= i < |texts| ==> texts[i] == ""
  {
    var kept := Filter(texts, (t: string) => t != "");
    JoinEmpty(kept, " ");
    if kept != [] {
      assert kept[0] in texts;
    }
  }

  function WentWell(evaluations: seq<EvaluationRow>): (texts: seq<string>)
    ensures |texts| == |evaluations|
    ensures forall i :: 0 <= i < |evaluations| ==> texts[i] == evaluations[i].whatWentWell
  {
    seq(|evaluations|, i requires 0 <= i < |evaluations| => evaluations[i].whatWentWell)
  }

  function CouldImprove(evaluations: seq<EvaluationRow>): (texts: seq<string>)
    ensures |texts| == |evaluations|
    ensures forall i :: 0 <= i < |evaluations| ==> texts[i] == evaluations[i].whatCouldBeImproved
  {
    seq(|evaluations|, i requires 0 <= i < |evaluations| => evaluations[i].whatCouldBeImproved)
  }

  /** `avgSkillScores`: the per-skill statistics of all rows, in order of each
      skill's first score, with the skill's name. */
  function Averaged(rows: seq<ScoreRow>, skills: seq<NamedSkill>): (avgs: seq<SkillAverage>)
    ensures |avgs| == |Stats(rows)|
    ensures forall i :: 0 <= i < |avgs| ==>
              avgs[i] == SkillAverage(Stats(rows)[i].skillId, Stats(rows)[i].averageRating,
                                      NameOf(skills, Stats(rows)[i].skillId))
  {
    var st := Stats(rows);
    seq(|st|, i requires 0 <= i < |st| => SkillAverage(st[i].skillId, st[i].averageRating, NameOf(skills, st[i].skillId)))
  }

  function AveragesOf(avgs: seq<SkillAverage>): (xs: seq<real>)
    ensures |xs| == |avgs|
    ensures forall i :: 0 <= i < |avgs| ==> xs[i] == avgs[i].average
  {
    seq(|avgs|, i requires 0 <= i < |avgs| => avgs[i].average)
  }

  // ---------------------------------------------------------------------------
  // strengths and improvements

  /** The first `n` items. */
  function Take<T>(xs: seq<T>, n: nat): (r: seq<T>)
    ensures |r| <= n && |r| <= |xs| && (|xs| >= n ==> |r| == n) && r == xs[..|r|]
  {
    if |xs| <= n then xs else xs[..n]
  }

  function RatedLines(avgs: seq<SkillAverage>, verb: string): (lines: seq<Line>)
    ensures |lines| == |avgs|
    ensures forall i :: 0 <= i < |avgs| ==> lines[i] == Rated(verb, Lower(avgs[i].skillName), avgs[i].average)
  {
    seq(|avgs|, i requires 0 <= i < |avgs| => Rated(verb, Lower(avgs[i].skillName), avgs[i].average))
  }

  function Strong(avgs: seq<SkillAverage>): seq<SkillAverage>
  {
    Filter(avgs, (a: SkillAverage) => a.average >= 4.0)
  }

  function Weak(avgs: seq<SkillAverage>): seq<SkillAverage>
  {
    Filter(avgs, (a: SkillAverage) => a.average < 3.5)
  }

  /** Up to four rated lines for the selected skills; without any, the note
      when the evaluators wrote some feedback, else the fallback. */
  function Bucket(sel: seq<SkillAverage>, verb: string, feedback: string, note: string, fallback: string): seq<Line>
  {
    var lines := Take(RatedLines(sel, verb), 4);
    if lines != [] then lines
    else if feedback != "" then [Text(note)]
    else [Text(fallback)]
  }

  lemma BucketSpec(sel: seq<SkillAverage>, verb: string, feedback: string, note: string, fallback: string)
    ensures var s := Bucket(sel, verb, feedback, note, fallback);
            && 1 <= |s| <= 4
            && (sel != [] ==> |s| <= |sel| && forall i :: 0 <= i < |s| ==>
                                 s[i] == Rated(verb, Lower(sel[i].skillName), sel[i].average))
            && (sel == [] ==> s == [Text(if feedback != "" then note else fallback)])
  {
  }

  /** The strengths: at most four "Strong" lines; without any, the note on
      positive feedback when there is some, else the closing fallback. */
  function Strengths(avgs: seq<SkillAverage>, positive: string): seq<Line>
  {
    Bucket(Strong(avgs), "Strong", positive, "Positive feedback received from evaluators",
           "Consistent delivery across evaluations")
  }

  /** The improvements, built the same way with the threshold 3.5. */
  function Improvements(avgs: seq<SkillAverage>, improve: string): seq<Line>
  {
    Bucket(Weak(avgs), "Improve", improve, "Focus on areas mentioned in evaluator feedback",
           "Continue refining your speaking skills")
  }

  /** Strength lines name skills averaging at least 4, in the skills' order,
      four at most; the fixed lines appear only when no skill reaches 4. */
  lemma StrengthsSpec(avgs: seq<SkillAverage>, positive: string)
    ensures var s := Strengths(avgs, positive);
            && 1 <= |s| <= 4
            && (forall i :: 0 <= i < |s| && s[i].Rated? ==>
                  s[i].verb == "Strong" && s[i].average >= 4.0
                  && exists j :: 0 <= j < |avgs| && avgs[j].average == s[i].average && Lower(avgs[j].skillName) == s[i].skill)
            && ((forall j :: 0 <= j < |avgs| ==> avgs[j].average < 4.0) <==> s[0].Text?)
            && (s[0].Text? ==> s == [Text(if positive != "" then "Positive feedback received from evaluators"
                                          else "Consistent delivery across evaluations")])
  {
    var strong := Strong(avgs);
    BucketSpec(strong, "Strong", positive, "Positive feedback received from evaluators",
               "Consistent delivery across evaluations");
    forall i | 0 <= i < |strong| ensures exists j :: 0 <= j < |avgs| && avgs[j] == strong[i] {
      assert strong[i] in avgs;
    }
    if exists j :: 0 <= j < |avgs| && avgs[j].average >= 4.0 {
      var j :| 0 <= j < |avgs| && avgs[j].average >= 4.0;
      assert avgs[j] in strong;
    }
  }

  /** Improvement lines name skills averaging below 3.5, four at most; the
      fixed lines appear only when no skill is below 3.5. */
  lemma ImprovementsSpec(avgs: seq<SkillAverage>, improve: string)
    ensures var s := Improvements(avgs, improve);
            && 1 <= |s| <= 4
            && (forall i :: 0 <= i < |s| && s[i].Rated? ==>
                  s[i].verb == "Improve" && s[i].average < 3.5
                  && exists j :: 0 <= j < |avgs| && avgs[j].average == s[i].average && Lower(avgs[j].skillName) == s[i].skill)
            && ((forall j :: 0 <= j < |avgs| ==> avgs[j].average >= 3.5) <==> s[0].Text?)
            && (s[0].Text? ==> s == [Text(if improve != "" then "Focus on areas mentioned in evaluator feedback"
                                          else "Continue refining your speaking skills")])
  {
    var weak := Weak(avgs);
    BucketSpec(weak, "Improve", improve, "Focus on areas mentioned in evaluator feedback",
               "Continue refining your speaking skills");
    forall i | 0 <= i < |weak| ensures exists j :: 0 <= j < |avgs| && avgs[j] == weak[i] {
      assert weak[i] in avgs;
    }
    if exists j :: 0 <= j < |avgs| && avgs[j].average < 3.5 {
      var j :| 0 <= j < |avgs| && avgs[j].average < 3.5;
      assert avgs[j] in weak;
    }
  }

  /** No skill is both a strength and an improvement. */
  lemma StrengthsAndImprovementsDisjoint(avgs: seq<SkillAverage>)
    ensures forall a :: a in Strong(avgs) ==> a !in Weak(avgs)
  {
    forall a | a in Strong(avgs) ensures a !in Weak(avgs) {
      var i :| 0 <= i < |Strong(avgs)| && Strong(avgs)[i] == a;
      assert forall j :: 0 <= j < |Weak(avgs)| ==> Weak(avgs)[j] != a;
    }
  }

  // ---------------------------------------------------------------------------
  // practice areas: the stable ascending sort

  predicate SortedByAverage(xs: seq<SkillAverage>)
  {
    forall i, j :: 0 <= i < j < |xs| ==> xs[i].average <= xs[j].average
  }

  /** Inserts `x` after every entry whose average is not above its own, so
      that entries with equal averages keep their order. */
  function Insert(sorted: seq<SkillAverage>, x: SkillAverage): seq<SkillAverage>
  {
    if sorted == [] || sorted[|sorted| - 1].average <= x.average then sorted + [x]
    else Insert(sorted[..|sorted| - 1], x) + [sorted[|sorted| - 1]]
  }

  lemma {:induction false} InsertKeeps(sorted: seq<SkillAverage>, x: SkillAverage)
    ensures multiset(Insert(sorted, x)) == multiset(sorted) + multiset{x}
  {
    if !(sorted == [] || sorted[|sorted| - 1].average <= x.average) {
      var init, last := sorted[..|sorted| - 1], sorted[|sorted| - 1];
      InsertKeeps(init, x);
      assert sorted == init + [last];
    }
  }

  lemma {:induction false} InsertSorted(sorted: seq<SkillAverage>, x: SkillAverage)
    requires SortedByAverage(sorted)
    ensures SortedByAverage(Insert(sorted, x))
  {
    if !(sorted == [] || sorted[|sorted| - 1].average <= x.average) {
      var init, last := sorted[..|sorted| - 1], sorted[|sorted| - 1];
      InsertSorted(init, x);
      InsertKeeps(init, x);
      var r := Insert(init, x);
      forall i | 0 <= i < |r| ensures r[i].average <= last.average {
        assert r[i] in multiset(r);
        if r[i] != x {
          assert r[i] in multiset(init);
          var k :| 0 <= k < |init| && init[k] == r[i];
        }
      }
      assert Insert(sorted, x) == r + [last];
    }
  }

  /** `sort((a, b) => a.average - b.average)`, which is stable. */
  function SortByAverage(xs: seq<SkillAverage>): seq<SkillAverage>
  {
    if xs == [] then [] else Insert(SortByAverage(xs[..|xs| - 1]), xs[|xs| - 1])
  }

  /** The sort orders by average and is a permutation. */
  lemma {:induction false} SortSpec(xs: seq<SkillAverage>)
    ensures SortedByAverage(SortByAverage(xs))
    ensures multiset(SortByAverage(xs)) == multiset(xs)
  {
    if xs != [] {
      var init, last := xs[..|xs| - 1], xs[|xs| - 1];
      var s := SortByAverage(init);
      SortSpec(init);
      InsertSorted(s, last);
      InsertKeeps(s, last);
      assert SortByAverage(xs) == Insert(s, last);
      assert xs == init + [last];
      assert multiset(xs) == multiset(init) + multiset{last};
    }
  }

  function Names(avgs: seq<SkillAverage>): (names: seq<string>)
    ensures |names| == |avgs|
    ensures forall i :: 0 <= i < |avgs| ==> names[i] == avgs[i].skillName
  {
    seq(|avgs|, i requires 0 <= i < |avgs| => avgs[i].skillName)
  }

  /** The names of the (at most) three lowest-averaged skills, lowest first. */
  function PracticeAreas(avgs: seq<SkillAverage>): seq<string>
  {
    Names(Take(SortByAverage(avgs), 3))
  }

  /** The practice areas are min(3, skills) skills in ascending order of
      average, and no skill left out averages below one of them. */
  lemma PracticeAreasLowest(avgs: seq<SkillAverage>)
    ensures var sorted := SortByAverage(avgs);
            var taken := Take(sorted, 3);
            && |PracticeAreas(avgs)| == (if |avgs| < 3 then |avgs| else 3)
            && multiset(sorted) == multiset(avgs)
            && (forall i, j :: 0 <= i < j < |taken| ==> taken[i].average <= taken[j].average)
            && (forall i, j :: 0 <= i < |taken| <= j < |sorted| ==> taken[i].average <= sorted[j].average)
            && (forall i :: 0 <= i < |taken| ==> PracticeAreas(avgs)[i] == taken[i].skillName)
  {
    SortSpec(avgs);
    assert |multiset(SortByAverage(avgs))| == |avgs|;
  }

  // ---------------------------------------------------------------------------
  // practice tips

  const GenericTipPrefix := "Focus on "
  const GenericTipSuffix := " through targeted practice sessions"

  const VoiceTip := "Practice vocal exercises: vary your pace, volume, and tone daily"
  const BodyTip := "Record yourself speaking to observe and improve your body language"
  const ConfidenceTip := "Practice in front of a mirror and gradually increase audience size"
  const StructureTip := "Outline your speeches with clear introduction, body, and conclusion"
  const AudienceTip := "Practice asking questions and making eye contact with different audience members"

  /** The tip of the first keyword branch the lower-cased name matches. */
  function KeywordTip(l: string): (tip: Option<string>)
    ensures tip.None? <==> !HasTipKeyword(l)
    ensures tip.Some? ==> tip.value in {VoiceTip, BodyTip, ConfidenceTip, StructureTip, AudienceTip}
  {
    if Includes(l, "vocal") || Includes(l, "voice") then Some(VoiceTip)
    else if Includes(l, "body") || Includes(l, "gesture") then Some(BodyTip)
    else if Includes(l, "confidence") then Some(ConfidenceTip)
    else if Includes(l, "structure") || Includes(l, "content") then Some(StructureTip)
    else if Includes(l, "audience") || Includes(l, "engagement") then Some(AudienceTip)
    else None
  }

  predicate HasTipKeyword(l: string)
  {
    Includes(l, "vocal") || Includes(l, "voice") || Includes(l, "body") || Includes(l, "gesture")
    || Includes(l, "confidence") || Includes(l, "structure") || Includes(l, "content")
    || Includes(l, "audience") || Includes(l, "engagement")
  }

  /** The tip for a practice area: the keyword tip, otherwise the generic
      template. */
  function TipFor(name: string): string
  {
    var l := Lower(name);
    var tip := KeywordTip(l);
    if tip.Some? then tip.value else GenericTipPrefix + l + GenericTipSuffix
  }

  /** The generic template is used exactly when the lower-cased name holds
      none of the keywords, one of the five keyword tips otherwise; the
      choice ignores the case of the name. */
  lemma TipChoice(name: string)
    ensures !HasTipKeyword(Lower(name)) ==> TipFor(name) == GenericTipPrefix + Lower(name) + GenericTipSuffix
    ensures HasTipKeyword(Lower(name)) ==> TipFor(name) in {VoiceTip, BodyTip, ConfidenceTip, StructureTip, AudienceTip}
    ensures TipFor(Lower(name)) == TipFor(name)
  {
    LowerIdempotent(name);
  }

  const GeneralTip := "Practice regularly and seek diverse feedback"

  /** One tip per practice area, or the general tip when there is none. */
  function Tips(areas: seq<string>): (tips: seq<string>)
    ensures areas == [] ==> tips == [GeneralTip]
    ensures areas != [] ==> |tips| == |areas| && forall i :: 0 <= i < |areas| ==> tips[i] == TipFor(areas[i])
  {
    if areas == [] then [GeneralTip]
    else seq(|areas|, i requires 0 <= i < |areas| => TipFor(areas[i]))
  }

  // ---------------------------------------------------------------------------
  // recommendations

  const PaceAdvice := "Work on speaking pace - practice with a metronome or timer"
  const EyeContactAdvice := "Continue developing eye contact skills across the entire audience"
  const GestureAdvice := "Practice purposeful gestures that support your message"
  const StructureAdvice := "Focus on clear speech structure with smooth transitions"
  const DefaultAdvice := ["Continue practicing regularly to build consistency",
                          "Seek feedback from diverse audiences for well-rounded improvement"]

  predicate PaceTriggered(improve: string) { Includes(improve, "pace") || Includes(improve, "speed") }
  predicate EyeContactTriggered(improve: string, positive: string)
  {
    Includes(improve, "eye contact") || Includes(positive, "eye contact")
  }
  predicate GestureTriggered(improve: string) { Includes(improve, "gesture") || Includes(improve, "hand") }
  predicate StructureTriggered(improve: string) { Includes(improve, "structure") || Includes(improve, "organization") }

  /** The keyword advice whose trigger fires, in a fixed order. */
  function Fired(improve: string, positive: string): (fired: seq<string>)
    ensures PaceAdvice in fired <==> PaceTriggered(improve)
    ensures EyeContactAdvice in fired <==> EyeContactTriggered(improve, positive)
    ensures GestureAdvice in fired <==> GestureTriggered(improve)
    ensures StructureAdvice in fired <==> StructureTriggered(improve)
    ensures fired == [] <==>
              !PaceTriggered(improve) && !EyeContactTriggered(improve, positive)
              && !GestureTriggered(improve) && !StructureTriggered(improve)
    ensures |fired| <= 4 && NoDuplicates(fired)
  {
    AdviceDiffers();
    (if PaceTriggered(improve) then [PaceAdvice] else [])
    + (if EyeContactTriggered(improve, positive) then [EyeContactAdvice] else [])
    + (if GestureTriggered(improve) then [GestureAdvice] else [])
    + (if StructureTriggered(improve) then [StructureAdvice] else [])
  }

  /** The five pieces of advice are told apart by their lengths. */
  lemma AdviceDiffers()
    ensures PaceAdvice != EyeContactAdvice && PaceAdvice != GestureAdvice && PaceAdvice != StructureAdvice
    ensures EyeContactAdvice != GestureAdvice && EyeContactAdvice != StructureAdvice
    ensures GestureAdvice != StructureAdvice
    ensures DefaultAdvice[0] !in [PaceAdvice, EyeContactAdvice, GestureAdvice, StructureAdvice]
  {
    assert |PaceAdvice| == 58 && |EyeContactAdvice| == 65 && |GestureAdvice| == 54 && |StructureAdvice| == 55;
    assert |DefaultAdvice[0]| == 50;
  }

  /** The recommendations: the fired keyword advice, or the two defaults when
      none fires. */
  function Recommendations(improve: string, positive: string): (recs: seq<string>)
    ensures 1 <= |recs| <= 4 && NoDuplicates(recs)
  {
    var fired := Fired(improve, positive);
    if fired == [] then DefaultAdvice else fired
  }

  /** Each keyword advice is recommended exactly when its trigger fires, and
      the defaults are given exactly when none fires. */
  lemma RecommendationsSpec(improve: string, positive: string)
    ensures var recs := Recommendations(improve, positive);
            && (PaceAdvice in recs <==> PaceTriggered(improve))
            && (EyeContactAdvice in recs <==> EyeContactTriggered(improve, positive))
            && (GestureAdvice in recs <==> GestureTriggered(improve))
            && (StructureAdvice in recs <==> StructureTriggered(improve))
            && (recs == DefaultAdvice <==>
                  !PaceTriggered(improve) && !EyeContactTriggered(improve, positive)
                  && !GestureTriggered(improve) && !StructureTriggered(improve))
  {
    var fired := Fired(improve, positive);
    if fired != [] {
      AdviceDiffers();
      assert fired[0] in fired;
    }
  }

  // ---------------------------------------------------------------------------
  // the summary

  const FocusPrefix := "Focus on improving "
  const WeakestSkills := "your weakest skills"

  function NextSteps(areas: seq<string>): seq<string>
  {
    [FocusPrefix + (if areas != [] && areas[0] != "" then areas[0] else WeakestSkills),
     "Get feedback from at least 3 more evaluators",
     "Record yourself practicing to track progress",
     "Set specific goals for your next speech"]
  }

  /** The overall score: the plain mean of the skills' averages. */
  function OverallScore(avgs: seq<SkillAverage>): real
  {
    MeanOrZero(AveragesOf(avgs))
  }

  /** The summary of a speech's evaluations, given each evaluation's score
      rows and the speech's named skills. */
  function SummaryOf(evaluations: seq<EvaluationRow>, lists: seq<seq<ScoreRow>>, skills: seq<NamedSkill>): Summary
  {
    if evaluations == [] then Placeholder
    else
      var positive := Feedback(WentWell(evaluations));
      var improve := Feedback(CouldImprove(evaluations));
      var avgs := Averaged(Flatten(lists), skills);
      var areas := PracticeAreas(avgs);
      Summary(OverallScore(avgs), Strengths(avgs, positive), Improvements(avgs, improve),
              Recommendations(improve, positive), areas, Tips(areas), NextSteps(areas))
  }

  /** `generateAISummary`: gathers every score row into per-skill lists,
      averages them, and assembles the summary. */
  method GenerateAISummary(evaluations: seq<EvaluationRow>, lists: seq<seq<ScoreRow>>, skills: seq<NamedSkill>)
    returns (s: Summary)
    ensures s == SummaryOf(evaluations, lists, skills)
  {
    if |evaluations| == 0 {
      return Placeholder;
    }
    var positive := Feedback(WentWell(evaluations));
    var improve := Feedback(CouldImprove(evaluations));
    var all := Gather(lists);
    var stats := SkillStats(all);
    var avgs := seq(|stats|, i requires 0 <= i < |stats| =>
                  SkillAverage(stats[i].skillId, stats[i].averageRating, NameOf(skills, stats[i].skillId)));
    assert avgs == Averaged(all, skills);
    var overall := OverallScore(avgs);
    var recs := PushRecommendations(improve, positive);
    var areas := PracticeAreas(avgs);
    s := Summary(overall, Strengths(avgs, positive), Improvements(avgs, improve), recs, areas, Tips(areas),
                 NextSteps(areas));
  }

  /** The `forEach` over every evaluation's rows. */
  method Gather(lists: seq<seq<ScoreRow>>) returns (all: seq<ScoreRow>)
    ensures all == Flatten(lists)
  {
    all := [];
    for i := 0 to |lists|
      invariant all == Flatten(lists[..i])
    {
      assert lists[..i + 1][..i] == lists[..i];
      all := all + lists[i];
    }
    assert lists[..|lists|] == lists;
  }

  /** The recommendations, pushed one trigger at a time. */
  method PushRecommendations(improve: string, positive: string) returns (recs: seq<string>)
    ensures recs == Recommendations(improve, positive)
  {
    recs := [];
    if PaceTriggered(improve) {
      recs := recs + [PaceAdvice];
    }
    if EyeContactTriggered(improve, positive) {
      recs := recs + [EyeContactAdvice];
    }
    if GestureTriggered(improve) {
      recs := recs + [GestureAdvice];
    }
    if StructureTriggered(improve) {
      recs := recs + [StructureAdvice];
    }
    if |recs| == 0 {
      recs := recs + [DefaultAdvice[0]];
      recs := recs + [DefaultAdvice[1]];
    }
  }

  /** The overall score is the plain mean of the per-skill means (not the
      flattened mean the speech list shows), 0 without scores, and within the
      score range otherwise. */
  lemma OverallScoreSpec(rows: seq<ScoreRow>, skills: seq<NamedSkill>)
    requires InRange(ScoreValues(rows))
    ensures var score := OverallScore(Averaged(rows, skills));
            && score == MeanOrZero(Averages(Stats(rows)))
            && (rows == [] ==> score == 0.0)
            && (rows != [] ==> MinScore as real <= score <= MaxScore as real)
  {
    AveragedKeepsAverages(rows, skills);
    MeanOfMeansBounds(rows);
  }

  /** Naming the skills leaves the averages as they are. */
  lemma AveragedKeepsAverages(rows: seq<ScoreRow>, skills: seq<NamedSkill>)
    ensures AveragesOf(Averaged(rows, skills)) == Averages(Stats(rows))
  {
  }

  /** Practice areas carry names of the averaged skills, which are never
      empty. */
  lemma PracticeAreasNamed(avgs: seq<SkillAverage>)
    requires forall i :: 0 <= i < |avgs| ==> avgs[i].skillName != ""
    ensures forall i :: 0 <= i < |PracticeAreas(avgs)| ==> PracticeAreas(avgs)[i] != ""
  {
    SortSpec(avgs);
    var sorted := SortByAverage(avgs);
    forall i | 0 <= i < |sorted| ensures sorted[i].skillName != "" {
      assert sorted[i] in multiset(avgs);
    }
  }

  /** The next steps start from the lowest skill when there is one, and from
      the weakest skills in general otherwise. */
  lemma NextStepsFollowAreas(areas: seq<string>)
    requires forall i :: 0 <= i < |areas| ==> areas[i] != ""
    ensures |NextSteps(areas)| == 4
    ensures areas == [] ==> NextSteps(areas)[0] == FocusPrefix + WeakestSkills
    ensures areas != [] ==> NextSteps(areas)[0] == FocusPrefix + areas[0]
  {
  }

  // ---------------------------------------------------------------------------
  // the per-skill rating beside each skill

  /** The first score of the skill in one evaluation's rows, if any. */
  function FirstScore(rows: seq<ScoreRow>, skill: Id): Option<int>
  {
    if rows == [] then None
    else if rows[0].skillId == skill then Some(rows[0].score)
    else FirstScore(rows[1..], skill)
  }

  /** The skill's first score in each evaluation that has one. */
  function FirstScores(lists: seq<seq<ScoreRow>>, skill: Id): seq<int>
  {
    if lists == [] then []
    else
      var f := FirstScore(lists[|lists| - 1], skill);
      FirstScores(lists[..|lists| - 1], skill) + (if f.Some? then [f.value] else [])
  }

  /** `getAverageSkillRating`. */
  method AverageSkillRating(lists: seq<seq<ScoreRow>>, skill: Id) returns (r: real)
    ensures var xs := FirstScores(lists, skill);
            r == if xs == [] then 0.0 else Mean(xs)
  {
    var all: seq<int> := [];
    for i := 0 to |lists|
      invariant all == FirstScores(lists[..i], skill)
    {
      assert lists[..i + 1][..i] == lists[..i];
      var j := 0;
      var found: Option<int> := None;
      while j < |lists[i]|
        invariant 0 <= j <= |lists[i]|
        invariant FirstScore(lists[i], skill) == FirstScore(lists[i][j..], skill)
      {
        if lists[i][j].skillId == skill {
          found := Some(lists[i][j].score);
          break;
        }
        assert lists[i][j..][1..] == lists[i][j + 1..];
        j := j + 1;
      }
      assert found == FirstScore(lists[i], skill);
      if found.Some? {
        all := all + [found.value];
      }
    }
    assert lists[..|lists|] == lists;
    r := if |all| == 0 then 0.0 else Sum(all) as real / |all| as real;
  }

  /** No skill is scored twice within one evaluation's rows. */
  predicate OncePerSkill(rows: seq<ScoreRow>)
  {
    forall i, j :: 0 <= i < j < |rows| ==> rows[i].skillId != rows[j].skillId
  }

  lemma {:induction false} FirstScoreIsGroup(rows: seq<ScoreRow>, skill: Id)
    requires OncePerSkill(rows)
    ensures ScoresFor(rows, skill) == if FirstScore(rows, skill).Some? then [FirstScore(rows, skill).value] else []
    decreases |rows|
  {
    if rows != [] {
      var tail := rows[1..];
      FirstScoreIsGroup(tail, skill);
      assert rows == [rows[0]] + tail;
      ScoresForPrepend(rows[0], tail, skill);
      if rows[0].skillId == skill {
        assert forall i :: 0 <= i < |tail| ==> tail[i].skillId != skill;
        NotScored(tail, skill);
      }
    }
  }

  lemma {:induction false} NotScored(rows: seq<ScoreRow>, skill: Id)
    requires forall i :: 0 <= i < |rows| ==> rows[i].skillId != skill
    ensures ScoresFor(rows, skill) == [] && FirstScore(rows, skill).None?
    decreases |rows|
  {
    GroupNonEmptyIffKey(rows, SkillKey, skill);
    KeysExact(rows, SkillKey, skill);
    if rows != [] {
      NotScored(rows[1..], skill);
    }
  }

  lemma {:induction false} ScoresForAppend(a: seq<ScoreRow>, b: seq<ScoreRow>, skill: Id)
    ensures ScoresFor(a + b, skill) == ScoresFor(a, skill) + ScoresFor(b, skill)
    decreases |b|
  {
    if b == [] {
      assert a + b == a;
      NotScored(b, skill);
    } else {
      var init, last := b[..|b| - 1], b[|b| - 1];
      ScoresForAppend(a, init, skill);
      assert a + b == (a + init) + [last];
      assert b == init + [last];
      ScoresForSnoc(a + init, last, skill);
      ScoresForSnoc(init, last, skill);
    }
  }

  lemma ScoresForPrepend(x: ScoreRow, rows: seq<ScoreRow>, skill: Id)
    ensures ScoresFor([x] + rows, skill) == (if x.skillId == skill then [x.score] else []) + ScoresFor(rows, skill)
  {
    ScoresForAppend([x], rows, skill);
    ScoresForSnoc([], x, skill);
    NotScored([], skill);
    assert [] + [x] == [x];
  }

  /** When no evaluation scores a skill twice, the rating beside a skill is
      the same per-skill mean the summary uses, and 0 for an unscored
      skill. */
  lemma {:induction false} RatingAgreesWithSummary(lists: seq<seq<ScoreRow>>, skill: Id)
    requires forall i :: 0 <= i < |lists| ==> OncePerSkill(lists[i])
    ensures FirstScores(lists, skill) == ScoresFor(Flatten(lists), skill)
  {
    if lists != [] {
      var init, last := lists[..|lists| - 1], lists[|lists| - 1];
      RatingAgreesWithSummary(init, skill);
      ScoresForAppend(Flatten(init), last, skill);
      FirstScoreIsGroup(last, skill);
    } else {
      NotScored([], skill);
    }
  }

  // ---------------------------------------------------------------------------
  // the two evaluation forms

  const InAppError := "Please fill in your name and provide some feedback"
  const InAppScoreError := "Please score all skills"
  const WrittenNameError := "Please enter the evaluator's name"
  const WrittenScoreError := "Please rate all skills"
  const SubmitError := "Error submitting evaluation. Please try again."

  predicate SomeUnrated(sheet: ScoreSheet, skills: seq<Id>)
  {
    exists i :: 0 <= i < |skills| && Unrated(sheet, skills[i])
  }

  /** The in-app form: a name and some feedback, then every skill scored. */
  function InAppCheck(f: Form, skills: seq<Id>): (alert: Option<string>)
    ensures alert == None <==> !IsBlank(f.evaluatorName)
                               && !(IsBlank(f.whatWentWell) && IsBlank(f.whatCouldBeImproved))
                               && !SomeUnrated(f.skillScores, skills)
    ensures alert.Some? ==> alert.value == InAppError || alert.value == InAppScoreError
  {
    TrimEmptyIffBlank(f.evaluatorName);
    TrimEmptyIffBlank(f.whatWentWell);
    TrimEmptyIffBlank(f.whatCouldBeImproved);
    if Trim(f.evaluatorName) == "" || (Trim(f.whatWentWell) == "" && Trim(f.whatCouldBeImproved) == "") then Some(InAppError)
    else if SomeUnrated(f.skillScores, skills) then Some(InAppScoreError)
    else None
  }

  /** The form for transcribed paper evaluations: a name, then every skill
      scored; feedback is optional. */
  function WrittenCheck(f: Form, skills: seq<Id>): (alert: Option<string>)
    ensures alert == None <==> !IsBlank(f.evaluatorName) && !SomeUnrated(f.skillScores, skills)
    ensures alert.Some? ==> alert.value == WrittenNameError || alert.value == WrittenScoreError
  {
    TrimEmptyIffBlank(f.evaluatorName);
    if Trim(f.evaluatorName) == "" then Some(WrittenNameError)
    else if SomeUnrated(f.skillScores, skills) then Some(WrittenScoreError)
    else None
  }

  /** The in-app form is the stricter one; the written form accepts exactly
      what the public evaluation page accepts when scores come from the star
      widget, and only the in-app form looks at the feedback. */
  lemma ChecksCompared(f: Form, skills: seq<Id>)
    requires forall i :: 0 <= i < |f.skillScores| ==> f.skillScores[i].1 >= 0
    ensures InAppCheck(f, skills) == None ==> WrittenCheck(f, skills) == None
    ensures WrittenCheck(f, skills) == None <==> !SpeechEvaluation.Invalid(f, skills)
    ensures WrittenCheck(f, skills) == WrittenCheck(f.(whatWentWell := "", whatCouldBeImproved := ""), skills)
    ensures !IsBlank(f.evaluatorName) && !SomeUnrated(f.skillScores, skills) ==>
              InAppCheck(f.(whatWentWell := "", whatCouldBeImproved := ""), skills) == Some(InAppError)
  {
    forall i | 0 <= i < |skills|
      ensures Unrated(f.skillScores, skills[i]) <==> Unscored(f.skillScores, skills[i])
    {
      UnratedIffUnscored(f.skillScores, skills[i]);
    }
    var g := f.(whatWentWell := "", whatCouldBeImproved := "");
    assert IsBlank(g.whatWentWell) && IsBlank(g.whatCouldBeImproved);
  }

  /** The check of the form being submitted. */
  function Check(f: Form, skills: seq<Id>, written: bool): Option<string>
  {
    if written then WrittenCheck(f, skills) else InAppCheck(f, skills)
  }

  /** The page's evaluation state. */
  class PlayerPage {
    var speech: Option<SpeechRow>
    var speechSkills: seq<Id>
    var form: Form
    var showForm: bool
    var alert: Option<string>

    constructor(speech: Option<SpeechRow>, speechSkills: seq<Id>)
      ensures this.speech == speech && this.speechSkills == speechSkills
      ensures form == EmptyForm && !showForm && alert == None
    {
      this.speech := speech;
      this.speechSkills := speechSkills;
      form := EmptyForm;
      showForm := false;
      alert := None;
    }

    /** `handleSubmitEvaluation` (`written` false) and
        `handleSubmitWrittenEvaluation` (`written` true): nothing happens
        without a speech or a signed-in user; a refused form only raises its
        alert; otherwise the evaluation is recorded, the form closes and
        resets, or the submission alert is raised when a write fails. */
    method Submit(db: Store.Database, signedIn: bool, written: bool)
      modifies this, db
      ensures speech == old(speech) && speechSkills == old(speechSkills)
      ensures db.reachable == old(db.reachable) && db.userSkills == old(db.userSkills)
      ensures db.speeches == old(db.speeches) && db.speechSkills == old(db.speechSkills)
      ensures old(speech).None? || !signedIn ==>
                db.evaluations == old(db.evaluations) && db.scores == old(db.scores)
                && form == old(form) && showForm == old(showForm) && alert == old(alert)
      ensures old(speech).Some? && signedIn && Check(old(form), old(speechSkills), written).Some? ==>
                db.evaluations == old(db.evaluations) && db.scores == old(db.scores)
                && form == old(form) && showForm == old(showForm) && alert == Check(old(form), old(speechSkills), written)
      ensures old(speech).Some? && signedIn && Check(old(form), old(speechSkills), written).None? && !old(db.reachable) ==>
                db.evaluations == old(db.evaluations) && db.scores == old(db.scores)
                && form == old(form) && showForm == old(showForm) && alert == Some(SubmitError)
      ensures old(speech).Some? && signedIn && Check(old(form), old(speechSkills), written).None? && old(db.reachable) ==>
                form == EmptyForm && !showForm && alert == old(alert)
      ensures old(speech).Some? && signedIn && Check(old(form), old(speechSkills), written).None? && old(db.reachable) ==>
                var id := FreshEvaluationId(old(db.evaluations), old(db.scores));
                && db.evaluations == old(db.evaluations) + [SpeechEvaluation.Recorded(id, old(speech).value.id, old(form))]
                && db.scores == old(db.scores) + ScoreRowsFor(id, old(form).skillScores)
    {
      if speech.None? || !signedIn {
        return;
      }
      var check := Check(form, speechSkills, written);
      if check.Some? {
        alert := check;
        return;
      }
      Commit(db);
    }

    /** The writes of an accepted form and what the page does after them. */
    method Commit(db: Store.Database)
      requires speech.Some?
      modifies this, db
      ensures speech == old(speech) && speechSkills == old(speechSkills)
      ensures db.reachable == old(db.reachable) && db.userSkills == old(db.userSkills)
      ensures db.speeches == old(db.speeches) && db.speechSkills == old(db.speechSkills)
      ensures !old(db.reachable) ==>
                db.evaluations == old(db.evaluations) && db.scores == old(db.scores)
                && form == old(form) && showForm == old(showForm) && alert == Some(SubmitError)
      ensures old(db.reachable) ==> form == EmptyForm && !showForm && alert == old(alert)
      ensures old(db.reachable) ==>
                var id := FreshEvaluationId(old(db.evaluations), old(db.scores));
                && db.evaluations == old(db.evaluations) + [SpeechEvaluation.Recorded(id, old(speech).value.id, old(form))]
                && db.scores == old(db.scores) + ScoreRowsFor(id, old(form).skillScores)
    {
      var ok := RecordEvaluation(db, speech.value.id, form);
      if !ok {
        alert := Some(SubmitError);
        return;
      }
      showForm := false;
      form := EmptyForm;
    }
  }
}
