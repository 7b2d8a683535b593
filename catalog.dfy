/** The skill catalogue as the pages show it: a case-insensitive search over
    name, description and category, and the grouping of the matches by
    category. */
module Catalog {
  import opened Common
  import Grouping

  /** A row of `skills`. */
  datatype Skill = Skill(id: Id, name: string, description: string, category: string, difficulty: string)

  /** The search test: the lower-cased term occurs in the lower-cased name,
      description or category. */
  predicate MatchesSearch(s: Skill, term: string)
  {
    var t := Lower(term);
    Includes(Lower(s.name), t) || Includes(Lower(s.description), t) || Includes(Lower(s.category), t)
  }

  /** `filteredSkills`: the matching skills in catalogue order. */
  function FilterSkills(skills: seq<Skill>, term: string): seq<Skill>
  {
    Filter(skills, (s: Skill) => MatchesSearch(s, term))
  }

  /** A skill is listed exactly when it is in the catalogue and matches. */
  lemma FilterSkillsIff(skills: seq<Skill>, term: string, s: Skill)
    ensures s in FilterSkills(skills, term) <==> s in skills && MatchesSearch(s, term)
  {
    var r := FilterSkills(skills, term);
    if s in r {
      var i :| 0 <= i < |r| && r[i] == s;
    }
    if s in skills {
      var i :| 0 <= i < |skills| && skills[i] == s;
    }
  }

  /** An empty search term keeps the whole catalogue. */
  lemma FilterSkillsEmptyTerm(skills: seq<Skill>)
    ensures FilterSkills(skills, "") == skills
  {
    forall i | 0 <= i < |skills|
      ensures MatchesSearch(skills[i], "")
    {
      IncludesEmpty(Lower(skills[i].name));
    }
    FilterAll(skills, (s: Skill) => MatchesSearch(s, ""));
  }

  /** The search ignores the case of the term's ASCII letters. */
  lemma SearchIgnoresCase(s: Skill, term: string)
    ensures MatchesSearch(s, Lower(term)) == MatchesSearch(s, term)
  {
    LowerIdempotent(term);
  }

  /** A skill is found by its own name. */
  lemma FoundByName(s: Skill)
    ensures MatchesSearch(s, s.name)
  {
    IncludesSelf(Lower(s.name));
  }

  function CategoryOf(s: Skill): string { s.category }

  /** `skillsByCategory`: one pass over the matches that files each skill
      under its category; categories come in order of first appearance, each
      holding its skills in catalogue order. */
  method SkillsByCategory(skills: seq<Skill>, term: string) returns (categories: seq<string>, byCategory: map<string, seq<Skill>>)
    ensures categories == Grouping.Keys(FilterSkills(skills, term), CategoryOf)
    ensures forall c :: c in byCategory <==> c in categories
    ensures forall c :: c in byCategory ==> byCategory[c] == Grouping.Group(FilterSkills(skills, term), CategoryOf, c)
  {
    categories, byCategory := Grouping.GroupBy(FilterSkills(skills, term), CategoryOf);
  }

  /** Every listed skill sits under its own category and under no other, and
      the categories' sizes add up to the number of listed skills. */
  lemma CategoryGroupsExact(skills: seq<Skill>, term: string, s: Skill, c: string)
    ensures s in Grouping.Group(FilterSkills(skills, term), CategoryOf, c)
            <==> s in skills && MatchesSearch(s, term) && s.category == c
    ensures Grouping.TotalSize(FilterSkills(skills, term), CategoryOf, Grouping.Keys(FilterSkills(skills, term), CategoryOf))
            == |FilterSkills(skills, term)|
  {
    Grouping.GroupMembership(FilterSkills(skills, term), CategoryOf, c, s);
    FilterSkillsIff(skills, term, s);
    Grouping.GroupsPartition(FilterSkills(skills, term), CategoryOf);
  }
}
