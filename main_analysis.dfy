/** `main.py`: the skills, experience and education classifiers and the
    repository count, star total and top projects of
    `analyze_github_profile`. */
module MainAnalysis {
  import opened Common
  import opened Text
  import Sorting
  import GitHubProfile

  // ===== analyze_skills =====

  datatype SkillSummary = SkillSummary(skillCount: nat, skills: seq<string>)

  /** `analyze_skills`: the list, unchanged, with its length. */
  function AnalyzeSkills(skills: seq<string>): (r: SkillSummary)
    ensures r.skills == skills && r.skillCount == |skills|
  {
    SkillSummary(|skills|, skills)
  }

  // ===== analyze_experience =====

  datatype Level = Entry | Mid | Senior

  function LevelRank(l: Level): nat
  {
    match l
    case Entry => 0
    case Mid => 1
    case Senior => 2
  }

  /** `sum(exp.get('duration_years', 0) for exp in experience)`; each entry
      is its `duration_years`, `None` when missing. */
  function Years(experience: seq<Option<real>>): real
    decreases |experience|
  {
    if experience == [] then 0.0
    else
      var last := experience[|experience| - 1];
      Years(experience[..|experience| - 1]) + (if last.Some? then last.value else 0.0)
  }

  lemma {:induction false} YearsAppend(a: seq<Option<real>>, b: seq<Option<real>>)
    ensures Years(a + b) == Years(a) + Years(b)
    decreases |b|
  {
    if b == [] {
      assert a + b == a;
    } else {
      var n := |b| - 1;
      assert (a + b)[..|a + b| - 1] == a + b[..n];
      assert (a + b)[|a + b| - 1] == b[n];
      YearsAppend(a, b[..n]);
    }
  }

  lemma {:induction false} YearsNonNegative(experience: seq<Option<real>>)
    requires forall i :: 0 <= i < |experience| && experience[i].Some? ==> experience[i].value >= 0.0
    ensures Years(experience) >= 0.0
    decreases |experience|
  {
    if experience != [] {
      YearsNonNegative(experience[..|experience| - 1]);
    }
  }

  /** The level for a total number of years. */
  function LevelOf(years: real): (r: Level)
    ensures r == Entry <==> years < 2.0
    ensures r == Senior <==> years >= 5.0
  {
    if years < 2.0 then Entry
    else if years < 5.0 then Mid
    else Senior
  }

  /** `analyze_experience` */
  function AnalyzeExperience(experience: seq<Option<real>>): Level
  {
    LevelOf(Years(experience))
  }

  /** More total years never yield a lower level. */
  lemma LevelMonotone(fewer: real, more: real)
    requires fewer <= more
    ensures LevelRank(LevelOf(fewer)) <= LevelRank(LevelOf(more))
  {
  }

  /** No experience at all is entry level. */
  lemma NoExperienceIsEntry()
    ensures AnalyzeExperience([]) == Entry
  {
  }

  /** Adding positions with non-negative durations never lowers the level. */
  lemma MoreExperienceNeverLower(experience: seq<Option<real>>, added: seq<Option<real>>)
    requires forall i :: 0 <= i < |added| && added[i].Some? ==> added[i].value >= 0.0
    ensures LevelRank(AnalyzeExperience(experience)) <= LevelRank(AnalyzeExperience(experience + added))
  {
    YearsAppend(experience, added);
    YearsNonNegative(added);
    LevelMonotone(Years(experience), Years(experience + added));
  }

  // ===== analyze_education =====

  datatype Degree = PhD | Masters | Bachelors | Other

  function DegreeRank(d: Degree): nat
  {
    match d
    case Other => 0
    case Bachelors => 1
    case Masters => 2
    case PhD => 3
  }

  /** `[edu.get('degree', '').lower() for edu in education]`; each entry is
      its `degree`, `None` when missing. */
  function Degrees(education: seq<Option<string>>): (r: seq<string>)
    ensures |r| == |education|
    ensures forall i :: 0 <= i < |education| ==> r[i] == Lower(if education[i].Some? then education[i].value else "")
  {
    seq(|education|, i requires 0 <= i < |education| =>
      Lower(if education[i].Some? then education[i].value else ""))
  }

  /** `any(word in d for d in degrees)` */
  predicate AnyHas(degrees: seq<string>, word: string)
  {
    exists i :: 0 <= i < |degrees| && Contains(degrees[i], word)
  }

  /** `analyze_education`: PhD before Masters before Bachelors, by
      substring of the lowered degree names. */
  function AnalyzeEducation(education: seq<Option<string>>): (r: Degree)
    ensures r == PhD <==> exists i :: 0 <= i < |education| && Contains(Degrees(education)[i], "phd")
    ensures r == Masters <==> !AnyHas(Degrees(education), "phd") && AnyHas(Degrees(education), "master")
    ensures r == Bachelors <==> !AnyHas(Degrees(education), "phd") && !AnyHas(Degrees(education), "master")
                                && AnyHas(Degrees(education), "bachelor")
    ensures r == Other <==> forall i :: 0 <= i < |education| ==>
      !Contains(Degrees(education)[i], "phd") && !Contains(Degrees(education)[i], "master")
      && !Contains(Degrees(education)[i], "bachelor")
  {
    var degrees := Degrees(education);
    if AnyHas(degrees, "phd") then PhD
    else if AnyHas(degrees, "master") then Masters
    else if AnyHas(degrees, "bachelor") then Bachelors
    else Other
  }

  /** No education at all is `Other`. */
  lemma NoEducationIsOther()
    ensures AnalyzeEducation([]) == Other
  {
  }

  /** The match ignores case: lowering every degree name first changes
      nothing. */
  lemma EducationIgnoresCase(education: seq<Option<string>>)
    ensures AnalyzeEducation(seq(|education|, i requires 0 <= i < |education| =>
              if education[i].Some? then Some(Lower(education[i].value)) else None))
         == AnalyzeEducation(education)
  {
    var lowered := seq(|education|, i requires 0 <= i < |education| =>
      if education[i].Some? then Some(Lower(education[i].value)) else None);
    forall i | 0 <= i < |education| ensures Degrees(lowered)[i] == Degrees(education)[i] {
      if education[i].Some? {
        LowerIdempotent(education[i].value);
      }
    }
    assert Degrees(lowered) == Degrees(education);
  }

  /** Adding entries never lowers the reported degree. */
  lemma MoreEducationNeverLower(education: seq<Option<string>>, added: seq<Option<string>>)
    ensures DegreeRank(AnalyzeEducation(education)) <= DegreeRank(AnalyzeEducation(education + added))
  {
    var d := Degrees(education);
    var e := Degrees(education + added);
    assert forall i :: 0 <= i < |d| ==> e[i] == d[i];
    forall word | AnyHas(d, word) ensures AnyHas(e, word) {
      var i :| 0 <= i < |d| && Contains(d[i], word);
      assert e[i] == d[i];
    }
  }

  // ===== analyze_github_profile =====

  function StarKey(r: GitHubProfile.RepoEntry): real
  {
    r.stars as real
  }

  /** `sum(repo.get('stars', 0) for repo in repositories)` */
  function TotalStars(repos: seq<GitHubProfile.RepoEntry>): int
    decreases |repos|
  {
    if repos == [] then 0 else TotalStars(repos[..|repos| - 1]) + repos[|repos| - 1].stars
  }

  lemma {:induction false} TotalStarsAppend(a: seq<GitHubProfile.RepoEntry>, b: seq<GitHubProfile.RepoEntry>)
    ensures TotalStars(a + b) == TotalStars(a) + TotalStars(b)
    decreases |b|
  {
    if b == [] {
      assert a + b == a;
    } else {
      var n := |b| - 1;
      assert (a + b)[..|a + b| - 1] == a + b[..n];
      assert (a + b)[|a + b| - 1] == b[n];
      TotalStarsAppend(a, b[..n]);
    }
  }

  /** With star counts that are never negative, the total bounds every
      single repository's count. */
  lemma {:induction false} TotalStarsBounds(repos: seq<GitHubProfile.RepoEntry>, i: nat)
    requires forall k :: 0 <= k < |repos| ==> repos[k].stars >= 0
    requires i < |repos|
    ensures 0 <= repos[i].stars <= TotalStars(repos)
    decreases |repos|
  {
    var n := |repos| - 1;
    var init := repos[..n];
    assert forall k :: 0 <= k < |init| ==> init[k] == repos[k];
    if i < n {
      TotalStarsBounds(init, i);
    } else {
      TotalStarsNonNegative(init);
    }
  }

  lemma {:induction false} TotalStarsNonNegative(repos: seq<GitHubProfile.RepoEntry>)
    requires forall k :: 0 <= k < |repos| ==> repos[k].stars >= 0
    ensures TotalStars(repos) >= 0
    decreases |repos|
  {
    if repos != [] {
      var init := repos[..|repos| - 1];
      assert forall k :: 0 <= k < |init| ==> init[k] == repos[k];
      TotalStarsNonNegative(init);
    }
  }

  /** `sorted(repositories, key=stars, reverse=True)[:5]` */
  function TopProjects(repos: seq<GitHubProfile.RepoEntry>): seq<GitHubProfile.RepoEntry>
  {
    var sorted := Sorting.SortDesc(repos, StarKey);
    sorted[..if |sorted| < 5 then |sorted| else 5]
  }

  lemma {:induction false} WithKeyPrefix<T>(s: seq<T>, key: T -> real, k: real, n: nat)
    requires n <= |s|
    ensures Sorting.WithKey(s[..n], key, k) <= Sorting.WithKey(s, key, k)
    decreases n
  {
    if n > 0 {
      assert s[..n][1..] == s[1..][..n - 1];
      WithKeyPrefix(s[1..], key, k, n - 1);
    }
  }

  /** The top projects are at most five repositories taken from the input,
      sorted by non-increasing stars. */
  lemma TopProjectsSorted(repos: seq<GitHubProfile.RepoEntry>)
    ensures |TopProjects(repos)| == if |repos| < 5 then |repos| else 5
    ensures Sorting.SortedDesc(TopProjects(repos), StarKey)
    ensures multiset(TopProjects(repos)) <= multiset(repos)
  {
    var sorted := Sorting.SortDesc(repos, StarKey);
    var n := if |sorted| < 5 then |sorted| else 5;
    Sorting.SortDescSorted(repos, StarKey);
    assert sorted == sorted[..n] + sorted[n..];
    assert multiset(sorted) == multiset(sorted[..n]) + multiset(sorted[n..]);
    forall i, j | 0 <= i < j < n ensures StarKey(sorted[..n][i]) >= StarKey(sorted[..n][j]) {
      assert sorted[..n][i] == sorted[i] && sorted[..n][j] == sorted[j];
    }
  }

  /** No repository left out of the top projects has more stars than one
      kept. */
  lemma TopProjectsKeepMost(repos: seq<GitHubProfile.RepoEntry>)
    ensures forall i, j :: 0 <= i < |TopProjects(repos)| <= j < |repos| ==>
      TopProjects(repos)[i].stars >= Sorting.SortDesc(repos, StarKey)[j].stars
  {
    var sorted := Sorting.SortDesc(repos, StarKey);
    Sorting.SortDescSorted(repos, StarKey);
    forall i, j | 0 <= i < |TopProjects(repos)| <= j < |repos|
      ensures TopProjects(repos)[i].stars >= sorted[j].stars
    {
      assert TopProjects(repos)[i] == sorted[i];
      assert StarKey(sorted[i]) >= StarKey(sorted[j]);
    }
  }

  /** Repositories with equal stars keep their input order, and the ones
      kept are the earliest of their star count. */
  lemma TopProjectsStable(repos: seq<GitHubProfile.RepoEntry>, k: real)
    ensures Sorting.WithKey(TopProjects(repos), StarKey, k) <= Sorting.WithKey(repos, StarKey, k)
  {
    var sorted := Sorting.SortDesc(repos, StarKey);
    WithKeyPrefix(sorted, StarKey, k, if |sorted| < 5 then |sorted| else 5);
    Sorting.SortDescStable(repos, StarKey, k);
  }

  datatype GitHubReport = GitHubReport(profile: GitHubProfile.Profile, repositoryCount: nat, totalStars: int,
                                       languages: map<string, nat>, contributionLevel: nat,
                                       topProjects: seq<GitHubProfile.RepoEntry>)

  /** `analyze_github_profile` over the result of `parse_github_profile`;
      a failure there is re-raised as `ValueError`. */
  function AnalyzeGitHubProfile(parsed: Result<GitHubProfile.Profile>): (r: Result<GitHubReport>)
    ensures r.Err? <==> parsed.Err?
    ensures r.Err? ==> r.error == ValueError
    ensures r.Ok? ==> r.value.profile == parsed.value && r.value.repositoryCount == |parsed.value.repositories|
    ensures r.Ok? ==> r.value.languages == parsed.value.languages
    ensures r.Ok? ==> r.value.contributionLevel == parsed.value.contributionsLastYear
    ensures r.Ok? ==> r.value.totalStars == TotalStars(parsed.value.repositories)
    ensures r.Ok? ==> r.value.topProjects == TopProjects(parsed.value.repositories)
    ensures r.Ok? ==> |r.value.topProjects| == if |parsed.value.repositories| < 5 then |parsed.value.repositories| else 5
    ensures r.Ok? ==> Sorting.SortedDesc(r.value.topProjects, StarKey)
    ensures r.Ok? ==> multiset(r.value.topProjects) <= multiset(parsed.value.repositories)
  {
    if parsed.Err? then Err(ValueError)
    else
      var p := parsed.value;
      TopProjectsSorted(p.repositories);
      Ok(GitHubReport(p, |p.repositories|, TotalStars(p.repositories), p.languages, p.contributionsLastYear,
                      TopProjects(p.repositories)))
  }
}
