/** `models/resume_scorer.py`: the rule-based 0-10 score per domain, a
    weighted sum of capped skill, experience and GitHub sub-scores. */
module ResumeScorer {
  import opened Common
  import SkillExtractor
  import GitHubAnalyzer

  datatype Weights = Weights(skills: real, experience: real, github: real, education: real)

  /** The static weight table. Every row sums to 1, but the education weight
      is never read: `RawScore` has no education term. */
  function DomainWeights(d: Domain): (w: Weights)
    ensures w.skills + w.experience + w.github + w.education == 1.0
    ensures w.skills >= 0.0 && w.experience >= 0.0 && w.github >= 0.0
  {
    match d
    case AiMl => Weights(0.4, 0.3, 0.2, 0.1)
    case WebDev => Weights(0.35, 0.25, 0.25, 0.15)
    case Blockchain => Weights(0.4, 0.3, 0.2, 0.1)
    case Cloud => Weights(0.35, 0.3, 0.25, 0.1)
    case Cybersecurity => Weights(0.35, 0.35, 0.2, 0.1)
  }

  /** The weighted sum before scaling: skills saturate at 10 matches,
      experience at 5 years; the GitHub term, present only with a GitHub
      analysis, has no cap. */
  function RawScore(w: Weights, skillCount: nat, years: nat, github: Option<real>): real
  {
    w.skills * Min(skillCount as real / 10.0, 1.0)
    + w.experience * Min(years as real / 5.0, 1.0)
    + (if github.Some? then w.github * (github.value / 10.0) else 0.0)
  }

  /** `_calculate_domain_score`, on the extracted counts: the raw sum times
      10, rounded to two decimals. */
  function DomainScore(d: Domain, skillCount: nat, years: nat, github: Option<real>): (r: real)
    ensures var x := 10.0 * RawScore(DomainWeights(d), skillCount, years, github);
      x - 0.005 < r <= x + 0.005
  {
    Round2Near(10.0 * RawScore(DomainWeights(d), skillCount, years, github));
    Round2(10.0 * RawScore(DomainWeights(d), skillCount, years, github))
  }

  /** The inputs `_calculate_domain_score` reads: `skills_analysis.get(domain, [])`,
      `skills_analysis.get(f"{domain}_experience", 0)` and the GitHub analysis'
      `domain_scores.get(domain, 0)` when there is an analysis. */
  function ScoreFrom(d: Domain, skills: SkillExtractor.SkillsAnalysis,
                     github: Option<GitHubAnalyzer.Analysis>): real
  {
    var count := if d in skills.skills then |skills.skills[d]| else 0;
    var years := if d in skills.experience then skills.experience[d] else 0;
    var g := if github.Some? then Some(if d in github.value.domainScores then github.value.domainScores[d] else 0.0)
             else None;
    DomainScore(d, count, years, g)
  }

  datatype ScoreResult = ScoreResult(domainScores: seq<(Domain, real)>,
                                     skillsAnalysis: SkillExtractor.SkillsAnalysis,
                                     githubAnalysis: Option<GitHubAnalyzer.Analysis>)

  /** `score_resume`. The GitHub analyzer exists only when a token was given,
      and is consulted only with a non-empty user name; `repos` is what it
      would fetch. The result has one score per domain, in table order. */
  method ScoreResume(find: SkillExtractor.Matcher, resumeText: string, githubToken: string,
                     githubUsername: string, repos: seq<GitHubAnalyzer.Repo>) returns (r: ScoreResult)
    ensures r.githubAnalysis.Some? <==> githubUsername != "" && githubToken != ""
    ensures |r.domainScores| == |Domains|
    ensures forall i :: 0 <= i < |Domains| ==>
      r.domainScores[i] == (Domains[i], ScoreFrom(Domains[i], r.skillsAnalysis, r.githubAnalysis))
    ensures forall d :: d in r.skillsAnalysis.skills <==> SkillExtractor.Matched(d, resumeText) != []
    ensures forall d :: d in r.skillsAnalysis.skills ==> r.skillsAnalysis.skills[d] == SkillExtractor.Matched(d, resumeText)
    ensures forall d :: d in r.skillsAnalysis.experience <==> SkillExtractor.ExperienceYears(find, d, resumeText) != 0
    ensures forall d :: d in r.skillsAnalysis.experience ==>
      r.skillsAnalysis.experience[d] == SkillExtractor.ExperienceYears(find, d, resumeText)
  {
    var skills := SkillExtractor.ExtractSkills(find, resumeText);
    var github: Option<GitHubAnalyzer.Analysis> := None;
    if githubUsername != "" && githubToken != "" {
      var a := GitHubAnalyzer.AnalyzeProfile(repos);
      github := Some(a);
    }
    var scores := ScoreDomains(skills, github);
    r := ScoreResult(scores, skills, github);
  }

  /** The loop of `score_resume`: one score per domain, in table order. */
  method ScoreDomains(skills: SkillExtractor.SkillsAnalysis, github: Option<GitHubAnalyzer.Analysis>)
    returns (scores: seq<(Domain, real)>)
    ensures |scores| == |Domains|
    ensures forall i :: 0 <= i < |Domains| ==> scores[i] == (Domains[i], ScoreFrom(Domains[i], skills, github))
  {
    scores := [];
    for i := 0 to |Domains|
      invariant |scores| == i
      invariant forall j :: 0 <= j < i ==> scores[j] == (Domains[j], ScoreFrom(Domains[j], skills, github))
    {
      scores := scores + [(Domains[i], ScoreFrom(Domains[i], skills, github))];
    }
  }

  /** `analyze_async` passes no user name, so no GitHub term ever enters. */
  method AnalyzeAsync(find: SkillExtractor.Matcher, resumeText: string, githubToken: string)
    returns (r: ScoreResult)
    ensures r.githubAnalysis.None?
    ensures |r.domainScores| == |Domains|
    ensures forall i :: 0 <= i < |Domains| ==>
      r.domainScores[i].0 == Domains[i] &&
      0.0 <= r.domainScores[i].1 <= 10.0 * (DomainWeights(Domains[i]).skills + DomainWeights(Domains[i]).experience)
  {
    r := ScoreResume(find, resumeText, githubToken, "", []);
    forall i | 0 <= i < |Domains|
      ensures 0.0 <= r.domainScores[i].1 <= 10.0 * (DomainWeights(Domains[i]).skills + DomainWeights(Domains[i]).experience)
    {
      var d := Domains[i];
      var s := r.skillsAnalysis;
      ScoreBoundWithoutGitHub(d, if d in s.skills then |s.skills[d]| else 0,
                              if d in s.experience then s.experience[d] else 0);
    }
  }

  /** Without GitHub data a domain scores between 0 and 10 times the sum of
      its skills and experience weights. */
  lemma {:induction false} ScoreBoundWithoutGitHub(d: Domain, skillCount: nat, years: nat)
    ensures var w := DomainWeights(d);
      0.0 <= DomainScore(d, skillCount, years, None) <= 10.0 * (w.skills + w.experience)
  {
    var w := DomainWeights(d);
    var x := 10.0 * RawScore(w, skillCount, years, None);
    var hi := match d
      case AiMl => 700
      case WebDev => 600
      case Blockchain => 700
      case Cloud => 650
      case Cybersecurity => 700;
    assert (hi as real) / 100.0 == 10.0 * (w.skills + w.experience);
    assert 0.0 <= x <= 10.0 * (w.skills + w.experience);
    Round2Within(x, 0, hi);
  }

  /** A domain score never decreases when the skill count or the years grow. */
  lemma {:induction false} ScoreMonotone(d: Domain, n1: nat, n2: nat, y1: nat, y2: nat, github: Option<real>)
    requires n1 <= n2 && y1 <= y2
    ensures DomainScore(d, n1, y1, github) <= DomainScore(d, n2, y2, github)
  {
    var w := DomainWeights(d);
    RawMonotone(d, n1, n2, y1, y2, github);
    Round2Monotone(10.0 * RawScore(w, n1, y1, github), 10.0 * RawScore(w, n2, y2, github));
  }

  /** The unrounded sum grows with both counts. Each row of the table has
      constant weights, so per domain the sum is linear in the capped ratios. */
  lemma RawMonotone(d: Domain, n1: nat, n2: nat, y1: nat, y2: nat, github: Option<real>)
    requires n1 <= n2 && y1 <= y2
    ensures RawScore(DomainWeights(d), n1, y1, github) <= RawScore(DomainWeights(d), n2, y2, github)
  {
    var w := DomainWeights(d);
    assert Min(n1 as real / 10.0, 1.0) <= Min(n2 as real / 10.0, 1.0);
    assert Min(y1 as real / 5.0, 1.0) <= Min(y2 as real / 5.0, 1.0);
    match d {
      case AiMl => assert w == Weights(0.4, 0.3, 0.2, 0.1);
      case WebDev => assert w == Weights(0.35, 0.25, 0.25, 0.15);
      case Blockchain => assert w == Weights(0.4, 0.3, 0.2, 0.1);
      case Cloud => assert w == Weights(0.35, 0.3, 0.25, 0.1);
      case Cybersecurity => assert w == Weights(0.35, 0.35, 0.2, 0.1);
    }
  }

  /** The GitHub term is not capped: a GitHub domain score of 20 (which the
      analyzer can produce) alone gives an AI/ML score of 4, twice the 2
      points a capped term could contribute. */
  lemma GitHubTermUncapped()
    ensures DomainScore(AiMl, 0, 0, Some(20.0)) == 4.0
    ensures 10.0 * DomainWeights(AiMl).github == 2.0
  {
    assert 10.0 * RawScore(DomainWeights(AiMl), 0, 0, Some(20.0)) == 400 as real / 100.0;
    Round2Exact(400);
  }
}
