/** `models/hackathon_matcher.py`: the five-track catalog, the clamped
    compatibility formula, the threshold filter with the stable descending
    sort of `match_hackathons`, and the per-track skill recommendations. */
module HackathonMatcher {
  import opened Common
  import Sorting
  import LlmAnalyzer
  import EnhancedScorer

  // ===== the `tracks` catalog =====

  /** One entry of `self.tracks`. */
  datatype Track = Track(name: string, minScore: real, skills: seq<string>)

  /** `self.tracks`, keyed by the same names as the domain taxonomy. */
  function Catalog(d: Domain): Track
  {
    match d
    case AiMl => Track("AI/ML", 0.6, ["Python", "TensorFlow", "PyTorch", "Data Science"])
    case WebDev => Track("Web Development", 0.5, ["JavaScript", "React", "Node.js", "HTML/CSS"])
    case Blockchain => Track("Blockchain", 0.65, ["Solidity", "Web3.js", "Smart Contracts"])
    case Cloud => Track("Cloud Computing", 0.55, ["AWS", "Azure", "Docker", "Kubernetes"])
    case Cybersecurity => Track("Cybersecurity", 0.7, ["Network Security", "Cryptography", "Penetration Testing"])
  }

  /** Every minimum is a whole number of hundredths between 0.5 and 0.7,
      so two-decimal rounding leaves it unchanged. */
  lemma CatalogMinima(d: Domain)
    ensures 0.5 <= Catalog(d).minScore <= 0.7
    ensures Round2(Catalog(d).minScore) == Catalog(d).minScore
  {
    var k: int := match d
      case AiMl => 60
      case WebDev => 50
      case Blockchain => 65
      case Cloud => 55
      case Cybersecurity => 70;
    assert Catalog(d).minScore == (k as real) / 100.0;
    Round2Exact(k);
  }

  // ===== inputs =====

  /** A hackathon record. Only `primary_track` and `difficulty` are read;
      `None` is a missing key (or a `None` value). The remaining fields are
      carried into the match unread. */
  datatype Hackathon = Hackathon(primaryTrack: Option<string>, difficulty: Option<string>,
                                 other: map<string, string>)

  /** The track a hackathon is matched against: `None` when `primary_track`
      is missing, empty or not a catalog key. */
  function TrackOf(h: Hackathon): (r: Option<Domain>)
    ensures r.Some? <==> exists d: Domain :: h.primaryTrack == Some(DomainName(d))
    ensures r.Some? ==> h.primaryTrack == Some(DomainName(r.value))
  {
    if h.primaryTrack.None? || h.primaryTrack.value == [] then None
    else ParseDomain(h.primaryTrack.value)
  }

  /** `enhanced_analysis['llm_analysis']['technical_analysis']`, `{}` when
      the analysis is the empty result. */
  function Technical(analysis: EnhancedScorer.Combined): LlmAnalyzer.Value
  {
    if analysis.NoScores? then LlmAnalyzer.Dict(LlmAnalyzer.EmptyReport) else analysis.llm.technical
  }

  /** `enhanced_analysis['llm_analysis']['project_evaluation']`, `{}` when
      the analysis is the empty result. */
  function ProjectEvaluation(analysis: EnhancedScorer.Combined): LlmAnalyzer.Value
  {
    if analysis.NoScores? then LlmAnalyzer.Dict(LlmAnalyzer.EmptyReport) else analysis.llm.project
  }

  /** Either LLM dictionary is not a dictionary, so its `.get` raises. */
  predicate Malformed(analysis: EnhancedScorer.Combined)
  {
    Technical(analysis).NotDict? || ProjectEvaluation(analysis).NotDict?
  }

  function ReportOf(v: LlmAnalyzer.Value): LlmAnalyzer.Report
  {
    if v.Dict? then v.report else LlmAnalyzer.EmptyReport
  }

  /** `enhanced_scores.get(track, {}).get('score', 0)` over the entries in
      insertion order: the last entry written for the domain wins, and 0
      when there is none. */
  function ScoreOf(entries: seq<EnhancedScorer.Enhanced>, d: Domain): (r: real)
    ensures (forall i :: 0 <= i < |entries| ==> entries[i].domain != d) ==> r == 0.0
    ensures (exists i :: 0 <= i < |entries| && entries[i].domain == d) ==>
      exists i :: 0 <= i < |entries| && entries[i].domain == d && r == entries[i].score
                  && forall j :: i < j < |entries| ==> entries[j].domain != d
    decreases |entries|
  {
    if entries == [] then 0.0
    else
      var last := entries[|entries| - 1];
      if last.domain == d then last.score
      else
        var init := entries[..|entries| - 1];
        var r := ScoreOf(init, d);
        assert forall i :: 0 <= i < |init| ==> init[i] == entries[i];
        r
  }

  function DomainScore(analysis: EnhancedScorer.Combined, d: Domain): real
  {
    if analysis.NoScores? then 0.0 else ScoreOf(analysis.enhanced, d)
  }

  // ===== _calculate_compatibility =====

  function DifficultyFactor(difficulty: Option<string>): real
  {
    if difficulty == Some("Beginner") then 1.2
    else if difficulty == Some("Intermediate") then 1.0
    else if difficulty == Some("Advanced") then 0.8
    else 1.0
  }

  /** The weighted sum of the three scores, each scaled from 0-10 to 0-1,
      times the difficulty factor. */
  function RawCompatibility(domainScore: real, technical: LlmAnalyzer.Report, project: LlmAnalyzer.Report,
                            difficulty: Option<string>): real
  {
    (0.4 * (domainScore / 10.0)
     + 0.3 * (EnhancedScorer.OrZero(technical.skillDepth) / 10.0)
     + 0.3 * (EnhancedScorer.OrZero(project.projectScore) / 10.0)) * DifficultyFactor(difficulty)
  }

  /** `min(max(x, 0), 1)` */
  function Clamp(x: real): (r: real)
    ensures 0.0 <= r <= 1.0
    ensures 0.0 <= x <= 1.0 ==> r == x
    ensures x < 0.0 ==> r == 0.0
    ensures x > 1.0 ==> r == 1.0
  {
    if x < 0.0 then 0.0 else if x > 1.0 then 1.0 else x
  }

  /** `_calculate_compatibility` */
  function Compatibility(domainScore: real, technical: LlmAnalyzer.Report, project: LlmAnalyzer.Report,
                         difficulty: Option<string>): real
  {
    Clamp(RawCompatibility(domainScore, technical, project, difficulty))
  }

  /** A higher domain score never lowers the compatibility. */
  lemma CompatibilityMonotone(low: real, high: real, technical: LlmAnalyzer.Report, project: LlmAnalyzer.Report,
                              difficulty: Option<string>)
    requires low <= high
    ensures Compatibility(low, technical, project, difficulty) <= Compatibility(high, technical, project, difficulty)
  {
    var base := 0.3 * (EnhancedScorer.OrZero(technical.skillDepth) / 10.0)
              + 0.3 * (EnhancedScorer.OrZero(project.projectScore) / 10.0);
    var f := DifficultyFactor(difficulty);
    assert (0.4 * (low / 10.0) + base) * f <= (0.4 * (high / 10.0) + base) * f by {
      if f == 1.2 {
      } else if f == 1.0 {
      } else {
        assert f == 0.8;
      }
    }
  }

  /** For the same non-negative scores, a Beginner hackathon is at least as
      compatible as an Intermediate one, and that at least as an Advanced
      one; an unknown difficulty counts as Intermediate. */
  lemma DifficultyOrder(domainScore: real, technical: LlmAnalyzer.Report, project: LlmAnalyzer.Report,
                        other: string)
    requires domainScore >= 0.0
    requires EnhancedScorer.OrZero(technical.skillDepth) >= 0.0 && EnhancedScorer.OrZero(project.projectScore) >= 0.0
    requires other != "Beginner" && other != "Intermediate" && other != "Advanced"
    ensures Compatibility(domainScore, technical, project, Some("Advanced"))
         <= Compatibility(domainScore, technical, project, Some("Intermediate"))
         <= Compatibility(domainScore, technical, project, Some("Beginner"))
    ensures Compatibility(domainScore, technical, project, Some(other))
         == Compatibility(domainScore, technical, project, Some("Intermediate"))
         == Compatibility(domainScore, technical, project, None)
  {
    var base := 0.4 * (domainScore / 10.0)
              + 0.3 * (EnhancedScorer.OrZero(technical.skillDepth) / 10.0)
              + 0.3 * (EnhancedScorer.OrZero(project.projectScore) / 10.0);
    assert base >= 0.0;
    assert base * 0.8 <= base * 1.0 <= base * 1.2;
  }

  // ===== _generate_track_recommendations =====

  /** The track's skills that are not among the achievements, in catalog order. */
  function Missing(skills: seq<string>, have: seq<string>): (r: seq<string>)
    ensures |r| <= |skills|
    ensures forall s :: s in r <==> s in skills && s !in have
    decreases |skills|
  {
    if skills == [] then []
    else
      var init := skills[..|skills| - 1];
      var s := skills[|skills| - 1];
      assert skills == init + [s];
      Missing(init, have) + (if s in have then [] else [s])
  }

  /** Nothing is dropped when no skill is among the achievements, so the
      missing list is then the catalog list itself, in its order. */
  lemma {:induction false} NoneHeld(skills: seq<string>, have: seq<string>)
    requires forall s :: s in skills ==> s !in have
    ensures Missing(skills, have) == skills
    decreases |skills|
  {
    if skills != [] {
      var init := skills[..|skills| - 1];
      assert skills == init + [skills[|skills| - 1]];
      NoneHeld(init, have);
    }
  }

  /** Filtering distributes over concatenation, so the missing skills keep
      the catalog order: those of a prefix come before those of the rest. */
  lemma {:induction false} MissingAppend(a: seq<string>, b: seq<string>, have: seq<string>)
    ensures Missing(a + b, have) == Missing(a, have) + Missing(b, have)
    decreases |b|
  {
    if b == [] {
      assert a + b == a;
    } else {
      var init := b[..|b| - 1];
      var s := b[|b| - 1];
      assert (a + b)[..|a + b| - 1] == a + init;
      assert (a + b)[|a + b| - 1] == s;
      MissingAppend(a, init, have);
    }
  }

  /** One skill is missing exactly when it is not held. */
  lemma MissingOne(s: string, have: seq<string>)
    ensures Missing([s], have) == if s in have then [] else [s]
  {
    assert [s][..0] == [];
  }

  datatype TrackRecommendations = TrackRecommendations(trackName: string, recommendedSkills: seq<string>,
                                                       minScoreRequired: real, preparationTips: seq<string>)

  /** `preparation_tips` */
  function Tips(missing: seq<string>): (r: seq<string>)
    ensures missing == [] ==> r == ["You have the core skills for this track!"]
    ensures missing != [] ==> |r| == if |missing| < 3 then |missing| else 3
    ensures missing != [] ==> forall i :: 0 <= i < |r| ==> r[i] == "Focus on learning " + missing[i]
  {
    if missing == [] then ["You have the core skills for this track!"]
    else
      var n := if |missing| < 3 then |missing| else 3;
      seq(n, i requires 0 <= i < n => "Focus on learning " + missing[i])
  }

  /** `_generate_track_recommendations`; `achievements` is
      `key_technical_achievements`, `[]` when missing. */
  function TrackRecommendationsFor(achievements: seq<string>, d: Domain): (r: TrackRecommendations)
    ensures r.trackName == Catalog(d).name && r.minScoreRequired == Catalog(d).minScore
    ensures forall s :: s in r.recommendedSkills <==> s in Catalog(d).skills && s !in achievements
    ensures r.recommendedSkills == Missing(Catalog(d).skills, achievements)
    ensures r.preparationTips == Tips(r.recommendedSkills)
  {
    var missing := Missing(Catalog(d).skills, achievements);
    TrackRecommendations(Catalog(d).name, missing, Catalog(d).minScore, Tips(missing))
  }

  /** The fixed LLM record lists none of the catalog skills verbatim (it has
      "Python Development", not "Python"), so every track recommends all its
      skills. */
  lemma StubMissesEverySkill(text: string, d: Domain)
    ensures var achievements := EnhancedScorer.OrNone(LlmAnalyzer.AnalyzeResume(text).technical.report.achievements);
      TrackRecommendationsFor(achievements, d).recommendedSkills == Catalog(d).skills
  {
    var achievements := EnhancedScorer.OrNone(LlmAnalyzer.AnalyzeResume(text).technical.report.achievements);
    assert achievements == ["Python Development", "Machine Learning", "TypeScript/JavaScript",
                            "Blockchain Development", "Web Development"];
    forall s | s in Catalog(d).skills ensures s !in achievements {
    }
    NoneHeld(Catalog(d).skills, achievements);
  }

  // ===== match_hackathons =====

  datatype Match = Match(hackathon: Hackathon, compatibilityScore: real,
                         technicalScore: real, strengths: seq<string>,
                         projectScore: real, complexityMatch: string,
                         recommendations: TrackRecommendations)

  function CompatibilityScore(m: Match): real
  {
    m.compatibilityScore
  }

  /** The compatibility of a hackathon with track `d`. */
  function CompatibilityOf(analysis: EnhancedScorer.Combined, h: Hackathon, d: Domain): real
  {
    Compatibility(DomainScore(analysis, d), ReportOf(Technical(analysis)), ReportOf(ProjectEvaluation(analysis)),
                  h.difficulty)
  }

  /** The match record built for a hackathon that passes the filter. */
  function MatchRecord(analysis: EnhancedScorer.Combined, h: Hackathon, d: Domain): Match
  {
    var technical := ReportOf(Technical(analysis));
    var project := ReportOf(ProjectEvaluation(analysis));
    Match(h, Round2(CompatibilityOf(analysis, h, d)),
          EnhancedScorer.OrZero(technical.skillDepth), EnhancedScorer.OrNone(technical.achievements),
          EnhancedScorer.OrZero(project.projectScore),
          if project.complexity.Some? then project.complexity.value else "Medium",
          TrackRecommendationsFor(EnhancedScorer.OrNone(technical.achievements), d))
  }

  /** The match a hackathon contributes: `None` when it is skipped (no
      catalog track) or when its unrounded compatibility is below the
      track's minimum. */
  function MatchOf(analysis: EnhancedScorer.Combined, h: Hackathon): Option<Match>
  {
    var track := TrackOf(h);
    if track.None? then None
    else if CompatibilityOf(analysis, h, track.value) >= Catalog(track.value).minScore
    then Some(MatchRecord(analysis, h, track.value))
    else None
  }

  /** A hackathon is kept exactly when it names a catalog track and its
      unrounded compatibility reaches the track's minimum; the kept record
      holds the input hackathon and the compatibility rounded to two
      decimals. */
  lemma MatchOfFilter(analysis: EnhancedScorer.Combined, h: Hackathon)
    ensures MatchOf(analysis, h).Some? <==>
      TrackOf(h).Some? && CompatibilityOf(analysis, h, TrackOf(h).value) >= Catalog(TrackOf(h).value).minScore
    ensures MatchOf(analysis, h).Some? ==> MatchOf(analysis, h).value.hackathon == h
    ensures MatchOf(analysis, h).Some? ==>
      MatchOf(analysis, h).value.compatibilityScore == Round2(CompatibilityOf(analysis, h, TrackOf(h).value))
  {
  }

  /** The values of the `Some` entries, in order. */
  function Somes<T>(os: seq<Option<T>>): (r: seq<T>)
    ensures |r| <= |os|
    decreases |os|
  {
    if os == [] then []
    else
      var o := os[|os| - 1];
      Somes(os[..|os| - 1]) + (if o.Some? then [o.value] else [])
  }

  lemma {:induction false} SomesMembers<T>(os: seq<Option<T>>, x: T)
    ensures x in Somes(os) <==> exists i :: 0 <= i < |os| && os[i] == Some(x)
    decreases |os|
  {
    if os != [] {
      var n := |os| - 1;
      var init := os[..n];
      SomesMembers(init, x);
      if x in Somes(os) && x !in Somes(init) {
        assert os[n] == Some(x);
      }
      if x in Somes(init) {
        var i :| 0 <= i < |init| && init[i] == Some(x);
        assert os[i] == init[i];
      }
      if exists i :: 0 <= i < |os| && os[i] == Some(x) {
        var i :| 0 <= i < |os| && os[i] == Some(x);
        if i < n {
          assert init[i] == os[i];
        }
      }
    }
  }

  /** What each hackathon contributes, in input order. */
  function Outcomes(analysis: EnhancedScorer.Combined, hackathons: seq<Hackathon>): (r: seq<Option<Match>>)
    ensures |r| == |hackathons|
    ensures forall i :: 0 <= i < |hackathons| ==> r[i] == MatchOf(analysis, hackathons[i])
  {
    seq(|hackathons|, i requires 0 <= i < |hackathons| => MatchOf(analysis, hackathons[i]))
  }

  /** The matches in input order, before sorting. */
  function Matches(analysis: EnhancedScorer.Combined, hackathons: seq<Hackathon>): (r: seq<Match>)
    ensures |r| <= |hackathons|
  {
    Somes(Outcomes(analysis, hackathons))
  }

  lemma MatchesSnoc(analysis: EnhancedScorer.Combined, hackathons: seq<Hackathon>, h: Hackathon)
    ensures Matches(analysis, hackathons + [h])
         == Matches(analysis, hackathons) + (if MatchOf(analysis, h).Some? then [MatchOf(analysis, h).value] else [])
  {
    var os := Outcomes(analysis, hackathons + [h]);
    assert os[..|os| - 1] == Outcomes(analysis, hackathons);
  }

  /** A match is made from exactly the hackathons that pass the filter:
      each output record is a passing input's match, and each passing input
      has its match in the output. */
  lemma MatchesMembers(analysis: EnhancedScorer.Combined, hackathons: seq<Hackathon>, m: Match)
    ensures m in Matches(analysis, hackathons)
        <==> exists i :: 0 <= i < |hackathons| && MatchOf(analysis, hackathons[i]) == Some(m)
  {
    var os := Outcomes(analysis, hackathons);
    SomesMembers(os, m);
    if m in Matches(analysis, hackathons) {
      var i :| 0 <= i < |os| && os[i] == Some(m);
      assert MatchOf(analysis, hackathons[i]) == Some(m);
    }
    if exists i :: 0 <= i < |hackathons| && MatchOf(analysis, hackathons[i]) == Some(m) {
      var i :| 0 <= i < |hackathons| && MatchOf(analysis, hackathons[i]) == Some(m);
      assert os[i] == Some(m);
    }
  }

  /** A hackathon without a catalog track is skipped: appending it changes
      nothing. */
  lemma SkippedTrack(analysis: EnhancedScorer.Combined, hackathons: seq<Hackathon>, h: Hackathon)
    requires TrackOf(h).None?
    ensures Matches(analysis, hackathons + [h]) == Matches(analysis, hackathons)
  {
    MatchesSnoc(analysis, hackathons, h);
  }

  /** Every stored score is at least its track's minimum: the filter uses the
      unrounded value and the minima are whole hundredths. */
  lemma KeptMeetMinimum(analysis: EnhancedScorer.Combined, h: Hackathon)
    requires MatchOf(analysis, h).Some?
    ensures Catalog(TrackOf(h).value).minScore <= MatchOf(analysis, h).value.compatibilityScore <= 1.0
  {
    var d := TrackOf(h).value;
    var c := CompatibilityOf(analysis, h, d);
    MatchOfFilter(analysis, h);
    CatalogMinima(d);
    Round2Monotone(Catalog(d).minScore, c);
    Round2Within(c, 0, 100);
  }

  /** `match_hackathons`. A hackathon with a catalog track reads the LLM
      technical and project dictionaries, so when either is not a
      dictionary the call raises. */
  method MatchHackathons(analysis: EnhancedScorer.Combined, hackathons: seq<Hackathon>)
    returns (r: Result<seq<Match>>)
    ensures r.Err? <==> Malformed(analysis) && exists i :: 0 <= i < |hackathons| && TrackOf(hackathons[i]).Some?
    ensures r.Err? ==> r.error == TypeFailure
    ensures r.Ok? ==> r.value == Sorting.SortDesc(Matches(analysis, hackathons), CompatibilityScore)
    ensures r.Ok? ==> Sorting.SortedDesc(r.value, CompatibilityScore)
    ensures r.Ok? ==> multiset(r.value) == multiset(Matches(analysis, hackathons))
    ensures r.Ok? ==> forall k: real :: Sorting.WithKey(r.value, CompatibilityScore, k)
                                     == Sorting.WithKey(Matches(analysis, hackathons), CompatibilityScore, k)
  {
    var collected := CollectMatches(analysis, hackathons);
    if collected.Err? {
      return Err(TypeFailure);
    }
    var matches := collected.value;
    Sorting.SortDescSpec(matches, CompatibilityScore);
    r := Ok(Sorting.SortDesc(matches, CompatibilityScore));
  }

  /** The loop of `match_hackathons`: the matches in hackathon order, or the
      failure of the first hackathon that raises. */
  method CollectMatches(analysis: EnhancedScorer.Combined, hackathons: seq<Hackathon>)
    returns (r: Result<seq<Match>>)
    ensures r.Err? <==> Malformed(analysis) && exists i :: 0 <= i < |hackathons| && TrackOf(hackathons[i]).Some?
    ensures r.Err? ==> r.error == TypeFailure
    ensures r.Ok? ==> r.value == Matches(analysis, hackathons)
  {
    var matches: seq<Match> := [];
    for i := 0 to |hackathons|
      invariant forall k :: 0 <= k < i ==> TrackOf(hackathons[k]).None? || !Malformed(analysis)
      invariant matches == Matches(analysis, hackathons[..i])
    {
      var h := hackathons[i];
      MatchesPrefix(analysis, hackathons, i);
      var outcome := MatchOne(analysis, h);
      if outcome.Err? {
        return Err(TypeFailure);
      }
      NoFailureStep(analysis, hackathons, i);
      if outcome.value.Some? {
        matches := matches + [outcome.value.value];
      }
    }
    assert hackathons[..|hackathons|] == hackathons;
    r := Ok(matches);
  }

  lemma MatchesPrefix(analysis: EnhancedScorer.Combined, hackathons: seq<Hackathon>, i: nat)
    requires i < |hackathons|
    ensures Matches(analysis, hackathons[..i + 1])
         == Matches(analysis, hackathons[..i])
            + (if MatchOf(analysis, hackathons[i]).Some? then [MatchOf(analysis, hackathons[i]).value] else [])
  {
    assert hackathons[..i + 1] == hackathons[..i] + [hackathons[i]];
    MatchesSnoc(analysis, hackathons[..i], hackathons[i]);
  }

  lemma NoFailureStep(analysis: EnhancedScorer.Combined, hackathons: seq<Hackathon>, i: nat)
    requires i < |hackathons|
    requires forall k :: 0 <= k < i ==> TrackOf(hackathons[k]).None? || !Malformed(analysis)
    requires TrackOf(hackathons[i]).None? || !Malformed(analysis)
    ensures forall k :: 0 <= k < i + 1 ==> TrackOf(hackathons[k]).None? || !Malformed(analysis)
  {
  }

  /** The body of the `match_hackathons` loop for one hackathon: the call
      raises when the hackathon names a catalog track and an LLM dictionary
      is not a dictionary; otherwise the hackathon's contribution. */
  method MatchOne(analysis: EnhancedScorer.Combined, h: Hackathon) returns (r: Result<Option<Match>>)
    ensures r.Err? <==> TrackOf(h).Some? && Malformed(analysis)
    ensures r.Err? ==> r.error == TypeFailure
    ensures r.Ok? ==> r.value == MatchOf(analysis, h)
  {
    var track := TrackOf(h);
    if track.None? {
      return Ok(None);
    }
    var d := track.value;
    var technical := Technical(analysis);
    var project := ProjectEvaluation(analysis);
    if technical.NotDict? || project.NotDict? {
      return Err(TypeFailure);
    }
    var compatibility := Compatibility(DomainScore(analysis, d), technical.report, project.report, h.difficulty);
    assert compatibility == CompatibilityOf(analysis, h, d);
    if compatibility >= Catalog(d).minScore {
      var achievements := EnhancedScorer.OrNone(technical.report.achievements);
      var complexity := if project.report.complexity.Some? then project.report.complexity.value else "Medium";
      var m := Match(h, Round2(compatibility),
                     EnhancedScorer.OrZero(technical.report.skillDepth), achievements,
                     EnhancedScorer.OrZero(project.report.projectScore), complexity,
                     TrackRecommendationsFor(achievements, d));
      assert m == MatchRecord(analysis, h, d);
      return Ok(Some(m));
    }
    return Ok(None);
  }
}
