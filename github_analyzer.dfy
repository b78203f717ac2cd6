/** `models/github_analyzer.py`: per-profile repository statistics and
    topic-density domain scores. The repository list that PyGithub would
    fetch is an input. */
module GitHubAnalyzer {
  import opened Common
  import opened Text
  import opened Counting

  /** The fields of a GitHub repository the core reads. */
  datatype Repo = Repo(name: string, description: Option<string>, stars: nat,
                       language: Option<string>, topics: seq<string>, fork: bool)

  /** `if repo.language:` holds for a present, non-empty language name. */
  predicate HasLanguage(r: Repo)
  {
    r.language.Some? && r.language.value != ""
  }

  function StarSum(repos: seq<Repo>): nat
    decreases |repos|
  {
    if repos == [] then 0 else StarSum(repos[..|repos| - 1]) + repos[|repos| - 1].stars
  }

  /** The number of repositories whose language is `l`. */
  function LanguageCount(repos: seq<Repo>, l: string): nat
    decreases |repos|
  {
    if repos == [] then 0
    else
      var r := repos[|repos| - 1];
      LanguageCount(repos[..|repos| - 1], l) + (if HasLanguage(r) && r.language.value == l then 1 else 0)
  }

  /** The number of repositories that have a language at all. */
  function WithLanguage(repos: seq<Repo>): (n: nat)
    ensures n <= |repos|
    decreases |repos|
  {
    if repos == [] then 0
    else WithLanguage(repos[..|repos| - 1]) + (if HasLanguage(repos[|repos| - 1]) then 1 else 0)
  }

  function Occurrences(ts: seq<string>, t: string): nat
    decreases |ts|
  {
    if ts == [] then 0 else Occurrences(ts[..|ts| - 1], t) + (if ts[|ts| - 1] == t then 1 else 0)
  }

  /** How many times `t` is listed as a topic, over all repositories. */
  function TopicCount(repos: seq<Repo>, t: string): nat
    decreases |repos|
  {
    if repos == [] then 0
    else TopicCount(repos[..|repos| - 1], t) + Occurrences(repos[|repos| - 1].topics, t)
  }

  function Elements(ts: seq<string>): set<string>
  {
    set i | 0 <= i < |ts| :: ts[i]
  }

  /** Every topic carried by some repository. */
  function TopicKeys(repos: seq<Repo>): set<string>
    decreases |repos|
  {
    if repos == [] then {}
    else TopicKeys(repos[..|repos| - 1]) + Elements(repos[|repos| - 1].topics)
  }

  function DomainKeywords(d: Domain): seq<string>
  {
    match d
    case AiMl => ["machine-learning", "deep-learning", "data-science", "tensorflow", "pytorch"]
    case WebDev => ["web", "frontend", "backend", "fullstack", "javascript"]
    case Blockchain => ["blockchain", "web3", "ethereum", "smart-contracts"]
    case Cloud => ["aws", "azure", "kubernetes", "docker", "devops"]
    case Cybersecurity => ["security", "cryptography", "penetration-testing"]
  }

  /** `any(k in topic for k in keywords)` */
  function AnyKeywordIn(keywords: seq<string>, topic: string): (b: bool)
    ensures b <==> exists i :: 0 <= i < |keywords| && Contains(topic, keywords[i])
    decreases |keywords|
  {
    if keywords == [] then false
    else if Contains(topic, keywords[0]) then true
    else
      var b := AnyKeywordIn(keywords[1..], topic);
      assert forall i :: 1 <= i < |keywords| ==> keywords[i] == keywords[1..][i - 1];
      b
  }

  predicate TopicInDomain(d: Domain, topic: string)
  {
    AnyKeywordIn(DomainKeywords(d), topic)
  }

  /** A domain's score: distinct matching topics per repository, times 10.
      The divisor is at least 1, so there is no division by zero. */
  function DomainScore(d: Domain, topicKeys: set<string>, totalRepos: nat): (r: real)
    ensures r >= 0.0
    ensures topicKeys == {} ==> r == 0.0
  {
    var matching := set t | t in topicKeys && TopicInDomain(d, t);
    assert topicKeys == {} ==> matching == {};
    (|matching| as real / (if totalRepos >= 1 then totalRepos else 1) as real) * 10.0
  }

  datatype Analysis = Analysis(totalRepos: nat, languages: map<string, nat>, topics: map<string, nat>,
                               stars: nat, contributions: nat, domainScores: map<Domain, real>)

  /** `_calculate_domain_scores`: one entry for each of the five domains. */
  method CalculateDomainScores(topicKeys: set<string>, totalRepos: nat) returns (scores: map<Domain, real>)
    ensures forall d :: d in scores && scores[d] == DomainScore(d, topicKeys, totalRepos)
  {
    scores := map[];
    for i := 0 to |Domains|
      invariant forall d :: d in Domains[..i] ==> d in scores && scores[d] == DomainScore(d, topicKeys, totalRepos)
    {
      assert Domains[..i + 1] == Domains[..i] + [Domains[i]];
      scores := scores[Domains[i] := DomainScore(Domains[i], topicKeys, totalRepos)];
    }
    forall d: Domain ensures d in Domains[..|Domains|] {
      DomainsComplete(d);
    }
  }

  /** `for topic in repo.get_topics(): topics[topic] += 1` */
  method AddTopics(topics: map<string, nat>, ts: seq<string>) returns (out: map<string, nat>)
    requires Positive(topics)
    ensures Positive(out)
    ensures forall t :: Get(out, t) == Get(topics, t) + Occurrences(ts, t)
    ensures out.Keys == topics.Keys + Elements(ts)
  {
    out := topics;
    for j := 0 to |ts|
      invariant Positive(out)
      invariant forall t :: Get(out, t) == Get(topics, t) + Occurrences(ts[..j], t)
      invariant out.Keys == topics.Keys + Elements(ts[..j])
    {
      assert ts[..j + 1][..j] == ts[..j];
      assert Elements(ts[..j + 1]) == Elements(ts[..j]) + {ts[j]} by {
        var a, b := ts[..j + 1], ts[..j];
        assert forall i :: 0 <= i < j ==> a[i] == b[i];
        assert a[j] == ts[j];
      }
      out := Increment(out, ts[j]);
    }
    assert ts[..|ts|] == ts;
  }

  /** One more repository adds one to the count of its language, if it has one. */
  lemma LanguageStep(languages: map<string, nat>, rs: seq<Repo>, r: Repo)
    requires forall l :: Get(languages, l) == LanguageCount(rs, l)
    ensures var next := if HasLanguage(r) then Increment(languages, r.language.value) else languages;
      forall l :: Get(next, l) == LanguageCount(rs + [r], l)
  {
    assert (rs + [r])[..|rs|] == rs;
  }

  /** `analyze_profile`: counts every repository (forks included), sums the
      stars, counts languages and topics, then scores the five domains. */
  method AnalyzeProfile(repos: seq<Repo>) returns (a: Analysis)
    ensures a.totalRepos == |repos| && a.stars == StarSum(repos) && a.contributions == 0
    ensures Positive(a.languages) && forall l :: Get(a.languages, l) == LanguageCount(repos, l)
    ensures MapSum(a.languages) == WithLanguage(repos) <= |repos|
    ensures Positive(a.topics) && forall t :: Get(a.topics, t) == TopicCount(repos, t)
    ensures a.topics.Keys == TopicKeys(repos)
    ensures forall d :: d in a.domainScores && a.domainScores[d] == DomainScore(d, TopicKeys(repos), |repos|)
  {
    var totalRepos: nat := 0;
    var stars: nat := 0;
    var languages: map<string, nat> := map[];
    var topics: map<string, nat> := map[];
    for i := 0 to |repos|
      invariant totalRepos == i && stars == StarSum(repos[..i])
      invariant Positive(languages) && forall l :: Get(languages, l) == LanguageCount(repos[..i], l)
      invariant MapSum(languages) == WithLanguage(repos[..i])
      invariant Positive(topics) && forall t :: Get(topics, t) == TopicCount(repos[..i], t)
      invariant topics.Keys == TopicKeys(repos[..i])
    {
      var repo := repos[i];
      assert repos[..i + 1] == repos[..i] + [repo];
      totalRepos := totalRepos + 1;
      stars := stars + repo.stars;
      LanguageStep(languages, repos[..i], repo);
      if HasLanguage(repo) {
        MapSumIncrement(languages, repo.language.value);
        languages := Increment(languages, repo.language.value);
      }
      topics := AddTopics(topics, repo.topics);
    }
    assert repos[..|repos|] == repos;
    var scores := CalculateDomainScores(topics.Keys, totalRepos);
    a := Analysis(totalRepos, languages, topics, stars, 0, scores);
  }

  /** Scores are not capped at 10: a single repository with the topics "web"
      and "web-app" scores 20 for web development. */
  lemma ScoreExceedsTen()
    ensures var repo := Repo("site", None, 0, None, ["web", "web-app"], false);
      DomainScore(WebDev, TopicKeys([repo]), 1) == 20.0
  {
    var repo := Repo("site", None, 0, None, ["web", "web-app"], false);
    assert [repo][..0] == [];
    var keys := TopicKeys([repo]);
    var ts := repo.topics;
    assert Elements(ts) == {ts[0], ts[1]};
    assert keys == TopicKeys([repo][..0]) + Elements(ts);
    assert keys == {"web", "web-app"};
    assert OccursAt("web", "web", 0) && OccursAt("web-app", "web", 0);
    assert TopicInDomain(WebDev, "web") && TopicInDomain(WebDev, "web-app");
    var matching := set t | t in keys && TopicInDomain(WebDev, t);
    assert matching == {"web", "web-app"};
    assert "web" != "web-app";
    assert |matching| == 2;
  }

  /** A domain score counts distinct topics, not repositories: when every
      repository carries the same single matching topic, the score is
      10 / number of repositories however many of them carry it. */
  lemma {:induction false} SharedTopicCountedOnce(repos: seq<Repo>, d: Domain, t: string)
    requires TopicKeys(repos) == {t}
    requires TopicInDomain(d, t)
    ensures DomainScore(d, TopicKeys(repos), |repos|) == 10.0 / (if |repos| >= 1 then |repos| else 1) as real
  {
    var keys := TopicKeys(repos);
    var n := if |repos| >= 1 then |repos| else 1;
    SingleMatchingTopic(d, keys, t, n);
  }

  lemma {:induction false} SingleMatchingTopic(d: Domain, keys: set<string>, t: string, n: nat)
    requires keys == {t} && TopicInDomain(d, t) && n >= 1
    ensures DomainScore(d, keys, n) == 10.0 / n as real
  {
    var matching := set x | x in keys && TopicInDomain(d, x);
    assert matching == {t};
    assert |matching| == 1;
    var m := n as real;
    assert (1.0 / m) * 10.0 == 10.0 / m;
  }
}
