/** `parsers/profile_parser.py`, GitHub side: the PyGithub text summary of a
    profile (`_parse_github_profile`) and the aiohttp profile parser
    (`parse_github_profile`, `_get_contributions`). What the GitHub API would
    return is an input; the clock is the parameter `now`, in seconds. */
module GitHubProfile {
  import opened Common
  import opened Text
  import opened Counting
  import GitHubAnalyzer

  // ===== _parse_github_profile =====

  function Digit(d: nat): char
    requires d < 10
  {
    "0123456789"[d]
  }

  /** `str(n)` for a non-negative integer. */
  function Decimal(n: nat): (r: string)
    ensures r != []
    decreases n
  {
    if n < 10 then [Digit(n)] else Decimal(n / 10) + [Digit(n % 10)]
  }

  /** `int(s)` on a string of decimal digits. */
  function DecimalValue(s: string): nat
    decreases |s|
  {
    if s == [] then 0
    else
      var c := s[|s| - 1];
      DecimalValue(s[..|s| - 1]) * 10 + (if '0' <= c <= '9' then c as int - '0' as int else 0)
  }

  /** The star count printed in a repository's text reads back as the count. */
  lemma {:induction false} DecimalRoundTrip(n: nat)
    ensures DecimalValue(Decimal(n)) == n
    decreases n
  {
    if n >= 10 {
      DecimalRoundTrip(n / 10);
      var s := Decimal(n / 10) + [Digit(n % 10)];
      assert s[..|s| - 1] == Decimal(n / 10);
    }
  }

  /** A repository's block in the summary; an empty or missing description
      or language prints a placeholder. */
  function RepoText(r: GitHubAnalyzer.Repo): string
  {
    "Repository: " + r.name + "\n"
    + "Description: " + (if r.description.Some? && r.description.value != "" then r.description.value else "No description") + "\n"
    + "Language: " + (if GitHubAnalyzer.HasLanguage(r) then r.language.value else "Not specified") + "\n"
    + "Stars: " + Decimal(r.stars) + "\n"
    + "Topics: " + JoinWith(", ", r.topics) + "\n"
  }

  /** A string without a line break can be joined on `\n` and found again. */
  lemma NoNewlineSeparable(p: string)
    requires '\n' !in p
    ensures SeparableBy(p, "\n")
  {
    var sep := "\n";
    assert p + sep[..|sep| - 1] == p;
    forall j | 0 <= j < |p| ensures !OccursAt(p, sep, j) {
      if j + 1 <= |p| {
        assert p[j..j + 1][0] == p[j];
      }
    }
    ContainsIff(p, sep);
  }

  lemma {:induction false} JoinNoNewline(sep: string, parts: seq<string>)
    requires '\n' !in sep
    requires forall k :: 0 <= k < |parts| ==> '\n' !in parts[k]
    ensures '\n' !in JoinWith(sep, parts)
    decreases |parts|
  {
    if |parts| > 1 {
      JoinNoNewline(sep, parts[1..]);
    }
  }

  lemma {:induction false} DecimalNoNewline(n: nat)
    ensures '\n' !in Decimal(n)
    decreases n
  {
    if n >= 10 {
      DecimalNoNewline(n / 10);
    }
  }

  /** Five labelled lines, each ended by `nl`, are the join on `nl` of the
      lines and a final empty piece. */
  lemma FiveLines(p0: string, v0: string, p1: string, v1: string, p2: string, v2: string,
                  p3: string, v3: string, p4: string, v4: string, nl: string)
    ensures p0 + v0 + nl + p1 + v1 + nl + p2 + v2 + nl + p3 + v3 + nl + p4 + v4 + nl
         == JoinWith(nl, [p0 + v0, p1 + v1, p2 + v2, p3 + v3, p4 + v4, ""])
  {
    var lines := [p0 + v0, p1 + v1, p2 + v2, p3 + v3, p4 + v4, ""];
    assert JoinWith(nl, lines[4..]) == lines[4] + nl + JoinWith(nl, lines[5..]);
    assert JoinWith(nl, lines[3..]) == lines[3] + nl + JoinWith(nl, lines[4..]);
    assert JoinWith(nl, lines[2..]) == lines[2] + nl + JoinWith(nl, lines[3..]);
    assert JoinWith(nl, lines[1..]) == lines[1] + nl + JoinWith(nl, lines[2..]);
    assert JoinWith(nl, lines) == lines[0] + nl + JoinWith(nl, lines[1..]);
  }

  /** When no field holds a line break, a repository's block splits on `\n`
      into its five field lines and a final empty piece, and the name and the
      star count read back from their lines. */
  lemma RepoTextLines(r: GitHubAnalyzer.Repo)
    requires '\n' !in r.name
    requires r.description.Some? ==> '\n' !in r.description.value
    requires r.language.Some? ==> '\n' !in r.language.value
    requires forall k :: 0 <= k < |r.topics| ==> '\n' !in r.topics[k]
    ensures var lines := SplitOn(RepoText(r), "\n");
      && |lines| == 6 && lines[0] == "Repository: " + r.name && lines[5] == ""
      && |lines[3]| > 7 && lines[3][..7] == "Stars: " && DecimalValue(lines[3][7..]) == r.stars
  {
    var d := if r.description.Some? && r.description.value != "" then r.description.value else "No description";
    var l := if GitHubAnalyzer.HasLanguage(r) then r.language.value else "Not specified";
    JoinNoNewline(", ", r.topics);
    DecimalNoNewline(r.stars);
    RepoLabels();
    LabelledLines("Repository: ", r.name, "Description: ", d, "Language: ", l,
                  "Stars: ", Decimal(r.stars), "Topics: ", JoinWith(", ", r.topics));
    DecimalRoundTrip(r.stars);
  }

  /** The labels of a repository's block are single-line; the star label has seven characters. */
  lemma RepoLabels()
    ensures '\n' !in "Repository: " && '\n' !in "Description: " && '\n' !in "Language: "
    ensures '\n' !in "Stars: " && '\n' !in "Topics: " && |"Stars: "| == 7
    ensures '\n' !in "No description" && '\n' !in "Not specified"
  {
  }

  /** Five labelled lines, each ended by a line break, split back into the
      lines; the fourth one's value follows its label. */
  lemma LabelledLines(p0: string, v0: string, p1: string, v1: string, p2: string, v2: string,
                      p3: string, v3: string, p4: string, v4: string)
    requires '\n' !in p0 && '\n' !in p1 && '\n' !in p2 && '\n' !in p3 && '\n' !in p4
    requires '\n' !in v0 && '\n' !in v1 && '\n' !in v2 && '\n' !in v3 && '\n' !in v4
    ensures var lines := SplitOn(p0 + v0 + "\n" + p1 + v1 + "\n" + p2 + v2 + "\n" + p3 + v3 + "\n" + p4 + v4 + "\n", "\n");
      && |lines| == 6 && lines[0] == p0 + v0 && lines[5] == ""
      && |lines[3]| >= |p3| && lines[3][..|p3|] == p3 && lines[3][|p3|..] == v3
  {
    var lines := [p0 + v0, p1 + v1, p2 + v2, p3 + v3, p4 + v4, ""];
    FiveLines(p0, v0, p1, v1, p2, v2, p3, v3, p4, v4, "\n");
    SplitLines(lines);
    assert lines[3][..|p3|] == p3;
    assert lines[3][|p3|..] == v3;
  }

  /** Lines without a line break, joined on `\n`, split back into themselves. */
  lemma SplitLines(lines: seq<string>)
    requires lines != []
    requires forall k :: 0 <= k < |lines| ==> '\n' !in lines[k]
    ensures SplitOn(JoinWith("\n", lines), "\n") == lines
  {
    forall k | 0 <= k < |lines| ensures SeparableBy(lines[k], "\n") {
      NoNewlineSeparable(lines[k]);
    }
    SplitJoin(lines, "\n");
  }

  /** The blocks of the repositories that are not forks, in order. */
  function OwnRepoTexts(repos: seq<GitHubAnalyzer.Repo>): (r: seq<string>)
    ensures |r| <= |repos|
    decreases |repos|
  {
    if repos == [] then []
    else
      var last := repos[|repos| - 1];
      OwnRepoTexts(repos[..|repos| - 1]) + (if last.fork then [] else [RepoText(last)])
  }

  /** Forks contribute nothing: appending forked repositories leaves the
      summary's repository blocks unchanged. */
  lemma {:induction false} ForksIgnored(repos: seq<GitHubAnalyzer.Repo>, forks: seq<GitHubAnalyzer.Repo>)
    requires forall i :: 0 <= i < |forks| ==> forks[i].fork
    ensures OwnRepoTexts(repos + forks) == OwnRepoTexts(repos)
    decreases |forks|
  {
    if forks != [] {
      var init := forks[..|forks| - 1];
      assert (repos + forks)[..|repos + forks| - 1] == repos + init;
      ForksIgnored(repos, init);
    } else {
      assert repos + forks == repos;
    }
  }

  /** A language of a repository that is not a fork. */
  predicate OwnLanguage(r: GitHubAnalyzer.Repo, l: string)
  {
    !r.fork && GitHubAnalyzer.HasLanguage(r) && r.language.value == l
  }

  /** The loop of `_parse_github_profile`: languages and topics of the
      repositories that are not forks, and their text blocks. */
  method SummarizeRepos(repos: seq<GitHubAnalyzer.Repo>)
    returns (languages: set<string>, topics: set<string>, repoTexts: seq<string>)
    ensures forall l :: l in languages <==> exists i :: 0 <= i < |repos| && OwnLanguage(repos[i], l)
    ensures forall t :: t in topics <==> exists i :: 0 <= i < |repos| && !repos[i].fork && t in repos[i].topics
    ensures languages == OwnLanguages(repos) && topics == OwnTopics(repos)
    ensures repoTexts == OwnRepoTexts(repos)
  {
    languages, topics, repoTexts := {}, {}, [];
    for i := 0 to |repos|
      invariant languages == OwnLanguages(repos[..i])
      invariant topics == OwnTopics(repos[..i])
      invariant repoTexts == OwnRepoTexts(repos[..i])
    {
      var repo := repos[i];
      assert repos[..i + 1][..i] == repos[..i];
      if !repo.fork {
        if GitHubAnalyzer.HasLanguage(repo) {
          languages := languages + {repo.language.value};
        }
        topics := topics + GitHubAnalyzer.Elements(repo.topics);
        repoTexts := repoTexts + [RepoText(repo)];
      }
    }
    assert repos[..|repos|] == repos;
    OwnLanguagesSpec(repos);
    OwnTopicsSpec(repos);
  }

  /** The languages of the repositories that are not forks. */
  function OwnLanguages(repos: seq<GitHubAnalyzer.Repo>): set<string>
    decreases |repos|
  {
    if repos == [] then {}
    else
      var last := repos[|repos| - 1];
      OwnLanguages(repos[..|repos| - 1])
      + (if !last.fork && GitHubAnalyzer.HasLanguage(last) then {last.language.value} else {})
  }

  /** The topics of the repositories that are not forks. */
  function OwnTopics(repos: seq<GitHubAnalyzer.Repo>): set<string>
    decreases |repos|
  {
    if repos == [] then {}
    else
      var last := repos[|repos| - 1];
      OwnTopics(repos[..|repos| - 1]) + (if last.fork then {} else GitHubAnalyzer.Elements(last.topics))
  }

  /** A language is collected exactly when some repository that is not a
      fork is written in it. */
  lemma {:induction false} OwnLanguagesSpec(repos: seq<GitHubAnalyzer.Repo>)
    ensures forall l :: l in OwnLanguages(repos) <==> exists i :: 0 <= i < |repos| && OwnLanguage(repos[i], l)
    decreases |repos|
  {
    if repos != [] {
      var n := |repos| - 1;
      var init := repos[..n];
      OwnLanguagesSpec(init);
      forall l ensures l in OwnLanguages(repos) <==> exists i :: 0 <= i < |repos| && OwnLanguage(repos[i], l) {
        if l in OwnLanguages(init) {
          var i :| 0 <= i < n && OwnLanguage(init[i], l);
          assert repos[i] == init[i];
        }
        if exists i :: 0 <= i < |repos| && OwnLanguage(repos[i], l) {
          var i :| 0 <= i < |repos| && OwnLanguage(repos[i], l);
          if i < n {
            assert init[i] == repos[i];
          }
        }
      }
    }
  }

  /** A topic is collected exactly when some repository that is not a fork
      carries it. */
  lemma {:induction false} OwnTopicsSpec(repos: seq<GitHubAnalyzer.Repo>)
    ensures forall t :: t in OwnTopics(repos) <==> exists i :: 0 <= i < |repos| && !repos[i].fork && t in repos[i].topics
    decreases |repos|
  {
    if repos != [] {
      var n := |repos| - 1;
      var init := repos[..n];
      var last := repos[n];
      OwnTopicsSpec(init);
      forall t ensures t in OwnTopics(repos) <==> exists i :: 0 <= i < |repos| && !repos[i].fork && t in repos[i].topics {
        if t in OwnTopics(init) {
          var i :| 0 <= i < n && !init[i].fork && t in init[i].topics;
          assert repos[i] == init[i];
        }
        if !last.fork && t in last.topics {
          var j :| 0 <= j < |last.topics| && last.topics[j] == t;
          assert t in GitHubAnalyzer.Elements(last.topics);
        }
        if exists i :: 0 <= i < |repos| && !repos[i].fork && t in repos[i].topics {
          var i :| 0 <= i < |repos| && !repos[i].fork && t in repos[i].topics;
          if i < n {
            assert init[i] == repos[i];
          }
        }
      }
    }
  }

  /** Lists the elements of a set in an order the method chooses, as
      iterating a Python set does. */
  method Enumerate(s: set<string>) returns (r: seq<string>)
    ensures |r| == |s|
    ensures forall x :: x in r <==> x in s
    ensures forall i, j :: 0 <= i < j < |r| ==> r[i] != r[j]
  {
    r := [];
    var rest := s;
    while rest != {}
      invariant rest <= s
      invariant forall x :: x in r <==> x in s && x !in rest
      invariant forall i, j :: 0 <= i < j < |r| ==> r[i] != r[j]
      invariant |r| + |rest| == |s|
      decreases |rest|
    {
      var x :| x in rest;
      r := r + [x];
      rest := rest - {x};
    }
  }

  /** The summary text, given the order in which the two sets were listed. */
  function ProfileText(username: string, bio: Option<string>, languages: seq<string>,
                       topics: seq<string>, repoTexts: seq<string>): string
  {
    "GitHub Profile - " + username + "\n"
    + "Bio: " + (if bio.Some? then bio.value else "") + "\n\n"
    + "Programming Languages: " + JoinWith(", ", languages) + "\n"
    + "Topics & Skills: " + JoinWith(", ", topics) + "\n\n"
    + "Notable Repositories:\n"
    + JoinWith("\n---\n", repoTexts)
  }

  /** The summary opens with the user's line, and its tail splits on the
      `\n---\n` separator back into the repository blocks, as long as no
      block runs into that separator. */
  lemma ProfileTextRepos(username: string, bio: Option<string>, languages: seq<string>,
                         topics: seq<string>, repoTexts: seq<string>)
    requires repoTexts != []
    requires forall k :: 0 <= k < |repoTexts| ==> SeparableBy(repoTexts[k], "\n---\n")
    ensures var t := ProfileText(username, bio, languages, topics, repoTexts);
      var head := "GitHub Profile - " + username + "\n";
      var tail := JoinWith("\n---\n", repoTexts);
      && |head| + |tail| <= |t| && t[..|head|] == head
      && SplitOn(t[|t| - |tail|..], "\n---\n") == repoTexts
  {
    var tail := JoinWith("\n---\n", repoTexts);
    HeadAndTail("GitHub Profile - ", username, "\n", "Bio: ", (if bio.Some? then bio.value else ""), "\n\n",
                "Programming Languages: ", JoinWith(", ", languages), "\n",
                "Topics & Skills: ", JoinWith(", ", topics), "\n\n", "Notable Repositories:\n", tail);
    SplitJoin(repoTexts, "\n---\n");
  }

  /** The shape of the summary: a left-nested concatenation keeps its first
      three pieces in front and its last piece at the end. */
  lemma HeadAndTail(a0: string, a1: string, a2: string, a3: string, a4: string, a5: string, a6: string,
                    a7: string, a8: string, a9: string, a10: string, a11: string, a12: string, tail: string)
    ensures var t := a0 + a1 + a2 + a3 + a4 + a5 + a6 + a7 + a8 + a9 + a10 + a11 + a12 + tail;
      && |a0 + a1 + a2| + |tail| <= |t| && t[..|a0 + a1 + a2|] == a0 + a1 + a2
      && t[|t| - |tail|..] == tail
  {
    var head := a0 + a1 + a2;
    var x := a0 + a1 + a2 + a3 + a4 + a5 + a6 + a7 + a8 + a9 + a10 + a11 + a12;
    var rest := a3 + a4 + a5 + a6 + a7 + a8 + a9 + a10 + a11 + a12;
    assert x == head + rest;
    assert (x + tail)[..|head|] == head;
    assert (x + tail)[|x + tail| - |tail|..] == tail;
  }

  /** `_parse_github_profile` on the user's bio and repositories. The two
      set listings come out in some order, returned alongside the text;
      each language and each topic is listed exactly once. */
  method ParseGitHubText(username: string, bio: Option<string>, repos: seq<GitHubAnalyzer.Repo>)
    returns (text: string, languageOrder: seq<string>, topicOrder: seq<string>)
    ensures text == ProfileText(username, bio, languageOrder, topicOrder, OwnRepoTexts(repos))
    ensures forall l :: l in languageOrder <==> exists i :: 0 <= i < |repos| && OwnLanguage(repos[i], l)
    ensures forall t :: t in topicOrder <==> exists i :: 0 <= i < |repos| && !repos[i].fork && t in repos[i].topics
    ensures |languageOrder| == |OwnLanguages(repos)| && |topicOrder| == |OwnTopics(repos)|
    ensures forall i, j :: 0 <= i < j < |languageOrder| ==> languageOrder[i] != languageOrder[j]
    ensures forall i, j :: 0 <= i < j < |topicOrder| ==> topicOrder[i] != topicOrder[j]
  {
    var languages, topics, repoTexts := SummarizeRepos(repos);
    languageOrder := Enumerate(languages);
    topicOrder := Enumerate(topics);
    text := ProfileText(username, bio, languageOrder, topicOrder, repoTexts);
  }

  // ===== parse_github_profile =====

  /** The fields of the user JSON the parser reads. */
  datatype UserRecord = UserRecord(login: Option<string>, name: Option<string>, bio: Option<string>)

  /** The fields of one repository JSON object; `None` is a missing key. */
  datatype RepoRecord = RepoRecord(name: Option<string>, description: Option<string>, stars: Option<int>,
                                   language: Option<string>, url: Option<string>)

  datatype RepoEntry = RepoEntry(name: string, description: Option<string>, stars: int,
                                 language: Option<string>, url: string)

  /** One event JSON object: its `type` and its `created_at` once parsed
      (`None` for a missing key or a time `strptime` rejects). */
  datatype Event = Event(kind: Option<string>, createdAt: Option<int>)

  datatype EventsResponse = EventsResponse(status: int, events: seq<Event>) | RequestFailed

  datatype Profile = Profile(username: Option<string>, name: Option<string>, bio: Option<string>,
                             repositories: seq<RepoEntry>, languages: map<string, nat>,
                             contributionsLastYear: nat)

  /** `if lang:` on a repository JSON object. The aiohttp parser counts
      languages over raw JSON records, whose keys may be missing and which
      carry a URL but no topics or fork flag, while the GitHub analyzer counts
      over PyGithub repository objects; the two record types differ, so the
      language test and the counters below are stated once per type, with
      the same meaning as `GitHubAnalyzer.HasLanguage`, `LanguageCount` and
      `WithLanguage`. */
  predicate HasLanguage(r: RepoRecord)
  {
    r.language.Some? && r.language.value != ""
  }

  function LanguageCount(repos: seq<RepoRecord>, l: string): nat
    decreases |repos|
  {
    if repos == [] then 0
    else
      var r := repos[|repos| - 1];
      LanguageCount(repos[..|repos| - 1], l) + (if HasLanguage(r) && r.language.value == l then 1 else 0)
  }

  function WithLanguage(repos: seq<RepoRecord>): (n: nat)
    ensures n <= |repos|
    decreases |repos|
  {
    if repos == [] then 0 else WithLanguage(repos[..|repos| - 1]) + (if HasLanguage(repos[|repos| - 1]) then 1 else 0)
  }

  /** The language loop of `parse_github_profile`. */
  method CountLanguages(repos: seq<RepoRecord>) returns (languages: map<string, nat>)
    ensures Positive(languages) && forall l :: Get(languages, l) == LanguageCount(repos, l)
    ensures MapSum(languages) == WithLanguage(repos) <= |repos|
  {
    languages := map[];
    for i := 0 to |repos|
      invariant Positive(languages) && forall l :: Get(languages, l) == LanguageCount(repos[..i], l)
      invariant MapSum(languages) == WithLanguage(repos[..i])
    {
      assert repos[..i + 1][..i] == repos[..i];
      var repo := repos[i];
      if HasLanguage(repo) {
        MapSumIncrement(languages, repo.language.value);
        languages := Increment(languages, repo.language.value);
      }
    }
    assert repos[..|repos|] == repos;
  }

  /** The `repositories` list: `repo['name']` and `repo['html_url']` raise on
      a missing key, the star count defaults to 0. */
  function Entries(repos: seq<RepoRecord>): (r: Option<seq<RepoEntry>>)
    ensures r.None? <==> exists i :: 0 <= i < |repos| && (repos[i].name.None? || repos[i].url.None?)
    ensures r.Some? ==> |r.value| == |repos| && forall i :: 0 <= i < |repos| ==>
      r.value[i].name == repos[i].name.value && r.value[i].url == repos[i].url.value
      && r.value[i].language == repos[i].language && r.value[i].description == repos[i].description
      && r.value[i].stars == (if repos[i].stars.Some? then repos[i].stars.value else 0)
    decreases |repos|
  {
    if repos == [] then Some([])
    else
      var init := repos[..|repos| - 1];
      var last := repos[|repos| - 1];
      assert forall i :: 0 <= i < |init| ==> init[i] == repos[i];
      match Entries(init)
      case None => None
      case Some(es) =>
        if last.name.None? || last.url.None? then None
        else Some(es + [RepoEntry(last.name.value, last.description,
                                  if last.stars.Some? then last.stars.value else 0,
                                  last.language, last.url.value)])
  }

  // ===== _get_contributions =====

  /** 365 days, in seconds. */
  const OneYear: real := 31536000.0

  /** An event on which the count raises: it has no type, or it is a push
      without a usable time. */
  predicate Malformed(e: Event)
  {
    e.kind.None? || (e.kind == Some("PushEvent") && e.createdAt.None?)
  }

  /** The pushes strictly after `cutoff`, or `None` when the count raises. */
  function PushesAfter(events: seq<Event>, cutoff: real): (r: Option<nat>)
    ensures r.None? <==> exists i :: 0 <= i < |events| && Malformed(events[i])
    ensures r.Some? ==> r.value <= |events|
    decreases |events|
  {
    if events == [] then Some(0)
    else
      var init := events[..|events| - 1];
      var e := events[|events| - 1];
      assert forall i :: 0 <= i < |init| ==> init[i] == events[i];
      match PushesAfter(init, cutoff)
      case None => None
      case Some(n) =>
        if Malformed(e) then None
        else if e.kind.value == "PushEvent" && e.createdAt.value as real > cutoff then Some(n + 1)
        else Some(n)
  }

  /** `_get_contributions`: 0 when the request fails, answers other than
      200, or the count raises. */
  function Contributions(response: EventsResponse, now: real): (n: nat)
    ensures response.EventsResponse? ==> n <= |response.events|
  {
    match response
    case RequestFailed => 0
    case EventsResponse(status, events) =>
      if status != 200 then 0
      else
        match PushesAfter(events, now - OneYear)
        case Some(k) => k
        case None => 0
  }

  /** Counting is additive over a split of the event list. */
  lemma {:induction false} PushesAfterAppend(a: seq<Event>, b: seq<Event>, cutoff: real)
    ensures var ra, rb := PushesAfter(a, cutoff), PushesAfter(b, cutoff);
      PushesAfter(a + b, cutoff) == if ra.Some? && rb.Some? then Some(ra.value + rb.value) else None
    decreases |b|
  {
    if b == [] {
      assert a + b == a;
    } else {
      var init := b[..|b| - 1];
      assert (a + b)[..|a + b| - 1] == a + init;
      assert (a + b)[|a + b| - 1] == b[|b| - 1];
      PushesAfterAppend(a, init, cutoff);
    }
  }

  /** A later cutoff never counts more pushes. */
  lemma {:induction false} PushesAfterAntitone(events: seq<Event>, c1: real, c2: real)
    requires c1 <= c2
    ensures PushesAfter(events, c1).Some? == PushesAfter(events, c2).Some?
    ensures PushesAfter(events, c2).Some? ==> PushesAfter(events, c2).value <= PushesAfter(events, c1).value
    decreases |events|
  {
    if events != [] {
      PushesAfterAntitone(events[..|events| - 1], c1, c2);
    }
  }

  /** As time passes, the count of the same events never grows. */
  lemma ContributionsAntitone(response: EventsResponse, now1: real, now2: real)
    requires now1 <= now2
    ensures Contributions(response, now2) <= Contributions(response, now1)
  {
    if response.EventsResponse? {
      PushesAfterAntitone(response.events, now1 - OneYear, now2 - OneYear);
    }
  }

  /** `parse_github_profile`: any failed request or missing repository key
      becomes a `ValueError`; the contribution count never fails. */
  method ParseGitHubProfile(userStatus: int, user: UserRecord, reposStatus: int, repos: seq<RepoRecord>,
                            events: EventsResponse, now: real) returns (r: Result<Profile>)
    ensures r.Err? <==> userStatus != 200 || reposStatus != 200 || Entries(repos).None?
    ensures r.Err? ==> r.error == ValueError
    ensures r.Ok? ==> r.value.repositories == Entries(repos).value
    ensures r.Ok? ==> r.value.username == user.login && r.value.name == user.name && r.value.bio == user.bio
    ensures r.Ok? ==> r.value.contributionsLastYear == Contributions(events, now)
    ensures r.Ok? ==> Positive(r.value.languages) && MapSum(r.value.languages) == WithLanguage(repos)
    ensures r.Ok? ==> forall l :: Get(r.value.languages, l) == LanguageCount(repos, l)
  {
    if userStatus != 200 {
      return Err(ValueError);
    }
    if reposStatus != 200 {
      return Err(ValueError);
    }
    var languages := CountLanguages(repos);
    var entries := Entries(repos);
    if entries.None? {
      return Err(ValueError);
    }
    r := Ok(Profile(user.login, user.name, user.bio, entries.value, languages, Contributions(events, now)));
  }
}
