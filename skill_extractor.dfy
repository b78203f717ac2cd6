/** `models/skill_extractor.py`: keyword matching against a fixed per-domain
    table, and years of experience per domain from two regular expressions.

    The two experience regexes are not modelled character by character: a
    `Matcher` stands for `re.findall` with one of them, returning the numbers
    the `(\d+)` group captured, in match order. */
module SkillExtractor {
  import opened Common
  import opened Text

  /** The keyword table, per domain, in the source's order. */
  function DomainSkills(d: Domain): seq<string>
  {
    match d
    case AiMl => ["machine learning", "deep learning", "neural networks", "tensorflow",
                  "pytorch", "scikit-learn", "computer vision", "nlp", "data science"]
    case WebDev => ["react", "angular", "vue", "nodejs", "javascript", "typescript",
                    "html", "css", "web development", "frontend", "backend"]
    case Blockchain => ["solidity", "web3", "ethereum", "smart contracts", "defi",
                        "blockchain", "cryptocurrency", "consensus mechanisms"]
    case Cloud => ["aws", "azure", "gcp", "docker", "kubernetes", "devops",
                   "ci/cd", "microservices", "cloud architecture"]
    case Cybersecurity => ["penetration testing", "security", "cryptography", "network security",
                           "ethical hacking", "vulnerability assessment", "firewall"]
  }

  ghost predicate NoDuplicates<T>(s: seq<T>)
  {
    forall i, j :: 0 <= i < j < |s| ==> s[i] != s[j]
  }

  lemma DomainSkillsDistinct(d: Domain)
    ensures NoDuplicates(DomainSkills(d))
  {
    match d
    case AiMl => assert NoDuplicates(DomainSkills(AiMl));
    case WebDev => assert NoDuplicates(DomainSkills(WebDev));
    case Blockchain => assert NoDuplicates(DomainSkills(Blockchain));
    case Cloud => assert NoDuplicates(DomainSkills(Cloud));
    case Cybersecurity => assert NoDuplicates(DomainSkills(Cybersecurity));
  }

  /** The keywords of `keywords` that occur in `lowered`, in table order. */
  function MatchedIn(keywords: seq<string>, lowered: string): seq<string>
    decreases |keywords|
  {
    if keywords == [] then []
    else
      var last := keywords[|keywords| - 1];
      MatchedIn(keywords[..|keywords| - 1], lowered) + (if Contains(lowered, last) then [last] else [])
  }

  /** The skills of domain `d` found in `text`: only `d`'s own keywords and the
      lowered text take part. */
  function Matched(d: Domain, text: string): seq<string>
  {
    DomainMatches(d, Lower(text))
  }

  function DomainMatches(d: Domain, lowered: string): seq<string>
  {
    MatchedIn(DomainSkills(d), lowered)
  }

  /** The matched keywords are exactly the table's keywords occurring in the
      text, listed in table order: `idx` gives their strictly increasing
      positions in the table. */
  lemma {:induction false} MatchedInOrder(keywords: seq<string>, lowered: string)
    returns (idx: seq<nat>)
    ensures var m := MatchedIn(keywords, lowered);
      |idx| == |m| &&
      (forall i :: 0 <= i < |idx| ==> idx[i] < |keywords| && keywords[idx[i]] == m[i]) &&
      (forall i, j :: 0 <= i < j < |idx| ==> idx[i] < idx[j])
    ensures forall k :: k in MatchedIn(keywords, lowered) <==> k in keywords && Contains(lowered, k)
    decreases |keywords|
  {
    if keywords == [] {
      idx := [];
    } else {
      var n := |keywords| - 1;
      var init := keywords[..n];
      var pre := MatchedInOrder(init, lowered);
      assert forall i :: 0 <= i < |pre| ==> pre[i] < n;
      assert keywords == init + [keywords[n]];
      if Contains(lowered, keywords[n]) {
        idx := pre + [n];
      } else {
        idx := pre;
      }
    }
  }

  /** With a duplicate-free table, the matched list is duplicate-free. */
  lemma {:induction false} MatchedNoDuplicates(d: Domain, text: string)
    ensures NoDuplicates(Matched(d, text))
  {
    var ks := DomainSkills(d);
    DomainSkillsDistinct(d);
    var idx := MatchedInOrder(ks, Lower(text));
    var m := Matched(d, text);
    forall i, j | 0 <= i < j < |m| ensures m[i] != m[j] {
      assert idx[i] < idx[j];
      assert ks[idx[i]] != ks[idx[j]];
    }
  }

  /** The two experience patterns, with the domain key spliced in. */
  datatype ExperiencePattern =
    | YearsThenDomain(domainKey: string)   // (\d+)\s*(?:years?|yrs?).+?(?:experience|exp).+?{domain}
    | DomainThenYears(domainKey: string)   // {domain}.+?(\d+)\s*(?:years?|yrs?).+?(?:experience|exp)

  type Matcher = (ExperiencePattern, string) -> seq<nat>

  function ExperiencePatterns(d: Domain): seq<ExperiencePattern>
  {
    [YearsThenDomain(DomainName(d)), DomainThenYears(DomainName(d))]
  }

  function MaxOf(s: seq<nat>): (r: nat)
    requires s != []
    ensures r in s
    ensures forall x :: x in s ==> x <= r
    decreases |s|
  {
    if |s| == 1 then s[0]
    else
      var m := MaxOf(s[1..]);
      assert forall x :: x in s ==> x == s[0] || x in s[1..];
      if s[0] >= m then s[0] else m
  }

  /** The largest number captured by the first pattern that matches at all, 0 if none does. */
  function FirstMatchMax(find: Matcher, patterns: seq<ExperiencePattern>, lowered: string): nat
    decreases |patterns|
  {
    if patterns == [] then 0
    else if find(patterns[0], lowered) != [] then MaxOf(find(patterns[0], lowered))
    else FirstMatchMax(find, patterns[1..], lowered)
  }

  function ExperienceYears(find: Matcher, d: Domain, text: string): nat
  {
    FirstMatchMax(find, ExperiencePatterns(d), Lower(text))
  }

  /** `_extract_experience`: tries the patterns in order and returns at the first one with matches. */
  method ExtractExperience(find: Matcher, text: string, d: Domain) returns (years: nat)
    ensures years == ExperienceYears(find, d, text)
  {
    var patterns := ExperiencePatterns(d);
    var lowered := Lower(text);
    for i := 0 to |patterns|
      invariant FirstMatchMax(find, patterns, lowered) == FirstMatchMax(find, patterns[i..], lowered)
    {
      assert patterns[i..][1..] == patterns[i + 1..];
      var matches := find(patterns[i], lowered);
      if matches != [] {
        return MaxOf(matches);
      }
    }
    return 0;
  }

  /** The second pattern is consulted only when the first finds nothing; the
      result is the largest captured number, or 0 when neither matches. */
  lemma {:induction false} ExperienceYearsSpec(find: Matcher, d: Domain, text: string)
    ensures var t := Lower(text);
      var first := find(YearsThenDomain(DomainName(d)), t);
      var second := find(DomainThenYears(DomainName(d)), t);
      var r := ExperienceYears(find, d, text);
      (first != [] ==> r in first && forall x :: x in first ==> x <= r) &&
      (first == [] && second != [] ==> r in second && forall x :: x in second ==> x <= r) &&
      (first == [] && second == [] ==> r == 0)
  {
    var ps := ExperiencePatterns(d);
    assert ps[1..][1..] == [];
  }

  /** Extraction reads only the lowered text: upper-casing the input changes nothing. */
  lemma {:induction false} ExperienceIgnoresCase(find: Matcher, d: Domain, text: string)
    ensures ExperienceYears(find, d, Lower(text)) == ExperienceYears(find, d, text)
    ensures Matched(d, Lower(text)) == Matched(d, text)
  {
    LowerIdempotent(text);
  }

  /** The result of `extract_skills`: the matched keywords of each domain that
      has any, and the years of each domain whose year count is non-zero (the
      `<domain>_experience` keys). */
  datatype SkillsAnalysis = SkillsAnalysis(skills: map<Domain, seq<string>>, experience: map<Domain, nat>)

  /** The inner loop of `extract_skills` for one domain `d` with keyword
      list `skills`: appends each matching keyword under `d` (the key
      appears with the first match). */
  method AddDomainMatches(found: map<Domain, seq<string>>, d: Domain, skills: seq<string>, lowered: string)
    returns (out: map<Domain, seq<string>>)
    requires d !in found
    ensures out == if MatchedIn(skills, lowered) != [] then found[d := MatchedIn(skills, lowered)] else found
  {
    out := found;
    for k := 0 to |skills|
      invariant out == if MatchedIn(skills[..k], lowered) != [] then found[d := MatchedIn(skills[..k], lowered)] else found
    {
      MatchedInStep(skills, k, lowered);
      var before := MatchedIn(skills[..k], lowered);
      if Contains(lowered, skills[k]) {
        assert [] + [skills[k]] == [skills[k]];
        out := out[d := (if d in out then out[d] else []) + [skills[k]]];
      } else {
        assert before + [] == before;
      }
    }
    assert skills[..|skills|] == skills;
  }

  lemma MatchedInStep(skills: seq<string>, k: nat, lowered: string)
    requires k < |skills|
    ensures MatchedIn(skills[..k + 1], lowered)
         == MatchedIn(skills[..k], lowered) + (if Contains(lowered, skills[k]) then [skills[k]] else [])
  {
    assert skills[..k + 1][..k] == skills[..k];
  }

  /** The first loop of `extract_skills`: keyword matching, domain by domain. */
  method FindSkills(lowered: string) returns (found: map<Domain, seq<string>>)
    ensures forall d :: d in found <==> DomainMatches(d, lowered) != []
    ensures forall d :: d in found ==> found[d] == DomainMatches(d, lowered)
  {
    found := map[];
    for i := 0 to |Domains|
      invariant found == FoundAfter(Domains[..i], lowered)
    {
      FoundAfterKeys(Domains[..i], lowered);
      DomainNotBefore(i);
      FoundAfterSnoc(Domains, i, lowered);
      found := AddDomainMatches(found, Domains[i], DomainSkills(Domains[i]), lowered);
    }
    assert Domains[..|Domains|] == Domains;
    FoundAfterKeys(Domains, lowered);
    forall d: Domain ensures d in Domains {
      DomainsComplete(d);
    }
  }

  /** The matches map after the domains `ds`, one `AddDomainMatches` each. */
  function FoundAfter(ds: seq<Domain>, lowered: string): map<Domain, seq<string>>
    decreases |ds|
  {
    if ds == [] then map[]
    else
      var found := FoundAfter(ds[..|ds| - 1], lowered);
      var d := ds[|ds| - 1];
      if DomainMatches(d, lowered) != [] then found[d := DomainMatches(d, lowered)] else found
  }

  lemma FoundAfterSnoc(ds: seq<Domain>, i: nat, lowered: string)
    requires i < |ds|
    ensures var found := FoundAfter(ds[..i], lowered);
      var ms := DomainMatches(ds[i], lowered);
      FoundAfter(ds[..i + 1], lowered) == if ms != [] then found[ds[i] := ms] else found
  {
    assert ds[..i + 1][..i] == ds[..i];
  }

  /** After the domains `ds`, exactly those of them with a match are keys,
      each holding its matches. */
  lemma {:induction false} FoundAfterKeys(ds: seq<Domain>, lowered: string)
    ensures forall d :: d in FoundAfter(ds, lowered) <==> d in ds && DomainMatches(d, lowered) != []
    ensures forall d :: d in FoundAfter(ds, lowered) ==> FoundAfter(ds, lowered)[d] == DomainMatches(d, lowered)
    decreases |ds|
  {
    if ds != [] {
      var init := ds[..|ds| - 1];
      FoundAfterKeys(init, lowered);
      assert ds == init + [ds[|ds| - 1]];
    }
  }

  /** The second loop of `extract_skills`: a `<domain>_experience` entry for
      each domain with a non-zero year count. */
  method FindExperience(find: Matcher, text: string) returns (years: map<Domain, nat>)
    ensures forall d :: d in years <==> ExperienceYears(find, d, text) != 0
    ensures forall d :: d in years ==> years[d] == ExperienceYears(find, d, text)
  {
    years := map[];
    for i := 0 to |Domains|
      invariant forall d :: d in years ==> d in Domains[..i]
      invariant forall d :: d in Domains[..i] ==> (d in years <==> ExperienceYears(find, d, text) != 0)
      invariant forall d :: d in years ==> years[d] == ExperienceYears(find, d, text)
    {
      assert Domains[..i + 1] == Domains[..i] + [Domains[i]];
      var experience := ExtractExperience(find, text, Domains[i]);
      if experience != 0 {
        years := years[Domains[i] := experience];
      }
    }
    forall d: Domain ensures d in Domains[..|Domains|] {
      DomainsComplete(d);
    }
  }

  /** `extract_skills`. */
  method ExtractSkills(find: Matcher, text: string) returns (r: SkillsAnalysis)
    ensures forall d :: d in r.skills <==> Matched(d, text) != []
    ensures forall d :: d in r.skills ==> r.skills[d] == Matched(d, text)
    ensures forall d :: d in r.experience <==> ExperienceYears(find, d, text) != 0
    ensures forall d :: d in r.experience ==> r.experience[d] == ExperienceYears(find, d, text)
  {
    var found := FindSkills(Lower(text));
    var years := FindExperience(find, text);
    r := SkillsAnalysis(found, years);
  }
}
