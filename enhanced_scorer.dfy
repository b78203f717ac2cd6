/** `models/enhanced_resume_scorer.py`: splitting the concatenated source
    text back into its sections, combining the rule-based and the LLM
    analyses into one score per domain, and the recommendations drawn from
    those scores. */
module EnhancedScorer {
  import opened Common
  import opened Text
  import ProfileParser
  import ResumeScorer
  import SkillExtractor
  import LlmAnalyzer

  // ===== _split_sections =====

  /** The section marker `re.split` cuts at. */
  const Marker := "\n===\n"

  datatype Source = Resume | GitHub | LinkedIn

  function Tag(src: Source): string
  {
    match src
    case Resume => "RESUME SECTION:"
    case GitHub => "GITHUB SECTION:"
    case LinkedIn => "LINKEDIN SECTION:"
  }

  /** The dictionary `_split_sections` returns: always the three keys. */
  datatype Sections = Sections(resume: string, github: string, linkedin: string)

  const NoSections := Sections("", "", "")

  function Put(s: Sections, src: Source, body: string): Sections
  {
    match src
    case Resume => s.(resume := body)
    case GitHub => s.(github := body)
    case LinkedIn => s.(linkedin := body)
  }

  /** `part.split(tag)[1].strip()` */
  function TagBody(part: string, tag: string): string
    requires tag != [] && Contains(part, tag)
  {
    Strip(SplitOn(part, tag)[1])
  }

  /** One step of the loop: the first tag the part contains, in the order
      resume, GitHub, LinkedIn, decides the section it fills. */
  function Classify(s: Sections, part: string): Sections
  {
    if Contains(part, Tag(Resume)) then Put(s, Resume, TagBody(part, Tag(Resume)))
    else if Contains(part, Tag(GitHub)) then Put(s, GitHub, TagBody(part, Tag(GitHub)))
    else if Contains(part, Tag(LinkedIn)) then Put(s, LinkedIn, TagBody(part, Tag(LinkedIn)))
    else s
  }

  function SectionsOf(parts: seq<string>): Sections
    decreases |parts|
  {
    if parts == [] then NoSections else Classify(SectionsOf(parts[..|parts| - 1]), parts[|parts| - 1])
  }

  /** `_split_sections` */
  method SplitSections(blob: string) returns (sections: Sections)
    ensures sections == SectionsOf(SplitOn(blob, Marker))
  {
    var parts := SplitOn(blob, Marker);
    sections := NoSections;
    for i := 0 to |parts|
      invariant sections == SectionsOf(parts[..i])
    {
      assert parts[..i + 1][..i] == parts[..i];
      var part := parts[i];
      if Contains(part, Tag(Resume)) {
        sections := sections.(resume := TagBody(part, Tag(Resume)));
      } else if Contains(part, Tag(GitHub)) {
        sections := sections.(github := TagBody(part, Tag(GitHub)));
      } else if Contains(part, Tag(LinkedIn)) {
        sections := sections.(linkedin := TagBody(part, Tag(LinkedIn)));
      }
    }
    assert parts[..|parts|] == parts;
  }

  function Section(s: Sections, src: Source): string
  {
    match src
    case Resume => s.resume
    case GitHub => s.github
    case LinkedIn => s.linkedin
  }

  /** A section whose tag no part carries stays `''`. */
  lemma {:induction false} SectionAbsent(parts: seq<string>, src: Source)
    requires forall i :: 0 <= i < |parts| ==> !Contains(parts[i], Tag(src))
    ensures Section(SectionsOf(parts), src) == ""
    decreases |parts|
  {
    if parts != [] {
      var init := parts[..|parts| - 1];
      assert forall i :: 0 <= i < |init| ==> init[i] == parts[i];
      SectionAbsent(init, src);
    }
  }

  /** A body that survives the round trip: no `=` (so no marker can form
      around it) and no section tag. */
  predicate Embeddable(body: string)
  {
    '=' !in body && forall src: Source :: !Contains(body, Tag(src))
  }

  /** The text `_clean_text` produces never holds `=`, so a resume body is
      embeddable unless it spells out a tag. */
  lemma CleanTextNoMarker(text: string)
    ensures '=' !in ProfileParser.CleanText(text)
  {
    ProfileParser.CleanTextShape(text);
    OneLineNoEquals(ProfileParser.CleanText(text));
  }

  lemma OneLineNoEquals(r: string)
    requires ProfileParser.OneLine(r)
    ensures '=' !in r
  {
    forall i | 0 <= i < |r| ensures r[i] != '=' {
      assert ProfileParser.Kept(r[i]);
    }
  }

  /** A piece without `=` never hides a marker, even one running on into
      the marker that follows it. */
  lemma NoEqualsSeparable(p: string)
    requires '=' !in p
    ensures SeparableBy(p, Marker)
  {
    var s := p + Marker[..|Marker| - 1];
    forall j | 0 <= j && j + |Marker| <= |s| ensures !OccursAt(s, Marker, j) {
      if j + 1 < |p| {
        assert s[j + 1] == p[j + 1] != '=';
        assert s[j..j + |Marker|][1] == s[j + 1];
      } else {
        assert s[j + 4] == '=';
        assert s[j..j + |Marker|][4] == s[j + 4];
      }
    }
    ContainsIff(s, Marker);
  }

  /** The part holding one tagged section, as it comes out of the split:
      one or two line breaks, the tag, a line break, the body, a line break. */
  function Part(lead: string, src: Source, body: string): string
  {
    lead + Tag(src) + "\n" + body + "\n"
  }

  lemma NotInEmpty(p: string)
    requires p != []
    ensures !Contains([], p)
  {
  }

  /** Past the header line, a part holds no pattern that lacks line breaks
      and does not occur in the body. */
  lemma HeaderDecides(head: string, body: string, p: string)
    requires p != [] && '\n' !in p && !Contains(body, p)
    ensures Contains(head + "\n" + body + "\n", p) <==> Contains(head, p)
  {
    assert head + "\n" + body + "\n" == head + ['\n'] + (body + ['\n'] + []);
    if Contains(head, p) {
      ContainsExtend(head, "\n" + body + "\n", p);
      assert head + ("\n" + body + "\n") == head + "\n" + body + "\n";
    } else {
      NotInEmpty(p);
      AbsentAcross(body, '\n', [], p);
      AbsentAcross(head, '\n', body + ['\n'] + [], p);
    }
  }

  /** A tag right after the leading line breaks is found there. */
  lemma FindAfterLead(lead: string, tag: string, rest: string)
    requires lead == "\n" || lead == "\n\n"
    requires tag != [] && tag[0] != '\n'
    ensures FindFrom(lead + tag + rest, tag, 0) == Some(|lead|)
  {
    var p := lead + tag + rest;
    assert p[|lead|..|lead| + |tag|] == tag;
    assert OccursAt(p, tag, |lead|);
    forall j | 0 <= j < |lead| ensures !OccursAt(p, tag, j) {
      assert p[j..j + |tag|][0] == p[j] == '\n';
    }
  }

  /** A pattern without line breaks that the body lacks is not in the body
      between two line breaks. */
  lemma NotAroundBody(body: string, tag: string)
    requires tag != [] && '\n' !in tag && !Contains(body, tag)
    ensures !Contains("\n" + body + "\n", tag)
  {
    assert "\n" + body + "\n" == [] + ['\n'] + (body + ['\n'] + []);
    NotInEmpty(tag);
    AbsentAcross(body, '\n', [], tag);
    AbsentAcross([], '\n', body + ['\n'] + [], tag);
  }

  /** What follows the tag is the body between two line breaks. */
  lemma TagBodyAfterLead(lead: string, tag: string, body: string)
    requires lead == "\n" || lead == "\n\n"
    requires tag != [] && tag[0] != '\n' && '\n' !in tag && !Contains(body, tag)
    ensures Contains(lead + tag + "\n" + body + "\n", tag)
    ensures TagBody(lead + tag + "\n" + body + "\n", tag) == Strip(body)
  {
    var rest := "\n" + body + "\n";
    assert lead + tag + rest == lead + tag + "\n" + body + "\n";
    FindAfterLead(lead, tag, rest);
    NotAroundBody(body, tag);
    SplitSecond(lead, tag, rest);
    StripPadded("\n", body, "\n");
  }

  /** When the first occurrence of `tag` ends where `rest` begins and `rest`
      holds none, the second piece of the split is `rest`. */
  lemma SplitSecond(lead: string, tag: string, rest: string)
    requires tag != []
    requires FindFrom(lead + tag + rest, tag, 0) == Some(|lead|)
    requires !Contains(rest, tag)
    ensures Contains(lead + tag + rest, tag)
    ensures SplitOn(lead + tag + rest, tag)[1] == rest
  {
    var p := lead + tag + rest;
    assert p[|lead| + |tag|..] == rest;
    assert SplitOn(rest, tag) == [rest];
  }

  /** A pattern whose first character appears nowhere it could start is
      absent. */
  lemma FirstCharAbsent(h: string, p: string)
    requires p != []
    requires forall j :: 0 <= j && j + |p| <= |h| ==> h[j] != p[0]
    ensures !Contains(h, p)
  {
    forall j | 0 <= j && j + |p| <= |h| ensures !OccursAt(h, p, j) {
      assert h[j..j + |p|][0] == h[j];
    }
    ContainsIff(h, p);
  }

  /** No tag holds the first letter of another tag. */
  lemma OtherInitialAbsent(src: Source, t: Source)
    requires src != t
    ensures Tag(t)[0] !in Tag(src)
  {
    match src
    case Resume =>
      assert forall k :: 0 <= k < |"RESUME SECTION:"| ==> "RESUME SECTION:"[k] != 'G' && "RESUME SECTION:"[k] != 'L';
    case GitHub =>
      assert forall k :: 0 <= k < |"GITHUB SECTION:"| ==> "GITHUB SECTION:"[k] != 'R' && "GITHUB SECTION:"[k] != 'L';
    case LinkedIn =>
      assert forall k :: 0 <= k < |"LINKEDIN SECTION:"| ==> "LINKEDIN SECTION:"[k] != 'R' && "LINKEDIN SECTION:"[k] != 'G';
  }

  /** A string occurs in a concatenation right after the prefix. */
  lemma OccursAfter(a: string, b: string)
    ensures OccursAt(a + b, b, |a|)
  {
    assert (a + b)[|a|..|a| + |b|] == b;
  }

  /** The tags do not occur in each other's header lines. */
  lemma HeaderTags(lead: string, src: Source, t: Source)
    requires lead == "\n" || lead == "\n\n"
    ensures Contains(lead + Tag(src), Tag(t)) <==> src == t
  {
    var h := lead + Tag(src);
    var p := Tag(t);
    if src == t {
      OccursAfter(lead, p);
      ContainsIff(h, p);
    } else {
      OtherInitialAbsent(src, t);
      forall j | 0 <= j && j + |p| <= |h| ensures h[j] != p[0] {
        if j >= |lead| {
          assert h[j] == Tag(src)[j - |lead|];
          assert h[j] in Tag(src);
        }
      }
      FirstCharAbsent(h, p);
    }
  }

  /** Every tag sits on one line. */
  lemma TagOneLine(src: Source)
    ensures '\n' !in Tag(src)
  {
    match src
    case Resume =>
      assert forall k :: 0 <= k < |"RESUME SECTION:"| ==> "RESUME SECTION:"[k] != '\n';
    case GitHub =>
      assert forall k :: 0 <= k < |"GITHUB SECTION:"| ==> "GITHUB SECTION:"[k] != '\n';
    case LinkedIn =>
      assert forall k :: 0 <= k < |"LINKEDIN SECTION:"| ==> "LINKEDIN SECTION:"[k] != '\n';
  }

  lemma ClassifyPart(s: Sections, lead: string, src: Source, body: string)
    requires lead == "\n" || lead == "\n\n"
    requires Embeddable(body)
    ensures Classify(s, Part(lead, src, body)) == Put(s, src, Strip(body))
  {
    var head := lead + Tag(src);
    assert Part(lead, src, body) == head + "\n" + body + "\n";
    TagOneLine(Resume);
    TagOneLine(GitHub);
    TagOneLine(LinkedIn);
    HeaderDecides(head, body, Tag(Resume));
    HeaderDecides(head, body, Tag(GitHub));
    HeaderDecides(head, body, Tag(LinkedIn));
    HeaderTags(lead, src, Resume);
    HeaderTags(lead, src, GitHub);
    HeaderTags(lead, src, LinkedIn);
    TagBodyAfterLead(lead, Tag(src), body);
  }

  /** The present sources with their bodies, in the order they are joined. */
  function Entries(resume: Option<string>, github: Option<string>, linkedin: Option<string>): seq<(Source, string)>
  {
    (if resume.Some? then [(Resume, resume.value)] else [])
    + (if github.Some? then [(GitHub, github.value)] else [])
    + (if linkedin.Some? then [(LinkedIn, linkedin.value)] else [])
  }

  function Tagged(entries: seq<(Source, string)>): (r: seq<string>)
    ensures |r| == |entries|
  {
    seq(|entries|, i requires 0 <= i < |entries| => Tag(entries[i].0) + "\n" + entries[i].1)
  }

  function Lead(i: nat): string
  {
    if i == 0 then "\n\n" else "\n"
  }

  /** The parts the split produces from the joined entries. */
  function Parts(entries: seq<(Source, string)>): (r: seq<string>)
    ensures |r| == |entries|
  {
    seq(|entries|, i requires 0 <= i < |entries| => Part(Lead(i), entries[i].0, entries[i].1))
  }

  /** Each section filled in turn with its stripped body. */
  function Fill(entries: seq<(Source, string)>): Sections
    decreases |entries|
  {
    if entries == [] then NoSections
    else
      var e := entries[|entries| - 1];
      Put(Fill(entries[..|entries| - 1]), e.0, Strip(e.1))
  }

  lemma SourceEntries(resume: Option<string>, github: Option<string>, linkedin: Option<string>)
    ensures ProfileParser.SourceSections(resume, github, linkedin) == Tagged(Entries(resume, github, linkedin))
  {
    var r := if resume.Some? then [(Resume, resume.value)] else [];
    var g := if github.Some? then [(GitHub, github.value)] else [];
    var l := if linkedin.Some? then [(LinkedIn, linkedin.value)] else [];
    TaggedAppend(r + g, l);
    TaggedAppend(r, g);
    assert Tag(Resume) + "\n" == "RESUME SECTION:\n";
    assert Tag(GitHub) + "\n" == "GITHUB SECTION:\n";
    assert Tag(LinkedIn) + "\n" == "LINKEDIN SECTION:\n";
    if resume.Some? { TaggedOne(Resume, resume.value); }
    if github.Some? { TaggedOne(GitHub, github.value); }
    if linkedin.Some? { TaggedOne(LinkedIn, linkedin.value); }
  }

  lemma TaggedOne(src: Source, body: string)
    ensures Tagged([(src, body)]) == [Tag(src) + "\n" + body]
  {
  }

  lemma TaggedAppend(a: seq<(Source, string)>, b: seq<(Source, string)>)
    ensures Tagged(a + b) == Tagged(a) + Tagged(b)
  {
  }

  /** Every string wrapped in line breaks. */
  function Wrap(ss: seq<string>): (r: seq<string>)
    ensures |r| == |ss|
    ensures forall i :: 0 <= i < |ss| ==> r[i] == "\n" + ss[i] + "\n"
  {
    seq(|ss|, i requires 0 <= i < |ss| => "\n" + ss[i] + "\n")
  }

  /** Wrapping every section in line breaks turns the separator join into
      the marker join. */
  lemma {:induction false} WrapJoin(ss: seq<string>)
    requires ss != []
    ensures "\n" + JoinWith(ProfileParser.SectionSeparator, ss) + "\n" == JoinWith(Marker, Wrap(ss))
    decreases |ss|
  {
    var w := Wrap(ss);
    if |ss| == 1 {
      assert JoinWith(Marker, w) == w[0];
    } else {
      var tail := ss[1..];
      assert w[1..] == Wrap(tail);
      WrapJoin(tail);
      var j := JoinWith(ProfileParser.SectionSeparator, tail);
      assert ProfileParser.SectionSeparator == "\n" + Marker + "\n";
      assert JoinWith(ProfileParser.SectionSeparator, ss) == ss[0] + ProfileParser.SectionSeparator + j;
      assert JoinWith(Marker, w) == w[0] + Marker + JoinWith(Marker, w[1..]);
      assert JoinWith(Marker, w[1..]) == "\n" + j + "\n";
    }
  }

  /** Putting `x` in front of the first part puts it in front of the join. */
  lemma JoinLead(sep: string, ps: seq<string>, w: seq<string>, x: string)
    requires |ps| == |w| && w != []
    requires ps[0] == x + w[0] && forall i :: 1 <= i < |ps| ==> ps[i] == w[i]
    ensures JoinWith(sep, ps) == x + JoinWith(sep, w)
  {
    assert ps[1..] == w[1..];
    if |ps| > 1 {
      assert JoinWith(sep, ps) == ps[0] + sep + JoinWith(sep, ps[1..]);
    }
  }

  lemma PartsWrap(entries: seq<(Source, string)>)
    requires entries != []
    ensures Parts(entries)[0] == "\n" + Wrap(Tagged(entries))[0]
    ensures forall i :: 1 <= i < |entries| ==> Parts(entries)[i] == Wrap(Tagged(entries))[i]
  {
    PartAt(entries, 0);
    forall i | 1 <= i < |entries| ensures Parts(entries)[i] == Wrap(Tagged(entries))[i] {
      PartAt(entries, i);
    }
  }

  /** A part is its tagged section wrapped in line breaks, after one more
      line break for the first. */
  lemma PartAt(entries: seq<(Source, string)>, i: nat)
    requires i < |entries|
    ensures Parts(entries)[i] == (if i == 0 then "\n" else "") + Wrap(Tagged(entries))[i]
  {
    var e := entries[i];
    assert Tagged(entries)[i] == Tag(e.0) + "\n" + e.1;
    assert Parts(entries)[i] == Part(Lead(i), e.0, e.1);
    if i == 0 {
      FirstPartWrapped(e.0, e.1);
    } else {
      PartWrapped(e.0, e.1);
    }
  }

  lemma PartWrapped(src: Source, body: string)
    ensures Part("\n", src, body) == "\n" + (Tag(src) + "\n" + body) + "\n"
  {
  }

  lemma FirstPartWrapped(src: Source, body: string)
    ensures Part("\n\n", src, body) == "\n" + ("\n" + (Tag(src) + "\n" + body) + "\n")
  {
    assert "\n\n" == "\n" + "\n";
  }

  /** `parse_all_sources`' text is the marker join of the parts. */
  lemma BlobParts(entries: seq<(Source, string)>)
    requires entries != []
    ensures "\n\n" + JoinWith(ProfileParser.SectionSeparator, Tagged(entries)) + "\n"
         == JoinWith(Marker, Parts(entries))
  {
    WrapJoin(Tagged(entries));
    PartsWrap(entries);
    JoinLead(Marker, Parts(entries), Wrap(Tagged(entries)), "\n");
    DoubleLead(JoinWith(ProfileParser.SectionSeparator, Tagged(entries)));
  }

  lemma DoubleLead(j: string)
    ensures "\n\n" + j + "\n" == "\n" + ("\n" + j + "\n")
  {
    assert "\n\n" == "\n" + "\n";
  }

  lemma SectionsOfSnoc(ps: seq<string>, prefix: seq<string>, last: string)
    requires ps == prefix + [last]
    ensures SectionsOf(ps) == Classify(SectionsOf(prefix), last)
  {
    assert ps[..|ps| - 1] == prefix;
  }

  lemma FillSnoc(es: seq<(Source, string)>, prefix: seq<(Source, string)>, last: (Source, string))
    requires es == prefix + [last]
    ensures Fill(es) == Put(Fill(prefix), last.0, Strip(last.1))
  {
    assert es[..|es| - 1] == prefix;
  }

  lemma PartsSnoc(es: seq<(Source, string)>)
    requires es != []
    ensures Parts(es) == Parts(es[..|es| - 1]) + [Part(Lead(|es| - 1), es[|es| - 1].0, es[|es| - 1].1)]
  {
    var n := |es| - 1;
    var prefix := es[..n];
    var lhs := Parts(es);
    var rhs := Parts(prefix) + [Part(Lead(n), es[n].0, es[n].1)];
    forall i | 0 <= i < |lhs| ensures lhs[i] == rhs[i] {
      if i < n {
        assert prefix[i] == es[i];
      }
    }
    assert lhs == rhs;
  }

  /** Classifying the parts, one after the other, fills the sections. */
  lemma {:induction false} SectionsOfParts(es: seq<(Source, string)>)
    requires forall i :: 0 <= i < |es| ==> Embeddable(es[i].1)
    ensures SectionsOf(Parts(es)) == Fill(es)
    decreases |es|
  {
    if es != [] {
      var n := |es| - 1;
      var prefix := es[..n];
      var e := es[n];
      SectionsOfParts(prefix);
      PartsSnoc(es);
      SectionsOfSnoc(Parts(es), Parts(prefix), Part(Lead(n), e.0, e.1));
      ClassifyPart(SectionsOf(Parts(prefix)), Lead(n), e.0, e.1);
    }
  }

  /** Filling the present entries in order sets each present body and
      leaves the absent ones `''`. */
  lemma FillEntries(resume: Option<string>, github: Option<string>, linkedin: Option<string>)
    ensures Fill(Entries(resume, github, linkedin)) == Sections(BodyOr(resume), BodyOr(github), BodyOr(linkedin))
  {
    var r := if resume.Some? then [(Resume, resume.value)] else [];
    var g := if github.Some? then [(GitHub, github.value)] else [];
    var l := if linkedin.Some? then [(LinkedIn, linkedin.value)] else [];
    FillOptional([], Resume, resume);
    assert [] + r == r;
    FillOptional(r, GitHub, github);
    FillOptional(r + g, LinkedIn, linkedin);
  }

  /** Filling one more optional entry puts its stripped body, or nothing. */
  lemma FillOptional(es: seq<(Source, string)>, src: Source, o: Option<string>)
    ensures Fill(es + (if o.Some? then [(src, o.value)] else []))
         == if o.Some? then Put(Fill(es), src, Strip(o.value)) else Fill(es)
  {
    if o.Some? {
      FillSnoc(es + [(src, o.value)], es, (src, o.value));
    } else {
      assert es + [] == es;
    }
  }

  /** With no source present the text holds no marker and no tag. */
  lemma SplitNoSources()
    ensures SectionsOf(SplitOn("\n\n" + JoinWith(ProfileParser.SectionSeparator, []) + "\n", Marker)) == NoSections
  {
    var blob := "\n\n" + JoinWith(ProfileParser.SectionSeparator, []) + "\n";
    assert blob == "\n\n\n";
    AbsentCharExcludes(blob, Marker, '=');
    assert SplitOn(blob, Marker) == [blob];
    assert [blob][..0] == [];
    AbsentCharExcludes(blob, Tag(Resume), 'R');
    AbsentCharExcludes(blob, Tag(GitHub), 'G');
    AbsentCharExcludes(blob, Tag(LinkedIn), 'L');
  }

  /** With some source present the split gives back the parts, and the loop
      fills the sections from them. */
  lemma SplitSomeSources(es: seq<(Source, string)>)
    requires es != []
    requires forall i :: 0 <= i < |es| ==> Embeddable(es[i].1)
    ensures SectionsOf(SplitOn("\n\n" + JoinWith(ProfileParser.SectionSeparator, Tagged(es)) + "\n", Marker))
         == Fill(es)
  {
    BlobParts(es);
    SplitParts(es);
    SectionsOfParts(es);
  }

  lemma SplitParts(es: seq<(Source, string)>)
    requires es != []
    requires forall i :: 0 <= i < |es| ==> Embeddable(es[i].1)
    ensures SplitOn(JoinWith(Marker, Parts(es)), Marker) == Parts(es)
  {
    PartsSeparable(es);
    SplitJoin(Parts(es), Marker);
  }

  lemma PartsSeparable(es: seq<(Source, string)>)
    requires forall i :: 0 <= i < |es| ==> Embeddable(es[i].1)
    ensures forall i :: 0 <= i < |es| ==> SeparableBy(Parts(es)[i], Marker)
  {
    forall i | 0 <= i < |es| ensures SeparableBy(Parts(es)[i], Marker) {
      PartSeparable(Lead(i), es[i].0, es[i].1);
    }
  }

  lemma PartSeparable(lead: string, src: Source, body: string)
    requires '=' !in lead && '=' !in body
    ensures SeparableBy(Part(lead, src, body), Marker)
  {
    assert '=' !in Tag(src);
    NoEqualsSeparable(Part(lead, src, body));
  }

  function BodyOr(o: Option<string>): string
  {
    if o.Some? then Strip(o.value) else ""
  }

  lemma EntriesEmbeddable(resume: Option<string>, github: Option<string>, linkedin: Option<string>)
    requires resume.Some? ==> Embeddable(resume.value)
    requires github.Some? ==> Embeddable(github.value)
    requires linkedin.Some? ==> Embeddable(linkedin.value)
    ensures var es := Entries(resume, github, linkedin);
      forall i :: 0 <= i < |es| ==> Embeddable(es[i].1)
  {
  }

  /** Splitting what `parse_all_sources` assembles gives back every body it
      was given, stripped, and `''` for every source left out, provided no
      body holds `=` or a section tag. */
  lemma SplitSourcesRoundTrip(resume: Option<string>, github: Option<string>, linkedin: Option<string>)
    requires resume.Some? ==> Embeddable(resume.value)
    requires github.Some? ==> Embeddable(github.value)
    requires linkedin.Some? ==> Embeddable(linkedin.value)
    ensures var blob := "\n\n" + JoinWith(ProfileParser.SectionSeparator,
                                          ProfileParser.SourceSections(resume, github, linkedin)) + "\n";
      SectionsOf(SplitOn(blob, Marker)) == Sections(BodyOr(resume), BodyOr(github), BodyOr(linkedin))
  {
    SourceEntries(resume, github, linkedin);
    FillEntries(resume, github, linkedin);
    var es := Entries(resume, github, linkedin);
    if es == [] {
      assert Tagged(es) == [];
      SplitNoSources();
    } else {
      EntriesEmbeddable(resume, github, linkedin);
      SplitSomeSources(es);
    }
  }

  // ===== _combine_analyses =====

  /** `source_completeness` */
  datatype Completeness = Completeness(resume: bool, github: bool, linkedin: bool)

  /** One domain's entry of `enhanced_scores`. */
  datatype Enhanced = Enhanced(domain: Domain, score: real, technical: LlmAnalyzer.Report,
                               project: LlmAnalyzer.Report, growth: LlmAnalyzer.Value,
                               completeness: Completeness)

  datatype LearningItem = LearningItem(domain: Domain, focusAreas: seq<string>, suggestedProjects: seq<string>)

  datatype Recommendations = Recommendations(strongest: seq<Domain>, improvement: seq<Domain>,
                                             focus: seq<Domain>, learningPath: seq<LearningItem>)

  /** `{}` when there are no traditional scores, the full record otherwise;
      `traditional` is the whole rule-based result, not only its scores. */
  datatype Combined = NoScores
                    | Combined(enhanced: seq<Enhanced>, llm: LlmAnalyzer.Analysis,
                               traditional: ResumeScorer.ScoreResult, recommendations: Recommendations)

  function OrZero(x: Option<real>): real
  {
    if x.Some? then x.value else 0.0
  }

  function OrNone(x: Option<seq<string>>): seq<string>
  {
    if x.Some? then x.value else []
  }

  function GitHubFactor(s: Sections): real
  {
    if s.github != "" then 1.0 else 0.8
  }

  function LinkedInFactor(s: Sections): real
  {
    if s.linkedin != "" then 1.0 else 0.9
  }

  /** The enhanced score of one domain. */
  function EnhancedScore(traditional: real, depth: real, project: real, gf: real, lf: real): real
  {
    Round2(0.4 * traditional * gf * lf + 0.3 * depth + 0.3 * project)
  }

  /** Inputs on the 0-10 scale give an enhanced score on the same scale. */
  lemma EnhancedScoreBounds(traditional: real, depth: real, project: real, sections: Sections)
    requires 0.0 <= traditional <= 10.0 && 0.0 <= depth <= 10.0 && 0.0 <= project <= 10.0
    ensures 0.0 <= EnhancedScore(traditional, depth, project, GitHubFactor(sections), LinkedInFactor(sections)) <= 10.0
  {
    var gf, lf := GitHubFactor(sections), LinkedInFactor(sections);
    var x := 0.4 * traditional * gf * lf + 0.3 * depth + 0.3 * project;
    assert 0.0 <= 0.4 * traditional * gf * lf <= 4.0 by {
      if sections.github != "" && sections.linkedin != "" {
        assert 0.4 * traditional * gf * lf == 0.4 * traditional;
      } else if sections.github != "" {
        assert 0.4 * traditional * gf * lf == 0.36 * traditional;
      } else if sections.linkedin != "" {
        assert 0.4 * traditional * gf * lf == 0.32 * traditional;
      } else {
        assert 0.4 * traditional * gf * lf == 0.288 * traditional;
      }
    }
    Round2Within(x, 0, 1000);
  }

  /** A missing GitHub or LinkedIn section never raises a domain's score. */
  lemma MissingSourcesLower(traditional: real, depth: real, project: real, sections: Sections)
    requires traditional >= 0.0
    ensures EnhancedScore(traditional, depth, project, GitHubFactor(sections), LinkedInFactor(sections))
         <= EnhancedScore(traditional, depth, project, 1.0, 1.0)
  {
    var gf, lf := GitHubFactor(sections), LinkedInFactor(sections);
    assert 0.4 * traditional * gf * lf <= 0.4 * traditional * 1.0 * 1.0 by {
      if sections.github != "" && sections.linkedin != "" {
        assert 0.4 * traditional * gf * lf == 0.4 * traditional;
      } else if sections.github != "" {
        assert 0.4 * traditional * gf * lf == 0.36 * traditional;
      } else if sections.linkedin != "" {
        assert 0.4 * traditional * gf * lf == 0.32 * traditional;
      } else {
        assert 0.4 * traditional * gf * lf == 0.288 * traditional;
      }
    }
    Round2Monotone(0.4 * traditional * gf * lf + 0.3 * depth + 0.3 * project,
                   0.4 * traditional * 1.0 * 1.0 + 0.3 * depth + 0.3 * project);
  }

  /** One entry of `enhanced_scores`, given the two LLM dictionaries. */
  function EntryFor(d: Domain, t: real, technical: LlmAnalyzer.Report, project: LlmAnalyzer.Report,
                    growth: LlmAnalyzer.Value, sections: Sections): Enhanced
  {
    Enhanced(d, EnhancedScore(t, OrZero(technical.skillDepth), OrZero(project.projectScore),
                              GitHubFactor(sections), LinkedInFactor(sections)),
             technical, project, growth,
             Completeness(sections.resume != "", sections.github != "", sections.linkedin != ""))
  }

  /** `_combine_analyses`. `traditional` is the record `score_resume`
      returns; its `domain_scores` key is always present, so only an empty
      score list yields `{}`. A non-dictionary LLM analysis makes `.get`
      raise, which surfaces as `ResumeAnalysisError`. */
  method CombineAnalyses(traditional: ResumeScorer.ScoreResult, llm: LlmAnalyzer.Analysis,
                         sections: Sections) returns (r: Result<Combined>)
    ensures traditional.domainScores == [] ==> r == Ok(NoScores)
    ensures traditional.domainScores != [] ==>
      (r.Err? <==> llm.technical.NotDict? || llm.project.NotDict? || llm.growth.NotDict?)
    ensures r.Err? ==> r.error == ResumeAnalysisError
    ensures traditional.domainScores != [] && r.Ok? ==> r.value.Combined?
    ensures r.Ok? && r.value.Combined? ==>
      && llm.technical.Dict? && llm.project.Dict?
      && |r.value.enhanced| == |traditional.domainScores|
      && (forall i :: 0 <= i < |traditional.domainScores| ==>
            r.value.enhanced[i] == EntryFor(traditional.domainScores[i].0, traditional.domainScores[i].1,
                                            llm.technical.report, llm.project.report, llm.growth, sections))
      && r.value.recommendations == Recommend(r.value.enhanced)
      && r.value.llm == llm && r.value.traditional == traditional
  {
    if traditional.domainScores == [] {
      return Ok(NoScores);
    }
    if llm.technical.NotDict? || llm.project.NotDict? {
      return Err(ResumeAnalysisError);
    }
    var scores := traditional.domainScores;
    var enhanced: seq<Enhanced> := [];
    for i := 0 to |scores|
      invariant |enhanced| == i
      invariant forall k :: 0 <= k < i ==>
        enhanced[k] == EntryFor(scores[k].0, scores[k].1, llm.technical.report, llm.project.report, llm.growth, sections)
    {
      enhanced := enhanced + [EntryFor(scores[i].0, scores[i].1, llm.technical.report, llm.project.report,
                                       llm.growth, sections)];
    }
    var recommendations := GenerateRecommendations(enhanced);
    if recommendations.Err? {
      assert enhanced[0].growth == llm.growth;
      return Err(ResumeAnalysisError);
    }
    r := Ok(Combined(enhanced, llm, traditional, recommendations.value));
  }

  // ===== _generate_recommendations =====

  function Strongest(entries: seq<Enhanced>): (r: seq<Domain>)
    ensures |r| <= |entries|
    decreases |entries|
  {
    if entries == [] then []
    else
      var e := entries[|entries| - 1];
      Strongest(entries[..|entries| - 1]) + (if e.score >= 8.0 then [e.domain] else [])
  }

  function Weakest(entries: seq<Enhanced>): (r: seq<Domain>)
    ensures |r| <= |entries|
    decreases |entries|
  {
    if entries == [] then []
    else
      var e := entries[|entries| - 1];
      Weakest(entries[..|entries| - 1]) + (if e.score < 6.0 then [e.domain] else [])
  }

  function GrowthScore(e: Enhanced): real
    requires e.growth.Dict?
  {
    OrZero(e.growth.report.score)
  }

  /** The learning item of one entry: its improvement areas and recommended projects. */
  function ItemFor(e: Enhanced): LearningItem
  {
    LearningItem(e.domain, OrNone(e.technical.improvementAreas), OrNone(e.project.recommendedProjects))
  }

  function LearningPath(entries: seq<Enhanced>): (r: seq<LearningItem>)
    requires forall i :: 0 <= i < |entries| ==> entries[i].growth.Dict?
    ensures |r| <= |entries|
    decreases |entries|
  {
    if entries == [] then []
    else
      var e := entries[|entries| - 1];
      LearningPath(entries[..|entries| - 1]) + (if GrowthScore(e) >= 7.0 then [ItemFor(e)] else [])
  }

  /** `recommended_focus` */
  function Focus(weakest: seq<Domain>, strongest: seq<Domain>): (r: seq<Domain>)
  {
    if weakest != [] then weakest[..if |weakest| < 2 then |weakest| else 2]
    else if strongest != [] then strongest[..1]
    else []
  }

  /** What `_generate_recommendations` returns when no growth analysis is
      malformed. */
  function Recommend(entries: seq<Enhanced>): Recommendations
  {
    if forall i :: 0 <= i < |entries| ==> entries[i].growth.Dict?
    then
      var strongest, weakest := Strongest(entries), Weakest(entries);
      Recommendations(strongest, weakest, Focus(weakest, strongest), LearningPath(entries))
    else Recommendations([], [], [], [])
  }

  /** `_generate_recommendations`: a growth analysis that is not a
      dictionary makes `.get` raise. */
  method GenerateRecommendations(entries: seq<Enhanced>) returns (r: Result<Recommendations>)
    ensures r.Err? <==> exists i :: 0 <= i < |entries| && entries[i].growth.NotDict?
    ensures r.Err? ==> r.error == ResumeAnalysisError
    ensures r.Ok? ==> r.value == Recommend(entries)
  {
    if entries == [] {
      return Ok(Recommendations([], [], [], []));
    }
    var strongest: seq<Domain> := [];
    var weakest: seq<Domain> := [];
    var learning: seq<LearningItem> := [];
    for i := 0 to |entries|
      invariant forall k :: 0 <= k < i ==> entries[k].growth.Dict?
      invariant strongest == Strongest(entries[..i]) && weakest == Weakest(entries[..i])
      invariant learning == LearningPath(entries[..i])
    {
      assert entries[..i + 1][..i] == entries[..i];
      var e := entries[i];
      if e.growth.NotDict? {
        return Err(ResumeAnalysisError);
      }
      if e.score >= 8.0 {
        strongest := strongest + [e.domain];
      } else if e.score < 6.0 {
        weakest := weakest + [e.domain];
      }
      if OrZero(e.growth.report.score) >= 7.0 {
        learning := learning + [ItemFor(e)];
      }
    }
    assert entries[..|entries|] == entries;
    var focus: seq<Domain> := [];
    if weakest != [] {
      focus := weakest[..if |weakest| < 2 then |weakest| else 2];
    } else if strongest != [] {
      focus := strongest[..1];
    }
    r := Ok(Recommendations(strongest, weakest, focus, learning));
  }

  /** A domain is among the strongest exactly when one of its entries scores
      at least 8. */
  lemma StrongestMembers(entries: seq<Enhanced>, d: Domain)
    ensures d in Strongest(entries) <==> exists i :: 0 <= i < |entries| && entries[i].domain == d && entries[i].score >= 8.0
  {
    if d in Strongest(entries) {
      var i := StrongestFrom(entries, d);
    }
    if exists i :: 0 <= i < |entries| && entries[i].domain == d && entries[i].score >= 8.0 {
      var i :| 0 <= i < |entries| && entries[i].domain == d && entries[i].score >= 8.0;
      StrongestHas(entries, i);
    }
  }

  /** Every strongest domain comes from an entry scoring at least 8. */
  lemma {:induction false} StrongestFrom(entries: seq<Enhanced>, d: Domain) returns (i: nat)
    requires d in Strongest(entries)
    ensures i < |entries| && entries[i].domain == d && entries[i].score >= 8.0
    decreases |entries|
  {
    var n := |entries| - 1;
    var init := entries[..n];
    if d in Strongest(init) {
      i := StrongestFrom(init, d);
      assert init[i] == entries[i];
    } else {
      i := n;
    }
  }

  /** Every entry scoring at least 8 puts its domain among the strongest. */
  lemma {:induction false} StrongestHas(entries: seq<Enhanced>, i: nat)
    requires i < |entries| && entries[i].score >= 8.0
    ensures entries[i].domain in Strongest(entries)
    decreases |entries|
  {
    var n := |entries| - 1;
    if i < n {
      var init := entries[..n];
      assert init[i] == entries[i];
      StrongestHas(init, i);
    }
  }

  /** A domain is among the improvement areas exactly when one of its
      entries scores below 6. */
  lemma WeakestMembers(entries: seq<Enhanced>, d: Domain)
    ensures d in Weakest(entries) <==> exists i :: 0 <= i < |entries| && entries[i].domain == d && entries[i].score < 6.0
  {
    if d in Weakest(entries) {
      var i := WeakestFrom(entries, d);
    }
    if exists i :: 0 <= i < |entries| && entries[i].domain == d && entries[i].score < 6.0 {
      var i :| 0 <= i < |entries| && entries[i].domain == d && entries[i].score < 6.0;
      WeakestHas(entries, i);
    }
  }

  /** Every improvement area comes from an entry scoring below 6. */
  lemma {:induction false} WeakestFrom(entries: seq<Enhanced>, d: Domain) returns (i: nat)
    requires d in Weakest(entries)
    ensures i < |entries| && entries[i].domain == d && entries[i].score < 6.0
    decreases |entries|
  {
    var n := |entries| - 1;
    var init := entries[..n];
    if d in Weakest(init) {
      i := WeakestFrom(init, d);
      assert init[i] == entries[i];
    } else {
      i := n;
    }
  }

  /** Every entry scoring below 6 puts its domain among the improvement areas. */
  lemma {:induction false} WeakestHas(entries: seq<Enhanced>, i: nat)
    requires i < |entries| && entries[i].score < 6.0
    ensures entries[i].domain in Weakest(entries)
    decreases |entries|
  {
    var n := |entries| - 1;
    if i < n {
      var init := entries[..n];
      assert init[i] == entries[i];
      WeakestHas(init, i);
    }
  }

  /** With one entry per domain, no domain is both strong and weak, and a
      domain scoring in [6, 8) is in neither list. */
  lemma RecommendDisjoint(entries: seq<Enhanced>, d: Domain)
    requires forall i, j :: 0 <= i < j < |entries| ==> entries[i].domain != entries[j].domain
    ensures !(d in Strongest(entries) && d in Weakest(entries))
    ensures (exists i :: 0 <= i < |entries| && entries[i].domain == d && 6.0 <= entries[i].score < 8.0)
      ==> d !in Strongest(entries) && d !in Weakest(entries)
  {
    if d in Strongest(entries) {
      var i := StrongestFrom(entries, d);
      WeakestExcludes(entries, i);
    }
    if exists i :: 0 <= i < |entries| && entries[i].domain == d && 6.0 <= entries[i].score < 8.0 {
      var i :| 0 <= i < |entries| && entries[i].domain == d && 6.0 <= entries[i].score < 8.0;
      StrongestExcludes(entries, i);
      WeakestExcludes(entries, i);
    }
  }

  /** With one entry per domain, an entry scoring below 8 keeps its domain
      out of the strongest. */
  lemma {:induction false} StrongestExcludes(entries: seq<Enhanced>, i: nat)
    requires forall i, j :: 0 <= i < j < |entries| ==> entries[i].domain != entries[j].domain
    requires i < |entries| && entries[i].score < 8.0
    ensures entries[i].domain !in Strongest(entries)
    decreases |entries|
  {
    var n := |entries| - 1;
    var init := entries[..n];
    var x := entries[i].domain;
    if i == n {
      forall e | e in Strongest(init) ensures e != x {
        var j := StrongestFrom(init, e);
        assert init[j] == entries[j];
      }
    } else {
      assert init[i] == entries[i];
      StrongestExcludes(init, i);
    }
  }

  /** With one entry per domain, an entry scoring at least 6 keeps its
      domain out of the improvement areas. */
  lemma {:induction false} WeakestExcludes(entries: seq<Enhanced>, i: nat)
    requires forall i, j :: 0 <= i < j < |entries| ==> entries[i].domain != entries[j].domain
    requires i < |entries| && entries[i].score >= 6.0
    ensures entries[i].domain !in Weakest(entries)
    decreases |entries|
  {
    var n := |entries| - 1;
    var init := entries[..n];
    var x := entries[i].domain;
    if i == n {
      forall e | e in Weakest(init) ensures e != x {
        var j := WeakestFrom(init, e);
        assert init[j] == entries[j];
      }
    } else {
      assert init[i] == entries[i];
      WeakestExcludes(init, i);
    }
  }

  /** The focus is the first two improvement areas, else the first strongest
      domain, else nothing. */
  lemma FocusShape(weakest: seq<Domain>, strongest: seq<Domain>)
    ensures |Focus(weakest, strongest)| <= 2
    ensures weakest != [] ==> Focus(weakest, strongest) <= weakest
                              && |Focus(weakest, strongest)| == if |weakest| < 2 then |weakest| else 2
    ensures weakest == [] && strongest != [] ==> Focus(weakest, strongest) == [strongest[0]]
    ensures weakest == [] && strongest == [] ==> Focus(weakest, strongest) == []
  {
  }

  /** A learning-path item is made exactly for the entries whose growth
      score is at least 7, and takes its focus areas and projects from them;
      in particular every entry gets one when all grow that much, and none
      does when none does. */
  lemma LearningPathItems(entries: seq<Enhanced>)
    requires forall i :: 0 <= i < |entries| ==> entries[i].growth.Dict?
    ensures forall item :: item in LearningPath(entries) <==>
      exists i :: 0 <= i < |entries| && GrowthScore(entries[i]) >= 7.0 && item == ItemFor(entries[i])
    ensures (forall i :: 0 <= i < |entries| ==> GrowthScore(entries[i]) >= 7.0) ==>
      |LearningPath(entries)| == |entries| && forall i :: 0 <= i < |entries| ==> LearningPath(entries)[i] == ItemFor(entries[i])
    ensures (forall i :: 0 <= i < |entries| ==> GrowthScore(entries[i]) < 7.0) ==> LearningPath(entries) == []
  {
    LearningPathMembers(entries);
    if forall i :: 0 <= i < |entries| ==> GrowthScore(entries[i]) >= 7.0 {
      LearningPathAllGrow(entries);
    }
    if forall i :: 0 <= i < |entries| ==> GrowthScore(entries[i]) < 7.0 {
      LearningPathNoneGrow(entries);
    }
  }

  /** When every entry grows at least 7, each entry gives its item, in order. */
  lemma {:induction false} LearningPathAllGrow(entries: seq<Enhanced>)
    requires forall i :: 0 <= i < |entries| ==> entries[i].growth.Dict? && GrowthScore(entries[i]) >= 7.0
    ensures |LearningPath(entries)| == |entries|
    ensures forall i :: 0 <= i < |entries| ==> LearningPath(entries)[i] == ItemFor(entries[i])
    decreases |entries|
  {
    if entries != [] {
      var init := entries[..|entries| - 1];
      var e := entries[|entries| - 1];
      assert forall i :: 0 <= i < |init| ==> init[i] == entries[i];
      LearningPathAllGrow(init);
      assert LearningPath(entries) == LearningPath(init) + [ItemFor(e)];
    }
  }

  /** When no entry grows 7 or more, the learning path is empty. */
  lemma {:induction false} LearningPathNoneGrow(entries: seq<Enhanced>)
    requires forall i :: 0 <= i < |entries| ==> entries[i].growth.Dict? && GrowthScore(entries[i]) < 7.0
    ensures LearningPath(entries) == []
    decreases |entries|
  {
    if entries != [] {
      var init := entries[..|entries| - 1];
      assert forall i :: 0 <= i < |init| ==> init[i] == entries[i];
      LearningPathNoneGrow(init);
    }
  }

  /** An item is on the learning path exactly when it is the item of some
      entry growing at least 7. */
  lemma LearningPathMembers(entries: seq<Enhanced>)
    requires forall i :: 0 <= i < |entries| ==> entries[i].growth.Dict?
    ensures forall item :: item in LearningPath(entries) <==>
      exists i :: 0 <= i < |entries| && GrowthScore(entries[i]) >= 7.0 && item == ItemFor(entries[i])
  {
    forall item
      ensures item in LearningPath(entries) <==>
        exists i :: 0 <= i < |entries| && GrowthScore(entries[i]) >= 7.0 && item == ItemFor(entries[i])
    {
      if item in LearningPath(entries) {
        var i := LearningPathFrom(entries, item);
      }
      if exists i :: 0 <= i < |entries| && GrowthScore(entries[i]) >= 7.0 && item == ItemFor(entries[i]) {
        var i :| 0 <= i < |entries| && GrowthScore(entries[i]) >= 7.0 && item == ItemFor(entries[i]);
        LearningPathHas(entries, i);
      }
    }
  }

  /** Every learning item comes from an entry growing at least 7. */
  lemma {:induction false} LearningPathFrom(entries: seq<Enhanced>, item: LearningItem) returns (i: nat)
    requires forall i :: 0 <= i < |entries| ==> entries[i].growth.Dict?
    requires item in LearningPath(entries)
    ensures i < |entries| && GrowthScore(entries[i]) >= 7.0 && item == ItemFor(entries[i])
    decreases |entries|
  {
    var n := |entries| - 1;
    var init := entries[..n];
    assert forall k :: 0 <= k < |init| ==> init[k] == entries[k];
    if item in LearningPath(init) {
      i := LearningPathFrom(init, item);
    } else {
      i := n;
    }
  }

  /** Every entry growing at least 7 puts its item on the learning path. */
  lemma {:induction false} LearningPathHas(entries: seq<Enhanced>, i: nat)
    requires forall i :: 0 <= i < |entries| ==> entries[i].growth.Dict?
    requires i < |entries| && GrowthScore(entries[i]) >= 7.0
    ensures ItemFor(entries[i]) in LearningPath(entries)
    decreases |entries|
  {
    var n := |entries| - 1;
    if i < n {
      var init := entries[..n];
      assert forall k :: 0 <= k < |init| ==> init[k] == entries[k];
      LearningPathHas(init, i);
    }
  }

  /** The three lists are built entry by entry, so each keeps the entries'
      order: the part for a prefix of the entries comes first. */
  lemma {:induction false} StrongestAppend(a: seq<Enhanced>, b: seq<Enhanced>)
    ensures Strongest(a + b) == Strongest(a) + Strongest(b)
    decreases |b|
  {
    if b == [] {
      assert a + b == a;
    } else {
      var init := b[..|b| - 1];
      assert (a + b)[..|a + b| - 1] == a + init;
      assert (a + b)[|a + b| - 1] == b[|b| - 1];
      StrongestAppend(a, init);
    }
  }

  lemma {:induction false} WeakestAppend(a: seq<Enhanced>, b: seq<Enhanced>)
    ensures Weakest(a + b) == Weakest(a) + Weakest(b)
    decreases |b|
  {
    if b == [] {
      assert a + b == a;
    } else {
      var init := b[..|b| - 1];
      assert (a + b)[..|a + b| - 1] == a + init;
      assert (a + b)[|a + b| - 1] == b[|b| - 1];
      WeakestAppend(a, init);
    }
  }

  lemma {:induction false} LearningPathAppend(a: seq<Enhanced>, b: seq<Enhanced>)
    requires forall i :: 0 <= i < |a| ==> a[i].growth.Dict?
    requires forall i :: 0 <= i < |b| ==> b[i].growth.Dict?
    ensures forall i :: 0 <= i < |a + b| ==> (a + b)[i].growth.Dict?
    ensures LearningPath(a + b) == LearningPath(a) + LearningPath(b)
    decreases |b|
  {
    if b == [] {
      assert a + b == a;
    } else {
      var init := b[..|b| - 1];
      assert (a + b)[..|a + b| - 1] == a + init;
      assert (a + b)[|a + b| - 1] == b[|b| - 1];
      LearningPathAppend(a, init);
    }
  }

  /** One entry: strongest at 8 or more, weakest below 6, an item at growth 7 or more. */
  lemma RecommendOne(e: Enhanced)
    ensures Strongest([e]) == if e.score >= 8.0 then [e.domain] else []
    ensures Weakest([e]) == if e.score < 6.0 then [e.domain] else []
    ensures e.growth.Dict? ==> LearningPath([e]) == if GrowthScore(e) >= 7.0 then [ItemFor(e)] else []
  {
    assert [e][..0] == [];
  }

  /** With the fixed LLM record, every domain gets a learning-path item
      (its growth score is 8.5) and every item's focus areas are empty (its
      technical analysis has no improvement areas). */
  lemma StubLearningPath(traditional: seq<(Domain, real)>, text: string, sections: Sections)
    ensures var llm := LlmAnalyzer.AnalyzeResume(text);
      var entries := seq(|traditional|, i requires 0 <= i < |traditional| =>
        EntryFor(traditional[i].0, traditional[i].1, llm.technical.report, llm.project.report, llm.growth, sections));
      |Recommend(entries).learningPath| == |traditional|
      && forall i :: 0 <= i < |traditional| ==> Recommend(entries).learningPath[i].focusAreas == []
  {
    var llm := LlmAnalyzer.AnalyzeResume(text);
    var entries := seq(|traditional|, i requires 0 <= i < |traditional| =>
      EntryFor(traditional[i].0, traditional[i].1, llm.technical.report, llm.project.report, llm.growth, sections));
    LearningPathItems(entries);
  }

  // ===== analyze_profile =====

  /** `analyze_profile`: the sources are parsed and joined, the resume
      section is split back out and scored by the rule-based scorer, the
      fixed LLM record is taken for the whole text, and the two are
      combined. A failed GitHub fetch (`githubText` is `None` while a user
      name and a token are given) raises in the parser, and the pipeline
      re-raises it as `ResumeAnalysisError`; otherwise the result has one
      enhanced entry per domain. */
  method AnalyzeProfile(find: SkillExtractor.Matcher, resumePages: Option<seq<string>>, githubUsername: string,
                        githubToken: string, githubText: Option<string>, linkedinPages: Option<seq<string>>)
    returns (r: Result<Combined>)
    ensures r.Err? <==> githubUsername != "" && githubToken != "" && githubText.None?
    ensures r.Err? ==> r.error == ResumeAnalysisError
    ensures r.Ok? ==> r.value.Combined? && |r.value.enhanced| == |Domains|
    ensures r.Ok? ==> forall i :: 0 <= i < |Domains| ==> r.value.enhanced[i].domain == Domains[i]
  {
    var blob := ProfileParser.ParseAllSources(resumePages, githubUsername, githubToken, githubText, linkedinPages);
    if blob.Err? {
      return Err(ResumeAnalysisError);
    }
    var combined := AnalyzeText(find, blob.value, githubToken);
    r := Ok(combined);
  }

  /** The rest of `analyze_profile` once the sources are joined: the resume
      section is split back out and scored, the LLM record is taken for the
      whole text, and the combination has one entry per domain. */
  method AnalyzeText(find: SkillExtractor.Matcher, blob: string, githubToken: string) returns (c: Combined)
    ensures c.Combined? && |c.enhanced| == |Domains|
    ensures forall i :: 0 <= i < |Domains| ==> c.enhanced[i].domain == Domains[i]
  {
    var sections := SplitSections(blob);
    var traditional := ResumeScorer.AnalyzeAsync(find, sections.resume, githubToken);
    var llm := LlmAnalyzer.AnalyzeResume(blob);
    assert |traditional.domainScores| == 5;
    var r := CombineAnalyses(traditional, llm, sections);
    c := r.value;
  }
}
