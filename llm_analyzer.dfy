/** `models/llm_analyzer.py`, the parts that do not touch the network: the
    fixed analysis stub, prompt truncation, the retry decision over the
    outcomes of the three attempts, text chunking, the merging of chunk
    results, and the overall score. */
module LlmAnalyzer {
  import opened Common
  import opened Text

  /** The keys of one analysis dictionary that the core reads; `None` is a
      missing key (or, for a list, a value that is not a list; for a score,
      one that is not a number). */
  datatype Report = Report(score: Option<real>, skillDepth: Option<real>, projectScore: Option<real>,
                           achievements: Option<seq<string>>, improvementAreas: Option<seq<string>>,
                           recommendedProjects: Option<seq<string>>, complexity: Option<string>)

  /** `{}` */
  const EmptyReport := Report(None, None, None, None, None, None, None)

  /** A value in an analyses dictionary: a dictionary, or anything else. */
  datatype Value = Dict(report: Report) | NotDict

  /** The record `analyze_resume` and `_structure_analysis` return. */
  datatype Analysis = Analysis(technical: Value, softSkills: Value, project: Value, growth: Value,
                               overall: real)

  // ===== analyze_resume =====

  /** `analyze_resume`: a fixed record, whatever the text. */
  function AnalyzeResume(text: string): (r: Analysis)
    ensures r.technical.Dict? && r.technical.report.skillDepth == Some(7.5)
    ensures r.project.Dict? && r.project.report.projectScore == Some(8.2)
    ensures r.growth.Dict? && r.growth.report.score == Some(8.5)
    ensures r.overall == 8.0
    ensures r.technical.report.improvementAreas.None?
  {
    Analysis(
      Dict(Report(None, Some(7.5), Some(8.0),
                  Some(["Python Development", "Machine Learning", "TypeScript/JavaScript",
                        "Blockchain Development", "Web Development"]),
                  None, None, Some("High"))),
      Dict(EmptyReport),
      Dict(Report(None, None, Some(8.2), None, None,
                  Some(["Full-stack Web Application", "ML Model Deployment", "Blockchain dApp"]), Some("High"))),
      Dict(Report(Some(8.5), None, None, None,
                  Some(["Cloud Technologies", "System Design", "DevOps Practices"]), None, None)),
      8.0)
  }

  // ===== _get_llm_response: truncation =====

  /** `max_tokens` */
  const MaxTokens: real := 800.0

  /** The estimate `len(prompt.split()) * 1.3` exceeds the budget. */
  predicate TooLong(wordCount: nat)
  {
    (wordCount as real) * 1.3 > MaxTokens
  }

  /** `int(max_tokens / 1.3)` */
  const KeptWords: nat := 615

  /** The estimate exceeds the budget exactly from 616 words on, one more
      than the number of words kept. */
  lemma TooLongThreshold(n: nat)
    ensures TooLong(n) <==> n >= KeptWords + 1
    ensures KeptWords as real <= MaxTokens / 1.3 < (KeptWords + 1) as real
  {
    if n >= 616 {
      assert (n as real) * 1.3 >= 616.0 * 1.3;
    } else {
      assert (n as real) * 1.3 <= 615.0 * 1.3;
    }
  }

  /** The prompt actually sent. */
  function TruncatePrompt(prompt: string): (r: string)
  {
    var words := Words(prompt);
    if TooLong(|words|) then JoinWith(" ", words[..KeptWords]) else prompt
  }

  /** A long prompt becomes its first 615 words; any other is sent as is.
      Either way at most 615 words are sent. */
  lemma TruncatePromptWords(prompt: string)
    ensures var words := Words(prompt);
      && (|words| <= KeptWords ==> TruncatePrompt(prompt) == prompt)
      && (|words| > KeptWords ==> Words(TruncatePrompt(prompt)) == words[..KeptWords])
      && |Words(TruncatePrompt(prompt))| <= KeptWords
  {
    var words := Words(prompt);
    TooLongThreshold(|words|);
    if |words| > KeptWords {
      WordsOfJoin(words[..KeptWords]);
    }
  }

  // ===== _get_llm_response: retries =====

  /** What one attempt produced: an HTTP answer with its parsed body, or an
      exception from the request. */
  datatype Outcome = Answered(status: int, body: Report) | Raised

  const MaxRetries: nat := 3

  /** The decision from attempt `attempt` on: a 200 returns its body, a 503
      moves on, anything else moves on except on the last attempt, where it
      raises; running out of attempts returns `{}`. */
  function Decide(outcomes: seq<Outcome>, attempt: nat): (r: Result<Report>)
    requires |outcomes| >= MaxRetries && attempt <= MaxRetries
    ensures r.Err? ==> r.error == LLMError
    decreases MaxRetries - attempt
  {
    if attempt == MaxRetries then Ok(EmptyReport)
    else
      match outcomes[attempt]
      case Answered(status, body) =>
        if status == 200 then Ok(body)
        else if status == 503 then Decide(outcomes, attempt + 1)
        else if attempt == MaxRetries - 1 then Err(LLMError)
        else Decide(outcomes, attempt + 1)
      case Raised =>
        if attempt == MaxRetries - 1 then Err(LLMError) else Decide(outcomes, attempt + 1)
  }

  /** The retry loop of `_get_llm_response`; `outcomes[i]` is what attempt
      `i` would produce, and the prompt sent is `TruncatePrompt(prompt)`. */
  method GetLlmResponse(outcomes: seq<Outcome>) returns (r: Result<Report>)
    requires |outcomes| >= MaxRetries
    ensures r == Decide(outcomes, 0)
  {
    var attempt := 0;
    while attempt < MaxRetries
      invariant attempt <= MaxRetries
      invariant Decide(outcomes, 0) == Decide(outcomes, attempt)
      decreases MaxRetries - attempt
    {
      var o := outcomes[attempt];
      if o.Answered? && o.status == 200 {
        return Ok(o.body);
      }
      if o.Answered? && o.status == 503 {
        attempt := attempt + 1;
        continue;
      }
      if attempt == MaxRetries - 1 {
        return Err(LLMError);
      }
      attempt := attempt + 1;
    }
    r := Ok(EmptyReport);
  }

  predicate IsOk(o: Outcome) { o.Answered? && o.status == 200 }

  predicate IsBusy(o: Outcome) { o.Answered? && o.status == 503 }

  /** The request fails exactly when the first two attempts give no 200 and
      the third gives neither a 200 nor a 503. */
  lemma DecideFails(outcomes: seq<Outcome>)
    requires |outcomes| >= MaxRetries
    ensures Decide(outcomes, 0).Err? <==>
      !IsOk(outcomes[0]) && !IsOk(outcomes[1]) && !IsOk(outcomes[2]) && !IsBusy(outcomes[2])
  {
  }

  /** The first 200 wins; three busy answers end with `{}` and no error. */
  lemma DecideAnswers(outcomes: seq<Outcome>)
    requires |outcomes| >= MaxRetries
    ensures IsOk(outcomes[0]) ==> Decide(outcomes, 0) == Ok(outcomes[0].body)
    ensures !IsOk(outcomes[0]) && IsOk(outcomes[1]) ==> Decide(outcomes, 0) == Ok(outcomes[1].body)
    ensures IsBusy(outcomes[0]) && IsBusy(outcomes[1]) && IsBusy(outcomes[2]) ==> Decide(outcomes, 0) == Ok(EmptyReport)
  {
  }

  /** At most three attempts are made: later outcomes are never consulted. */
  lemma {:induction false} DecideUsesThree(a: seq<Outcome>, b: seq<Outcome>, attempt: nat)
    requires |a| >= MaxRetries && |b| >= MaxRetries && attempt <= MaxRetries
    requires a[..MaxRetries] == b[..MaxRetries]
    ensures Decide(a, attempt) == Decide(b, attempt)
    decreases MaxRetries - attempt
  {
    if attempt < MaxRetries {
      assert a[attempt] == a[..MaxRetries][attempt] == b[..MaxRetries][attempt] == b[attempt];
      DecideUsesThree(a, b, attempt + 1);
    }
  }

  // ===== _chunk_text =====

  /** `len(word) // 4 + 1` */
  function WordCost(w: string): nat
  {
    |w| / 4 + 1
  }

  function Cost(ws: seq<string>): nat
    decreases |ws|
  {
    if ws == [] then 0 else Cost(ws[..|ws| - 1]) + WordCost(ws[|ws| - 1])
  }

  /** The words of every chunk, one after the other. */
  function ChunkWords(chunks: seq<string>): seq<string>
    decreases |chunks|
  {
    if chunks == [] then [] else ChunkWords(chunks[..|chunks| - 1]) + Words(chunks[|chunks| - 1])
  }

  lemma JoinNonEmpty(ws: seq<string>)
    requires ws != [] && forall k :: 0 <= k < |ws| ==> IsWord(ws[k])
    ensures JoinWith(" ", ws) != []
  {
    WordsOfJoin(ws);
  }

  /** Every chunk costs at most `maxLength`, unless it is a single word. */
  predicate Packed(chunks: seq<string>, maxLength: int)
  {
    forall k :: 0 <= k < |chunks| ==> |Words(chunks[k])| <= 1 || Cost(Words(chunks[k])) <= maxLength
  }

  /** Only the first chunk may be empty. */
  predicate LaterNonEmpty(chunks: seq<string>)
  {
    forall k :: 1 <= k < |chunks| ==> chunks[k] != []
  }

  function Flatten(groups: seq<seq<string>>): seq<string>
    decreases |groups|
  {
    if groups == [] then [] else Flatten(groups[..|groups| - 1]) + groups[|groups| - 1]
  }

  lemma FlattenSnoc(groups: seq<seq<string>>, g: seq<string>)
    ensures Flatten(groups + [g]) == Flatten(groups) + g
  {
    assert (groups + [g])[..|groups|] == groups;
  }

  /** Each word group joined by single spaces. */
  function JoinAll(groups: seq<seq<string>>): (r: seq<string>)
    ensures |r| == |groups|
    decreases |groups|
  {
    if groups == [] then [] else JoinAll(groups[..|groups| - 1]) + [JoinWith(" ", groups[|groups| - 1])]
  }

  lemma JoinAllSnoc(groups: seq<seq<string>>, g: seq<string>)
    ensures JoinAll(groups + [g]) == JoinAll(groups) + [JoinWith(" ", g)]
  {
    assert (groups + [g])[..|groups|] == groups;
  }

  lemma {:induction false} JoinAllAt(groups: seq<seq<string>>, k: nat)
    requires k < |groups|
    ensures JoinAll(groups)[k] == JoinWith(" ", groups[k])
    decreases |groups|
  {
    if k < |groups| - 1 {
      JoinAllAt(groups[..|groups| - 1], k);
    }
  }

  lemma {:induction false} FlattenHas(groups: seq<seq<string>>, k: nat, j: nat)
    requires k < |groups| && j < |groups[k]|
    ensures groups[k][j] in Flatten(groups)
    decreases |groups|
  {
    var n := |groups| - 1;
    if k < n {
      FlattenHas(groups[..n], k, j);
    } else {
      assert Flatten(groups) == Flatten(groups[..n]) + groups[n];
      assert Flatten(groups)[|Flatten(groups[..n])| + j] == groups[k][j];
    }
  }

  /** Reading the words of a group of words joined by spaces gives the group back. */
  lemma GroupWords(groups: seq<seq<string>>, k: nat)
    requires k < |groups|
    requires forall w :: w in Flatten(groups) ==> IsWord(w)
    ensures Words(JoinAll(groups)[k]) == groups[k]
    ensures JoinAll(groups)[k] == [] <==> groups[k] == []
  {
    forall j | 0 <= j < |groups[k]| ensures IsWord(groups[k][j]) {
      FlattenHas(groups, k, j);
    }
    JoinAllAt(groups, k);
    WordsOfJoin(groups[k]);
  }

  /** The words of all the chunks are the words of all the groups. */
  lemma {:induction false} ChunkWordsJoinAll(groups: seq<seq<string>>)
    requires forall w :: w in Flatten(groups) ==> IsWord(w)
    ensures ChunkWords(JoinAll(groups)) == Flatten(groups)
    decreases |groups|
  {
    if groups != [] {
      var n := |groups| - 1;
      var init := groups[..n];
      assert Flatten(groups) == Flatten(init) + groups[n];
      ChunkWordsJoinAll(init);
      GroupWords(groups, n);
      assert JoinAll(groups)[..n] == JoinAll(init);
    }
  }

  /** `_chunk_text`: greedy packing of the words into chunks whose cost
      stays within `maxLength`; a word that alone exceeds it closes the
      current chunk and starts a new one. */
  method ChunkText(text: string, maxLength: int) returns (chunks: seq<string>)
    ensures ChunkWords(chunks) == Words(text)
    ensures Words(text) == [] ==> chunks == []
    ensures Packed(chunks, maxLength) && LaterNonEmpty(chunks)
    ensures (chunks != [] && chunks[0] == []) <==> (Words(text) != [] && WordCost(Words(text)[0]) > maxLength)
  {
    var words := Words(text);
    ghost var groups;
    chunks, groups := PackWords(words, maxLength);
    assert forall w :: w in Flatten(groups) ==> IsWord(w);
    ChunkWordsJoinAll(groups);
    forall k | 0 <= k < |chunks|
      ensures Words(chunks[k]) == groups[k] && (chunks[k] == [] <==> groups[k] == [])
    {
      GroupWords(groups, k);
    }
  }

  /** The loop of `_chunk_text` over the words of the text; `groups` holds
      the words of each chunk. */
  method PackWords(words: seq<string>, maxLength: int) returns (chunks: seq<string>, ghost groups: seq<seq<string>>)
    ensures chunks == JoinAll(groups) && Flatten(groups) == words
    ensures words == [] ==> chunks == []
    ensures forall k :: 0 <= k < |groups| ==> |groups[k]| <= 1 || Cost(groups[k]) <= maxLength
    ensures forall k :: 1 <= k < |groups| ==> groups[k] != []
    ensures (groups != [] && groups[0] == []) <==> (words != [] && WordCost(words[0]) > maxLength)
  {
    chunks, groups := [], [];
    var current: seq<string> := [];
    var currentLength := 0;
    for i := 0 to |words|
      invariant (groups, current) == PackState(words[..i], maxLength)
      invariant chunks == JoinAll(groups)
      invariant currentLength == Cost(current)
    {
      var word := words[i];
      var cost := WordCost(word);
      assert words[..i + 1] == words[..i] + [word];
      PackStateSnoc(words[..i], word, maxLength);
      if currentLength + cost > maxLength {
        JoinAllSnoc(groups, current);
        chunks, groups := chunks + [JoinWith(" ", current)], groups + [current];
        current := [word];
        currentLength := cost;
        assert [word][..0] == [];
      } else {
        CostSnoc(current, word);
        current := current + [word];
        currentLength := currentLength + cost;
      }
    }
    assert words[..|words|] == words;
    PackDone(words, groups, current, maxLength);
    if current != [] {
      JoinAllSnoc(groups, current);
      chunks, groups := chunks + [JoinWith(" ", current)], groups + [current];
    }
  }

  /** The closed groups and the open group after packing `ws` greedily, one
      word at a time, as the loop of `_chunk_text` does. */
  function PackState(ws: seq<string>, maxLength: int): (seq<seq<string>>, seq<string>)
    decreases |ws|
  {
    if ws == [] then ([], [])
    else
      var (groups, current) := PackState(ws[..|ws| - 1], maxLength);
      var w := ws[|ws| - 1];
      if Cost(current) + WordCost(w) > maxLength then (groups + [current], [w])
      else (groups, current + [w])
  }

  lemma PackStateSnoc(ws: seq<string>, w: string, maxLength: int)
    ensures var (groups, current) := PackState(ws, maxLength);
            PackState(ws + [w], maxLength) ==
              if Cost(current) + WordCost(w) > maxLength then (groups + [current], [w]) else (groups, current + [w])
  {
    assert (ws + [w])[..|ws|] == ws;
  }

  /** What `PackWords` promises, for the state `PackState` reaches on all the words. */
  lemma PackDone(words: seq<string>, groups: seq<seq<string>>, current: seq<string>, maxLength: int)
    requires (groups, current) == PackState(words, maxLength)
    ensures var g := if current != [] then groups + [current] else groups;
            Flatten(g) == words
            && (words == [] ==> g == [])
            && (forall k :: 0 <= k < |g| ==> |g[k]| <= 1 || Cost(g[k]) <= maxLength)
            && (forall k :: 1 <= k < |g| ==> g[k] != [])
            && ((g != [] && g[0] == []) <==> (words != [] && WordCost(words[0]) > maxLength))
  {
    PackStateInv(words, maxLength);
    FinalClose(words, groups, current, maxLength);
  }

  lemma {:induction false} PackStateInv(ws: seq<string>, maxLength: int)
    ensures PackedSoFar(ws, PackState(ws, maxLength).0, PackState(ws, maxLength).1, maxLength)
    decreases |ws|
  {
    if ws != [] {
      var prefix, w := ws[..|ws| - 1], ws[|ws| - 1];
      assert ws == prefix + [w];
      PackStateInv(prefix, maxLength);
      var (groups, current) := PackState(prefix, maxLength);
      if Cost(current) + WordCost(w) > maxLength {
        CloseStep(prefix, w, groups, current, maxLength);
      } else {
        ExtendStep(prefix, w, groups, current, maxLength);
      }
    }
  }

  /** What the packing keeps after the words `ws`: the closed groups and the
      open one spell out those words, every closed group fits the budget or
      is one word, the open group fits or is one word, only the first closed
      group can be empty, and it is empty exactly when the first word alone
      is over budget. */
  ghost predicate PackedSoFar(ws: seq<string>, groups: seq<seq<string>>, current: seq<string>, maxLength: int)
  {
    Flatten(groups) + current == ws
    && (|current| <= 1 || Cost(current) <= maxLength)
    && (forall k :: 0 <= k < |groups| ==> |groups[k]| <= 1 || Cost(groups[k]) <= maxLength)
    && (forall k :: 1 <= k < |groups| ==> groups[k] != [])
    && (ws != [] <==> current != [])
    && (ws == [] ==> groups == [])
    && ((groups != [] && groups[0] == []) <==> (ws != [] && WordCost(ws[0]) > maxLength))
  }

  lemma CostSnoc(ws: seq<string>, w: string)
    ensures Cost(ws + [w]) == Cost(ws) + WordCost(w)
  {
    assert (ws + [w])[..|ws|] == ws;
  }

  /** The word does not fit: the open group is closed and the word opens the next. */
  lemma CloseStep(ws: seq<string>, w: string, groups: seq<seq<string>>, current: seq<string>, maxLength: int)
    requires PackedSoFar(ws, groups, current, maxLength)
    requires Cost(current) + WordCost(w) > maxLength
    ensures PackedSoFar(ws + [w], groups + [current], [w], maxLength)
  {
    var g := groups + [current];
    assert Flatten(g) + [w] == ws + [w] by {
      FlattenSnoc(groups, current);
    }
    assert forall k :: 0 <= k < |g| ==> |g[k]| <= 1 || Cost(g[k]) <= maxLength by {
      forall k | 0 <= k < |g| ensures |g[k]| <= 1 || Cost(g[k]) <= maxLength {
        if k < |groups| {
          assert g[k] == groups[k];
        }
      }
    }
    assert forall k :: 1 <= k < |g| ==> g[k] != [] by {
      forall k | 1 <= k < |g| ensures g[k] != [] {
        if k < |groups| {
          assert g[k] == groups[k];
        }
      }
    }
    assert (g != [] && g[0] == []) <==> WordCost((ws + [w])[0]) > maxLength by {
      if ws == [] {
        assert current == [] && groups == [];
        assert Cost(current) == 0;
      } else {
        assert (ws + [w])[0] == ws[0];
        if groups != [] {
          assert g[0] == groups[0];
        }
      }
    }
  }

  /** The word fits: it joins the open group. */
  lemma ExtendStep(ws: seq<string>, w: string, groups: seq<seq<string>>, current: seq<string>, maxLength: int)
    requires PackedSoFar(ws, groups, current, maxLength)
    requires Cost(current) + WordCost(w) <= maxLength
    ensures PackedSoFar(ws + [w], groups, current + [w], maxLength)
  {
    CostSnoc(current, w);
    assert Flatten(groups) + (current + [w]) == ws + [w];
    if ws == [] {
      assert current == [] && groups == [];
      assert Cost(current) == 0;
    } else {
      assert (ws + [w])[0] == ws[0];
    }
  }

  /** After the loop the open group, if any, is closed: the groups then
      satisfy everything `PackWords` promises. */
  lemma FinalClose(words: seq<string>, groups: seq<seq<string>>, current: seq<string>, maxLength: int)
    requires PackedSoFar(words, groups, current, maxLength)
    ensures var g := if current != [] then groups + [current] else groups;
            Flatten(g) == words
            && (words == [] ==> g == [])
            && (forall k :: 0 <= k < |g| ==> |g[k]| <= 1 || Cost(g[k]) <= maxLength)
            && (forall k :: 1 <= k < |g| ==> g[k] != [])
            && ((g != [] && g[0] == []) <==> (words != [] && WordCost(words[0]) > maxLength))
  {
    if current != [] {
      var g := groups + [current];
      FlattenSnoc(groups, current);
      assert forall k :: 0 <= k < |groups| ==> g[k] == groups[k];
      if groups == [] {
        assert current[0] == words[0];
      }
    }
  }

  // ===== _combine_chunk_results =====

  datatype Combined = Combined(skillDepth: real, achievements: seq<string>, projectScore: real,
                               complexity: string)

  /** The numeric `skill_depth_score` values, in order. */
  function Depths(results: seq<Report>): (r: seq<real>)
    ensures |r| <= |results|
    decreases |results|
  {
    if results == [] then []
    else
      var last := results[|results| - 1];
      Depths(results[..|results| - 1]) + (if last.skillDepth.Some? then [last.skillDepth.value] else [])
  }

  /** Every achievement list, concatenated in order. */
  function Achievements(results: seq<Report>): seq<string>
    decreases |results|
  {
    if results == [] then []
    else
      var last := results[|results| - 1];
      Achievements(results[..|results| - 1]) + (if last.achievements.Some? then last.achievements.value else [])
  }

  function Sum(xs: seq<real>): real
    decreases |xs|
  {
    if xs == [] then 0.0 else Sum(xs[..|xs| - 1]) + xs[|xs| - 1]
  }

  /** `sum(xs) / len(xs)`, and 0 for no values. */
  function Mean(xs: seq<real>): real
  {
    if xs == [] then 0.0 else Sum(xs) / |xs| as real
  }

  lemma {:induction false} SumBounds(xs: seq<real>, lo: real, hi: real)
    requires forall i :: 0 <= i < |xs| ==> lo <= xs[i] <= hi
    ensures |xs| as real * lo <= Sum(xs) <= |xs| as real * hi
    decreases |xs|
  {
    if xs != [] {
      SumBounds(xs[..|xs| - 1], lo, hi);
    }
  }

  /** The mean lies between any bounds of the values. */
  lemma MeanBounds(xs: seq<real>, lo: real, hi: real)
    requires xs != []
    requires forall i :: 0 <= i < |xs| ==> lo <= xs[i] <= hi
    ensures lo <= Mean(xs) <= hi
  {
    SumBounds(xs, lo, hi);
    var n := |xs| as real;
    assert (n * lo) / n == lo;
    assert (n * hi) / n == hi;
    DivideMonotone(n * lo, Sum(xs), n);
    DivideMonotone(Sum(xs), n * hi, n);
  }

  lemma DivideMonotone(a: real, b: real, n: real)
    requires 0.0 < n && a <= b
    ensures a / n <= b / n
  {
  }

  predicate Distinct(s: seq<string>)
  {
    forall i, j :: 0 <= i < j < |s| ==> s[i] != s[j]
  }

  /** `list(dict.fromkeys(s))`: the first occurrence of each element, in order. */
  function Dedupe(s: seq<string>): (r: seq<string>)
    ensures Distinct(r)
    ensures forall x :: x in r <==> x in s
    ensures |r| <= |s|
    decreases |s|
  {
    if s == [] then []
    else
      var init := Dedupe(s[..|s| - 1]);
      var last := s[|s| - 1];
      assert forall x :: x in s <==> x in s[..|s| - 1] || x == last;
      if last in s[..|s| - 1] then init else init + [last]
  }

  /** The position of the first occurrence of `x` in `s`. */
  function FirstIndex(s: seq<string>, x: string): (k: nat)
    requires x in s
    ensures k < |s| && s[k] == x
    ensures forall j :: 0 <= j < k ==> s[j] != x
    decreases |s|
  {
    if s[0] == x then 0 else 1 + FirstIndex(s[1..], x)
  }

  /** Extending a list does not move the first occurrence of an element it already holds. */
  lemma FirstIndexPrefix(s: seq<string>, t: seq<string>, x: string)
    requires x in s
    ensures x in s + t && FirstIndex(s + t, x) == FirstIndex(s, x)
  {
    var a, b := FirstIndex(s + t, x), FirstIndex(s, x);
    assert (s + t)[b] == x;
    assert s[a] == (s + t)[a];
  }

  /** `dict.fromkeys` keeps each element at its first occurrence: the
      result lists the elements in the order of their first occurrences. */
  lemma {:induction false} DedupeFirstOrder(s: seq<string>)
    ensures forall i, j :: 0 <= i < j < |Dedupe(s)| ==> FirstIndex(s, Dedupe(s)[i]) < FirstIndex(s, Dedupe(s)[j])
    decreases |s|
  {
    if s != [] {
      var init := s[..|s| - 1];
      var last := s[|s| - 1];
      assert s == init + [last];
      DedupeFirstOrder(init);
      var r0 := Dedupe(init);
      forall x | x in init ensures FirstIndex(s, x) == FirstIndex(init, x) {
        FirstIndexPrefix(init, [last], x);
      }
      var r := Dedupe(s);
      assert r == if last in init then r0 else r0 + [last];
      forall i, j | 0 <= i < j < |r| ensures FirstIndex(s, r[i]) < FirstIndex(s, r[j]) {
        assert r[i] == r0[i] && r0[i] in init;
        assert FirstIndex(s, r0[i]) == FirstIndex(init, r0[i]);
        if j < |r0| {
          assert r[j] == r0[j] && r0[j] in init;
          assert FirstIndex(s, r0[j]) == FirstIndex(init, r0[j]);
          assert FirstIndex(init, r0[i]) < FirstIndex(init, r0[j]);
        } else {
          assert r[j] == last && last !in init;
          assert FirstIndex(s, last) == |s| - 1;
        }
      }
    }
  }

  /** A list without repetitions is left as it is. */
  lemma {:induction false} DedupeDistinct(s: seq<string>)
    requires Distinct(s)
    ensures Dedupe(s) == s
    decreases |s|
  {
    if s != [] {
      var init := s[..|s| - 1];
      assert Distinct(init);
      DedupeDistinct(init);
      assert s[|s| - 1] !in init;
      assert init + [s[|s| - 1]] == s;
    }
  }

  /** `_combine_chunk_results`: the mean of the numeric depth scores, and
      the achievements deduplicated; the project score and the complexity
      keep their defaults. */
  method CombineChunkResults(results: seq<Report>) returns (c: Combined)
    ensures c.skillDepth == Mean(Depths(results))
    ensures c.achievements == Dedupe(Achievements(results))
    ensures c.projectScore == 0.0 && c.complexity == "Medium"
  {
    c := Combined(0.0, [], 0.0, "Medium");
    if results == [] {
      return;
    }
    var scores: seq<real> := [];
    var achievements: seq<string> := [];
    for i := 0 to |results|
      invariant scores == Depths(results[..i])
      invariant achievements == Achievements(results[..i])
    {
      assert results[..i + 1][..i] == results[..i];
      if results[i].skillDepth.Some? {
        scores := scores + [results[i].skillDepth.value];
      }
      if results[i].achievements.Some? {
        achievements := achievements + results[i].achievements.value;
      }
    }
    assert results[..|results|] == results;
    if scores != [] {
      c := c.(skillDepth := Sum(scores) / |scores| as real);
    }
    c := c.(achievements := Dedupe(achievements));
  }

  /** When every numeric depth score lies in a range, so does the combined one. */
  lemma CombinedDepthBounds(results: seq<Report>, lo: real, hi: real)
    requires lo <= 0.0 <= hi
    requires forall i :: 0 <= i < |Depths(results)| ==> lo <= Depths(results)[i] <= hi
    ensures lo <= Mean(Depths(results)) <= hi
  {
    if Depths(results) != [] {
      MeanBounds(Depths(results), lo, hi);
    }
  }

  // ===== _calculate_overall_score, _structure_analysis =====

  /** The `score` fields of the dictionary values that have one, in order. */
  function Scores(analyses: seq<(string, Value)>): (r: seq<real>)
    ensures |r| <= |analyses|
    decreases |analyses|
  {
    if analyses == [] then []
    else
      var v := analyses[|analyses| - 1].1;
      Scores(analyses[..|analyses| - 1]) + (if v.Dict? && v.report.score.Some? then [v.report.score.value] else [])
  }

  /** The items of a Python dictionary: no key occurs twice. */
  predicate DistinctKeys(analyses: seq<(string, Value)>)
  {
    forall i, j :: 0 <= i < j < |analyses| ==> analyses[i].0 != analyses[j].0
  }

  /** `_calculate_overall_score` over the items of the analyses dictionary. */
  method CalculateOverallScore(analyses: seq<(string, Value)>) returns (score: real)
    requires DistinctKeys(analyses)
    ensures score == if Scores(analyses) == [] then 0.0 else Round2(Mean(Scores(analyses)))
  {
    var scores: seq<real> := [];
    for i := 0 to |analyses|
      invariant scores == Scores(analyses[..i])
    {
      assert analyses[..i + 1][..i] == analyses[..i];
      var data := analyses[i].1;
      if data.Dict? && data.report.score.Some? {
        scores := scores + [data.report.score.value];
      }
    }
    assert analyses[..|analyses|] == analyses;
    if scores == [] {
      return 0.0;
    }
    score := Round2(Sum(scores) / |scores| as real);
  }

  /** Scores between 0 and 10 give an overall score between 0 and 10. */
  lemma OverallScoreBounds(analyses: seq<(string, Value)>)
    requires forall i :: 0 <= i < |Scores(analyses)| ==> 0.0 <= Scores(analyses)[i] <= 10.0
    ensures Scores(analyses) != [] ==>
      0.0 <= Round2(Mean(Scores(analyses))) <= 10.0
  {
    if Scores(analyses) != [] {
      MeanBounds(Scores(analyses), 0.0, 10.0);
      Round2Within(Mean(Scores(analyses)), 0, 1000);
    }
  }

  /** `analyses.get(key, {})`; as when a dictionary is built by assignment,
      a later entry for the same key overrides an earlier one. */
  function Lookup(analyses: seq<(string, Value)>, key: string): (v: Value)
    ensures (forall i :: 0 <= i < |analyses| ==> analyses[i].0 != key) ==> v == Dict(EmptyReport)
    ensures (exists i :: 0 <= i < |analyses| && analyses[i].0 == key) ==>
      exists i :: 0 <= i < |analyses| && analyses[i].0 == key && analyses[i].1 == v
                  && forall j :: i < j < |analyses| ==> analyses[j].0 != key
    decreases |analyses|
  {
    if analyses == [] then Dict(EmptyReport)
    else
      var n := |analyses| - 1;
      if analyses[n].0 == key then analyses[n].1
      else
        var v := Lookup(analyses[..n], key);
        LookupStep(analyses, key, v);
        v
  }

  /** The entries before the last one, when the last one has another key,
      decide the lookup as they did on their own. */
  lemma LookupStep(analyses: seq<(string, Value)>, key: string, v: Value)
    requires analyses != [] && analyses[|analyses| - 1].0 != key
    requires var init := analyses[..|analyses| - 1];
      ((forall i :: 0 <= i < |init| ==> init[i].0 != key) ==> v == Dict(EmptyReport)) &&
      ((exists i :: 0 <= i < |init| && init[i].0 == key) ==>
        exists i :: 0 <= i < |init| && init[i].0 == key && init[i].1 == v
                    && forall j :: i < j < |init| ==> init[j].0 != key)
    ensures (forall i :: 0 <= i < |analyses| ==> analyses[i].0 != key) ==> v == Dict(EmptyReport)
    ensures (exists i :: 0 <= i < |analyses| && analyses[i].0 == key) ==>
      exists i :: 0 <= i < |analyses| && analyses[i].0 == key && analyses[i].1 == v
                  && forall j :: i < j < |analyses| ==> analyses[j].0 != key
  {
    var init := analyses[..|analyses| - 1];
    assert forall i :: 0 <= i < |init| ==> init[i] == analyses[i];
  }

  /** Over a dictionary's items, looking up a stored key gives the value
      stored with it, as the overall score sees it. */
  lemma LookupStored(analyses: seq<(string, Value)>, i: nat)
    requires DistinctKeys(analyses) && i < |analyses|
    ensures Lookup(analyses, analyses[i].0) == analyses[i].1
  {
    var key := analyses[i].0;
    assert exists k :: 0 <= k < |analyses| && analyses[k].0 == key;
    var k :| 0 <= k < |analyses| && analyses[k].0 == key && analyses[k].1 == Lookup(analyses, key)
             && forall j :: k < j < |analyses| ==> analyses[j].0 != key;
    if k != i {
      assert false;
    }
  }

  /** `_structure_analysis`: the four analyses under their output names,
      `{}` for a missing one, and the overall score. */
  method StructureAnalysis(analyses: seq<(string, Value)>) returns (a: Analysis)
    requires DistinctKeys(analyses)
    ensures a.technical == Lookup(analyses, "technical_depth")
    ensures a.softSkills == Lookup(analyses, "soft_skills")
    ensures a.project == Lookup(analyses, "project_analysis")
    ensures a.growth == Lookup(analyses, "growth_potential")
    ensures a.overall == if Scores(analyses) == [] then 0.0 else Round2(Mean(Scores(analyses)))
  {
    var overall := CalculateOverallScore(analyses);
    a := Analysis(Lookup(analyses, "technical_depth"), Lookup(analyses, "soft_skills"),
                  Lookup(analyses, "project_analysis"), Lookup(analyses, "growth_potential"), overall);
  }
}
