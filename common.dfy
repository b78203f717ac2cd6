/** Shared vocabulary of the resume-analysis core: optional values, the error
    kinds the pipeline raises, the fixed five-domain taxonomy and Python's
    two-decimal rounding. */
module Common {

  datatype Option<T> = None | Some(value: T)

  /** The exception classes the core raises. `TypeFailure` stands for Python's
      AttributeError/TypeError raised when a dictionary value has the wrong
      shape; `ValueError` is what the profile parser re-raises on any failure. */
  datatype Error = ResumeAnalysisError | LLMError | TypeFailure | ValueError

  datatype Result<T> = Ok(value: T) | Err(error: Error)

  /** The taxonomy shared by the scorer, the GitHub analyzer, the skill
      extractor and the hackathon track catalog. */
  datatype Domain = AiMl | WebDev | Blockchain | Cloud | Cybersecurity

  /** The domains in the insertion order of every per-domain table in the source. */
  const Domains: seq<Domain> := [AiMl, WebDev, Blockchain, Cloud, Cybersecurity]

  lemma DomainsComplete(d: Domain)
    ensures d in Domains
  {
  }

  /** No domain is listed twice. */
  lemma DomainNotBefore(i: nat)
    requires i < |Domains|
    ensures Domains[i] !in Domains[..i]
  {
    forall j | 0 <= j < i ensures Domains[..i][j] != Domains[i] {
      assert Domains[..i][j] == Domains[j];
    }
  }

  function DomainName(d: Domain): string
  {
    match d
    case AiMl => "ai_ml"
    case WebDev => "web_dev"
    case Blockchain => "blockchain"
    case Cloud => "cloud"
    case Cybersecurity => "cybersecurity"
  }

  /** Dictionary lookup of a domain key: `None` for a key outside the taxonomy. */
  function ParseDomain(s: string): (r: Option<Domain>)
    ensures r.Some? ==> DomainName(r.value) == s
    ensures r.None? ==> forall d: Domain :: DomainName(d) != s
  {
    if s == "ai_ml" then Some(AiMl)
    else if s == "web_dev" then Some(WebDev)
    else if s == "blockchain" then Some(Blockchain)
    else if s == "cloud" then Some(Cloud)
    else if s == "cybersecurity" then Some(Cybersecurity)
    else None
  }

  function Min(a: real, b: real): real { if a <= b then a else b }

  function Max(a: real, b: real): real { if a >= b then a else b }

  /** `round(x, 2)`: rounds to the nearest multiple of 0.01 (ties upward). */
  function Round2(x: real): real
  {
    ((x * 100.0 + 0.5).Floor as real) / 100.0
  }

  lemma {:induction false} Round2Near(x: real)
    ensures x - 0.005 < Round2(x) <= x + 0.005
  {
    var f := (x * 100.0 + 0.5).Floor;
    assert (f as real) <= x * 100.0 + 0.5 < (f as real) + 1.0;
  }

  lemma {:induction false} Round2Monotone(x: real, y: real)
    requires x <= y
    ensures Round2(x) <= Round2(y)
  {
    var a, b := x * 100.0 + 0.5, y * 100.0 + 0.5;
    assert a <= b;
    var fx, fy := a.Floor, b.Floor;
    assert (fx as real) <= a && b < (fy as real) + 1.0;
    assert (fx as real) < (fy as real) + 1.0;
    assert fx <= fy;
    assert (fx as real) / 100.0 <= (fy as real) / 100.0;
  }

  /** Rounding keeps a value inside any interval whose ends are whole hundredths. */
  lemma {:induction false} Round2Within(x: real, lo: int, hi: int)
    requires (lo as real) / 100.0 <= x <= (hi as real) / 100.0
    ensures (lo as real) / 100.0 <= Round2(x) <= (hi as real) / 100.0
  {
    var f := (x * 100.0 + 0.5).Floor;
    assert (lo as real) <= x * 100.0 <= (hi as real);
    assert (f as real) <= x * 100.0 + 0.5 < (f as real) + 1.0;
    assert lo <= f <= hi;
  }

  /** A value that already has at most two decimals is left unchanged. */
  lemma {:induction false} Round2Exact(k: int)
    ensures Round2((k as real) / 100.0) == (k as real) / 100.0
  {
    var x := (k as real) / 100.0;
    assert x * 100.0 + 0.5 == (k as real) + 0.5;
    assert (x * 100.0 + 0.5).Floor == k;
  }
}
