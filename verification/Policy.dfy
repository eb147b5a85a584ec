/** Risk scoring and policy: from the severities of the deterministic findings and an
    optional LLM answer to a verdict, and from the verdict to the virtual folder a message
    lands in (app/analysis/deterministic.py, app/analysis/service.py,
    app/policies/verdict.py and the visibility helper of app/mailboxes/sync_service.py).

    Floats are modelled as reals. */
module Policy {

  import opened Options

  datatype Verdict = Allow | AllowWithBanner | SoftHold | Quarantine | Reject | EscalateToAdmin

  datatype Visibility = Visible | Quarantined | Hidden | IngestionError | Pending

  datatype Dimension =
    | AuthorityPressure | UrgencyPressure | Scarcity | FearThreat | RewardLure | CuriosityBait
    | ReciprocityObligation | SocialProof | SecrecyIsolation | Impersonation
    | ComplianceEscalation | CredentialOrPaymentCapture

  /** The members of the dimension enumeration. */
  const DIMENSIONS: set<Dimension> :=
    {AuthorityPressure, UrgencyPressure, Scarcity, FearThreat, RewardLure, CuriosityBait,
     ReciprocityObligation, SocialProof, SecrecyIsolation, Impersonation,
     ComplianceEscalation, CredentialOrPaymentCapture}

  datatype Finding = Finding(severity: real, dimensions: seq<Dimension>)

  datatype Thresholds = Thresholds(allow: real, allowWithBanner: real, softHold: real, quarantine: real)

  /** The part of a parsed LLM answer the verdict depends on. */
  datatype LlmAnswer = LlmAnswer(overallRisk: real, confidence: real, scores: map<Dimension, real>)

  /** What one call of the model gives: an error, text that does not parse, or an answer. */
  datatype Generation = Failed | Malformed | Parsed(answer: LlmAnswer)

  datatype Analysis = Analysis(verdict: Verdict, overallRisk: real, confidence: real,
                               isDegraded: bool, dimensions: map<Dimension, real>)

  // ---------------------------------------------------------------- arithmetic

  function Min(x: real, y: real): real { if x <= y then x else y }

  function Max(x: real, y: real): real { if x >= y then x else y }

  function MaxOf(s: seq<real>): (m: real)
    requires s != []
    ensures m in s
    ensures forall x | x in s :: x <= m
  {
    if |s| == 1 then s[0]
    else
      var rest := MaxOf(s[1..]);
      assert s == [s[0]] + s[1..];
      Max(s[0], rest)
  }

  function Sum(s: seq<real>): real
  {
    if s == [] then 0.0 else s[0] + Sum(s[1..])
  }

  function Mean(s: seq<real>): real
    requires s != []
  {
    Sum(s) / (|s| as real)
  }

  /** Rounding to four decimals, ties to even. */
  function Round4(x: real): real
  {
    var y := x * 10000.0;
    var f := y.Floor;
    var d := y - f as real;
    var n := if d < 0.5 || (d == 0.5 && f % 2 == 0) then f else f + 1;
    n as real / 10000.0
  }

  function Severities(findings: seq<Finding>): (s: seq<real>)
  {
    seq(|findings|, i requires 0 <= i < |findings| => findings[i].severity)
  }

  /** The unrounded score: the maximum severity pulled towards the mean. */
  function RawScore(s: seq<real>): real
    requires s != []
  {
    MaxOf(s) * 0.6 + Mean(s) * 0.4
  }

  function RiskScore(s: seq<real>): real
  {
    if s == [] then 0.0 else Round4(Min(RawScore(s), 1.0))
  }

  // ---------------------------------------------------------------- verdicts

  function ComputeVerdict(overallRisk: real, confidence: real, isDegraded: bool,
                          t: Thresholds, gatewayMode: bool): Verdict
  {
    var effective := if isDegraded && confidence < 0.5 then Min(1.0, overallRisk + 0.10) else overallRisk;
    if effective <= t.allow then Allow
    else if effective <= t.allowWithBanner then AllowWithBanner
    else if effective <= t.softHold then SoftHold
    else if effective <= t.quarantine then Quarantine
    else if gatewayMode then Reject
    else EscalateToAdmin
  }

  predicate ShouldQuarantine(verdict: Verdict, quarantineSoftHold: bool)
  {
    verdict in {Quarantine, EscalateToAdmin, Reject} || (quarantineSoftHold && verdict == SoftHold)
  }

  function VerdictToVisibility(verdict: Verdict, quarantineSoftHold: bool): Visibility
  {
    if ShouldQuarantine(verdict, quarantineSoftHold) then Quarantined
    else if verdict == SoftHold then Hidden
    else Visible
  }

  /** How restrictive a verdict is. */
  function Strictness(v: Verdict): nat
  {
    match v
    case Allow => 0
    case AllowWithBanner => 1
    case SoftHold => 2
    case Quarantine => 3
    case Reject => 4
    case EscalateToAdmin => 4
  }

  /** How far a synced message is kept away from the INBOX. */
  function Distance(v: Visibility): nat
  {
    match v
    case Visible => 0
    case Hidden => 1
    case Quarantined => 2
    case _ => 0
  }

  // ---------------------------------------------------------------- the analysis run

  /** Some finding with this severity targets the dimension. */
  ghost predicate Aims(findings: seq<Finding>, d: Dimension, severity: real)
  {
    exists f :: f in findings && d in f.dimensions && f.severity == severity
  }

  ghost predicate InBucket(buckets: map<Dimension, seq<real>>, d: Dimension, severity: real)
  {
    d in buckets && severity in buckets[d]
  }

  /** Appends one finding's severity to the bucket of every dimension it lists. */
  method AddToBuckets(buckets: map<Dimension, seq<real>>, f: Finding) returns (r: map<Dimension, seq<real>>)
    requires forall d | d in buckets :: buckets[d] != []
    ensures forall d | d in r :: r[d] != []
    ensures forall d, x :: InBucket(r, d, x) <==> InBucket(buckets, d, x) || (d in f.dimensions && x == f.severity)
  {
    r := buckets;
    var j := 0;
    while j < |f.dimensions|
      invariant 0 <= j <= |f.dimensions|
      invariant forall d | d in r :: r[d] != []
      invariant forall d, x ::
                  InBucket(r, d, x) <==> InBucket(buckets, d, x) || (d in f.dimensions[..j] && x == f.severity)
    {
      var d := f.dimensions[j];
      if d !in r {
        r := r[d := []];
      }
      ghost var before := r;
      r := r[d := r[d] + [f.severity]];
      forall e, x
        ensures InBucket(r, e, x) <==> InBucket(before, e, x) || (e == d && x == f.severity)
      {
      }
      assert f.dimensions[..j + 1] == f.dimensions[..j] + [d];
      j := j + 1;
    }
    assert f.dimensions[..j] == f.dimensions;
  }

  /** Aggregates the findings: an overall score, and for every targeted dimension the
      greatest severity aimed at it. */
  method RunDeterministicChecks(findings: seq<Finding>)
    returns (riskScore: real, dimensionScores: map<Dimension, real>)
    ensures riskScore == RiskScore(Severities(findings))
    ensures forall d :: d in dimensionScores <==> exists f :: f in findings && d in f.dimensions
    ensures forall d | d in dimensionScores :: GreatestFor(findings, d, dimensionScores[d])
  {
    var buckets: map<Dimension, seq<real>> := map[];
    var i := 0;
    while i < |findings|
      invariant 0 <= i <= |findings|
      invariant forall d | d in buckets :: buckets[d] != []
      invariant forall d, x :: InBucket(buckets, d, x) <==> Aims(findings[..i], d, x)
    {
      buckets := AddToBuckets(buckets, findings[i]);
      assert findings[..i + 1] == findings[..i] + [findings[i]];
      i := i + 1;
    }
    assert findings[..i] == findings;
    dimensionScores := map d | d in buckets :: Min(MaxOf(buckets[d]), 1.0);
    riskScore := RiskScore(Severities(findings));
    forall d: Dimension
      ensures d in buckets <==> exists f :: f in findings && d in f.dimensions
      ensures d in buckets ==> GreatestFor(findings, d, Min(MaxOf(buckets[d]), 1.0))
    {
      if d in buckets {
        assert InBucket(buckets, d, buckets[d][0]);
        BucketMaximum(findings, d, buckets[d]);
      }
      if f :| f in findings && d in f.dimensions {
        assert Aims(findings, d, f.severity);
      }
    }
  }

  /** m is the greatest severity, capped at 1, of the findings that target d. */
  ghost predicate GreatestFor(findings: seq<Finding>, d: Dimension, m: real)
  {
    && (forall f | f in findings && d in f.dimensions :: Min(f.severity, 1.0) <= m)
    && exists f :: f in findings && d in f.dimensions && m == Min(f.severity, 1.0)
  }

  lemma BucketMaximum(findings: seq<Finding>, d: Dimension, bucket: seq<real>)
    requires bucket != []
    requires forall x :: x in bucket <==> Aims(findings, d, x)
    ensures GreatestFor(findings, d, Min(MaxOf(bucket), 1.0))
  {
    var m := MaxOf(bucket);
    assert Aims(findings, d, m);
    forall g | g in findings && d in g.dimensions
      ensures Min(g.severity, 1.0) <= Min(m, 1.0)
    {
      assert Aims(findings, d, g.severity);
    }
  }

  /** The answer the model run ends with, if any: the first one, or the retry after a
      malformed first one. */
  function ModelAnswer(enabled: bool, client: bool, first: Generation, retry: Generation): Option<LlmAnswer>
  {
    if !(enabled && client) then None
    else match first
      case Parsed(a) => Some(a)
      case Failed => None
      case Malformed => if retry.Parsed? then Some(retry.answer) else None
  }

  function CombineRisk(detRisk: real, answer: Option<LlmAnswer>): real
  {
    if answer.None? then detRisk else Round4(detRisk * 0.40 + answer.value.overallRisk * 0.60)
  }

  /** The verdict of an analysis run as a function of the severities and the model's answer. */
  function FinalVerdict(s: seq<real>, answer: Option<LlmAnswer>, t: Thresholds, gatewayMode: bool): Verdict
  {
    ComputeVerdict(CombineRisk(RiskScore(s), answer),
                   if answer.None? then 0.35 else answer.value.confidence,
                   answer.None?, t, gatewayMode)
  }

  /** The score the model gives a dimension, rounded; 0 without an answer or a score. */
  function ModelScore(answer: Option<LlmAnswer>, d: Dimension): real
  {
    if answer.Some? && d in answer.value.scores then Round4(answer.value.scores[d]) else 0.0
  }

  /** x is the greater of the model's score for d and the greatest severity aimed at it. */
  ghost predicate Stored(findings: seq<Finding>, answer: Option<LlmAnswer>, d: Dimension, x: real)
  {
    if exists f :: f in findings && d in f.dimensions then
      exists m :: GreatestFor(findings, d, m) && x == Round4(Max(ModelScore(answer, d), m))
    else x == Round4(Max(ModelScore(answer, d), 0.0))
  }

  method RunAnalysis(findings: seq<Finding>, llmEnabled: bool, clientPresent: bool,
                     first: Generation, retry: Generation, t: Thresholds, gatewayMode: bool)
    returns (run: Analysis)
    ensures run.verdict == FinalVerdict(Severities(findings), ModelAnswer(llmEnabled, clientPresent, first, retry),
                                        t, gatewayMode)
    ensures run.isDegraded <==> ModelAnswer(llmEnabled, clientPresent, first, retry).None?
    ensures run.overallRisk == CombineRisk(RiskScore(Severities(findings)),
                                           ModelAnswer(llmEnabled, clientPresent, first, retry))
    ensures var answer := ModelAnswer(llmEnabled, clientPresent, first, retry);
            run.confidence == Round4(if answer.None? then 0.35 else answer.value.confidence)
    // every dimension is stored: the greater of the model's score and the findings aimed at it
    ensures forall d: Dimension :: d in run.dimensions
    ensures forall d: Dimension ::
              Stored(findings, ModelAnswer(llmEnabled, clientPresent, first, retry), d, run.dimensions[d])
    // in particular never below a finding aimed at it
    ensures forall f, d | f in findings && d in f.dimensions :: Round4(Min(f.severity, 1.0)) <= run.dimensions[d]
  {
    var detRisk, detScores := RunDeterministicChecks(findings);
    var answer: Option<LlmAnswer> := None;
    var isDegraded := false;
    if llmEnabled && clientPresent {
      if first.Failed? {
        isDegraded := true;
      } else {
        if first.Parsed? {
          answer := Some(first.answer);
        }
        if answer.None? {
          if retry.Failed? {
            isDegraded := true;
          } else if retry.Parsed? {
            answer := Some(retry.answer);
          }
        }
        if answer.None? {
          isDegraded := true;
        }
      }
    } else {
      isDegraded := !clientPresent || !llmEnabled;
    }
    var overall, confidence, merged := CombineScores(detRisk, answer, isDegraded);
    var verdict := ComputeVerdict(overall, confidence, isDegraded, t, gatewayMode);
    var dims := map d: Dimension | d in merged ::
      Round4(Max(merged[d], if d in detScores then detScores[d] else 0.0));
    forall d: Dimension
      ensures Stored(findings, answer, d, dims[d])
    {
      if d in detScores {
        AimedIsStored(findings, answer, d, detScores[d]);
      }
    }
    run := Analysis(verdict, overall, Round4(confidence), isDegraded, dims);
    forall f, d | f in findings && d in f.dimensions
      ensures Round4(Min(f.severity, 1.0)) <= run.dimensions[d]
    {
      StoredAtLeast(findings, answer, d, run.dimensions[d], f);
    }
  }

  lemma AimedIsStored(findings: seq<Finding>, answer: Option<LlmAnswer>, d: Dimension, m: real)
    ensures GreatestFor(findings, d, m) ==> Stored(findings, answer, d, Round4(Max(ModelScore(answer, d), m)))
  {
  }

  lemma StoredAtLeast(findings: seq<Finding>, answer: Option<LlmAnswer>, d: Dimension, x: real, f: Finding)
    ensures Stored(findings, answer, d, x) && f in findings && d in f.dimensions ==> Round4(Min(f.severity, 1.0)) <= x
  {
    if Stored(findings, answer, d, x) && f in findings && d in f.dimensions {
      var m :| GreatestFor(findings, d, m) && x == Round4(Max(ModelScore(answer, d), m));
      Round4Monotone(Min(f.severity, 1.0), Max(ModelScore(answer, d), m));
    }
  }

  lemma EveryDimension()
    ensures forall d: Dimension :: d in DIMENSIONS
  {
    forall d: Dimension
      ensures d in DIMENSIONS
    {
      assert d.AuthorityPressure? || d.UrgencyPressure? || d.Scarcity? || d.FearThreat? || d.RewardLure?
          || d.CuriosityBait? || d.ReciprocityObligation? || d.SocialProof? || d.SecrecyIsolation?
          || d.Impersonation? || d.ComplianceEscalation? || d.CredentialOrPaymentCapture?;
    }
  }

  method CombineScores(detRisk: real, answer: Option<LlmAnswer>, isDegraded: bool)
    returns (overall: real, confidence: real, dims: map<Dimension, real>)
    ensures var used := if isDegraded then None else answer;
            && overall == CombineRisk(detRisk, used)
            && confidence == (if used.None? then 0.35 else used.value.confidence)
            && (forall d: Dimension :: d in dims)
            && (forall d: Dimension :: dims[d] == ModelScore(used, d))
  {
    EveryDimension();
    dims := map d | d in DIMENSIONS :: 0.0;
    if answer.None? || isDegraded {
      return detRisk, 0.35, dims;
    }
    overall := Round4(detRisk * 0.40 + answer.value.overallRisk * 0.60);
    confidence := answer.value.confidence;
    var zero := Round4(0.0);
    assert zero == 0.0;
    dims := map d | d in DIMENSIONS ::
      if d in answer.value.scores then Round4(answer.value.scores[d]) else zero;
  }

  // ---------------------------------------------------------------- laws

  lemma {:induction false} Round4Monotone(x: real, y: real)
    requires x <= y
    ensures Round4(x) <= Round4(y)
  {
    var a, b := x * 10000.0, y * 10000.0;
    assert a.Floor <= b.Floor;
  }

  lemma {:induction false} SumInsert(a: seq<real>, x: real, b: seq<real>)
    ensures Sum(a + [x] + b) == Sum(a + b) + x
  {
    if a == [] {
      assert [] + [x] + b == [x] + b && ([x] + b)[1..] == b && [] + b == b;
    } else {
      SumInsert(a[1..], x, b);
      assert (a + [x] + b)[1..] == a[1..] + [x] + b;
      assert (a + b)[1..] == a[1..] + b;
    }
  }

  lemma {:induction false} SumAtMost(s: seq<real>, m: real)
    requires forall x | x in s :: x <= m
    ensures Sum(s) <= |s| as real * m
  {
    if s != [] {
      forall x | x in s[1..]
        ensures x <= m
      {
        assert x in s;
      }
      SumAtMost(s[1..], m);
      assert |s| as real * m == (|s| - 1) as real * m + m;
      assert s[0] in s;
    }
  }

  /** The mean never exceeds an upper bound of the severities. */
  lemma MeanAtMost(s: seq<real>, m: real)
    requires s != []
    requires forall x | x in s :: x <= m
    ensures Mean(s) <= m
  {
    SumAtMost(s, m);
    var n := |s| as real;
    assert Sum(s) <= n * m;
    assert Sum(s) / n <= m;
  }

  /** The score lies between the mean and the greatest severity. */
  lemma ScoreBetweenMeanAndMax(s: seq<real>)
    requires s != []
    requires forall x | x in s :: 0.0 <= x <= 1.0
    ensures Mean(s) <= RawScore(s) <= MaxOf(s) <= 1.0
    ensures RiskScore(s) == Round4(RawScore(s))
  {
    MeanAtMost(s, MaxOf(s));
  }

  /** Inserting x moves the mean towards x. */
  lemma MeanMoves(s: seq<real>, s': seq<real>, x: real)
    requires s != [] && |s'| == |s| + 1 && Sum(s') == Sum(s) + x
    ensures Mean(s) <= Mean(s') <==> x >= Mean(s)
  {
    var n := |s| as real;
    var m := Mean(s);
    assert |s'| as real == n + 1.0 && Sum(s) == m * n;
    MeanOf(n, m, x);
    assert Mean(s') == (m * n + x) / (n + 1.0);
  }

  lemma MeanOf(n: real, m: real, x: real)
    requires n > 0.0
    ensures m <= (m * n + x) / (n + 1.0) <==> x >= m
  {
    var q := (m * n + x) / (n + 1.0);
    assert q * (n + 1.0) == m * n + x;
    assert (q - m) * (n + 1.0) == x - m;
    if q >= m {
      assert (q - m) * (n + 1.0) >= 0.0;
    } else {
      assert (m - q) * (n + 1.0) > 0.0;
    }
  }

  /** A further severity does not lower the unrounded score exactly when it is at least the
      mean of the others. */
  lemma RawScoreGrowsIff(a: seq<real>, x: real, b: seq<real>)
    requires a + b != []
    ensures RawScore(a + b) <= RawScore(a + [x] + b) <==> x >= Mean(a + b)
  {
    var s, s' := a + b, a + [x] + b;
    SumInsert(a, x, b);
    MeanMoves(s, s', x);
    InsertMax(a, x, b);
    MeanAtMost(s, MaxOf(s));
  }

  lemma InsertMax(a: seq<real>, x: real, b: seq<real>)
    requires a + b != []
    ensures MaxOf(a + [x] + b) == Max(MaxOf(a + b), x)
  {
    var s, s' := a + b, a + [x] + b;
    assert s'[|a|] == x;
    forall y
      ensures y in s' <==> y in s || y == x
    {
      assert y in s' <==> y in a || y == x || y in b;
      assert y in s <==> y in a || y in b;
    }
    assert MaxOf(s') in s' && MaxOf(s) in s && x in s' && MaxOf(s) in s';
  }

  /** Inserting a severity that is at least the mean of the others never lowers the score. */
  lemma ScoreGrows(a: seq<real>, x: real, b: seq<real>)
    requires 0.0 <= x
    requires a + b == [] || x >= Mean(a + b)
    ensures RiskScore(a + b) <= RiskScore(a + [x] + b)
  {
    var s, s' := a + b, a + [x] + b;
    if s == [] {
      assert s' == [x] && [x][1..] == [];
      assert Sum([x]) == x;
      assert RawScore(s') == x;
      Round4Monotone(0.0, Min(x, 1.0));
    } else {
      RawScoreGrowsIff(a, x, b);
      Round4Monotone(Min(RawScore(s), 1.0), Min(RawScore(s'), 1.0));
    }
  }

  /** A concrete softening: a second, mild finding takes a message from escalation to
      quarantine under the default thresholds. */
  lemma MildFindingSoftens()
    ensures RiskScore([0.9]) == 0.9 && RiskScore([0.9, 0.0]) == 0.72
    ensures var t := Thresholds(0.25, 0.45, 0.65, 0.85);
            && FinalVerdict([0.9], None, t, false) == EscalateToAdmin
            && FinalVerdict([0.9, 0.0], None, t, false) == Quarantine
  {
    assert [0.9][1..] == [] && [0.9, 0.0][1..] == [0.0] && [0.0][1..] == [];
    assert Sum([0.9]) == 0.9 && Sum([0.9, 0.0]) == 0.9;
    assert RawScore([0.9]) == 0.9 && RawScore([0.9, 0.0]) == 0.72;
    assert Round4(0.9) == 0.9 && Round4(0.72) == 0.72;
  }

  /** Rounding moves a number by at most half of the fourth decimal, to a multiple of it, and to
      an even one when halfway. */
  lemma {:induction false} Round4Near(x: real) returns (n: int)
    ensures -0.00005 <= Round4(x) - x <= 0.00005
    ensures Round4(x) == n as real / 10000.0
    ensures Round4(x) - x == 0.00005 || x - Round4(x) == 0.00005 ==> n % 2 == 0
  {
    var y := x * 10000.0;
    var f := y.Floor;
    var d := y - f as real;
    n := if d < 0.5 || (d == 0.5 && f % 2 == 0) then f else f + 1;
    assert Round4(x) == n as real / 10000.0;
    assert x == (f as real + d) / 10000.0;
    assert Round4(x) - x == (if n == f then -d else 1.0 - d) / 10000.0;
  }

  /** No score exceeds 1, whatever the severities. */
  lemma {:induction false} RiskAtMostOne(s: seq<real>)
    ensures RiskScore(s) <= 1.0
  {
    if s != [] {
      Round4Monotone(Min(RawScore(s), 1.0), 1.0);
    }
  }

  /** What is stored for a dimension: with no finding aimed at it the model's rounded score, if it
      gave one, else 0; with findings, the greatest of their severities when that is more. */
  lemma DimensionScores(findings: seq<Finding>, a: LlmAnswer, d: Dimension, x: real)
    ensures Stored(findings, Some(a), d, x) && d in a.scores && (forall f | f in findings :: d !in f.dimensions) ==>
              x == Round4(if Round4(a.scores[d]) > 0.0 then Round4(a.scores[d]) else 0.0)
    ensures Stored(findings, None, d, x) && (forall f | f in findings :: d !in f.dimensions) ==> x == 0.0
    ensures Stored(findings, Some(a), d, x) && d in a.scores ==> x >= Round4(Round4(a.scores[d]))
  {
    if Stored(findings, Some(a), d, x) && d in a.scores {
      if exists f :: f in findings && d in f.dimensions {
        var m :| GreatestFor(findings, d, m) && x == Round4(Max(ModelScore(Some(a), d), m));
        Round4Monotone(Round4(a.scores[d]), Max(ModelScore(Some(a), d), m));
      } else {
        Round4Monotone(Round4(a.scores[d]), Max(ModelScore(Some(a), d), 0.0));
      }
    }
  }

  /** With an answer the model weighs more than the findings: 60 parts to 40. */
  lemma ModelOutweighs(r: real, a: LlmAnswer)
    ensures CombineRisk(r, None) == r
    ensures -0.00005 <= CombineRisk(r, Some(a)) - (2.0 * r + 3.0 * a.overallRisk) / 5.0 <= 0.00005
  {
    var n := Round4Near(r * 0.40 + a.overallRisk * 0.60);
  }

  /** A model that sees full risk where no finding was made brings a soft hold under the default
      thresholds; the findings alone, at full risk against a model that sees none, a banner. */
  lemma ModelAloneHolds(scores: map<Dimension, real>)
    ensures var t := Thresholds(0.25, 0.45, 0.65, 0.85);
            && FinalVerdict([], Some(LlmAnswer(1.0, 0.9, scores)), t, false) == SoftHold
            && FinalVerdict([1.0], Some(LlmAnswer(0.0, 0.9, scores)), t, false) == AllowWithBanner
  {
    var t, high, low := Thresholds(0.25, 0.45, 0.65, 0.85), LlmAnswer(1.0, 0.9, scores), LlmAnswer(0.0, 0.9, scores);
    ModelOutweighs(0.0, high);
    ModelOutweighs(1.0, low);
    assert [1.0][1..] == [];
    assert Sum([1.0]) == 1.0 && RawScore([1.0]) == 1.0 && Round4(1.0) == 1.0;
    assert RiskScore([]) == 0.0 && RiskScore([1.0]) == 1.0;
    assert 0.45 < CombineRisk(RiskScore([]), Some(high)) <= 0.65;
    assert 0.25 < CombineRisk(RiskScore([1.0]), Some(low)) <= 0.45;
    assert FinalVerdict([], Some(high), t, false) == SoftHold;
    assert FinalVerdict([1.0], Some(low), t, false) == AllowWithBanner;
  }

  /** When a run has an answer: the first call parses, or it is malformed and the retry parses. */
  lemma AnswerIff(enabled: bool, client: bool, first: Generation, retry: Generation, a: LlmAnswer)
    ensures ModelAnswer(enabled, client, first, retry) == Some(a)
            <==> enabled && client && (first == Parsed(a) || (first == Malformed && retry == Parsed(a)))
  {
  }

  /** Without an answer the verdict is that of the findings' risk raised by a tenth, at most to 1. */
  lemma DegradedVerdict(s: seq<real>, t: Thresholds, gateway: bool)
    ensures FinalVerdict(s, None, t, gateway)
         == ComputeVerdict(if RiskScore(s) + 0.10 < 1.0 then RiskScore(s) + 0.10 else 1.0, 1.0, false, t, gateway)
  {
  }

  /** A higher risk never gives a milder verdict, whatever the thresholds and their order. */
  lemma VerdictMonotone(r: real, r': real, confidence: real, degraded: bool, t: Thresholds, gateway: bool)
    requires r <= r'
    ensures Strictness(ComputeVerdict(r, confidence, degraded, t, gateway))
         <= Strictness(ComputeVerdict(r', confidence, degraded, t, gateway))
  {
  }

  /** With ordered thresholds each verdict has its own band of the effective risk, closed at
      its upper threshold. */
  lemma VerdictBands(risk: real, confidence: real, degraded: bool, t: Thresholds, gateway: bool)
    requires t.allow <= t.allowWithBanner <= t.softHold <= t.quarantine
    ensures var v := ComputeVerdict(risk, confidence, degraded, t, gateway);
            var effective := if degraded && confidence < 0.5 then Min(1.0, risk + 0.10) else risk;
            && (v == Allow <==> effective <= t.allow)
            && (v == AllowWithBanner <==> t.allow < effective <= t.allowWithBanner)
            && (v == SoftHold <==> t.allowWithBanner < effective <= t.softHold)
            && (v == Quarantine <==> t.softHold < effective <= t.quarantine)
            && (v == Reject <==> t.quarantine < effective && gateway)
            && (v == EscalateToAdmin <==> t.quarantine < effective && !gateway)
  {
  }

  /** The thresholds with each raised to the greatest one before it. */
  function Levelled(t: Thresholds): Thresholds
  {
    var banner := Max(t.allow, t.allowWithBanner);
    var hold := Max(banner, t.softHold);
    Thresholds(t.allow, banner, hold, Max(hold, t.quarantine))
  }

  /** Thresholds in any order act like ordered ones: one that lies below an earlier one is
      never decisive. */
  lemma DisorderedThresholds(risk: real, confidence: real, degraded: bool, t: Thresholds, gateway: bool)
    ensures var u := Levelled(t);
            && u.allow <= u.allowWithBanner <= u.softHold <= u.quarantine
            && ComputeVerdict(risk, confidence, degraded, t, gateway)
               == ComputeVerdict(risk, confidence, degraded, u, gateway)
  {
  }

  /** The risks a verdict is for lie above the first and up to the second bound. */
  function Bounds(v: Verdict, t: Thresholds): (real, real)
  {
    var u := Levelled(t);
    match v
    case Allow => (Min(u.allow, 0.0) - 1.0, u.allow)
    case AllowWithBanner => (u.allow, u.allowWithBanner)
    case SoftHold => (u.allowWithBanner, u.softHold)
    case Quarantine => (u.softHold, u.quarantine)
    case _ => (u.quarantine, Max(u.quarantine, 0.0) + 1.0)
  }

  /** For any thresholds, in any order: some risk in the unit interval gets a verdict exactly
      when its bounds leave room there, and the gateway mode is the one that has it. */
  lemma VerdictGivenIff(v: Verdict, t: Thresholds, gateway: bool)
    ensures (exists risk :: 0.0 <= risk <= 1.0 && ComputeVerdict(risk, 1.0, false, t, gateway) == v)
            <==> var (above, upTo) := Bounds(v, t);
                 && above < upTo && above < 1.0 && 0.0 <= upTo
                 && (v == Reject ==> gateway) && (v == EscalateToAdmin ==> !gateway)
  {
    forall risk
      ensures ComputeVerdict(risk, 1.0, false, t, gateway) == ComputeVerdict(risk, 1.0, false, Levelled(t), gateway)
    {
      DisorderedThresholds(risk, 1.0, false, t, gateway);
    }
    var most := Min(Bounds(v, t).1, 1.0);
    VerdictBands(most, 1.0, false, Levelled(t), gateway);
    if risk :| 0.0 <= risk <= 1.0 && ComputeVerdict(risk, 1.0, false, t, gateway) == v {
      VerdictBands(risk, 1.0, false, Levelled(t), gateway);
    }
  }

  /** At equal risk and confidence a degraded analysis never has a milder verdict. */
  lemma DegradedIsNeverMilder(risk: real, confidence: real, t: Thresholds, gateway: bool)
    requires risk <= 1.0
    ensures Strictness(ComputeVerdict(risk, confidence, false, t, gateway))
         <= Strictness(ComputeVerdict(risk, confidence, true, t, gateway))
  {
  }

  /** End to end: one more finding, at least as severe as the mean of the others (in particular
      as the most severe of them), inserted anywhere among the findings, never gives a milder
      verdict and never moves the message closer to the INBOX, for any thresholds and any fixed
      answer (or absence) of the model. */
  lemma {:induction false} RiskMonotoneEndToEnd(a: seq<Finding>, f: Finding, b: seq<Finding>, answer: Option<LlmAnswer>,
                             t: Thresholds, gateway: bool, quarantineSoftHold: bool)
    requires 0.0 <= f.severity
    requires a + b == [] || f.severity >= Mean(Severities(a + b))
    ensures var v := FinalVerdict(Severities(a + b), answer, t, gateway);
            var v' := FinalVerdict(Severities(a + [f] + b), answer, t, gateway);
            && Strictness(v) <= Strictness(v')
            && Distance(VerdictToVisibility(v, quarantineSoftHold))
               <= Distance(VerdictToVisibility(v', quarantineSoftHold))
  {
    SeveritiesInsert(a, [], b);
    SeveritiesInsert(a, [f], b);
    var sa, sb := Severities(a), Severities(b);
    assert a + [] + b == a + b && sa + Severities([]) + sb == sa + sb;
    assert Severities([f]) == [f.severity];
    assert Severities(a + b) == sa + sb;
    ScoreGrows(sa, f.severity, sb);
    OutcomeMonotone(RiskScore(sa + sb), RiskScore(sa + [f.severity] + sb), answer, t, gateway);
  }

  /** A finding at least as severe as every other is at least as severe as their mean. */
  lemma MostSevereReachesMean(findings: seq<Finding>, f: Finding)
    requires findings != [] && forall g | g in findings :: g.severity <= f.severity
    ensures f.severity >= Mean(Severities(findings))
  {
    var s := Severities(findings);
    forall y | y in s
      ensures y <= f.severity
    {
      var i :| 0 <= i < |s| && s[i] == y;
      assert findings[i] in findings;
    }
    MeanAtMost(s, f.severity);
  }

  lemma SeveritiesInsert(a: seq<Finding>, b: seq<Finding>, c: seq<Finding>)
    ensures Severities(a + b + c) == Severities(a) + Severities(b) + Severities(c)
  {
  }

  /** A higher deterministic risk never gives a milder verdict, with or without an answer. */
  lemma {:induction false} OutcomeMonotone(r: real, r': real, answer: Option<LlmAnswer>, t: Thresholds, gateway: bool)
    requires r <= r'
    ensures var confidence := if answer.None? then 0.35 else answer.value.confidence;
            Strictness(ComputeVerdict(CombineRisk(r, answer), confidence, answer.None?, t, gateway))
            <= Strictness(ComputeVerdict(CombineRisk(r', answer), confidence, answer.None?, t, gateway))
  {
    if answer.Some? {
      Round4Monotone(r * 0.40 + answer.value.overallRisk * 0.60, r' * 0.40 + answer.value.overallRisk * 0.60);
    }
    VerdictMonotone(CombineRisk(r, answer), CombineRisk(r', answer),
                    if answer.None? then 0.35 else answer.value.confidence, answer.None?, t, gateway);
  }
}
