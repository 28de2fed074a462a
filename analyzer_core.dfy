/** src/core/analyzerCore.js: the outer batch loop, the summary statistics
    and the derive / enrich / score pipeline of one mnemonic. The address
    and balance managers are thin wrappers; their results are parameters. */
module AnalyzerCore {
  import opened Common
  import opened Config
  import opened Batching
  import opened SqliteCache
  import opened PatternAnalyzer

  // ---- runBatchAnalysis ----

  /** `runBatchAnalysis(startIndex, count)` with the per-batch analysis as
      a parameter: batches of 100 in order, results appended, the first
      throw rethrown. */
  method RunBatchAnalysis<T>(analyzeBatch: Piece -> Result<seq<T>>, start: int, count: int)
    returns (r: Result<seq<T>>)
    ensures r == Outcome(analyzeBatch, Pieces(start, count, CORE_BATCH_SIZE, LoopRounds(count, CORE_BATCH_SIZE).n))
  {
    RoundsExact(count, CORE_BATCH_SIZE);
    var batches := LoopRounds(count, CORE_BATCH_SIZE).n;
    var results: seq<T> := [];
    var i := 0;
    while i < batches
      invariant i <= batches
      invariant Outcome(analyzeBatch, Pieces(start, count, CORE_BATCH_SIZE, i)) == Ok(results)
    {
      var currentStart := start + i * CORE_BATCH_SIZE;
      var currentCount := Min(CORE_BATCH_SIZE, count - i * CORE_BATCH_SIZE);
      var batchResult := analyzeBatch(Piece(currentStart, currentCount));
      OutcomeStep(analyzeBatch, start, count, CORE_BATCH_SIZE, i, results);
      if batchResult.Err? {
        OutcomeErrSticky(analyzeBatch, start, count, CORE_BATCH_SIZE, i + 1, batches);
        return Err(batchResult.error);
      }
      results := results + batchResult.value;
      i := i + 1;
    }
    return Ok(results);
  }

  /** For a positive count the batches are `[start, start + count)` in
      ascending order, all of 100 but the last, which is not empty; the run
      succeeds iff every batch does, and returns their concatenation. */
  lemma RunCover<T>(analyzeBatch: Piece -> Result<seq<T>>, start: int, count: int)
    requires count > 0
    ensures var ps := Pieces(start, count, CORE_BATCH_SIZE, LoopRounds(count, CORE_BATCH_SIZE).n);
      && Indices(ps) == Range(start, count)
      && (forall i :: 0 <= i < |ps| ==> 1 <= ps[i].count <= CORE_BATCH_SIZE)
      && (forall i :: 0 <= i < |ps| - 1 ==> ps[i].count == CORE_BATCH_SIZE)
      && (Outcome(analyzeBatch, ps).Ok? <==> forall i :: 0 <= i < |ps| ==> analyzeBatch(ps[i]).Ok?)
      && (Outcome(analyzeBatch, ps).Ok? ==> Outcome(analyzeBatch, ps).value == Concat(Results(analyzeBatch, ps)))
  {
    RoundsExact(count, CORE_BATCH_SIZE);
    var n := LoopRounds(count, CORE_BATCH_SIZE).n;
    PiecesCover(start, count, CORE_BATCH_SIZE, n);
    PiecesShape(start, count, CORE_BATCH_SIZE, n);
    OutcomeOk(analyzeBatch, Pieces(start, count, CORE_BATCH_SIZE, n));
  }

  /** A non-positive count calls no batch and returns the empty list. */
  lemma RunEmpty<T>(analyzeBatch: Piece -> Result<seq<T>>, start: int, count: int)
    requires count <= 0
    ensures LoopRounds(count, CORE_BATCH_SIZE) == Finite(0)
    ensures Outcome(analyzeBatch, Pieces(start, count, CORE_BATCH_SIZE, 0)) == Ok([])
  {
    RoundsExact(count, CORE_BATCH_SIZE);
  }

  /** The TypeError of `this.analyzeBatch(...)`: the class has no such method. */
  const ANALYZE_BATCH_UNDEFINED: string := "this.analyzeBatch is not a function"

  /** What the shipped class calls for every batch. */
  function ShippedBatch<T>(): Piece -> Result<seq<T>>
  {
    (p: Piece) => Err(ANALYZE_BATCH_UNDEFINED)
  }

  /** As shipped, every run with a positive count throws on its first batch. */
  lemma ShippedRunThrows<T>(start: int, count: int)
    requires count > 0
    ensures Outcome(ShippedBatch<T>(), Pieces(start, count, CORE_BATCH_SIZE, LoopRounds(count, CORE_BATCH_SIZE).n))
      == Err(ANALYZE_BATCH_UNDEFINED)
  {
    RoundsExact(count, CORE_BATCH_SIZE);
    OutcomeErr(ShippedBatch<T>(), Pieces(start, count, CORE_BATCH_SIZE, LoopRounds(count, CORE_BATCH_SIZE).n), 0);
  }

  // ---- calculateStats ----

  /** `reduce((sum, addr) => sum + addr.balance, 0)` */
  function TotalBalance(xs: seq<Scored>): int
  {
    if xs == [] then 0 else TotalBalance(xs[..|xs| - 1]) + xs[|xs| - 1].record.balance
  }

  /** `filter(addr => addr.balance > 0).length` */
  function Active(xs: seq<Scored>): (n: nat)
    ensures n <= |xs|
  {
    if xs == [] then 0 else Active(xs[..|xs| - 1]) + (if xs[|xs| - 1].record.balance > 0 then 1 else 0)
  }

  /** `reduce((sum, addr) => sum + addr.confidence, 0)` */
  function ConfidenceSum(xs: seq<Scored>): real
  {
    if xs == [] then 0.0 else ConfidenceSum(xs[..|xs| - 1]) + xs[|xs| - 1].confidence
  }

  /** The summary; `averageConfidence` is None where the source divides
      0 by 0 and gets NaN. */
  datatype Stats = Stats(totalAddresses: nat, totalBalance: int, activeAddresses: nat, averageConfidence: Option<real>)

  function CalculateStats(xs: seq<Scored>): (s: Stats)
    ensures s.totalAddresses == |xs|
    ensures s.activeAddresses <= s.totalAddresses
    ensures s.averageConfidence.None? <==> xs == []
    ensures s.averageConfidence.Some? ==> s.averageConfidence.value * (|xs| as real) == ConfidenceSum(xs)
  {
    Stats(|xs|, TotalBalance(xs), Active(xs),
          if xs == [] then None else Some(ConfidenceSum(xs) / (|xs| as real)))
  }

  /** activeAddresses counts exactly the entries with a positive balance. */
  lemma {:induction false} ActivePositions(xs: seq<Scored>)
    ensures CalculateStats(xs).activeAddresses == |set i | 0 <= i < |xs| && xs[i].record.balance > 0|
  {
    if xs != [] {
      var n := |xs| - 1;
      ActivePositions(xs[..n]);
      var before := set i | 0 <= i < n && xs[..n][i].record.balance > 0;
      var all := set i | 0 <= i < |xs| && xs[i].record.balance > 0;
      assert all == before + (if xs[n].record.balance > 0 then {n} else {});
    }
  }

  /** The counting statistics add up over a split of the list. */
  lemma {:induction false} StatsAppend(xs: seq<Scored>, ys: seq<Scored>)
    ensures CalculateStats(xs + ys).totalAddresses == CalculateStats(xs).totalAddresses + CalculateStats(ys).totalAddresses
    ensures CalculateStats(xs + ys).totalBalance == CalculateStats(xs).totalBalance + CalculateStats(ys).totalBalance
    ensures CalculateStats(xs + ys).activeAddresses == CalculateStats(xs).activeAddresses + CalculateStats(ys).activeAddresses
    ensures ConfidenceSum(xs + ys) == ConfidenceSum(xs) + ConfidenceSum(ys)
  {
    if ys == [] {
      assert xs + ys == xs;
    } else {
      var n := |ys| - 1;
      assert (xs + ys)[..|xs + ys| - 1] == xs + ys[..n];
      StatsAppend(xs, ys[..n]);
    }
  }

  /** Under the all-or-nothing fallback the confidences of a list that
      failed to score sum to 0, and a non-empty one averages 0. */
  lemma {:induction false} FallbackStats(recs: seq<BalanceRecord>, predict: seq<real> -> Option<real>, log1p: int -> real)
    requires !AllPredicted(recs, predict, log1p)
    ensures ConfidenceSum(AnalyzeAddresses(recs, predict, log1p)) == 0.0
    ensures recs != [] ==> CalculateStats(AnalyzeAddresses(recs, predict, log1p)).averageConfidence == Some(0.0)
  {
    var xs := AnalyzeAddresses(recs, predict, log1p);
    ZeroConfidence(xs);
  }

  lemma {:induction false} ZeroConfidence(xs: seq<Scored>)
    requires forall i :: 0 <= i < |xs| ==> xs[i].confidence == 0.0
    ensures ConfidenceSum(xs) == 0.0
  {
    if xs != [] {
      ZeroConfidence(xs[..|xs| - 1]);
    }
  }

  // ---- analyzeMnemonic ----

  /** `{ addresses, stats }` */
  datatype Report = Report(addresses: seq<Scored>, stats: Stats)

  /** `analyzeMnemonic`: derive, enrich, score, summarise; a throw in
      deriving or enriching is rethrown unchanged. `D` is whatever value
      the derivation resolves with and the enrichment is handed. */
  function AnalyzeMnemonic<D>(derived: Result<D>, enrich: D -> Result<seq<BalanceRecord>>,
                              predict: seq<real> -> Option<real>, log1p: int -> real): (r: Result<Report>)
    ensures derived.Err? ==> r == Err(derived.error)
    ensures derived.Ok? && enrich(derived.value).Err? ==> r == Err(enrich(derived.value).error)
    ensures r.Ok? ==> derived.Ok? && enrich(derived.value).Ok?
    ensures r.Ok? ==> r.value.addresses == AnalyzeAddresses(enrich(derived.value).value, predict, log1p)
    ensures r.Ok? ==> r.value.stats == CalculateStats(r.value.addresses)
  {
    match derived
    case Err(e) => Err(e)
    case Ok(addresses) =>
      match enrich(addresses)
      case Err(e) => Err(e)
      case Ok(enriched) =>
        var analyzed := AnalyzeAddresses(enriched, predict, log1p);
        Ok(Report(analyzed, CalculateStats(analyzed)))
  }

  /** The statistics describe exactly the list returned beside them: one
      entry per enriched record, and balances summed from those records. */
  lemma {:induction false} ReportConsistent<D>(derived: Result<D>, enrich: D -> Result<seq<BalanceRecord>>,
                                             predict: seq<real> -> Option<real>, log1p: int -> real)
    requires AnalyzeMnemonic(derived, enrich, predict, log1p).Ok?
    ensures var r := AnalyzeMnemonic(derived, enrich, predict, log1p).value;
      && r.stats.totalAddresses == |r.addresses| == |enrich(derived.value).value|
      && r.stats.totalBalance == BalanceSum(enrich(derived.value).value)
  {
    var recs := enrich(derived.value).value;
    ScoredBalances(recs, AnalyzeAddresses(recs, predict, log1p));
  }

  // ---- the derivation as the class wires it ----

  /** What `addressManager.deriveAddresses` resolves with: the worker's
      reply object `{ addresses }`, which the pool resolves with and the
      manager returns unchanged. */
  datatype WorkerReply<A> = WorkerReply(addresses: seq<A>)

  /** The derivation as the class sees it: a derived list arrives wrapped
      in the reply object, and a failure is rethrown. */
  function Wrapped<A>(derived: Result<seq<A>>): (r: Result<WorkerReply<A>>)
    ensures r.Err? <==> derived.Err?
    ensures derived.Err? ==> r.error == derived.error
    ensures derived.Ok? ==> r.value.addresses == derived.value
  {
    match derived
    case Ok(xs) => Ok(WorkerReply(xs))
    case Err(e) => Err(e)
  }

  /** `.addresses` of the reply, as src/services/mnemonicAnalyzer.js:260
      takes it. */
  function Unwrapped<A>(reply: Result<WorkerReply<A>>): Result<seq<A>>
  {
    match reply
    case Ok(w) => Ok(w.addresses)
    case Err(e) => Err(e)
  }

  /** The TypeError `checkBalancesBatch` throws when handed an object that
      is not an array: `addresses.map` is undefined. */
  const MAP_NOT_A_FUNCTION: string := "addresses.map is not a function"

  /** `balanceManager.enrichAddresses` handed the reply object. */
  function EnrichReply<A>(reply: WorkerReply<A>): Result<seq<BalanceRecord>>
  {
    Err(MAP_NOT_A_FUNCTION)
  }

  /** As shipped, `analyzeMnemonic` never returns a report: a derivation
      that fails is rethrown, and one that succeeds hands the reply object
      to the balance check, which throws. */
  lemma ShippedMnemonicThrows<A>(derived: Result<seq<A>>, predict: seq<real> -> Option<real>, log1p: int -> real)
    ensures var r := AnalyzeMnemonic(Wrapped(derived), EnrichReply<A>, predict, log1p);
      && r.Err?
      && (derived.Ok? ==> r.error == MAP_NOT_A_FUNCTION)
      && (derived.Err? ==> r.error == derived.error)
  {
  }

  /** With the reply unwrapped, the pipeline is the one over the derived
      list: a derivation and an enrichment that both succeed give a report
      over exactly the enriched records. */
  lemma {:induction false} UnwrappedReports<A>(derived: Result<seq<A>>, enrich: seq<A> -> Result<seq<BalanceRecord>>,
                                             predict: seq<real> -> Option<real>, log1p: int -> real)
    requires derived.Ok? && enrich(derived.value).Ok?
    ensures var r := AnalyzeMnemonic(Unwrapped(Wrapped(derived)), enrich, predict, log1p);
      && r.Ok?
      && r.value.stats.totalAddresses == |r.value.addresses| == |enrich(derived.value).value|
      && r.value.stats.totalBalance == BalanceSum(enrich(derived.value).value)
  {
    assert Unwrapped(Wrapped(derived)) == derived;
    ReportConsistent(derived, enrich, predict, log1p);
  }

  function BalanceSum(recs: seq<BalanceRecord>): int
  {
    if recs == [] then 0 else BalanceSum(recs[..|recs| - 1]) + recs[|recs| - 1].balance
  }

  lemma {:induction false} ScoredBalances(recs: seq<BalanceRecord>, xs: seq<Scored>)
    requires |xs| == |recs| && forall i :: 0 <= i < |xs| ==> xs[i].record == recs[i]
    ensures TotalBalance(xs) == BalanceSum(recs)
  {
    if xs != [] {
      ScoredBalances(recs[..|recs| - 1], xs[..|xs| - 1]);
    }
  }
}
