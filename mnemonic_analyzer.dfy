/** src/services/mnemonicAnalyzer.js: the chunked derivation, the balance
    merge, the pattern ranking with its fallback, the command dispatch with
    its alias table, and the per-command timing table. Workers, the balance
    API, the learner and `performance.now()` are parameters. */
module MnemonicAnalyzer {
  import opened Common
  import opened Config
  import opened Text
  import opened Batching
  import opened SqliteCache
  import opened BalanceChecker
  import opened StableSort
  import AddressDeriver
  import WorkerPool

  // ---- deriveAddresses: ceil(b / 10) chunks of ceil(b / chunks) ----

  /** `Math.ceil(batchSize / MAX_CONCURRENT_REQUESTS)`, as a loop bound:
      a non-positive batch runs no round. */
  function ChunkCount(b: int): (n: nat)
    ensures b > 0 ==> n >= 1 && (n - 1) * MAX_CONCURRENT_REQUESTS < b <= n * MAX_CONCURRENT_REQUESTS
    ensures b <= 0 ==> n == 0
  {
    if b > 0 then CeilDiv(b, MAX_CONCURRENT_REQUESTS) else 0
  }

  /** `Math.ceil(batchSize / chunks)`; only read when some chunk runs. */
  function ChunkSize(b: int): int
  {
    if b > 0 then CeilDiv(b, ChunkCount(b)) else 0
  }

  /** The chunk sizes are between 1 and the concurrency limit, and the
      chunks split the batch exactly: all full but the last, which is not empty. */
  lemma ChunkPlan(b: int)
    requires b > 0
    ensures 1 <= ChunkSize(b) <= MAX_CONCURRENT_REQUESTS
    ensures ExactSplit(b, ChunkSize(b), ChunkCount(b))
  {
    var n := ChunkCount(b);
    var cs := CeilDiv(b, n);
    assert ChunkSize(b) == cs;
    ChunkArithmetic(b, n, cs);
  }

  /** The arithmetic of the plan, on plain integers: n chunks of at most
      10 hold b, and cs = ceil(b / n) chunks of cs hold it exactly. */
  lemma ChunkArithmetic(b: int, n: int, cs: int)
    requires b > 0 && n >= 1
    requires (n - 1) * MAX_CONCURRENT_REQUESTS < b <= n * MAX_CONCURRENT_REQUESTS
    requires (cs - 1) * n < b <= cs * n
    ensures 1 <= cs <= MAX_CONCURRENT_REQUESTS
    ensures (n - 1) * cs < b <= n * cs
  {
    ProductSign(cs, n);
    assert (MAX_CONCURRENT_REQUESTS - (cs - 1)) * n == MAX_CONCURRENT_REQUESTS * n - (cs - 1) * n;
    ProductSign(MAX_CONCURRENT_REQUESTS - (cs - 1), n);
    if n > 1 {
      MulLe(cs, MAX_CONCURRENT_REQUESTS, n - 1);
    }
  }

  /** The chunks of a positive batch cover `[start, start + b)` in order,
      there are `ceil(b / 10)` of them, each with 1 to 10 indices. */
  lemma ChunksCover(start: int, b: int)
    requires b > 0
    ensures var ps := Pieces(start, b, ChunkSize(b), ChunkCount(b));
      && Indices(ps) == Range(start, b)
      && |ps| == CeilDiv(b, MAX_CONCURRENT_REQUESTS)
      && (forall i :: 0 <= i < |ps| ==> 1 <= ps[i].count <= MAX_CONCURRENT_REQUESTS)
      && (forall i :: 0 <= i < |ps| - 1 ==> ps[i + 1].start == ps[i].start + ps[i].count)
  {
    ChunkPlan(b);
    PiecesCover(start, b, ChunkSize(b), ChunkCount(b));
    PiecesShape(start, b, ChunkSize(b), ChunkCount(b));
  }

  /** The default batch of 100 is ten chunks of ten: more chunks than the
      pool has workers. */
  lemma DefaultBatchChunks()
    ensures ChunkCount(DEFAULT_BATCH_SIZE) == 10 && ChunkSize(DEFAULT_BATCH_SIZE) == 10
    ensures ChunkCount(DEFAULT_BATCH_SIZE) > WORKER_COUNT
  {
  }

  const DERIVE_FAILED: string := "Failed to derive addresses"

  /** `deriveAddresses(seed, startIndex, batchSize)`: one worker task per
      chunk, then `Promise.all` and `flatMap(r => r.addresses)`, so the
      records come in chunk (submission) order; any failure is reported as
      'Failed to derive addresses'. `runTask` is what the pool's task
      settles to. */
  method DeriveAddresses<R>(start: int, batchSize: int, runTask: Piece -> Result<seq<R>>)
    returns (r: Result<seq<R>>)
    ensures var all := Outcome(runTask, Pieces(start, batchSize, ChunkSize(batchSize), ChunkCount(batchSize)));
      r == if all.Ok? then all else Err(DERIVE_FAILED)
  {
    var chunks := ChunkCount(batchSize);
    var chunkSize := ChunkSize(batchSize);
    var tasks: seq<Piece> := [];
    var i := 0;
    while i < chunks
      invariant i <= chunks
      invariant tasks == Pieces(start, batchSize, chunkSize, i)
    {
      var chunkStartIndex := start + i * chunkSize;
      var currentChunkSize := Min(chunkSize, batchSize - i * chunkSize);
      tasks := tasks + [Piece(chunkStartIndex, currentChunkSize)];
      i := i + 1;
    }
    var results := Outcome(runTask, tasks);
    if results.Err? {
      return Err(DERIVE_FAILED);
    }
    return results;
  }

  /** The derivation succeeds iff every chunk's task does, and then holds
      the chunk results concatenated in chunk order. */
  lemma DeriveAllOrNothing<R>(start: int, batchSize: int, runTask: Piece -> Result<seq<R>>)
    ensures var ps := Pieces(start, batchSize, ChunkSize(batchSize), ChunkCount(batchSize));
      var all := Outcome(runTask, ps);
      && (all.Ok? <==> forall i :: 0 <= i < |ps| ==> runTask(ps[i]).Ok?)
      && (all.Ok? ==> all.value == Concat(Results(runTask, ps)))
  {
    OutcomeOk(runTask, Pieces(start, batchSize, ChunkSize(batchSize), ChunkCount(batchSize)));
  }

  /** The default batch on a fresh pool: the ten chunk tasks are submitted
      back to back, the first four start, and the other six are dropped, so
      `Promise.all` over them never resolves. */
  method DefaultBatchOnPool<M>(start: int) returns (p: WorkerPool.Pool<Piece, M>, ids: seq<nat>)
    ensures p.Valid() && |ids| == 10
    ensures forall i :: 0 <= i < 10 ==> ids[i] == i && ids[i] in p.status
    ensures forall i :: 0 <= i < 4 ==> p.status[ids[i]] == WorkerPool.Running(i)
    ensures forall i :: 4 <= i < 10 ==> p.status[ids[i]] == WorkerPool.Lost
  {
    DefaultBatchChunks();
    var tasks := Pieces(start, DEFAULT_BATCH_SIZE, ChunkSize(DEFAULT_BATCH_SIZE), ChunkCount(DEFAULT_BATCH_SIZE));
    p, ids := WorkerPool.SubmitAll<Piece, M>(tasks);
    WorkerPool.SaturatedLoses<Piece, M>(|tasks|);
  }

  // ---- enrichAddressData ----

  /** `{ ...deriveInfo, ...balances[idx] }`: the derived record overlaid by
      its balance record, when there is one. */
  datatype Enriched = Enriched(derived: AddressDeriver.AddressRecord, balance: Option<BalanceRecord>)

  /** The `address` field of the merged object: the overlay wins. */
  function Address(e: Enriched): string
  {
    if e.balance.Some? then e.balance.value.address else e.derived.address
  }

  function Merge(addresses: seq<AddressDeriver.AddressRecord>, balances: seq<BalanceRecord>): (r: seq<Enriched>)
    ensures |r| == |addresses|
    ensures forall i :: 0 <= i < |r| ==> r[i].derived == addresses[i]
    ensures forall i :: 0 <= i < |r| ==> (r[i].balance.Some? <==> i < |balances|)
    ensures forall i :: 0 <= i < |r| && i < |balances| ==> r[i].balance.value == balances[i]
  {
    seq(|addresses|, i requires 0 <= i < |addresses| =>
      Enriched(addresses[i], if i < |balances| then Some(balances[i]) else None))
  }

  /** `addresses.map(a => a.address)` */
  function AddressesOf(addresses: seq<AddressDeriver.AddressRecord>): (r: seq<string>)
    ensures |r| == |addresses| && forall i :: 0 <= i < |r| ==> r[i] == addresses[i].address
  {
    seq(|addresses|, i requires 0 <= i < |addresses| => addresses[i].address)
  }

  /** The per-address results of the balance batch, against the table as it
      was when the batch started. */
  function BatchResults(entries: map<string, Entry>, addresses: seq<AddressDeriver.AddressRecord>,
                        api: Api, now: int, storeUp: bool): Result<seq<BalanceRecord>>
  {
    var names := AddressesOf(addresses);
    All(seq(|names|, i requires 0 <= i < |names| => Result1(entries, names[i], api, now, storeUp)))
  }

  const ENRICH_FAILED: string := "Failed to enrich address data"

  /** `enrichAddressData(addresses)` */
  method EnrichAddressData(checker: Checker, addresses: seq<AddressDeriver.AddressRecord>,
                           api: Api, now: int, storeUp: bool) returns (r: Result<seq<Enriched>>)
    modifies checker.cache
    ensures var all := BatchResults(old(checker.cache.entries), addresses, api, now, storeUp);
      r == if all.Ok? then Ok(Merge(addresses, all.value)) else Err(ENRICH_FAILED)
    ensures var names := AddressesOf(addresses);
      checker.cache.entries ==
        WriteBacks(if storeUp then AfterGets(old(checker.cache.entries), names, now) else old(checker.cache.entries),
                   old(checker.cache.entries), names, api, now, storeUp)
  {
    var balances, _ := checker.CheckBalancesBatch(AddressesOf(addresses), api, now, storeUp);
    if balances.Err? {
      return Err(ENRICH_FAILED);
    }
    return Ok(Merge(addresses, balances.value));
  }

  /** On a well-keyed cache a successful enrichment has one element per
      address, each carrying the balance record of its own address. */
  lemma EnrichedMatches(entries: map<string, Entry>, addresses: seq<AddressDeriver.AddressRecord>,
                        api: Api, now: int, storeUp: bool)
    requires WellKeyed(entries)
    requires BatchResults(entries, addresses, api, now, storeUp).Ok?
    ensures var r := Merge(addresses, BatchResults(entries, addresses, api, now, storeUp).value);
      forall i :: 0 <= i < |r| ==> r[i].balance.Some? && Address(r[i]) == addresses[i].address
  {
    BatchShape(entries, AddressesOf(addresses), api, now, storeUp);
  }

  // ---- applyAIOptimizations ----

  /** `{ ...result, patternConfidence, isPromising }` */
  datatype Ranked = Ranked(item: Enriched, patternConfidence: real, isPromising: bool)

  /** The ranking, or the input list itself when anything threw. */
  datatype Optimization = Optimized(ranked: seq<Ranked>) | Unchanged(results: seq<Enriched>)

  /** `learnFromAddressPattern` then `predictSimilarity` for one result:
      the similarity, or None when either throws. */
  type Scorer = Enriched -> Option<real>

  predicate AllScored(results: seq<Enriched>, score: Scorer)
  {
    forall i :: 0 <= i < |results| ==> score(results[i]).Some?
  }

  /** The pushed objects, in input order. */
  function Scores(results: seq<Enriched>, score: Scorer, threshold: real): (r: seq<Ranked>)
    requires AllScored(results, score)
    ensures |r| == |results|
  {
    seq(|results|, i requires 0 <= i < |results| =>
      var s := score(results[i]).value;
      Ranked(results[i], s, s > threshold))
  }

  function Confidence(x: Ranked): real { x.patternConfidence }

  function Optimize(results: seq<Enriched>, score: Scorer, threshold: real): Optimization
  {
    if AllScored(results, score) then Optimized(Sort(Scores(results, score, threshold), Confidence))
    else Unchanged(results)
  }

  /** `applyAIOptimizations(results)` with the learner and the similarity
      threshold as parameters. */
  method ApplyAIOptimizations(results: seq<Enriched>, score: Scorer, threshold: real) returns (r: Optimization)
    ensures r == Optimize(results, score, threshold)
  {
    var optimizedResults: seq<Ranked> := [];
    var i := 0;
    while i < |results|
      invariant i <= |results|
      invariant AllScored(results[..i], score)
      invariant optimizedResults == Scores(results[..i], score, threshold)
    {
      var similarity := score(results[i]);
      if similarity.None? {
        return Unchanged(results);
      }
      optimizedResults := optimizedResults + [Ranked(results[i], similarity.value, similarity.value > threshold)];
      assert results[..i + 1][..i] == results[..i];
      i := i + 1;
    }
    assert results[..i] == results;
    return Optimized(Sort(optimizedResults, Confidence));
  }

  /** A successful run returns the scored results reordered by
      non-increasing confidence, stably, each promising iff its similarity
      is strictly above the threshold. */
  lemma OptimizeRanks(results: seq<Enriched>, score: Scorer, threshold: real)
    requires AllScored(results, score)
    ensures var r := Optimize(results, score, threshold);
      var scored := Scores(results, score, threshold);
      && r.Optimized?
      && |r.ranked| == |results|
      && SortedDesc(r.ranked, Confidence)
      && multiset(r.ranked) == multiset(scored)
      && (forall c :: WithKey(r.ranked, Confidence, c) == WithKey(scored, Confidence, c))
      && (forall x :: x in r.ranked ==> (x.isPromising <==> x.patternConfidence > threshold))
  {
    var scored := Scores(results, score, threshold);
    SortSorted(scored, Confidence);
    SortPerm(scored, Confidence);
    forall c ensures WithKey(Sort(scored, Confidence), Confidence, c) == WithKey(scored, Confidence, c) {
      SortStable(scored, Confidence, c);
    }
    forall x | x in Sort(scored, Confidence) ensures x.isPromising <==> x.patternConfidence > threshold {
      assert x in multiset(Sort(scored, Confidence));
      assert x in scored;
    }
  }

  /** One failure anywhere hands back the input list as it was. */
  lemma OptimizeFallback(results: seq<Enriched>, score: Scorer, threshold: real, bad: nat)
    requires bad < |results| && score(results[bad]).None?
    ensures Optimize(results, score, threshold) == Unchanged(results)
  {
  }

  /** The learner as shipped: `this.createPattern` is not defined, and the
      push after it reads `PATTERN_SIMILARITY_THRESHOLD`, which is not
      imported; either way every item throws. */
  function ShippedScorer(): Scorer
  {
    (e: Enriched) => None
  }

  /** As shipped, a non-empty list is never ranked. */
  lemma ShippedNeverRanks(results: seq<Enriched>, threshold: real)
    requires results != []
    ensures Optimize(results, ShippedScorer(), threshold) == Unchanged(results)
  {
    OptimizeFallback(results, ShippedScorer(), threshold, 0);
  }

  // ---- processCommand / handleNaturalLanguage ----

  /** The cases of the `switch` in `processCommand`. */
  /** The case a command reaches. `ExitFailed` is the 'exit' case whose
      `cleanup()` rejected: `process.exit` is not reached, the catch logs
      the error, and the loop reads the next command. */
  datatype Action = Help | Exit | Status | Analyze | Performance | Clear | NotSure | ExitFailed

  function Switch(command: string): Option<Action>
  {
    if command == "help" then Some(Help)
    else if command == "exit" then Some(Exit)
    else if command == "status" then Some(Status)
    else if command == "analyze" then Some(Analyze)
    else if command == "performance" then Some(Performance)
    else if command == "clear" then Some(Clear)
    else None
  }

  /** The `commands` table, in `Object.entries` order. */
  const ALIASES: seq<(string, seq<string>)> := [
    ("show", ["status", "display", "info"]),
    ("analyze", ["check", "scan", "process"]),
    ("help", ["guide", "assist", "support"]),
    ("clear", ["clean", "cls", "reset"]),
    ("exit", ["quit", "bye", "close"])]

  /** `aliases.some(alias => words.includes(alias))` */
  predicate Mentions(aliases: seq<string>, words: seq<string>)
  {
    aliases != [] && (aliases[0] in words || Mentions(aliases[1..], words))
  }

  /** Mentions holds iff some alias is among the words. */
  lemma {:induction false} MentionsSome(aliases: seq<string>, words: seq<string>)
    ensures Mentions(aliases, words) <==> exists k :: 0 <= k < |aliases| && aliases[k] in words
  {
    if aliases != [] {
      MentionsSome(aliases[1..], words);
      if Mentions(aliases[1..], words) {
        var k :| 0 <= k < |aliases[1..]| && aliases[1..][k] in words;
        assert aliases[k + 1] in words;
      }
      if exists k :: 0 <= k < |aliases| && aliases[k] in words {
        var k :| 0 <= k < |aliases| && aliases[k] in words;
        if k > 0 {
          assert aliases[1..][k - 1] in words;
        }
      }
    }
  }

  /** The first entry of the table with an alias among the words. */
  function FirstMatch(table: seq<(string, seq<string>)>, words: seq<string>): (r: Option<nat>)
    ensures r.Some? ==> r.value < |table| && Mentions(table[r.value].1, words)
    ensures r.Some? ==> forall j :: 0 <= j < r.value ==> !Mentions(table[j].1, words)
    ensures r.None? ==> forall j :: 0 <= j < |table| ==> !Mentions(table[j].1, words)
  {
    if table == [] then None
    else if Mentions(table[0].1, words) then Some(0)
    else match FirstMatch(table[1..], words)
      case None => None
      case Some(i) => Some(i + 1)
  }

  /** The first entry mentioned, when the entries before it are not, is the
      one FirstMatch picks. */
  lemma {:induction false} FirstMatchIs(table: seq<(string, seq<string>)>, words: seq<string>, i: nat)
    requires i < |table| && Mentions(table[i].1, words)
    requires forall j :: 0 <= j < i ==> !Mentions(table[j].1, words)
    ensures FirstMatch(table, words) == Some(i)
  {
    if i > 0 {
      FirstMatchIs(table[1..], words, i - 1);
    }
  }

  /** What one `processCommand` call does: the action taken and, in order,
      the commands whose timing the `finally` blocks record. */
  datatype Handled = Handled(action: Action, timed: seq<string>)

  /** Table targets call back into `processCommand`; nothing else does. */
  function Rank(command: string): nat
  {
    if exists i :: 0 <= i < |ALIASES| && ALIASES[i].0 == command then 0 else 1
  }

  /** An input that mentions an alias is not itself a table target. */
  lemma MatchedIsNoTarget(input: string)
    requires FirstMatch(ALIASES, Split(input, ' ')).Some?
    ensures Rank(input) == 1
  {
    TargetsUnaliased();
  }

  /** No target's own words mention an alias, so a target never recurses a
      second time. */
  lemma TargetsUnaliased()
    ensures forall i :: 0 <= i < |ALIASES| ==> FirstMatch(ALIASES, Split(ALIASES[i].0, ' ')).None?
  {
    forall i | 0 <= i < |ALIASES| ensures FirstMatch(ALIASES, Split(ALIASES[i].0, ' ')).None? {
      NoSeparatorSplit(ALIASES[i].0, ' ');
      Unaliased(ALIASES[i].0);
    }
  }

  /** A single word that is no alias mentions no entry of the table. */
  lemma Unaliased(t: string)
    requires t in ["show", "analyze", "help", "clear", "exit"]
    ensures FirstMatch(ALIASES, [t]).None?
  {
    forall j | 0 <= j < |ALIASES| ensures !Mentions(ALIASES[j].1, [t]) {
      EntryUnaliased(ALIASES[j].1, t);
    }
  }

  /** Three aliases, none of them the word: the entry is not mentioned. */
  lemma EntryUnaliased(a: seq<string>, t: string)
    requires |a| == 3 && a[0] != t && a[1] != t && a[2] != t
    ensures !Mentions(a, [t])
  {
    assert a[2..] == [a[2]] && a[2..][1..] == [];
    assert !Mentions(a[2..], [t]);
    assert a[1..][0] == a[1] && a[1..][1..] == a[2..];
    assert !Mentions(a[1..], [t]);
  }

  /** `processCommand(command)`: a switch case acts and is timed, except
      'exit' when `cleanup()` resolves (`cleanupOk`), whose `process.exit`
      ends everything before any `finally`; when it rejects, the catch logs
      and 'exit' is timed like any other case. Anything else is natural
      language, timed after the inner call. */
  function Dispatch(command: string, cleanupOk: bool): Handled
    decreases Rank(command), 1
  {
    match Switch(command)
    case Some(Exit) => if cleanupOk then Handled(Exit, []) else Handled(ExitFailed, [command])
    case Some(a) => Handled(a, [command])
    case None => Outer(command, NaturalLanguage(command, cleanupOk))
  }

  /** `handleNaturalLanguage(input)`: the first entry with an alias among the
      space-separated words is processed as a command; none gives the
      "not sure" message. */
  function NaturalLanguage(input: string, cleanupOk: bool): Handled
    decreases Rank(input), 0
  {
    match FirstMatch(ALIASES, Split(input, ' '))
    case None => Handled(NotSure, [])
    case Some(i) =>
      MatchedIsNoTarget(input);
      Dispatch(ALIASES[i].0, cleanupOk)
  }

  /** 'show' is a table target but not a switch case: it comes back as
      natural language and matches nothing. */
  lemma ShowIsNotSure(show: string, cleanupOk: bool)
    requires show == ALIASES[0].0
    ensures Dispatch(show, cleanupOk) == Handled(NotSure, [show])
  {
    ShowNotCase(show);
    ViaLanguage(show, cleanupOk);
    ShowUnmatched(show, cleanupOk);
    assert [] + [show] == [show];
  }

  lemma ShowNotCase(show: string)
    requires show == ALIASES[0].0
    ensures Switch(show).None?
  {
  }

  lemma ShowUnmatched(show: string, cleanupOk: bool)
    requires show == ALIASES[0].0
    ensures NaturalLanguage(show, cleanupOk) == Handled(NotSure, [])
  {
    TargetsUnaliased();
  }

  /** So every alias of 'show' (including 'status' among other words) ends
      in the "not sure" message, with both the inner and outer calls timed. */
  lemma ShowAliasesNotSure(input: string, cleanupOk: bool)
    requires Switch(input).None? && FirstMatch(ALIASES, Split(input, ' ')) == Some(0)
    ensures Dispatch(input, cleanupOk) == Handled(NotSure, ["show", input])
  {
    assert Dispatch(input, cleanupOk) == Outer(input, NaturalLanguage(input, cleanupOk)) by {
      ViaLanguage(input, cleanupOk);
    }
    assert NaturalLanguage(input, cleanupOk) == Dispatch(ALIASES[0].0, cleanupOk) by {
      ViaTable(input, 0, cleanupOk);
    }
    ShowIsNotSure(ALIASES[0].0, cleanupOk);
  }

  /** Every other target is a switch case, so its aliases reach that case.
      An exit alias is untimed when `cleanup()` resolves; when it rejects,
      'exit' and then the input are timed, as for every other target. */
  lemma AliasReachesCase(input: string, i: nat, cleanupOk: bool)
    requires Switch(input).None? && FirstMatch(ALIASES, Split(input, ' ')) == Some(i) && i > 0
    ensures Switch(ALIASES[i].0).Some?
    ensures Dispatch(input, cleanupOk).action ==
      if ALIASES[i].0 == "exit" && !cleanupOk then ExitFailed else Switch(ALIASES[i].0).value
    ensures Dispatch(input, cleanupOk).timed ==
      if ALIASES[i].0 == "exit" && cleanupOk then [] else [ALIASES[i].0, input]
  {
    var t := ALIASES[i].0;
    assert Dispatch(input, cleanupOk) == Outer(input, Dispatch(t, cleanupOk)) by {
      ViaLanguage(input, cleanupOk);
      ViaTable(input, i, cleanupOk);
    }
    TargetIsCase(i, cleanupOk);
    if t == "exit" && cleanupOk {
      assert Dispatch(input, cleanupOk) == Handled(Exit, []);
    } else if t == "exit" {
      assert Dispatch(input, cleanupOk) == Handled(ExitFailed, [t] + [input]);
    } else {
      assert Dispatch(input, cleanupOk) == Handled(Switch(t).value, [t] + [input]);
    }
  }

  /** What the outer call makes of the inner call's result. */
  function Outer(command: string, h: Handled): Handled
  {
    if h.action == Exit then h else Handled(h.action, h.timed + [command])
  }

  lemma ViaLanguage(input: string, cleanupOk: bool)
    requires Switch(input).None?
    ensures Dispatch(input, cleanupOk) == Outer(input, NaturalLanguage(input, cleanupOk))
  {
  }

  lemma ViaNothing(input: string, cleanupOk: bool)
    requires FirstMatch(ALIASES, Split(input, ' ')).None?
    ensures NaturalLanguage(input, cleanupOk) == Handled(NotSure, [])
  {
  }

  lemma ViaTable(input: string, i: nat, cleanupOk: bool)
    requires FirstMatch(ALIASES, Split(input, ' ')) == Some(i)
    ensures i < |ALIASES| && NaturalLanguage(input, cleanupOk) == Dispatch(ALIASES[i].0, cleanupOk)
  {
  }

  /** The targets after 'show' are switch cases; 'exit' is untimed only
      when `cleanup()` resolves. */
  lemma TargetIsCase(i: nat, cleanupOk: bool)
    requires 0 < i < |ALIASES|
    ensures Switch(ALIASES[i].0).Some?
    ensures Dispatch(ALIASES[i].0, cleanupOk) ==
      if ALIASES[i].0 != "exit" then Handled(Switch(ALIASES[i].0).value, [ALIASES[i].0])
      else if cleanupOk then Handled(Exit, [])
      else Handled(ExitFailed, [ALIASES[i].0])
  {
    if i == 1 {
      assert Switch("analyze") == Some(Analyze);
    } else if i == 2 {
      assert Switch("help") == Some(Help);
    } else if i == 3 {
      assert Switch("clear") == Some(Clear);
    } else {
      assert Switch("exit") == Some(Exit);
    }
  }

  /** The process ends, untimed, only when 'exit' is reached and `cleanup()`
      resolves; a rejected cleanup times 'exit' first. Anything else is
      timed last under its own name, after at most one inner command. */
  lemma TimingShape(command: string, cleanupOk: bool)
    ensures Dispatch(command, cleanupOk).action == Exit ==> cleanupOk && Dispatch(command, cleanupOk).timed == []
    ensures Dispatch(command, cleanupOk).action == ExitFailed ==>
      !cleanupOk && Dispatch(command, cleanupOk).timed[0] == "exit"
    ensures Dispatch(command, cleanupOk).action != Exit ==>
      && 1 <= |Dispatch(command, cleanupOk).timed| <= 2
      && Dispatch(command, cleanupOk).timed[|Dispatch(command, cleanupOk).timed| - 1] == command
  {
    if Switch(command).None? {
      match FirstMatch(ALIASES, Split(command, ' '))
      case None =>
        ViaLanguage(command, cleanupOk);
      case Some(i) =>
        if i == 0 {
          ShowAliasesNotSure(command, cleanupOk);
        } else {
          AliasReachesCase(command, i, cleanupOk);
        }
    }
  }

  // ---- updatePerformanceMetrics ----

  /** `{ count, totalTime, minTime, maxTime }` of one command. */
  datatype Metrics = Metrics(count: nat, totalTime: real, minTime: real, maxTime: real)

  function RMin(a: real, b: real): real { if a <= b then a else b }
  function RMax(a: real, b: real): real { if a >= b then a else b }

  /** The new entry for `command` after a call that took `duration`. */
  function Updated(m: map<string, Metrics>, command: string, duration: real): (x: Metrics)
    ensures command !in m ==> x == Metrics(1, duration, duration, duration)
    ensures command in m ==> x.count == m[command].count + 1 && x.totalTime == m[command].totalTime + duration
    ensures x.minTime <= duration <= x.maxTime
    ensures command in m ==> x.minTime <= m[command].minTime && m[command].maxTime <= x.maxTime
  {
    var e := if command in m then m[command] else Metrics(0, 0.0, duration, duration);
    Metrics(e.count + 1, e.totalTime + duration, RMin(e.minTime, duration), RMax(e.maxTime, duration))
  }

  /** A timing entry is consistent: run at least once, min <= max, and the
      total between count * min and count * max. */
  predicate Consistent(x: Metrics)
  {
    x.count >= 1 && x.minTime <= x.maxTime
    && (x.count as real) * x.minTime <= x.totalTime <= (x.count as real) * x.maxTime
  }

  /** Recording keeps every entry consistent. */
  lemma UpdatedConsistent(m: map<string, Metrics>, command: string, duration: real)
    requires command in m ==> Consistent(m[command])
    ensures Consistent(Updated(m, command, duration))
  {
    if command in m {
      var e := m[command];
      var x := Updated(m, command, duration);
      var c := e.count as real;
      assert c * x.minTime <= c * e.minTime by { RealMulMonotone(c, x.minTime, e.minTime); }
      assert c * e.maxTime <= c * x.maxTime by { RealMulMonotone(c, e.maxTime, x.maxTime); }
      assert (x.count as real) == c + 1.0;
      assert (c + 1.0) * x.minTime == c * x.minTime + x.minTime;
      assert (c + 1.0) * x.maxTime == c * x.maxTime + x.maxTime;
    }
  }

  lemma RealMulMonotone(c: real, a: real, b: real)
    requires c >= 0.0 && a <= b
    ensures c * a <= c * b
  {
  }

  /** The timing table after the recorded calls, in order. */
  function Timed(m: map<string, Metrics>, commands: seq<string>, elapsed: string -> real): map<string, Metrics>
  {
    if commands == [] then m
    else
      var m' := Timed(m, commands[..|commands| - 1], elapsed);
      var c := commands[|commands| - 1];
      m'[c := Updated(m', c, elapsed(c))]
  }

  /** Recording only ever touches the recorded commands, and keeps a
      consistent table consistent. */
  lemma {:induction false} TimedFrame(m: map<string, Metrics>, commands: seq<string>, elapsed: string -> real)
    requires forall c :: c in m ==> Consistent(m[c])
    ensures var m' := Timed(m, commands, elapsed);
      && (forall c :: c !in commands ==> (c in m' <==> c in m) && (c in m ==> m'[c] == m[c]))
      && (forall c :: c in commands ==> c in m')
      && (forall c :: c in m' ==> Consistent(m'[c]))
  {
    if commands != [] {
      var n := |commands| - 1;
      TimedFrame(m, commands[..n], elapsed);
      UpdatedConsistent(Timed(m, commands[..n], elapsed), commands[n], elapsed(commands[n]));
      assert commands == commands[..n] + [commands[n]];
    }
  }

  /** The analyzer's state this model keeps: `performanceMetrics`. */
  class Analyzer {
    var performanceMetrics: map<string, Metrics>

    constructor()
      ensures performanceMetrics == map[]
    {
      performanceMetrics := map[];
    }

    /** `updatePerformanceMetrics(command, duration)`: only that command's
        entry changes. */
    method UpdatePerformanceMetrics(command: string, duration: real)
      modifies this
      ensures performanceMetrics == old(performanceMetrics)[command := Updated(old(performanceMetrics), command, duration)]
    {
      var metrics := if command in performanceMetrics then performanceMetrics[command]
                     else Metrics(0, 0.0, duration, duration);
      metrics := Metrics(metrics.count + 1, metrics.totalTime + duration,
                         RMin(metrics.minTime, duration), RMax(metrics.maxTime, duration));
      performanceMetrics := performanceMetrics[command := metrics];
    }

    /** `processCommand(command)`; `elapsed(c)` is the time the call for
        command c measures, and `cleanupOk` whether `cleanup()` resolves. */
    method ProcessCommand(command: string, elapsed: string -> real, cleanupOk: bool) returns (action: Action)
      modifies this
      decreases Rank(command), 1
      ensures action == Dispatch(command, cleanupOk).action
      ensures performanceMetrics == Timed(old(performanceMetrics), Dispatch(command, cleanupOk).timed, elapsed)
    {
      var handled := Switch(command);
      if handled == Some(Exit) {
        if cleanupOk {
          return Exit;
        }
        // the catch block logs the rejection; the finally block still runs
        action := ExitFailed;
      } else if handled.Some? {
        action := handled.value;
      } else {
        action := HandleNaturalLanguage(command, elapsed, cleanupOk);
        if action == Exit {
          return;
        }
      }
      UpdatePerformanceMetrics(command, elapsed(command));
    }

    /** `handleNaturalLanguage(input)` */
    method HandleNaturalLanguage(input: string, elapsed: string -> real, cleanupOk: bool) returns (action: Action)
      modifies this
      decreases Rank(input), 0
      ensures action == NaturalLanguage(input, cleanupOk).action
      ensures performanceMetrics == Timed(old(performanceMetrics), NaturalLanguage(input, cleanupOk).timed, elapsed)
    {
      var words := Split(input, ' ');
      var i := 0;
      while i < |ALIASES|
        invariant i <= |ALIASES|
        invariant forall j :: 0 <= j < i ==> !Mentions(ALIASES[j].1, words)
      {
        if Mentions(ALIASES[i].1, words) {
          FirstMatchIs(ALIASES, words, i);
          MatchedIsNoTarget(input);
          ViaTable(input, i, cleanupOk);
          action := ProcessCommand(ALIASES[i].0, elapsed, cleanupOk);
          return;
        }
        i := i + 1;
      }
      assert FirstMatch(ALIASES, words).None?;
      ViaNothing(input, cleanupOk);
      return NotSure;
    }
  }
}
