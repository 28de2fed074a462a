/** src/ai/patternAnalyzer.js: the feature vector fed to the scoring
    network and the scoring pass over a list of enriched records. The
    network is a parameter `predict` (None when `predictConfidence`
    throws), and `Math.log1p` is a parameter `log1p`. */
module PatternAnalyzer {
  import opened Common
  import opened Config
  import opened Histogram
  import opened SqliteCache

  /** The width of the network's input layer (`inputShape: [32]`). */
  const INPUT_WIDTH: nat := 32
  /** `new Array(29)`: the address-byte buckets of the feature vector. */
  const BUCKETS: nat := 29

  /** The feature vector of one record: the positive-balance flag,
      `log1p(balance)`, `transactions || 0`, then the 29 bucket counts of
      the address's UTF-8 bytes. */
  function Features(address: string, balance: int, transactions: Option<int>, log1p: int -> real): (f: seq<real>)
    ensures |f| == 3 + BUCKETS == INPUT_WIDTH
    ensures f[0] == (if balance > 0 then 1.0 else 0.0)
    ensures f[1] == log1p(balance)
    ensures f[2] == (if transactions.Some? then transactions.value as real else 0.0)
    ensures forall k :: 0 <= k < BUCKETS ==> f[3 + k] == Count(Utf8(address), BUCKETS, k) as real
  {
    var tx := if transactions.Some? then transactions.value as real else 0.0;
    var h := Buckets(Utf8(address), BUCKETS);
    [if balance > 0 then 1.0 else 0.0, log1p(balance), tx] + seq(BUCKETS, k requires 0 <= k < BUCKETS => h[k] as real)
  }

  /** `extractFeatures(address)`: push the three scalar features, count the
      bytes into a fresh 29-entry array, push its entries. */
  method ExtractFeatures(address: string, balance: int, transactions: Option<int>, log1p: int -> real)
    returns (features: seq<real>)
    ensures features == Features(address, balance, transactions, log1p)
  {
    features := [];
    features := features + [if balance > 0 then 1.0 else 0.0];
    features := features + [log1p(balance)];
    features := features + [if transactions.Some? && transactions.value != 0 then transactions.value as real else 0.0];
    var distribution := Distribution(Utf8(address), BUCKETS);
    features := features + seq(BUCKETS, k requires 0 <= k < BUCKETS => distribution[k] as real);
  }

  /** The bucket part of the vector accounts for every address byte once;
      for an ASCII address that is one count per character. */
  lemma FeatureBucketsSum(address: string, balance: int, transactions: Option<int>, log1p: int -> real)
    ensures var f := Features(address, balance, transactions, log1p);
      forall k :: 0 <= k < BUCKETS ==> f[3 + k] == Buckets(Utf8(address), BUCKETS)[k] as real
    ensures Sum(Buckets(Utf8(address), BUCKETS)) == |Utf8(address)|
    ensures (forall i :: 0 <= i < |address| ==> address[i] as int < 0x80) ==>
      Sum(Buckets(Utf8(address), BUCKETS)) == |address|
  {
    BucketsSum(Utf8(address), BUCKETS);
    if forall i :: 0 <= i < |address| ==> address[i] as int < 0x80 {
      Utf8Ascii(address);
    }
  }

  /** A record as scored: the record itself (`...address`), its confidence
      and `isPromising`. */
  datatype Scored = Scored(record: BalanceRecord, confidence: real, isPromising: bool)

  /** What the network says about the record; balances and transaction
      counts always come from a looked-up record. */
  function Predict(r: BalanceRecord, predict: seq<real> -> Option<real>, log1p: int -> real): Option<real>
  {
    predict(Features(r.address, r.balance, Some(r.transactions), log1p))
  }

  predicate AllPredicted(recs: seq<BalanceRecord>, predict: seq<real> -> Option<real>, log1p: int -> real)
  {
    forall i :: 0 <= i < |recs| ==> Predict(recs[i], predict, log1p).Some?
  }

  /** `analyzeAddresses`: every record scored with `isPromising` iff its
      confidence is strictly above 0.7; if any prediction throws, the whole
      list falls back to confidence 0 and not promising. */
  function AnalyzeAddresses(recs: seq<BalanceRecord>, predict: seq<real> -> Option<real>, log1p: int -> real)
    : (r: seq<Scored>)
    ensures |r| == |recs|
    ensures forall i :: 0 <= i < |r| ==> r[i].record == recs[i]
    ensures forall i :: 0 <= i < |r| ==> (r[i].isPromising <==> r[i].confidence > PROMISING_CONFIDENCE)
    ensures AllPredicted(recs, predict, log1p) ==>
      forall i :: 0 <= i < |r| ==> r[i].confidence == Predict(recs[i], predict, log1p).value
    ensures !AllPredicted(recs, predict, log1p) ==>
      forall i :: 0 <= i < |r| ==> r[i].confidence == 0.0 && !r[i].isPromising
  {
    if AllPredicted(recs, predict, log1p) then
      seq(|recs|, i requires 0 <= i < |recs| =>
        var c := Predict(recs[i], predict, log1p).value;
        Scored(recs[i], c, c > PROMISING_CONFIDENCE))
    else
      seq(|recs|, i requires 0 <= i < |recs| => Scored(recs[i], 0.0, false))
  }

  /** The fallback is all-or-nothing: a single promising record means every
      prediction in the list succeeded. */
  lemma PromisingMeansAllPredicted(recs: seq<BalanceRecord>, predict: seq<real> -> Option<real>, log1p: int -> real, i: nat)
    requires i < |recs| && AnalyzeAddresses(recs, predict, log1p)[i].isPromising
    ensures forall j :: 0 <= j < |recs| ==> Predict(recs[j], predict, log1p).Some?
  {
  }

  /** On success each score depends on its own record only: scoring the
      record alone gives the same element. */
  lemma ScoreIsPerRecord(recs: seq<BalanceRecord>, predict: seq<real> -> Option<real>, log1p: int -> real, i: nat)
    requires i < |recs| && AllPredicted(recs, predict, log1p)
    ensures AnalyzeAddresses(recs, predict, log1p)[i] == AnalyzeAddresses([recs[i]], predict, log1p)[0]
  {
    assert AllPredicted([recs[i]], predict, log1p);
  }

  /** One failing record spoils the scores of all the others. */
  lemma OneFailureSpoilsAll(recs: seq<BalanceRecord>, predict: seq<real> -> Option<real>, log1p: int -> real, bad: nat)
    requires bad < |recs| && Predict(recs[bad], predict, log1p).None?
    ensures forall i :: 0 <= i < |recs| ==>
      AnalyzeAddresses(recs, predict, log1p)[i] == Scored(recs[i], 0.0, false)
  {
  }
}
