/** One run of one evaluation definition: which spans become candidates, which
    contents are scored, and which rows are stored. */
module EvalRunner {
  import opened Wrappers
  import opened EvalWindow
  import opened Concurrency

  datatype EvalDef = EvalDef(id: string, version: nat, selector: Selector)

  /** `error` is empty for a successful evaluation. */
  datatype Outcome = Outcome(score: real, passed: bool, error: string)

  datatype Evaluation = Returned(outcome: Outcome) | Threw(name: string)

  datatype Candidate = Candidate(spanId: string, hash: string, variant: string)

  datatype Cached = Cached(score: real, passed: bool)

  datatype ResultRow = ResultRow(evalId: string, version: nat, spanId: string, hash: string, variant: string,
                                 score: real, passed: bool, error: string)

  /** Where a run breaks off, if it does: before anything is scored, when the rows
      are inserted, or when the watermark is stored. */
  datatype Fault = NoFault | BeforeScoring | Inserting | Watermarking

  /** What the run reads about a span besides its row: its sampling decision, its
      reconstructed input and output, and the hash of a content. */
  datatype Source = Source(sampled: string -> bool, content: string -> (string, string),
                           contentHash: (nat, string, string) -> string)

  function Variant(r: SpanRow): string {
    if r.promptVersion != "" then r.promptVersion else r.model
  }

  /** Sampled rows that have no result of this definition and version yet. */
  function Unscored(rows: seq<SpanRow>, src: Source, existing: set<string>): seq<SpanRow> {
    if rows == [] then []
    else (if src.sampled(rows[0].spanId) && rows[0].spanId !in existing then [rows[0]] else [])
         + Unscored(rows[1..], src, existing)
  }

  /** A row without captured content is skipped rather than scored. */
  function CandidateOf(def: EvalDef, r: SpanRow, src: Source): seq<Candidate> {
    var io := src.content(r.spanId);
    if io == ("", "") then []
    else [Candidate(r.spanId, src.contentHash(def.version, io.0, io.1), Variant(r))]
  }

  function CandidatesOf(def: EvalDef, rows: seq<SpanRow>, src: Source): seq<Candidate> {
    if rows == [] then [] else CandidateOf(def, rows[0], src) + CandidatesOf(def, rows[1..], src)
  }

  function ExistingIds(results: seq<ResultRow>, def: EvalDef): set<string> {
    set i | 0 <= i < |results| && results[i].evalId == def.id && results[i].version == def.version :: results[i].spanId
  }

  /** The distinct hashes, in order of first appearance. */
  function Hashes(cs: seq<Candidate>): seq<string> {
    if cs == [] then []
    else
      var front, last := Hashes(cs[..|cs| - 1]), cs[|cs| - 1].hash;
      if last in front then front else front + [last]
  }

  function ToScore(hashes: seq<string>, cache: map<string, Cached>): seq<string> {
    if hashes == [] then []
    else
      var front, last := ToScore(hashes[..|hashes| - 1], cache), hashes[|hashes| - 1];
      if last in cache then front else front + [last]
  }

  predicate Successful(r: ResultRow, def: EvalDef) {
    r.evalId == def.id && r.version == def.version && r.error == ""
  }

  ghost predicate CachedFrom(results: seq<ResultRow>, def: EvalDef, hash: string, v: Cached) {
    exists i :: 0 <= i < |results| && Successful(results[i], def) && results[i].hash == hash
                && v == Cached(results[i].score, results[i].passed)
  }

  /** Only prior successes are reused, and one is found for every hash that has any. */
  ghost predicate IsCache(results: seq<ResultRow>, def: EvalDef, hashes: seq<string>, cache: map<string, Cached>) {
    && (forall h :: h in cache ==> h in hashes && CachedFrom(results, def, h, cache[h]))
    && (forall i :: 0 <= i < |results| && Successful(results[i], def) && results[i].hash in hashes ==>
          results[i].hash in cache)
  }

  lemma CacheGrows(results: seq<ResultRow>, r: ResultRow, def: EvalDef, hash: string, v: Cached)
    requires CachedFrom(results, def, hash, v) || (Successful(r, def) && r.hash == hash && v == Cached(r.score, r.passed))
    ensures CachedFrom(results + [r], def, hash, v)
  {
    if CachedFrom(results, def, hash, v) {
      var i :| 0 <= i < |results| && Successful(results[i], def) && results[i].hash == hash
               && v == Cached(results[i].score, results[i].passed);
      assert (results + [r])[i] == results[i];
    } else {
      assert (results + [r])[|results|] == r;
    }
  }

  /** An evaluator that throws yields an errored outcome instead. */
  function Guarded(e: Evaluation): Outcome {
    match e
    case Returned(outcome) => outcome
    case Threw(name) => Outcome(0.0, false, name)
  }

  /** The first candidate of a hash stands for its content. */
  function Representative(cs: seq<Candidate>, hash: string): (c: Candidate)
    requires HasHash(cs, hash)
    ensures c.hash == hash && c in cs
  {
    if cs[0].hash == hash then cs[0]
    else
      assert HasHash(cs[1..], hash) by {
        var i :| 0 <= i < |cs| && cs[i].hash == hash;
        assert cs[1..][i - 1] == cs[i];
      }
      Representative(cs[1..], hash)
  }

  function RowFromOutcome(def: EvalDef, c: Candidate, o: Outcome): ResultRow {
    ResultRow(def.id, def.version, c.spanId, c.hash, c.variant, if o.error != "" then 0.0 else o.score, o.passed, o.error)
  }

  function RowFromCache(def: EvalDef, c: Candidate, r: Cached): ResultRow {
    ResultRow(def.id, def.version, c.spanId, c.hash, c.variant, r.score, r.passed, "")
  }

  /** The row of candidate `i`: by the cache for its hash, else by the evaluation of
      the first candidate with its hash. */
  function RowOf(def: EvalDef, cs: seq<Candidate>, i: nat, cache: map<string, Cached>, evaluate: Candidate -> Evaluation): ResultRow
    requires i < |cs|
  {
    var c := cs[i];
    if c.hash in cache then RowFromCache(def, c, cache[c.hash])
    else RowFromOutcome(def, c, Guarded(evaluate(Representative(cs, c.hash))))
  }

  function RowsOf(def: EvalDef, cs: seq<Candidate>, cache: map<string, Cached>, evaluate: Candidate -> Evaluation): seq<ResultRow> {
    seq(|cs|, i requires 0 <= i < |cs| => RowOf(def, cs, i, cache, evaluate))
  }

  function CandidatesOfRun(def: EvalDef, rows: seq<SpanRow>, src: Source, results: seq<ResultRow>): seq<Candidate> {
    CandidatesOf(def, Unscored(rows, src, ExistingIds(results, def)), src)
  }

  class Runner {
    const concurrency: int
    var watermarks: map<string, int>
    var results: seq<ResultRow>
    /** Every content hash handed to an evaluator, in order. */
    ghost var evaluated: seq<string>

    constructor (concurrency: int)
      ensures this.concurrency == concurrency && watermarks == map[] && results == [] && evaluated == []
    {
      this.concurrency, watermarks, results, evaluated := concurrency, map[], [], [];
    }

    function Watermark(def: EvalDef): Option<int>
      reads this
    {
      if def.id in watermarks then Some(watermarks[def.id]) else None
    }

    method NewestStart(rows: seq<SpanRow>) returns (newest: int)
      ensures newest == MaxStart(rows)
    {
      newest := 0;
      for i := 0 to |rows|
        invariant newest == MaxStart(rows[..i])
      {
        assert rows[..i + 1][..i] == rows[..i];
        var t := rows[i].startNs / NS_PER_MS;
        if t > newest {
          newest := t;
        }
      }
      assert rows[..|rows|] == rows;
    }

    method FetchExistingIds(def: EvalDef) returns (ids: set<string>)
      ensures ids == ExistingIds(results, def)
    {
      ids := {};
      for i := 0 to |results|
        invariant ids == ExistingIds(results[..i], def)
      {
        assert results[..i + 1] == results[..i] + [results[i]];
        if results[i].evalId == def.id && results[i].version == def.version {
          ids := ids + {results[i].spanId};
        }
        assert ids == ExistingIds(results[..i + 1], def);
      }
      assert results[..|results|] == results;
    }

    method SelectUnscored(rows: seq<SpanRow>, src: Source, existing: set<string>) returns (kept: seq<SpanRow>)
      ensures kept == Unscored(rows, src, existing)
    {
      kept := [];
      for i := 0 to |rows|
        invariant kept + Unscored(rows[i..], src, existing) == Unscored(rows, src, existing)
      {
        assert rows[i..][1..] == rows[i + 1..];
        assert Unscored(rows[i..], src, existing)
            == (if src.sampled(rows[i].spanId) && rows[i].spanId !in existing then [rows[i]] else [])
               + Unscored(rows[i + 1..], src, existing);
        if src.sampled(rows[i].spanId) && rows[i].spanId !in existing {
          kept := kept + [rows[i]];
        }
      }
    }

    method SelectCandidates(def: EvalDef, rows: seq<SpanRow>, src: Source) returns (cs: seq<Candidate>)
      ensures cs == CandidatesOf(def, rows, src)
    {
      cs := [];
      for i := 0 to |rows|
        invariant cs + CandidatesOf(def, rows[i..], src) == CandidatesOf(def, rows, src)
      {
        assert rows[i..][1..] == rows[i + 1..];
        assert CandidatesOf(def, rows[i..], src) == CandidateOf(def, rows[i], src) + CandidatesOf(def, rows[i + 1..], src);
        cs := cs + CandidateOf(def, rows[i], src);
      }
    }

    method UniqueHashes(cs: seq<Candidate>) returns (hashes: seq<string>)
      ensures hashes == Hashes(cs)
    {
      hashes := [];
      for i := 0 to |cs|
        invariant hashes == Hashes(cs[..i])
      {
        assert cs[..i + 1][..i] == cs[..i];
        if cs[i].hash !in hashes {
          hashes := hashes + [cs[i].hash];
        }
      }
      assert cs[..|cs|] == cs;
    }

    /** One prior success for every hash that has any. */
    method FetchContentCache(def: EvalDef, hashes: seq<string>) returns (cache: map<string, Cached>)
      ensures IsCache(results, def, hashes, cache)
    {
      cache := map[];
      for i := 0 to |results|
        invariant IsCache(results[..i], def, hashes, cache)
      {
        var r := results[i];
        ghost var before := results[..i];
        assert results[..i + 1] == before + [r];
        if Successful(r, def) && r.hash in hashes && r.hash !in cache {
          cache := cache[r.hash := Cached(r.score, r.passed)];
        }
        forall h | h in cache ensures CachedFrom(before + [r], def, h, cache[h]) {
          CacheGrows(before, r, def, h, cache[h]);
        }
      }
      assert results[..|results|] == results;
    }

    method SelectToScore(hashes: seq<string>, cache: map<string, Cached>) returns (todo: seq<string>)
      ensures todo == ToScore(hashes, cache)
    {
      todo := [];
      for i := 0 to |hashes|
        invariant todo == ToScore(hashes[..i], cache)
      {
        assert hashes[..i + 1][..i] == hashes[..i];
        if hashes[i] !in cache {
          todo := todo + [hashes[i]];
        }
      }
      assert hashes[..|hashes|] == hashes;
    }

    /** Score each content once, under bounded concurrency. */
    method Score(cs: seq<Candidate>, todo: seq<string>, evaluate: Candidate -> Evaluation)
      returns (outcomes: map<string, Outcome>)
      requires forall k :: 0 <= k < |todo| ==> HasHash(cs, todo[k])
      modifies this`evaluated
      ensures evaluated == old(evaluated) + todo
      ensures forall h :: h in outcomes <==> h in todo
      ensures forall h :: h in outcomes ==> HasHash(cs, h) && outcomes[h] == Guarded(evaluate(Representative(cs, h)))
    {
      var judge := h => if HasHash(cs, h) then Guarded(evaluate(Representative(cs, h))) else Outcome(0.0, false, "");
      var results, started := MapWithConcurrency(todo, concurrency, judge);
      evaluated := evaluated + seq(|started|, k requires 0 <= k < |started| => todo[started[k]]);
      assert seq(|started|, k requires 0 <= k < |started| => todo[started[k]]) == todo;
      outcomes := map[];
      for k := 0 to |todo|
        invariant forall h :: h in outcomes <==> h in todo[..k]
        invariant forall h :: h in outcomes ==> HasHash(cs, h) && outcomes[h] == Guarded(evaluate(Representative(cs, h)))
      {
        outcomes := outcomes[todo[k] := results[k]];
      }
    }

    /** One row a candidate; the fallback for a missing outcome is never taken. */
    method BuildRows(def: EvalDef, cs: seq<Candidate>, cache: map<string, Cached>, outcomes: map<string, Outcome>,
                     ghost evaluate: Candidate -> Evaluation)
      returns (rows: seq<ResultRow>)
      requires forall i :: 0 <= i < |cs| ==> cs[i].hash in cache || cs[i].hash in outcomes
      requires forall h :: h in outcomes ==> HasHash(cs, h) && outcomes[h] == Guarded(evaluate(Representative(cs, h)))
      ensures rows == RowsOf(def, cs, cache, evaluate)
    {
      rows := [];
      for i := 0 to |cs|
        invariant |rows| == i && forall k :: 0 <= k < i ==> rows[k] == RowOf(def, cs, k, cache, evaluate)
      {
        var c := cs[i];
        if c.hash in cache {
          rows := rows + [RowFromCache(def, c, cache[c.hash])];
        } else {
          var outcome := if c.hash in outcomes then outcomes[c.hash] else Outcome(0.0, false, "_OTHER");
          rows := rows + [RowFromOutcome(def, c, outcome)];
        }
      }
    }

    /** Sampled, not yet scored, and with content. */
    method SelectFresh(def: EvalDef, rows: seq<SpanRow>, src: Source) returns (cs: seq<Candidate>)
      ensures cs == CandidatesOfRun(def, rows, src, results)
    {
      var existing := FetchExistingIds(def);
      var unscored := SelectUnscored(rows, src, existing);
      cs := SelectCandidates(def, unscored, src);
    }

    /** The rows of the candidates: cached, or scored now, each content once. */
    method ScoreFresh(def: EvalDef, cs: seq<Candidate>, evaluate: Candidate -> Evaluation)
      returns (rows: seq<ResultRow>, ghost cache: map<string, Cached>)
      modifies this`evaluated
      ensures IsCache(results, def, Hashes(cs), cache) && rows == RowsOf(def, cs, cache, evaluate)
      ensures evaluated == old(evaluated) + ToScore(Hashes(cs), cache)
    {
      var hashes := UniqueHashes(cs);
      var found := FetchContentCache(def, hashes);
      cache := found;
      var todo := SelectToScore(hashes, found);
      HashesHaveCandidates(cs, found);
      var outcomes := Score(cs, todo, evaluate);
      rows := BuildRows(def, cs, found, outcomes, evaluate);
    }

    /** Run one definition over the answer `rows` of its scan, made at `now` over the
        rows `visible` then. The ghost results are the candidates and the cache of
        the run. */
    method RunEval(def: EvalDef, ghost now: int, ghost visible: seq<SpanRow>, rows: seq<SpanRow>, src: Source,
                   evaluate: Candidate -> Evaluation, fault: Fault)
      returns (ghost candidates: seq<Candidate>, ghost cache: map<string, Cached>)
      modifies this`watermarks, this`results, this`evaluated
      ensures candidates == CandidatesOfRun(def, rows, src, old(results))
      ensures !fault.BeforeScoring? ==> IsCache(old(results), def, Hashes(candidates), cache)
      ensures evaluated == old(evaluated) + (if fault.BeforeScoring? then [] else ToScore(Hashes(candidates), cache))
      ensures results == old(results) +
                (if fault.BeforeScoring? || fault.Inserting? then [] else RowsOf(def, candidates, cache, evaluate))
      ensures Watermark(def) == NextWatermark(old(Watermark(def)), Scan(now, visible, rows, fault != NoFault))
      ensures watermarks - {def.id} == old(watermarks) - {def.id}
      ensures OneRowEach(old(results)) ==>
                (OneRowEach(results) <==> fault.BeforeScoring? || fault.Inserting? ||
                                          ScorableOnce(rows, src, ExistingIds(old(results), def)))
      ensures ExistingIds(results, def) ==
              IdsNext(ExistingIds(old(results), def), Attempt(Scan(now, visible, rows, fault != NoFault), src, fault))
      ensures KeepsRows(fault) ==> |results| == |old(results)| + |candidates|
      ensures KeepsRows(fault) ==>
                forall i :: 0 <= i < |candidates| ==> AddedTells(def, old(results), results, candidates, evaluate, i)
    {
      ghost var before := results;
      candidates, cache := Attempted(def, now, visible, rows, src, evaluate, fault);
      ghost var a := Attempt(Scan(now, visible, rows, fault != NoFault), src, fault);
      RunLeaves(def, a, before, results, cache, evaluate);
      if KeepsRows(fault) {
        RunTells(def, fault, before, results, candidates, cache, evaluate);
      }
    }

    method Attempted(def: EvalDef, ghost now: int, ghost visible: seq<SpanRow>, rows: seq<SpanRow>, src: Source,
                     evaluate: Candidate -> Evaluation, fault: Fault)
      returns (ghost candidates: seq<Candidate>, ghost cache: map<string, Cached>)
      modifies this`watermarks, this`results, this`evaluated
      ensures candidates == CandidatesOfRun(def, rows, src, old(results))
      ensures !fault.BeforeScoring? ==> IsCache(old(results), def, Hashes(candidates), cache)
      ensures evaluated == old(evaluated) + (if fault.BeforeScoring? then [] else ToScore(Hashes(candidates), cache))
      ensures results == old(results) +
                (if KeepsRows(fault) then RowsOf(def, candidates, cache, evaluate) else [])
      ensures Watermark(def) == NextWatermark(old(Watermark(def)), Scan(now, visible, rows, fault != NoFault))
      ensures watermarks - {def.id} == old(watermarks) - {def.id}
    {
      candidates, cache := CandidatesOfRun(def, rows, src, results), map[];
      if !fault.BeforeScoring? {
        ghost var before := watermarks;
        cache := ScoreAndPersist(def, rows, src, evaluate, fault);
        OthersKept(before, def.id, MaxStart(rows));
      }
    }

    /** The run once its scan has come back. */
    method ScoreAndPersist(def: EvalDef, rows: seq<SpanRow>, src: Source, evaluate: Candidate -> Evaluation, fault: Fault)
      returns (ghost cache: map<string, Cached>)
      requires !fault.BeforeScoring?
      modifies this`watermarks, this`results, this`evaluated
      ensures var cs := CandidatesOfRun(def, rows, src, old(results));
              && IsCache(old(results), def, Hashes(cs), cache)
              && evaluated == old(evaluated) + ToScore(Hashes(cs), cache)
              && results == old(results) + (if fault.Inserting? then [] else RowsOf(def, cs, cache, evaluate))
      ensures watermarks == if fault != NoFault || rows == [] then old(watermarks)
                            else old(watermarks)[def.id := MaxStart(rows)]
    {
      cache := map[];
      if rows == [] {
        return;
      }
      var newest := NewestStart(rows);
      var cs := SelectFresh(def, rows, src);
      var inserted;
      inserted, cache := ScoreFresh(def, cs, evaluate);
      Persist(def, inserted, newest, fault);
    }

    /** The rows first, then the watermark. */
    method Persist(def: EvalDef, inserted: seq<ResultRow>, newest: int, fault: Fault)
      modifies this`watermarks, this`results
      ensures results == old(results) + (if fault.Inserting? then [] else inserted)
      ensures watermarks == if fault.Inserting? || fault.Watermarking? then old(watermarks)
                            else old(watermarks)[def.id := newest]
    {
      if fault.Inserting? {
        return;
      }
      results := results + inserted;
      if fault.Watermarking? {
        return;
      }
      watermarks := watermarks[def.id := newest];
    }
  }

  // ---------------------------------------------------------------------
  // What is scored, and how often
  // ---------------------------------------------------------------------

  lemma OthersKept(watermarks: map<string, int>, id: string, newest: int)
    ensures watermarks[id := newest] - {id} == watermarks - {id}
  {
  }

  predicate HasHash(cs: seq<Candidate>, hash: string) {
    exists i :: 0 <= i < |cs| && cs[i].hash == hash
  }

  lemma {:induction false} HashesMembers(cs: seq<Candidate>, h: string)
    ensures h in Hashes(cs) <==> HasHash(cs, h)
  {
    if cs != [] {
      HashesMembers(cs[..|cs| - 1], h);
      if HasHash(cs[..|cs| - 1], h) {
        var i :| 0 <= i < |cs| - 1 && cs[..|cs| - 1][i].hash == h;
        assert cs[i].hash == h;
      }
      if HasHash(cs, h) && h != cs[|cs| - 1].hash {
        var i :| 0 <= i < |cs| && cs[i].hash == h;
        assert cs[..|cs| - 1][i].hash == h;
      }
    }
  }

  ghost predicate NoRepeat(hs: seq<string>) {
    forall i, j :: 0 <= i < j < |hs| ==> hs[i] != hs[j]
  }

  lemma {:induction false} HashesDistinct(cs: seq<Candidate>)
    ensures NoRepeat(Hashes(cs))
  {
    if cs != [] {
      HashesDistinct(cs[..|cs| - 1]);
    }
  }

  lemma {:induction false} ToScoreMembers(hashes: seq<string>, cache: map<string, Cached>)
    ensures forall h :: h in ToScore(hashes, cache) <==> h in hashes && h !in cache
    ensures NoRepeat(hashes) ==> NoRepeat(ToScore(hashes, cache))
  {
    if hashes != [] {
      ToScoreMembers(hashes[..|hashes| - 1], cache);
      assert hashes == hashes[..|hashes| - 1] + [hashes[|hashes| - 1]];
    }
  }

  lemma HashesHaveCandidates(cs: seq<Candidate>, cache: map<string, Cached>)
    ensures forall k :: 0 <= k < |ToScore(Hashes(cs), cache)| ==> HasHash(cs, ToScore(Hashes(cs), cache)[k])
    ensures forall i :: 0 <= i < |cs| ==> cs[i].hash in cache || cs[i].hash in ToScore(Hashes(cs), cache)
  {
    ToScoreMembers(Hashes(cs), cache);
    forall k | 0 <= k < |ToScore(Hashes(cs), cache)| ensures HasHash(cs, ToScore(Hashes(cs), cache)[k]) {
      assert ToScore(Hashes(cs), cache)[k] in ToScore(Hashes(cs), cache);
      HashesMembers(cs, ToScore(Hashes(cs), cache)[k]);
    }
    forall i | 0 <= i < |cs| ensures cs[i].hash in cache || cs[i].hash in ToScore(Hashes(cs), cache) {
      HashesMembers(cs, cs[i].hash);
    }
  }

  /** Each run hands to the evaluator exactly the distinct hashes of its candidates
      that have no prior success, each of them once. */
  lemma ScoredOnce(results: seq<ResultRow>, def: EvalDef, cs: seq<Candidate>, cache: map<string, Cached>, h: string)
    requires IsCache(results, def, Hashes(cs), cache)
    ensures NoRepeat(ToScore(Hashes(cs), cache))
    ensures h in ToScore(Hashes(cs), cache) <==>
              HasHash(cs, h) && !exists i :: 0 <= i < |results| && Successful(results[i], def) && results[i].hash == h
  {
    HashesDistinct(cs);
    ToScoreMembers(Hashes(cs), cache);
    HashesMembers(cs, h);
  }

  // ---------------------------------------------------------------------
  // What a run says about a span
  // ---------------------------------------------------------------------

  /** The candidate is a scanned row: sampled, without a result, with content; its hash is
      that of the version and the content, its variant the prompt version or the model. */
  ghost predicate ComesFrom(def: EvalDef, c: Candidate, r: SpanRow, src: Source, existing: set<string>) {
    && c.spanId == r.spanId && src.sampled(r.spanId) && r.spanId !in existing && src.content(r.spanId) != ("", "")
    && c.hash == src.contentHash(def.version, src.content(r.spanId).0, src.content(r.spanId).1)
    && c.variant == (if r.promptVersion != "" then r.promptVersion else r.model)
  }

  lemma {:induction false} CandidateComesFrom(def: EvalDef, rows: seq<SpanRow>, src: Source, existing: set<string>, k: nat)
    returns (i: nat)
    requires k < |Scored(def, rows, src, existing)|
    ensures i < |rows| && ComesFrom(def, Scored(def, rows, src, existing)[k], rows[i], src, existing)
  {
    if rows != [] {
      ScoredSplits(def, rows, src, existing);
      var head := if Scorable(rows[0].spanId, src, existing) then CandidateOf(def, rows[0], src) else [];
      if k < |head| {
        i := 0;
      } else {
        var j := CandidateComesFrom(def, rows[1..], src, existing, k - |head|);
        i := j + 1;
      }
    }
  }

  /** The candidates of a run are exactly the scanned spans that are sampled, have content,
      and have no row yet of this definition and this version. */
  lemma CandidatesAreFresh(def: EvalDef, rows: seq<SpanRow>, src: Source, results: seq<ResultRow>, id: string)
    ensures IsCandidate(CandidatesOfRun(def, rows, src, results), id) <==>
            IsSpanOf(rows, id) && src.sampled(id) && src.content(id) != ("", "") &&
            !exists k :: 0 <= k < |results| && results[k].evalId == def.id && results[k].version == def.version &&
                         results[k].spanId == id
  {
    CandidatesAreScorable(def, rows, src, ExistingIds(results, def), id);
    assert CandidatesOfRun(def, rows, src, results) == Scored(def, rows, src, ExistingIds(results, def));
  }

  /** Some earlier result of this definition and version, without an error, has the hash. */
  ghost predicate HasPrior(def: EvalDef, results: seq<ResultRow>, hash: string) {
    exists k :: 0 <= k < |results| && PriorAt(def, results, hash, k)
  }

  ghost predicate PriorAt(def: EvalDef, results: seq<ResultRow>, hash: string, k: int)
    requires 0 <= k < |results|
  {
    results[k].evalId == def.id && results[k].version == def.version && results[k].hash == hash && results[k].error == ""
  }

  /** The first candidate with the hash of candidate `i`. */
  ghost predicate FirstWith(cs: seq<Candidate>, i: nat, j: nat)
    requires i < |cs| && j < |cs|
  {
    cs[j].hash == cs[i].hash && forall m :: 0 <= m < j ==> cs[m].hash != cs[i].hash
  }

  /** What an evaluation makes of a row. */
  ghost predicate Verdict(row: ResultRow, e: Evaluation) {
    match e
    case Returned(o) => row.passed == o.passed && row.error == o.error && row.score == if o.error == "" then o.score else 0.0
    case Threw(name) => !row.passed && row.error == name && row.score == 0.0
  }

  /** The stored row of candidate `i`: under its own span, hash and variant, with the verdict
      of a prior success of the same content if there is one, else with that of evaluating
      the first candidate of the same content. */
  ghost predicate RowTells(def: EvalDef, before: seq<ResultRow>, cs: seq<Candidate>, i: nat,
                           evaluate: Candidate -> Evaluation, row: ResultRow)
    requires i < |cs|
  {
    && row.evalId == def.id && row.version == def.version
    && row.spanId == cs[i].spanId && row.hash == cs[i].hash && row.variant == cs[i].variant
    && if HasPrior(def, before, cs[i].hash)
       then exists k :: 0 <= k < |before| && PriorAt(def, before, cs[i].hash, k) &&
                        row.score == before[k].score && row.passed == before[k].passed && row.error == ""
       else exists j: nat :: j < |cs| && FirstWith(cs, i, j) && Verdict(row, evaluate(cs[j]))
  }

  lemma {:induction false} RepresentativeIsFirst(cs: seq<Candidate>, hash: string) returns (j: nat)
    requires HasHash(cs, hash)
    ensures j < |cs| && cs[j] == Representative(cs, hash) && cs[j].hash == hash
    ensures forall m :: 0 <= m < j ==> cs[m].hash != hash
  {
    if cs[0].hash == hash {
      j := 0;
    } else {
      var i :| 0 <= i < |cs| && cs[i].hash == hash;
      assert cs[1..][i - 1] == cs[i];
      var rest := RepresentativeIsFirst(cs[1..], hash);
      j := rest + 1;
    }
  }

  lemma {:induction false} RowsTell(def: EvalDef, before: seq<ResultRow>, cs: seq<Candidate>,
                                    cache: map<string, Cached>, evaluate: Candidate -> Evaluation, i: nat)
    requires IsCache(before, def, Hashes(cs), cache) && i < |cs|
    ensures RowTells(def, before, cs, i, evaluate, RowsOf(def, cs, cache, evaluate)[i])
  {
    var hash, row := cs[i].hash, RowsOf(def, cs, cache, evaluate)[i];
    HashesMembers(cs, hash);
    if hash in cache {
      assert CachedFrom(before, def, hash, cache[hash]);
      var k :| 0 <= k < |before| && Successful(before[k], def) && before[k].hash == hash
               && cache[hash] == Cached(before[k].score, before[k].passed);
      assert PriorAt(def, before, hash, k);
    } else {
      if HasPrior(def, before, hash) {
        var k :| 0 <= k < |before| && PriorAt(def, before, hash, k);
        assert Successful(before[k], def);
        assert false;
      }
      var j := RepresentativeIsFirst(cs, hash);
      assert FirstWith(cs, i, j);
    }
  }

  /** Of the rows from place `from` on, that of candidate `i` tells what it should. */
  ghost predicate AddedTells(def: EvalDef, before: seq<ResultRow>, after: seq<ResultRow>, cs: seq<Candidate>,
                             evaluate: Candidate -> Evaluation, i: nat)
    requires i < |cs| && |after| == |before| + |cs|
  {
    RowTells(def, before, cs, i, evaluate, after[|before| + i])
  }

  lemma {:induction false} RunTells(def: EvalDef, fault: Fault, before: seq<ResultRow>, after: seq<ResultRow>,
                                    cs: seq<Candidate>, cache: map<string, Cached>, evaluate: Candidate -> Evaluation)
    requires KeepsRows(fault) && IsCache(before, def, Hashes(cs), cache)
    requires after == before + RowsOf(def, cs, cache, evaluate)
    ensures |after| == |before| + |cs|
    ensures forall i :: 0 <= i < |cs| ==> AddedTells(def, before, after, cs, evaluate, i)
  {
    forall i | 0 <= i < |cs| ensures AddedTells(def, before, after, cs, evaluate, i) {
      RowsTell(def, before, cs, cache, evaluate, i);
      assert after[|before| + i] == RowsOf(def, cs, cache, evaluate)[i];
    }
  }

  // ---------------------------------------------------------------------
  // Idempotency
  // ---------------------------------------------------------------------

  /** No evaluation, version and span has two rows. */
  ghost predicate OneRowEach(results: seq<ResultRow>) {
    forall i, j :: 0 <= i < j < |results| ==>
      results[i].evalId != results[j].evalId || results[i].version != results[j].version || results[i].spanId != results[j].spanId
  }

  /** The run would score a span of this id: sampled, without a result, with content. */
  predicate Scorable(id: string, src: Source, existing: set<string>) {
    src.sampled(id) && id !in existing && src.content(id) != ("", "")
  }

  /** No two scanned rows carry the id of a span that the run would score. */
  ghost predicate ScorableOnce(rows: seq<SpanRow>, src: Source, existing: set<string>) {
    forall i, j :: 0 <= i < j < |rows| && rows[i].spanId == rows[j].spanId ==> !Scorable(rows[i].spanId, src, existing)
  }

  ghost predicate UniqueCandidates(cs: seq<Candidate>) {
    forall i, j :: 0 <= i < j < |cs| ==> cs[i].spanId != cs[j].spanId
  }

  ghost predicate IsSpanOf(rows: seq<SpanRow>, id: string) {
    exists k :: 0 <= k < |rows| && rows[k].spanId == id
  }

  ghost predicate IsCandidate(cs: seq<Candidate>, id: string) {
    exists k :: 0 <= k < |cs| && cs[k].spanId == id
  }

  function Scored(def: EvalDef, rows: seq<SpanRow>, src: Source, existing: set<string>): seq<Candidate> {
    CandidatesOf(def, Unscored(rows, src, existing), src)
  }

  lemma ScoredSplits(def: EvalDef, rows: seq<SpanRow>, src: Source, existing: set<string>)
    requires rows != []
    ensures Scored(def, rows, src, existing) ==
              (if Scorable(rows[0].spanId, src, existing) then CandidateOf(def, rows[0], src) else [])
              + Scored(def, rows[1..], src, existing)
  {
    var rest := Unscored(rows[1..], src, existing);
    if src.sampled(rows[0].spanId) && rows[0].spanId !in existing {
      assert ([rows[0]] + rest)[1..] == rest;
    } else {
      assert [] + rest == rest;
      assert [] + CandidatesOf(def, rest, src) == CandidatesOf(def, rest, src);
    }
  }

  /** The candidates are the scorable spans among the scanned rows. */
  lemma {:induction false} CandidatesAreScorable(def: EvalDef, rows: seq<SpanRow>, src: Source, existing: set<string>, id: string)
    ensures IsCandidate(Scored(def, rows, src, existing), id) <==> Scorable(id, src, existing) && IsSpanOf(rows, id)
  {
    if rows != [] {
      ScoredSplits(def, rows, src, existing);
      CandidatesAreScorable(def, rows[1..], src, existing, id);
      var rest := Scored(def, rows[1..], src, existing);
      var head := if Scorable(rows[0].spanId, src, existing) then CandidateOf(def, rows[0], src) else [];
      CandidateSplits(head, rest, id);
      SpanSplits(rows, id);
    }
  }

  lemma CandidateSplits(head: seq<Candidate>, rest: seq<Candidate>, id: string)
    requires |head| <= 1
    ensures IsCandidate(head + rest, id) <==> (head != [] && head[0].spanId == id) || IsCandidate(rest, id)
  {
    if IsCandidate(rest, id) {
      var k :| 0 <= k < |rest| && rest[k].spanId == id;
      assert (head + rest)[|head| + k].spanId == id;
    }
    if head != [] && head[0].spanId == id {
      assert (head + rest)[0].spanId == id;
    }
  }

  lemma SpanSplits(rows: seq<SpanRow>, id: string)
    requires rows != []
    ensures IsSpanOf(rows, id) <==> rows[0].spanId == id || IsSpanOf(rows[1..], id)
  {
    if IsSpanOf(rows[1..], id) {
      var k :| 0 <= k < |rows[1..]| && rows[1..][k].spanId == id;
      assert rows[k + 1].spanId == id;
    }
  }

  lemma OnceSplits(rows: seq<SpanRow>, src: Source, existing: set<string>)
    requires rows != []
    ensures ScorableOnce(rows, src, existing) <==>
              ScorableOnce(rows[1..], src, existing) &&
              !(Scorable(rows[0].spanId, src, existing) && IsSpanOf(rows[1..], rows[0].spanId))
  {
    var rest := rows[1..];
    if ScorableOnce(rows, src, existing) {
      forall i, j | 0 <= i < j < |rest| && rest[i].spanId == rest[j].spanId
        ensures !Scorable(rest[i].spanId, src, existing)
      {
        assert rows[i + 1].spanId == rows[j + 1].spanId;
      }
      if k :| 0 <= k < |rest| && rest[k].spanId == rows[0].spanId {
        assert rows[k + 1].spanId == rows[0].spanId;
      }
    } else {
      var i, j :| 0 <= i < j < |rows| && rows[i].spanId == rows[j].spanId && Scorable(rows[i].spanId, src, existing);
      assert rest[j - 1] == rows[j];
      assert i > 0 ==> rest[i - 1] == rows[i];
    }
  }

  lemma UniqueSplits(head: seq<Candidate>, rest: seq<Candidate>)
    requires |head| <= 1
    ensures UniqueCandidates(head + rest) <==>
              UniqueCandidates(rest) && !(head != [] && IsCandidate(rest, head[0].spanId))
  {
    var cs := head + rest;
    if UniqueCandidates(cs) {
      forall i, j | 0 <= i < j < |rest| ensures rest[i].spanId != rest[j].spanId {
        assert cs[|head| + i].spanId != cs[|head| + j].spanId;
      }
      forall k | 0 <= k < |rest| && head != [] ensures rest[k].spanId != head[0].spanId {
        assert cs[0].spanId != cs[1 + k].spanId;
      }
    }
    if UniqueCandidates(rest) && !(head != [] && IsCandidate(rest, head[0].spanId)) {
      forall i, j | 0 <= i < j < |cs| ensures cs[i].spanId != cs[j].spanId {
        assert cs[j] == rest[j - |head|];
        assert i >= |head| ==> cs[i] == rest[i - |head|];
      }
    }
  }

  /** One candidate a span exactly when no scorable span was scanned twice. */
  lemma {:induction false} CandidatesOnceIff(def: EvalDef, rows: seq<SpanRow>, src: Source, existing: set<string>)
    ensures UniqueCandidates(Scored(def, rows, src, existing)) <==> ScorableOnce(rows, src, existing)
  {
    if rows != [] {
      ScoredSplits(def, rows, src, existing);
      CandidatesOnceIff(def, rows[1..], src, existing);
      var head := if Scorable(rows[0].spanId, src, existing) then CandidateOf(def, rows[0], src) else [];
      UniqueSplits(head, Scored(def, rows[1..], src, existing));
      OnceSplits(rows, src, existing);
      CandidatesAreScorable(def, rows[1..], src, existing, rows[0].spanId);
    }
  }

  /** A run keeps one row for each evaluation, version and span, although windows overlap
      and runs repeat after a failure, exactly when its scan had no scorable span twice. */
  lemma OneRowEachIff(def: EvalDef, rows: seq<SpanRow>, src: Source, results: seq<ResultRow>,
                      cache: map<string, Cached>, evaluate: Candidate -> Evaluation)
    requires OneRowEach(results)
    ensures OneRowEach(results + RowsOf(def, CandidatesOfRun(def, rows, src, results), cache, evaluate)) <==>
            ScorableOnce(rows, src, ExistingIds(results, def))
  {
    var existing := ExistingIds(results, def);
    var cs := CandidatesOfRun(def, rows, src, results);
    assert cs == Scored(def, rows, src, existing);
    CandidatesOnceIff(def, rows, src, existing);
    forall j | 0 <= j < |cs| ensures cs[j].spanId !in existing {
      CandidatesAreScorable(def, rows, src, existing, cs[j].spanId);
      assert IsCandidate(cs, cs[j].spanId);
    }
    AddedOnceIff(def, cs, results, cache, evaluate);
  }

  /** Rows of spans without a result add nothing twice exactly when they are of different
      spans. */
  lemma AddedOnceIff(def: EvalDef, cs: seq<Candidate>, results: seq<ResultRow>, cache: map<string, Cached>,
                     evaluate: Candidate -> Evaluation)
    requires OneRowEach(results) && forall j :: 0 <= j < |cs| ==> cs[j].spanId !in ExistingIds(results, def)
    ensures OneRowEach(results + RowsOf(def, cs, cache, evaluate)) <==> UniqueCandidates(cs)
  {
    var added := RowsOf(def, cs, cache, evaluate);
    var all := results + added;
    assert forall j :: 0 <= j < |cs| ==>
             all[|results| + j] == added[j] && added[j].evalId == def.id && added[j].version == def.version
             && added[j].spanId == cs[j].spanId;
    if OneRowEach(all) {
      forall i, j | 0 <= i < j < |cs| ensures cs[i].spanId != cs[j].spanId {
        assert all[|results| + i].spanId != all[|results| + j].spanId;
      }
    }
    forall i, j | 0 <= i < |results| && 0 <= j < |cs|
      ensures results[i].evalId != def.id || results[i].version != def.version || results[i].spanId != cs[j].spanId
    {
      assert cs[j].spanId !in ExistingIds(results, def);
    }
  }

  /** With unique span ids, no run ever gives an evaluation, version and span a
      second row. */
  lemma RunKeepsOneRowEach(def: EvalDef, rows: seq<SpanRow>, src: Source, results: seq<ResultRow>,
                           cache: map<string, Cached>, evaluate: Candidate -> Evaluation)
    requires OneRowEach(results) && forall i, j :: 0 <= i < j < |rows| ==> rows[i].spanId != rows[j].spanId
    ensures OneRowEach(results + RowsOf(def, CandidatesOfRun(def, rows, src, results), cache, evaluate))
  {
    OneRowEachIff(def, rows, src, results, cache, evaluate);
  }

  /** A collector retry stores a span as two identical rows. Any scan with room for both
      returns both, and the span, if it is to be scored, gets two results in one run. */
  lemma RetriedSpanScoredTwice(def: EvalDef, cfg: Config, watermark: Option<int>, s: Scan, r: SpanRow, src: Source,
                               results: seq<ResultRow>, cache: map<string, Cached>, evaluate: Candidate -> Evaluation)
    requires GoodScan(cfg, def.selector, watermark, s) && multiset(s.visible)[r] >= 2
    requires Matches(def.selector, cfg.selfService, r) && InWindow(r, Since(cfg, watermark, s.now), s.now)
    requires |s.rows| < cfg.batchLimit && Scorable(r.spanId, src, ExistingIds(results, def)) && OneRowEach(results)
    ensures !OneRowEach(results + RowsOf(def, CandidatesOfRun(def, s.rows, src, results), cache, evaluate))
  {
    assert multiset(s.rows)[r] >= 2;
    var i, j := TwoCopies(s.rows, r);
    assert s.rows[i].spanId == s.rows[j].spanId;
    OneRowEachIff(def, s.rows, src, results, cache, evaluate);
  }

  lemma {:induction false} TwoCopies(rows: seq<SpanRow>, r: SpanRow) returns (i: nat, j: nat)
    requires multiset(rows)[r] >= 2
    ensures i < j < |rows| && rows[i] == r && rows[j] == r
  {
    assert rows == [rows[0]] + rows[1..];
    if rows[0] == r {
      assert r in multiset(rows[1..]);
      var k :| 0 <= k < |rows[1..]| && rows[1..][k] == r;
      i, j := 0, k + 1;
    } else {
      i, j := TwoCopies(rows[1..], r);
      i, j := i + 1, j + 1;
    }
  }

  // ---------------------------------------------------------------------
  // Spans scanned before their content
  // ---------------------------------------------------------------------

  /** One run of the definition: its scan, what it read about the spans then, and where
      it broke off. */
  datatype Attempt = Attempt(scan: Scan, src: Source, fault: Fault)

  predicate KeepsRows(f: Fault) {
    f.NoFault? || f.Watermarking?
  }

  /** The spans with a result, after one more run. */
  ghost function IdsNext(existing: set<string>, a: Attempt): set<string> {
    existing +
    (if KeepsRows(a.fault) then set r | r in a.scan.rows && Scorable(r.spanId, a.src, existing) :: r.spanId else {})
  }

  ghost function IdsAfter(existing: set<string>, runs: seq<Attempt>): set<string>
    decreases |runs|
  {
    if runs == [] then existing else IdsAfter(IdsNext(existing, runs[0]), runs[1..])
  }

  /** What a run stores are results of exactly the spans it scored. */
  lemma RunAddsIds(def: EvalDef, rows: seq<SpanRow>, src: Source, results: seq<ResultRow>, cache: map<string, Cached>,
                   evaluate: Candidate -> Evaluation, id: string)
    ensures id in ExistingIds(results + RowsOf(def, CandidatesOfRun(def, rows, src, results), cache, evaluate), def) <==>
            id in ExistingIds(results, def) || (Scorable(id, src, ExistingIds(results, def)) && IsSpanOf(rows, id))
  {
    var cs := CandidatesOfRun(def, rows, src, results);
    CandidatesAreScorable(def, rows, src, ExistingIds(results, def), id);
    assert cs == Scored(def, rows, src, ExistingIds(results, def));
    AddedIds(def, cs, results, cache, evaluate, id);
  }

  lemma AddedIds(def: EvalDef, cs: seq<Candidate>, results: seq<ResultRow>, cache: map<string, Cached>,
                 evaluate: Candidate -> Evaluation, id: string)
    ensures id in ExistingIds(results + RowsOf(def, cs, cache, evaluate), def) <==>
            id in ExistingIds(results, def) || IsCandidate(cs, id)
  {
    var added := RowsOf(def, cs, cache, evaluate);
    var all := results + added;
    if IsCandidate(cs, id) {
      var k :| 0 <= k < |cs| && cs[k].spanId == id;
      assert all[|results| + k] == added[k];
    }
    if id in ExistingIds(results, def) {
      var i :| 0 <= i < |results| && results[i].evalId == def.id && results[i].version == def.version
               && results[i].spanId == id;
      assert all[i] == results[i];
    }
    if id in ExistingIds(all, def) {
      var i :| 0 <= i < |all| && all[i].evalId == def.id && all[i].version == def.version && all[i].spanId == id;
      if i >= |results| {
        assert all[i] == added[i - |results|] && cs[i - |results|].spanId == id;
      } else {
        assert all[i] == results[i];
      }
    }
  }

  /** What a run leaves in the store: one row each or not, and whose. */
  lemma RunLeaves(def: EvalDef, a: Attempt, before: seq<ResultRow>, after: seq<ResultRow>, cache: map<string, Cached>,
                  evaluate: Candidate -> Evaluation)
    requires after == before + (if KeepsRows(a.fault)
                                then RowsOf(def, CandidatesOfRun(def, a.scan.rows, a.src, before), cache, evaluate) else [])
    ensures OneRowEach(before) ==>
              (OneRowEach(after) <==> !KeepsRows(a.fault) || ScorableOnce(a.scan.rows, a.src, ExistingIds(before, def)))
    ensures ExistingIds(after, def) == IdsNext(ExistingIds(before, def), a)
  {
    if KeepsRows(a.fault) {
      if OneRowEach(before) {
        OneRowEachIff(def, a.scan.rows, a.src, before, cache, evaluate);
      }
      forall id ensures id in ExistingIds(after, def) <==> id in IdsNext(ExistingIds(before, def), a) {
        RunAddsIds(def, a.scan.rows, a.src, before, cache, evaluate, id);
        IdsNextIff(ExistingIds(before, def), a, id);
      }
    } else {
      assert after == before;
    }
  }

  /** The run gives the span a result, unless it has one. */
  ghost predicate Gives(a: Attempt, id: string) {
    KeepsRows(a.fault) && IsSpanOf(a.scan.rows, id) && a.src.sampled(id) && a.src.content(id) != ("", "")
  }

  lemma IdsNextIff(existing: set<string>, a: Attempt, id: string)
    ensures id in IdsNext(existing, a) <==> id in existing || Gives(a, id)
  {
    if Gives(a, id) {
      var k :| 0 <= k < |a.scan.rows| && a.scan.rows[k].spanId == id;
      assert a.scan.rows[k] in a.scan.rows;
    }
  }

  /** A span has a result after some runs exactly when it had one or a run that kept its
      rows scanned it when it had content. */
  lemma {:induction false} ResultIff(existing: set<string>, runs: seq<Attempt>, id: string)
    ensures id in IdsAfter(existing, runs) <==> id in existing || exists i :: 0 <= i < |runs| && Gives(runs[i], id)
    decreases |runs|
  {
    if runs != [] {
      var rest := runs[1..];
      IdsNextIff(existing, runs[0], id);
      ResultIff(IdsNext(existing, runs[0]), rest, id);
      if i :| 0 <= i < |rest| && Gives(rest[i], id) {
        assert Gives(runs[i + 1], id);
      }
      if i :| 0 <= i < |runs| && Gives(runs[i], id) {
        assert i > 0 ==> Gives(rest[i - 1], id);
      }
    }
  }

  /** A run that scans a span whose content has not landed gives it no result, and the
      span is in the window of the next run exactly when it starts above the newest
      scanned start less the overlap. */
  lemma SkippedIsSeenAgainIff(cfg: Config, def: EvalDef, watermark: Option<int>, a: Attempt, x: SpanRow,
                              existing: set<string>, later: int)
    requires GoodScan(cfg, def.selector, watermark, a.scan) && !a.scan.failed && a.scan.now <= later
    requires x in a.scan.rows && a.src.content(x.spanId) == ("", "")
    ensures x.spanId in IdsNext(existing, a) <==> x.spanId in existing
    ensures InWindow(x, Since(cfg, NextWatermark(watermark, a.scan), later), later) <==>
            x.startNs > (MaxStart(a.scan.rows) - cfg.overlapMs) * NS_PER_MS
  {
    IdsNextIff(existing, a, x.spanId);
  }

  ghost function ScansOf(runs: seq<Attempt>): seq<Scan> {
    seq(|runs|, i requires 0 <= i < |runs| => runs[i].scan)
  }

  /** In these runs the content of the sampled span `x` has landed; it is the only span
      of its id, and a run fails in its scan's sense exactly when it has a fault. */
  ghost predicate ContentLanded(runs: seq<Attempt>, x: SpanRow) {
    forall i :: 0 <= i < |runs| ==>
      && runs[i].src.sampled(x.spanId) && runs[i].src.content(x.spanId) != ("", "")
      && x in runs[i].scan.visible && (runs[i].scan.failed <==> runs[i].fault != NoFault)
      && forall r :: r in runs[i].scan.rows && r.spanId == x.spanId ==> r == x
  }

  /** The window of run `i` opens below the start of `x`; the one after the last counts. */
  ghost predicate OpensBelow(cfg: Config, w: int, ss: seq<Scan>, x: SpanRow, i: nat)
    requires i <= |ss|
  {
    var v := WatermarkAfter(Some(w), ss[..i]);
    v.Some? && x.startNs > (v.value - cfg.overlapMs) * NS_PER_MS
  }

  lemma {:induction false} StaysSome(w: int, ss: seq<Scan>)
    ensures WatermarkAfter(Some(w), ss).Some?
    decreases |ss|
  {
    if ss != [] {
      StaysSome(NextWatermark(Some(w), ss[0]).value, ss[1..]);
    }
  }

  lemma {:induction false} AfterInTwo(watermark: Option<int>, ss: seq<Scan>, i: nat)
    requires i <= |ss|
    ensures WatermarkAfter(watermark, ss) == WatermarkAfter(WatermarkAfter(watermark, ss[..i]), ss[i..])
    decreases i
  {
    if i > 0 {
      AfterInTwo(NextWatermark(watermark, ss[0]), ss[1..], i - 1);
      assert ss[..i][1..] == ss[1..][..i - 1] && ss[1..][i - 1..] == ss[i..];
    } else {
      assert ss[i..] == ss;
    }
  }

  /** A run scans only what its window holds. */
  lemma ScannedIsBelow(cfg: Config, def: EvalDef, w: int, ss: seq<Scan>, x: SpanRow, i: nat)
    requires GoodScans(cfg, def.selector, Some(w), ss) && i < |ss| && x in ss[i].rows
    ensures OpensBelow(cfg, w, ss, x, i)
  {
    GoodScansSplit(cfg, def.selector, Some(w), ss, i);
    StaysSome(w, ss[..i]);
    assert ss[i..][0] == ss[i];
  }

  lemma AllVisible(runs: seq<Attempt>, x: SpanRow)
    requires ContentLanded(runs, x)
    ensures forall k :: 0 <= k < |ScansOf(runs)| ==> x in ScansOf(runs)[k].visible
  {
  }

  lemma TailScanned(ss: seq<Scan>, x: SpanRow, i: nat)
    requires i <= |ss| && Scanned(ss[i..], x)
    ensures Scanned(ss, x)
  {
    var k :| 0 <= k < |ss[i..]| && x in ss[i..][k].rows && !ss[i..][k].failed;
    assert x in ss[i + k].rows && !ss[i + k].failed;
  }

  lemma ScannedGives(runs: seq<Attempt>, x: SpanRow)
    requires ContentLanded(runs, x) && Scanned(ScansOf(runs), x)
    ensures exists k :: 0 <= k < |runs| && Gives(runs[k], x.spanId)
  {
    var k :| 0 <= k < |ScansOf(runs)| && x in ScansOf(runs)[k].rows && !ScansOf(runs)[k].failed;
    var n :| 0 <= n < |runs[k].scan.rows| && runs[k].scan.rows[n] == x;
    assert IsSpanOf(runs[k].scan.rows, x.spanId);
    assert Gives(runs[k], x.spanId);
  }

  /** From a window that holds it on, the span is scanned or stays in the window. */
  lemma HeldStays(cfg: Config, sel: Selector, w: int, ss: seq<Scan>, x: SpanRow, i: nat, later: int)
    requires GoodScans(cfg, sel, Some(w), ss) && i < |ss| && forall k :: 0 <= k < |ss| ==> x in ss[k].visible
    requires Matches(sel, cfg.selfService, x) && x.startNs >= 0 && cfg.overlapMs > 0 && cfg.batchLimit > 0
    requires x.startNs <= ss[0].now * NS_PER_MS && ss[|ss| - 1].now <= later && OpensBelow(cfg, w, ss, x, i)
    ensures Scanned(ss, x) || OpensBelow(cfg, w, ss, x, |ss|)
  {
    GoodScansSplit(cfg, sel, Some(w), ss, i);
    var rest, v := ss[i..], WatermarkAfter(Some(w), ss[..i]);
    forall k | 0 <= k < |rest| ensures x in rest[k].visible {
      assert rest[k] == ss[i + k];
    }
    VisibleSpanIsNotLost(cfg, sel, v, rest, x, later);
    if Scanned(rest, x) {
      TailScanned(ss, x, i);
    } else {
      AfterInTwo(Some(w), ss, i);
      StaysSome(w, ss);
      assert ss[..|ss|] == ss;
    }
  }

  /** A span that was scanned before its content landed, and has no result, is lost
      exactly when no window from then on opens below its start: otherwise it gets its
      result, or is still in the window of the run that comes next. */
  lemma LateContentIff(cfg: Config, def: EvalDef, w: int, runs: seq<Attempt>, x: SpanRow, existing: set<string>, later: int)
    requires GoodScans(cfg, def.selector, Some(w), ScansOf(runs)) && ContentLanded(runs, x) && runs != []
    requires Matches(def.selector, cfg.selfService, x) && x.startNs >= 0 && cfg.overlapMs > 0 && cfg.batchLimit > 0
    requires x.startNs <= runs[0].scan.now * NS_PER_MS && runs[|runs| - 1].scan.now <= later
    requires x.spanId !in existing
    ensures x.spanId in IdsAfter(existing, runs) || OpensBelow(cfg, w, ScansOf(runs), x, |runs|) <==>
            exists i :: 0 <= i <= |runs| && OpensBelow(cfg, w, ScansOf(runs), x, i)
  {
    ResultIff(existing, runs, x.spanId);
    if i :| 0 <= i < |runs| && Gives(runs[i], x.spanId) {
      GivenIsBelow(cfg, def, w, runs, x, i);
    }
    if i :| 0 <= i < |runs| && OpensBelow(cfg, w, ScansOf(runs), x, i) {
      HeldIsGiven(cfg, def, w, runs, x, i, later);
    }
  }

  lemma GivenIsBelow(cfg: Config, def: EvalDef, w: int, runs: seq<Attempt>, x: SpanRow, i: nat)
    requires GoodScans(cfg, def.selector, Some(w), ScansOf(runs)) && ContentLanded(runs, x)
    requires i < |runs| && Gives(runs[i], x.spanId)
    ensures OpensBelow(cfg, w, ScansOf(runs), x, i)
  {
    var k :| 0 <= k < |runs[i].scan.rows| && runs[i].scan.rows[k].spanId == x.spanId;
    assert runs[i].scan.rows[k] in runs[i].scan.rows;
    ScannedIsBelow(cfg, def, w, ScansOf(runs), x, i);
  }

  lemma HeldIsGiven(cfg: Config, def: EvalDef, w: int, runs: seq<Attempt>, x: SpanRow, i: nat, later: int)
    requires GoodScans(cfg, def.selector, Some(w), ScansOf(runs)) && ContentLanded(runs, x) && i < |runs|
    requires Matches(def.selector, cfg.selfService, x) && x.startNs >= 0 && cfg.overlapMs > 0 && cfg.batchLimit > 0
    requires x.startNs <= runs[0].scan.now * NS_PER_MS && runs[|runs| - 1].scan.now <= later
    requires OpensBelow(cfg, w, ScansOf(runs), x, i)
    ensures (exists k :: 0 <= k < |runs| && Gives(runs[k], x.spanId)) || OpensBelow(cfg, w, ScansOf(runs), x, |runs|)
  {
    AllVisible(runs, x);
    HeldStays(cfg, def.selector, w, ScansOf(runs), x, i, later);
    if Scanned(ScansOf(runs), x) {
      ScannedGives(runs, x);
    }
  }
}
