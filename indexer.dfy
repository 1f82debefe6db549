/**
 * The indexing logic of helpers/indexer.py: weighted term counting per
 * document, the duplicate test on simhash fingerprints, and the ingestion
 * loop that assigns document ids, fills batch indexes, flushes them into the
 * postings database and finally converts the weights to tf-idf.
 *
 * Reading the corpus (`os.walk`, `json.load`), HTML text extraction, word
 * tokenizing and stemming are not part of this model: each document arrives
 * as its URL and its stemmed token lists.
 */
module Indexing {
  import opened Results
  import opened PyDict
  import opened Codec
  import opened BatchIndex
  import opened Database
  import opened Simhash

  /** One JSON document of the corpus, already parsed, tokenized and stemmed. */
  datatype Document = Document(
    url: string,
    tokens: seq<string>,   // the page text
    bold: seq<string>,     // text of <b> and <strong> elements
    title: seq<string>,    // text of <title> elements
    header: seq<string>)   // text of <h1> to <h5> elements

  /** The INDEXER section of the configuration file, and the token hash. */
  datatype Config = Config(
    boldWeight: real,
    titleWeight: real,
    headerWeight: real,
    simhashThreshold: real,
    hash: string -> nat)

  /** `get_simhash` and `similarity` are called with their default width. */
  const HashBits: nat := 128

  /** A batch is flushed before each document whose id is a multiple of this. */
  const FlushEvery: nat := 10000

  // ------------------------------------------------------------ word counts

  type Counts = Dict<string, real>

  /** `word_counts.get(word, 0)`. */
  function Count(c: Counts, w: string): real {
    if w in c.values then c.values[w] else 0.0
  }

  /** One of the counting loops: `word_counts[word] = word_counts.get(word, 0) + amount` for each word. */
  function AddAll(c: Counts, ws: seq<string>, amount: real): Counts
  {
    if ws == [] then c
    else
      var before := AddAll(c, ws[..|ws| - 1], amount);
      Put(before, ws[|ws| - 1], Count(before, ws[|ws| - 1]) + amount)
  }

  /** The extra count per occurrence in markup of this weight: the word was already counted once as text. */
  function Boost(weight: real): real {
    weight - 1.0
  }

  /** The counts of helpers/indexer.py:91-136: one per token, then the boosts of bold, title and header words. */
  function WordCounts(d: Document, cfg: Config): Counts
  {
    AddAll(AddAll(AddAll(AddAll(Empty(), d.tokens, 1.0),
      d.bold, Boost(cfg.boldWeight)), d.title, Boost(cfg.titleWeight)), d.header, Boost(cfg.headerWeight))
  }

  /** n additions of a: the count a word reaches after n occurrences worth a each. */
  function Times(n: nat, a: real): real {
    if n == 0 then 0.0 else Times(n - 1, a) + a
  }

  lemma {:induction false} TimesIsProduct(n: nat, a: real)
    ensures Times(n, a) == n as real * a
  {
    if n > 0 {
      TimesIsProduct(n - 1, a);
      assert n as real * a == (n - 1) as real * a + a;
    }
  }

  lemma {:induction false} AddAllCount(c: Counts, ws: seq<string>, amount: real, w: string)
    ensures Count(AddAll(c, ws, amount), w) == Count(c, w) + Times(multiset(ws)[w], amount)
  {
    if ws != [] {
      var init := ws[..|ws| - 1];
      AddAllCount(c, init, amount, w);
      assert ws == init + [ws[|ws| - 1]];
    }
  }

  lemma {:induction false} AddAllValid(c: Counts, ws: seq<string>, amount: real)
    requires c.Valid()
    ensures AddAll(c, ws, amount).Valid()
  {
    if ws != [] {
      AddAllValid(c, ws[..|ws| - 1], amount);
    }
  }

  /** The counts form a dict: each counted word appears once in insertion order. */
  lemma WordCountsValid(d: Document, cfg: Config)
    ensures WordCounts(d, cfg).Valid()
  {
    var c1 := AddAll(Empty(), d.tokens, 1.0);
    var c2 := AddAll(c1, d.bold, Boost(cfg.boldWeight));
    var c3 := AddAll(c2, d.title, Boost(cfg.titleWeight));
    AddAllValid(Empty(), d.tokens, 1.0);
    AddAllValid(c1, d.bold, Boost(cfg.boldWeight));
    AddAllValid(c2, d.title, Boost(cfg.titleWeight));
    AddAllValid(c3, d.header, Boost(cfg.headerWeight));
  }

  lemma {:induction false} AddAllKeys(c: Counts, ws: seq<string>, amount: real, w: string)
    ensures w in AddAll(c, ws, amount).values <==> w in c.values || w in ws
  {
    if ws != [] {
      var init := ws[..|ws| - 1];
      AddAllKeys(c, init, amount, w);
      assert ws == init + [ws[|ws| - 1]];
    }
  }

  /**
   * A document's count for a word is its number of occurrences in the text,
   * plus `bold_weight - 1`, `title_weight - 1` and `header_weight - 1` per
   * occurrence among the bold, title and header words (Times(n, a) is n * a
   * by TimesIsProduct).
   */
  lemma WordCountsSum(d: Document, cfg: Config, w: string)
    ensures Count(WordCounts(d, cfg), w)
      == Times(multiset(d.tokens)[w], 1.0)
       + Times(multiset(d.bold)[w], Boost(cfg.boldWeight))
       + Times(multiset(d.title)[w], Boost(cfg.titleWeight))
       + Times(multiset(d.header)[w], Boost(cfg.headerWeight))
  {
    var c1 := AddAll(Empty(), d.tokens, 1.0);
    var c2 := AddAll(c1, d.bold, Boost(cfg.boldWeight));
    var c3 := AddAll(c2, d.title, Boost(cfg.titleWeight));
    AddAllCount(Empty(), d.tokens, 1.0, w);
    AddAllCount(c1, d.bold, Boost(cfg.boldWeight), w);
    AddAllCount(c2, d.title, Boost(cfg.titleWeight), w);
    AddAllCount(c3, d.header, Boost(cfg.headerWeight), w);
  }

  /** A word is counted exactly when it occurs in the text or among the bold, title or header words. */
  lemma WordCountsKeys(d: Document, cfg: Config, w: string)
    ensures w in WordCounts(d, cfg).values <==> w in d.tokens || w in d.bold || w in d.title || w in d.header
  {
    var c1 := AddAll(Empty(), d.tokens, 1.0);
    var c2 := AddAll(c1, d.bold, Boost(cfg.boldWeight));
    var c3 := AddAll(c2, d.title, Boost(cfg.titleWeight));
    AddAllKeys(Empty(), d.tokens, 1.0, w);
    AddAllKeys(c1, d.bold, Boost(cfg.boldWeight), w);
    AddAllKeys(c2, d.title, Boost(cfg.titleWeight), w);
    AddAllKeys(c3, d.header, Boost(cfg.headerWeight), w);
  }

  /** The loop body of one counting loop, run over `words`. */
  method AddEach(counts: Counts, words: seq<string>, amount: real) returns (r: Counts)
    ensures r == AddAll(counts, words, amount)
  {
    r := counts;
    var k := 0;
    while k < |words|
      invariant 0 <= k <= |words|
      invariant r == AddAll(counts, words[..k], amount)
    {
      assert words[..k + 1][..k] == words[..k];
      var word := words[k];
      r := Put(r, word, Count(r, word) + amount);
      k := k + 1;
    }
    assert words[..k] == words;
  }

  /** helpers/indexer.py:91-136. */
  method CountWords(d: Document, cfg: Config) returns (counts: Counts)
    ensures counts == WordCounts(d, cfg)
  {
    var c1 := AddEach(Empty(), d.tokens, 1.0);
    var c2 := AddEach(c1, d.bold, Boost(cfg.boldWeight));
    var c3 := AddEach(c2, d.title, Boost(cfg.titleWeight));
    counts := AddEach(c3, d.header, Boost(cfg.headerWeight));
  }

  /** The additions `inverted_index.add(word, document_id, count)` makes for each item, in order. */
  function Tagged(items: seq<(string, real)>, id: nat): seq<Addition> {
    if items == [] then []
    else Tagged(items[..|items| - 1], id) + [(items[|items| - 1].0, Posting(id, items[|items| - 1].1))]
  }

  lemma {:induction false} TaggedShape(items: seq<(string, real)>, id: nat)
    ensures var r := Tagged(items, id);
      |r| == |items| && forall i :: 0 <= i < |r| ==> r[i] == (items[i].0, Posting(id, items[i].1))
  {
    if items != [] {
      TaggedShape(items[..|items| - 1], id);
    }
  }

  lemma TaggedSnoc(items: seq<(string, real)>, i: nat, id: nat)
    requires i < |items|
    ensures Tagged(items[..i + 1], id) == Tagged(items[..i], id) + [(items[i].0, Posting(id, items[i].1))]
  {
    assert items[..i + 1][..i] == items[..i];
  }

  /** The additions of helpers/indexer.py:139-140 for a unique document. */
  function DocAdditions(d: Document, id: nat, cfg: Config): seq<Addition> {
    WordCountsValid(d, cfg);
    Tagged(PyDict.Items(WordCounts(d, cfg)), id)
  }

  /**
   * A unique document adds one posting per counted word, each word once in
   * order of first count, all with the document's id and the word's count.
   */
  lemma DocAdditionsShape(d: Document, id: nat, cfg: Config)
    ensures WordCounts(d, cfg).Valid()
    ensures var adds := DocAdditions(d, id, cfg); var counts := WordCounts(d, cfg);
      && |adds| == |counts.keys|
      && forall i :: 0 <= i < |adds| ==> adds[i] == (counts.keys[i], Posting(id, Count(counts, counts.keys[i])))
  {
    WordCountsValid(d, cfg);
    TaggedShape(PyDict.Items(WordCounts(d, cfg)), id);
  }

  // ------------------------------------------------------------ duplicates

  /** The fingerprint `get_simhash` computes for each document. */
  function Fingerprints(docs: seq<Document>, cfg: Config): (r: seq<nat>)
    ensures |r| == |docs| && forall i :: 0 <= i < |docs| ==> r[i] == Simhash.Simhash(docs[i].tokens, cfg.hash, HashBits)
  {
    seq(|docs|, i requires 0 <= i < |docs| => Simhash.Simhash(docs[i].tokens, cfg.hash, HashBits))
  }

  /** No fingerprint in the table is similar enough to h. */
  ghost predicate UniqueIn(table: map<nat, nat>, h: nat, threshold: real) {
    forall k :: k in table ==> Similarity(h, table[k], HashBits) < threshold
  }

  /** Document i is indexed: no earlier document, duplicate or not, is similar enough to it. */
  predicate UniqueAt(fps: seq<nat>, i: nat, threshold: real)
    requires i < |fps|
  {
    forall j :: 0 <= j < i ==> Similarity(fps[i], fps[j], HashBits) < threshold
  }

  /** The fingerprints `self.simhashes` holds after k documents, by document id. */
  function Table(fps: seq<nat>, k: nat): (m: map<nat, nat>)
    requires k <= |fps|
    ensures forall i: nat :: i in m <==> i < k
    ensures forall i :: 0 <= i < k ==> m[i] == fps[i]
  {
    map i: nat | i < k :: fps[i]
  }

  /** The duplicate test against the table is the test against all earlier documents. */
  lemma TableUnique(fps: seq<nat>, k: nat, threshold: real)
    requires k < |fps|
    ensures UniqueIn(Table(fps, k), fps[k], threshold) <==> UniqueAt(fps, k, threshold)
  {
  }

  // ------------------------------------------------------------ batches

  /** The postings document i adds: its word counts if it is unique, nothing if it is a near-duplicate. */
  function DocLog(docs: seq<Document>, cfg: Config, i: nat): seq<Addition>
    requires i < |docs|
  {
    if UniqueAt(Fingerprints(docs, cfg), i, cfg.simhashThreshold) then DocAdditions(docs[i], i, cfg) else []
  }

  /** The additions of every document, by document id. */
  function DocLogs(docs: seq<Document>, cfg: Config): (r: seq<seq<Addition>>)
    ensures |r| == |docs| && forall i :: 0 <= i < |docs| ==> r[i] == DocLog(docs, cfg, i)
  {
    seq(|docs|, i requires 0 <= i < |docs| => DocLog(docs, cfg, i))
  }

  /** Every addition of document i carries document id i. */
  lemma DocLogIds(docs: seq<Document>, cfg: Config)
    ensures var logs := DocLogs(docs, cfg);
      forall i, j :: 0 <= i < |logs| && 0 <= j < |logs[i]| ==> logs[i][j].1.doc == i
  {
    forall i | 0 <= i < |docs| {
      DocAdditionsShape(docs[i], i, cfg);
    }
  }

  /**
   * After the documents with ids below k, given the additions of each:
   * the batches already flushed, and the additions of the open batch.
   */
  function Cut(logs: seq<seq<Addition>>, k: nat): (seq<seq<Addition>>, seq<Addition>)
    requires k <= |logs|
  {
    if k == 0 then ([], [])
    else
      var (flushed, open) := Cut(logs, k - 1);
      var id := k - 1;
      if id % FlushEvery == 0 then (flushed + [open], logs[id])
      else (flushed, open + logs[id])
  }

  /** Every batch `set` receives, the final one included. */
  function Batches(logs: seq<seq<Addition>>): seq<seq<Addition>> {
    var (flushed, open) := Cut(logs, |logs|);
    flushed + [open]
  }

  function Flatten<T>(xs: seq<seq<T>>): seq<T> {
    if xs == [] then [] else Flatten(xs[..|xs| - 1]) + xs[|xs| - 1]
  }

  lemma {:induction false} FlattenSnoc<T>(xs: seq<seq<T>>, x: seq<T>)
    ensures Flatten(xs + [x]) == Flatten(xs) + x
  {
    assert (xs + [x])[..|xs|] == xs;
  }

  lemma {:induction false} CutPartition(logs: seq<seq<Addition>>, k: nat)
    requires k <= |logs|
    ensures Flatten(Cut(logs, k).0) + Cut(logs, k).1 == Flatten(logs[..k])
  {
    if k > 0 {
      CutPartition(logs, k - 1);
      var (flushed, open) := Cut(logs, k - 1);
      assert logs[..k][..k - 1] == logs[..k - 1];
      if (k - 1) % FlushEvery == 0 {
        FlattenSnoc(flushed, open);
      }
    }
  }

  /**
   * The batches are the per-document additions cut into pieces: flushing
   * loses and repeats nothing, and keeps document order.
   */
  lemma BatchesPartition(logs: seq<seq<Addition>>)
    ensures Flatten(Batches(logs)) == Flatten(logs)
  {
    CutPartition(logs, |logs|);
    FlattenSnoc(Cut(logs, |logs|).0, Cut(logs, |logs|).1);
    assert logs[..|logs|] == logs;
  }

  /** The ids of the documents in the open batch share one quotient by 10000. */
  lemma {:induction false} CutRanges(logs: seq<seq<Addition>>, k: nat)
    requires k <= |logs|
    requires forall i, j :: 0 <= i < |logs| && 0 <= j < |logs[i]| ==> logs[i][j].1.doc == i
    ensures var (flushed, open) := Cut(logs, k);
      && |flushed| == (k + FlushEvery - 1) / FlushEvery
      && (|flushed| > 0 ==> flushed[0] == [])
      && (forall b, j :: 1 <= b < |flushed| && 0 <= j < |flushed[b]| ==> flushed[b][j].1.doc / FlushEvery == b - 1)
      && (forall j :: 0 <= j < |open| ==> open[j].1.doc / FlushEvery == |flushed| - 1)
  {
    if k > 0 {
      CutRanges(logs, k - 1);
      var (flushed, open) := Cut(logs, k - 1);
      var id := k - 1;
      var log := logs[id];
      if id % FlushEvery == 0 {
        assert id / FlushEvery == |flushed|;
      } else {
        assert id / FlushEvery == |flushed| - 1;
        forall j | 0 <= j < |open + log|
          ensures (open + log)[j].1.doc / FlushEvery == |flushed| - 1
        {
          if j >= |open| {
            assert (open + log)[j] == log[j - |open|];
          }
        }
      }
    }
  }

  /**
   * Batch 0 is the empty batch flushed before document 0, batch b > 0 holds
   * only documents with ids from 10000 (b - 1) to 10000 b - 1, and there is
   * one batch per started block of 10000 documents plus the final one.
   */
  lemma BatchesRanges(logs: seq<seq<Addition>>)
    requires forall i, j :: 0 <= i < |logs| && 0 <= j < |logs[i]| ==> logs[i][j].1.doc == i
    ensures var batches := Batches(logs);
      && |batches| == (|logs| + FlushEvery - 1) / FlushEvery + 1
      && (|logs| > 0 ==> batches[0] == [])
      && (forall b, j :: 1 <= b < |batches| && 0 <= j < |batches[b]| ==> batches[b][j].1.doc / FlushEvery == b - 1)
  {
    CutRanges(logs, |logs|);
    var (flushed, open) := Cut(logs, |logs|);
    var batches: seq<seq<Addition>> := flushed + [open];
    forall b: nat, j: nat | 1 <= b < |batches| && j < |batches[b]|
      ensures batches[b][j].1.doc / FlushEvery == b - 1
    {
      if b < |flushed| {
        assert batches[b] == flushed[b];
      }
    }
  }

  // ------------------------------------------------------------ the database

  /** The items `set` receives for a batch built from these additions. */
  function BatchItems(log: seq<Addition>): seq<(string, seq<Posting>)> {
    PyDict.Items(FromLog(log))
  }

  /** The database after `set` of each batch in turn; the first error stops the ingestion. */
  function RunSets(s: DbState, logs: seq<seq<Addition>>, c: WeightCodec): Result<DbState> {
    if logs == [] then Ok(s)
    else
      match RunSets(s, logs[..|logs| - 1], c)
      case Err(e) => Err(e)
      case Ok(t) => SetSpec(t, BatchItems(logs[|logs| - 1]), c)
  }

  /** The database after `create_index`: every batch set, then one conversion to tf-idf. */
  function IngestSpec(s: DbState, docs: seq<Document>, cfg: Config, c: WeightCodec, tfIdf: (real, nat, nat) -> real): Result<DbState> {
    RunAll(s, DocLogs(docs, cfg), c, tfIdf)
  }

  /** Every batch set in turn, then one conversion to tf-idf. */
  function RunAll(s: DbState, logs: seq<seq<Addition>>, c: WeightCodec, tfIdf: (real, nat, nat) -> real): Result<DbState> {
    match RunSets(s, Batches(logs), c)
    case Err(e) => Err(e)
    case Ok(t) => ConvertSpec(t, c, tfIdf)
  }

  /** Later flushes only extend the list of flushed batches. */
  lemma {:induction false} CutGrows(logs: seq<seq<Addition>>, k: nat, m: nat)
    requires k <= m <= |logs|
    ensures |Cut(logs, k).0| <= |Cut(logs, m).0|
    ensures Cut(logs, m).0[..|Cut(logs, k).0|] == Cut(logs, k).0
    decreases m
  {
    if k < m {
      CutGrows(logs, k, m - 1);
      var f := Cut(logs, m - 1).0;
      var n := |Cut(logs, k).0|;
      if (m - 1) % FlushEvery == 0 {
        assert (f + [Cut(logs, m - 1).1])[..n] == f[..n];
      }
    }
  }

  /** Once a `set` has failed, the ingestion fails with its error whatever follows. */
  lemma {:induction false} RunSetsPrefixErr(s: DbState, logs: seq<seq<Addition>>, n: nat, c: WeightCodec)
    requires n <= |logs| && RunSets(s, logs[..n], c).Err?
    ensures RunSets(s, logs, c) == RunSets(s, logs[..n], c)
  {
    if n < |logs| {
      assert logs[..|logs| - 1][..n] == logs[..n];
      RunSetsPrefixErr(s, logs[..|logs| - 1], n, c);
    } else {
      assert logs[..n] == logs;
    }
  }

  /** A failing flush before document k is the outcome of the whole ingestion. */
  lemma FlushErr(s: DbState, logs: seq<seq<Addition>>, k: nat, c: WeightCodec)
    requires k < |logs| && k % FlushEvery == 0
    requires RunSets(s, Cut(logs, k + 1).0, c).Err?
    ensures RunSets(s, Batches(logs), c) == RunSets(s, Cut(logs, k + 1).0, c)
  {
    var f := Cut(logs, k + 1).0;
    CutGrows(logs, k + 1, |logs|);
    var all := Batches(logs);
    assert all[..|f|] == f;
    RunSetsPrefixErr(s, all, |f|, c);
  }

  /** The url of every document, by id: `self.url_map` after the first k documents. */
  function UrlMap(docs: seq<Document>, k: nat): (m: map<nat, string>)
    requires k <= |docs|
    ensures forall i: nat :: i in m <==> i < k
    ensures forall i :: 0 <= i < k ==> m[i] == docs[i].url
  {
    map i: nat | i < k :: docs[i].url
  }

  /** One document of the loop: a flush first when its id is a multiple of 10000, then its additions. */
  lemma CutStep(logs: seq<seq<Addition>>, k: nat)
    requires k < |logs|
    ensures Cut(logs, k + 1).1 == (if k % FlushEvery == 0 then [] else Cut(logs, k).1) + logs[k]
    ensures Cut(logs, k + 1).0 == if k % FlushEvery == 0 then Cut(logs, k).0 + [Cut(logs, k).1] else Cut(logs, k).0
  {
  }

  /**
   * Document k has fingerprint fps[k] and adds logs[k]: its word counts when
   * no fingerprint of an earlier document is similar enough, nothing otherwise.
   */
  ghost predicate PlannedAt(docs: seq<Document>, cfg: Config, fps: seq<nat>, logs: seq<seq<Addition>>, k: nat)
    requires k < |docs| == |fps| == |logs|
  {
    && fps[k] == Simhash.Simhash(docs[k].tokens, cfg.hash, HashBits)
    && logs[k] == if UniqueIn(Table(fps, k), fps[k], cfg.simhashThreshold) then DocAdditions(docs[k], k, cfg) else []
  }

  /** The duplicate test the loop makes against its table decides what each document adds. */
  lemma DocLogsByTable(docs: seq<Document>, cfg: Config)
    ensures forall k :: 0 <= k < |docs| ==> PlannedAt(docs, cfg, Fingerprints(docs, cfg), DocLogs(docs, cfg), k)
  {
    var fps := Fingerprints(docs, cfg);
    forall k | 0 <= k < |docs| {
      TableUnique(fps, k, cfg.simhashThreshold);
    }
  }

  /** The loop records document k's fingerprint under its id. */
  lemma TableSnoc(fps: seq<nat>, k: nat)
    requires k < |fps|
    ensures Table(fps, k + 1) == Table(fps, k)[k := fps[k]]
  {
  }

  /** The loop records document k's url under its id. */
  lemma UrlMapStep(docs: seq<Document>, k: nat)
    requires k < |docs|
    ensures UrlMap(docs, k + 1) == UrlMap(docs, k)[k := docs[k].url]
  {
  }

  /** Setting one more batch after a successful run of sets. */
  lemma {:induction false} RunSetsSnoc(s: DbState, flushed: seq<seq<Addition>>, log: seq<Addition>, t: DbState, c: WeightCodec)
    requires RunSets(s, flushed, c) == Ok(t)
    ensures RunSets(s, flushed + [log], c) == SetSpec(t, BatchItems(log), c)
  {
    assert (flushed + [log])[..|flushed|] == flushed;
  }

  // ------------------------------------------------------------ the indexer

  /** helpers/indexer.py:16-205. */
  class Indexer {
    const database: InvertedIndexDatabase
    const cfg: Config
    /** Document id to URL. */
    var urlMap: map<nat, string>
    /** Document id to simhash fingerprint, in id order. */
    var simhashes: Dict<nat, nat>

    ghost predicate Valid()
      reads this, database
    {
      database.Valid() && simhashes.Valid()
    }

    /**
     * helpers/indexer.py:17-38: the database is opened and the maps start
     * empty. Whether `create_index` follows depends on a url map file on
     * disk, so the caller runs CreateIndex.
     */
    constructor (database: InvertedIndexDatabase, cfg: Config)
      requires database.Valid()
      modifies database
      ensures Valid() && this.database == database && this.cfg == cfg
      ensures urlMap == map[] && simhashes == Empty()
      ensures database.handle == Opened
      ensures database.restart ==> database.data == "" && database.index == old(database.index)
      ensures !database.restart ==> database.data == old(database.data) && database.index == IndexOf(database.data)
    {
      this.database := database;
      this.cfg := cfg;
      urlMap := map[];
      simhashes := Empty();
      new;
      database.Open();
    }

    /** helpers/indexer.py:190-195: no stored fingerprint is at least `simhash_threshold` similar. */
    method IsUnique(simhash: nat) returns (unique: bool)
      requires simhashes.Valid()
      ensures unique <==> UniqueIn(simhashes.values, simhash, cfg.simhashThreshold)
    {
      var items := PyDict.Items(simhashes);
      var i := 0;
      while i < |items|
        invariant 0 <= i <= |items|
        invariant forall j :: 0 <= j < i ==> Similarity(simhash, simhashes.values[simhashes.keys[j]], HashBits) < cfg.simhashThreshold
      {
        if Similarity(simhash, items[i].1, HashBits) >= cfg.simhashThreshold {
          return false;
        }
        i := i + 1;
      }
      forall k | k in simhashes.values
        ensures Similarity(simhash, simhashes.values[k], HashBits) < cfg.simhashThreshold
      {
        var j :| 0 <= j < |simhashes.keys| && simhashes.keys[j] == k;
      }
      return true;
    }

    /** helpers/indexer.py:139-140. */
    static method AddCounts(batch: InvertedIndex, items: seq<(string, real)>, id: nat)
      requires batch.Valid()
      modifies batch
      ensures batch.Valid() && batch.log == old(batch.log) + Tagged(items, id)
    {
      ghost var log0 := batch.log;
      ghost var added: seq<Addition> := [];
      for i := 0 to |items|
        invariant batch.Valid() && batch.log == log0 + added
        invariant added == Tagged(items[..i], id)
      {
        batch.Add(items[i].0, id, items[i].1);
        added := added + [(items[i].0, Posting(id, items[i].1))];
        TaggedSnoc(items, i, id);
      }
      assert items[..|items|] == items;
    }

    /**
     * helpers/indexer.py:71-143 for one document: record its url, compute
     * its fingerprint, add its word counts to the batch when it is unique,
     * and record the fingerprint either way.
     */
    method IndexDocument(batch: InvertedIndex, d: Document, id: nat)
      requires Valid() && batch.Valid()
      modifies this, batch
      ensures Valid() && batch.Valid()
      ensures urlMap == old(urlMap)[id := d.url]
      ensures simhashes == Put(old(simhashes), id, Simhash.Simhash(d.tokens, cfg.hash, HashBits))
      ensures batch.log == old(batch.log)
        + if UniqueIn(old(simhashes).values, Simhash.Simhash(d.tokens, cfg.hash, HashBits), cfg.simhashThreshold)
          then DocAdditions(d, id, cfg) else []
    {
      urlMap := urlMap[id := d.url];
      var simhash := GetSimhash(d.tokens, cfg.hash, HashBits);
      var unique := IsUnique(simhash);
      if unique {
        var counts := CountWords(d, cfg);
        WordCountsValid(d, cfg);
        AddCounts(batch, PyDict.Items(counts), id);
      }
      simhashes := Put(simhashes, id, simhash);
    }

    /**
     * helpers/indexer.py:67-69: before the document with this id, a
     * multiple of 10000, the open batch is set into the database and a new
     * batch started.
     */
    method Flush(batch: InvertedIndex, ghost logs: seq<seq<Addition>>, id: nat, ghost s0: DbState)
      returns (r: Result<()>, next: InvertedIndex)
      requires Valid() && batch.Valid() && id < |logs| && id % FlushEvery == 0
      requires batch.log == Cut(logs, id).1
      requires RunSets(s0, Cut(logs, id).0, database.codec) == Ok(database.State())
      modifies database
      ensures Valid() && next.Valid() && fresh(next) && next.log == []
      ensures r.Err? ==> RunSets(s0, Batches(logs), database.codec) == Err(r.error)
      ensures r.Ok? ==> RunSets(s0, Cut(logs, id + 1).0, database.codec) == Ok(database.State())
    {
      CutStep(logs, id);
      RunSetsSnoc(s0, Cut(logs, id).0, batch.log, database.State(), database.codec);
      assert batch.Items() == BatchItems(batch.log);
      r := database.Set(batch);
      if r.Err? {
        FlushErr(s0, logs, id, database.codec);
      }
      next := new InvertedIndex();
    }

    /**
     * helpers/indexer.py:67-143, the body of the corpus loop for the
     * document with this id: the flush when the id is a multiple of 10000,
     * then the document indexed into the open batch. The fingerprints and
     * the additions of every document are given as fps and logs.
     */
    method IngestDocument(batch: InvertedIndex, docs: seq<Document>, id: nat, ghost fps: seq<nat>, ghost logs: seq<seq<Addition>>, ghost s0: DbState)
      returns (r: Result<()>, next: InvertedIndex)
      requires Valid() && batch.Valid() && id < |docs| == |fps| == |logs| && PlannedAt(docs, cfg, fps, logs, id)
      requires batch.log == Cut(logs, id).1
      requires RunSets(s0, Cut(logs, id).0, database.codec) == Ok(database.State())
      requires urlMap == UrlMap(docs, id) && simhashes.values == Table(fps, id)
      modifies this, database, batch
      ensures Valid() && next.Valid() && (next == batch || fresh(next))
      ensures r.Err? ==> RunSets(s0, Batches(logs), database.codec) == Err(r.error)
      ensures r.Ok? ==> next.log == Cut(logs, id + 1).1
      ensures r.Ok? ==> RunSets(s0, Cut(logs, id + 1).0, database.codec) == Ok(database.State())
      ensures r.Ok? ==> urlMap == UrlMap(docs, id + 1) && simhashes.values == Table(fps, id + 1)
    {
      CutStep(logs, id);
      UrlMapStep(docs, id);
      TableSnoc(fps, id);
      next := batch;
      if id % FlushEvery == 0 {
        r, next := Flush(batch, logs, id, s0);
        if r.Err? {
          return;
        }
      }
      IndexDocument(next, docs[id], id);
      r := Ok(());
    }

    /**
     * helpers/indexer.py:60-143, the corpus loop: documents get ids 0, 1, ...
     * in corpus order; before each id that is a multiple of 10000 the open
     * batch is set into the database and a new one started. The first
     * exception ends it. The fingerprints and the additions of every
     * document are given as fps and logs.
     */
    method IndexAll(docs: seq<Document>, ghost fps: seq<nat>, ghost logs: seq<seq<Addition>>, ghost s0: DbState)
      returns (r: Result<()>, batch: InvertedIndex)
      requires Valid() && urlMap == map[] && simhashes == Empty()
      requires database.State() == s0
      requires |docs| == |fps| == |logs| && forall k :: 0 <= k < |docs| ==> PlannedAt(docs, cfg, fps, logs, k)
      modifies this, database
      ensures Valid() && batch.Valid()
      ensures r.Err? ==> RunSets(s0, Batches(logs), database.codec) == Err(r.error)
      ensures r.Ok? ==> batch.log == Cut(logs, |docs|).1
      ensures r.Ok? ==> RunSets(s0, Cut(logs, |docs|).0, database.codec) == Ok(database.State())
      ensures r.Ok? ==> urlMap == UrlMap(docs, |docs|) && simhashes.values == Table(fps, |docs|)
    {
      batch := new InvertedIndex();
      r := Ok(());
      var id := 0;
      while id < |docs|
        invariant 0 <= id <= |docs| && r.Ok?
        invariant Valid() && batch.Valid() && fresh(batch)
        invariant batch.log == Cut(logs, id).1
        invariant RunSets(s0, Cut(logs, id).0, database.codec) == Ok(database.State())
        invariant urlMap == UrlMap(docs, id) && simhashes.values == Table(fps, id)
      {
        r, batch := IngestDocument(batch, docs, id, fps, logs, s0);
        if r.Err? {
          return;
        }
        id := id + 1;
      }
    }

    /**
     * helpers/indexer.py:145-147: the last batch is set into the database
     * and the weights converted to tf-idf.
     */
    method Finish(batch: InvertedIndex, ghost logs: seq<seq<Addition>>, ghost s0: DbState) returns (r: Result<()>)
      requires Valid() && batch.Valid()
      requires batch.log == Cut(logs, |logs|).1
      requires RunSets(s0, Cut(logs, |logs|).0, database.codec) == Ok(database.State())
      modifies database
      ensures Valid()
      ensures var spec := RunAll(s0, logs, database.codec, database.tfIdf);
        && (r.Ok? <==> spec.Ok?)
        && (spec.Err? ==> r == Err(spec.error))
        && (spec.Ok? ==> database.State() == spec.value)
    {
      RunSetsSnoc(s0, Cut(logs, |logs|).0, batch.log, database.State(), database.codec);
      assert batch.Items() == BatchItems(batch.log);
      r := database.Set(batch);
      if r.Ok? {
        r := database.ConvertToTfIdf();
      }
    }

    /**
     * helpers/indexer.py:54-147: `create_index` over a corpus, ending in the
     * state IngestSpec describes, or with the first error raised.
     */
    method CreateIndex(docs: seq<Document>) returns (r: Result<()>)
      requires Valid() && urlMap == map[] && simhashes == Empty()
      modifies this, database
      ensures Valid()
      ensures var spec := IngestSpec(old(database.State()), docs, cfg, database.codec, database.tfIdf);
        && (r.Ok? <==> spec.Ok?)
        && (spec.Err? ==> r == Err(spec.error))
        && (spec.Ok? ==> database.State() == spec.value)
        && (spec.Ok? ==> urlMap == UrlMap(docs, |docs|) && simhashes.values == Table(Fingerprints(docs, cfg), |docs|))
    {
      ghost var s0 := database.State();
      var batch;
      DocLogsByTable(docs, cfg);
      r, batch := IndexAll(docs, Fingerprints(docs, cfg), DocLogs(docs, cfg), s0);
      if r.Ok? {
        r := Finish(batch, DocLogs(docs, cfg), s0);
      }
    }

    /** helpers/indexer.py:197-198. */
    method GetPostings(term: string) returns (r: Result<seq<Posting>>)
      ensures r == GetSpec(database.State(), term, database.codec)
    {
      r := database.Get(term);
    }

    /** helpers/indexer.py:200-201: a KeyError for an id without a url. */
    function GetDoc(id: nat): (r: Result<string>)
      reads this
      ensures id in urlMap <==> r.Ok?
      ensures r.Ok? ==> r.value == urlMap[id]
      ensures r.Err? ==> r.error == UnknownDocument
    {
      if id in urlMap then Ok(urlMap[id]) else Err(UnknownDocument)
    }

    /** helpers/indexer.py:203-205. */
    method Close() returns (r: Result<()>)
      modifies database`handle
      ensures old(database.handle) == Unset ==> r == Err(NotOpen) && database.handle == Unset
      ensures old(database.handle) != Unset ==> r == Ok(()) && database.handle == Closed
    {
      r := database.Close();
    }
  }
}
