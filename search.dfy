/**
 * The query side (helpers/search.py): a query's stemmed tokens are looked up
 * one by one, the postings they return are pooled in a set, the pooled
 * (document, weight) pairs are sorted by weight, heaviest first, and every
 * pair is turned into its document's url.
 */
module Retrieval {
  import opened Results
  import opened Codec
  import opened Database
  import opened Indexing

  // ------------------------------------------------------------------ candidates

  /** What `get` answers for each token, in query order. */
  function Lookups(get: string -> Result<seq<Posting>>, tokens: seq<string>): (answers: seq<Result<seq<Posting>>>)
    ensures |answers| == |tokens|
    ensures forall i :: 0 <= i < |tokens| ==> answers[i] == get(tokens[i])
  {
    seq(|tokens|, i requires 0 <= i < |tokens| => get(tokens[i]))
  }

  /** Looking up two token lists one after the other answers as looking up their concatenation. */
  lemma LookupsConcat(get: string -> Result<seq<Posting>>, a: seq<string>, b: seq<string>)
    ensures Lookups(get, a + b) == Lookups(get, a) + Lookups(get, b)
  {
    var l, r := Lookups(get, a + b), Lookups(get, a) + Lookups(get, b);
    forall i | 0 <= i < |l|
      ensures l[i] == r[i]
    {
      if i < |a| {
        assert (a + b)[i] == a[i];
      } else {
        assert (a + b)[i] == b[i - |a|];
      }
    }
  }

  /** The set `document_ids` holds after the given answers: the union of their postings, or the first error. */
  function Pool(answers: seq<Result<seq<Posting>>>): Result<set<Posting>> {
    if answers == [] then Ok({})
    else
      match Pool(answers[..|answers| - 1])
      case Err(e) => Err(e)
      case Ok(cs) =>
        match answers[|answers| - 1]
        case Err(e) => Err(e)
        case Ok(ps) => Ok(cs + set p | p in ps)
  }

  /** The candidate postings of a query: the pooled answers of its tokens. */
  function Candidates(s: DbState, tokens: seq<string>, c: WeightCodec): Result<set<Posting>> {
    Pool(Lookups(t => GetSpec(s, t, c), tokens))
  }

  /** Answer i succeeded and holds posting p. */
  ghost predicate Yields(answers: seq<Result<seq<Posting>>>, i: int, p: Posting) {
    0 <= i < |answers| && answers[i].Ok? && p in answers[i].value
  }

  /**
   * Pooling succeeds exactly when every answer does, and then holds exactly
   * the postings of the answers: the pairs are pooled as they are, never
   * merged or summed per document.
   */
  lemma {:induction false} PoolUnion(answers: seq<Result<seq<Posting>>>)
    ensures Pool(answers).Ok? <==> forall i :: 0 <= i < |answers| ==> answers[i].Ok?
    ensures Pool(answers).Ok? ==> forall p :: p in Pool(answers).value <==> exists i :: Yields(answers, i, p)
  {
    if answers != [] {
      var init := answers[..|answers| - 1];
      var n := |answers| - 1;
      PoolUnion(init);
      assert forall i :: 0 <= i < n ==> init[i] == answers[i];
      if Pool(answers).Ok? {
        forall p | p in Pool(answers).value
          ensures exists i :: Yields(answers, i, p)
        {
          if p in Pool(init).value {
            var i :| Yields(init, i, p);
            assert Yields(answers, i, p);
          } else {
            assert Yields(answers, n, p);
          }
        }
        forall p | exists i :: Yields(answers, i, p)
          ensures p in Pool(answers).value
        {
          var i :| Yields(answers, i, p);
          if i < n {
            assert Yields(init, i, p);
          }
        }
      }
    }
  }

  /** Once pooling a prefix fails, pooling the whole fails with the same error. */
  lemma {:induction false} PoolPrefixErr(answers: seq<Result<seq<Posting>>>, k: nat)
    requires k <= |answers| && Pool(answers[..k]).Err?
    ensures Pool(answers) == Pool(answers[..k])
    decreases |answers| - k
  {
    if k < |answers| {
      assert answers[..k + 1][..k] == answers[..k];
      PoolPrefixErr(answers, k + 1);
    } else {
      assert answers[..k] == answers;
    }
  }

  /** The error `search` raises is that of the first token whose lookup fails. */
  lemma {:induction false} PoolFirstError(answers: seq<Result<seq<Posting>>>, i: nat)
    requires i < |answers| && answers[i].Err?
    requires forall j :: 0 <= j < i ==> answers[j].Ok?
    ensures Pool(answers) == Err(answers[i].error)
  {
    var prefix := answers[..i];
    PoolUnion(prefix);
    assert forall j :: 0 <= j < i ==> prefix[j].Ok?;
    assert answers[..i + 1][..i] == prefix;
    PoolPrefixErr(answers, i + 1);
  }

  /** An empty answer (a term the index has never seen) adds nothing and removes nothing. */
  lemma {:induction false} PoolSilent(before: seq<Result<seq<Posting>>>, after: seq<Result<seq<Posting>>>)
    ensures Pool(before + [Ok([])] + after) == Pool(before + after)
  {
    if after == [] {
      var answers := before + [Ok([])];
      assert answers[..|answers| - 1] == before;
      var empty: seq<Posting> := [];
      assert answers[|answers| - 1] == Ok(empty);
      assert (set p | p in empty) == {};
      if Pool(before).Ok? {
        var cs := Pool(before).value;
        assert Pool(answers) == Ok(cs + set p | p in empty);
        assert cs + {} == cs;
      }
      assert before + [Ok([])] + after == answers;
      assert before + after == before;
    } else {
      var init := after[..|after| - 1];
      PoolSilent(before, init);
      var longer, shorter := before + [Ok([])] + after, before + after;
      assert longer[..|longer| - 1] == before + [Ok([])] + init;
      assert shorter[..|shorter| - 1] == before + init;
      assert longer[|longer| - 1] == shorter[|shorter| - 1];
    }
  }

  /** A token without postings can be added to or dropped from a query without changing its candidates. */
  lemma SilentToken(s: DbState, before: seq<string>, t: string, after: seq<string>, c: WeightCodec)
    requires GetSpec(s, t, c) == Ok([])
    ensures Candidates(s, before + [t] + after, c) == Candidates(s, before + after, c)
  {
    var get := u => GetSpec(s, u, c);
    LookupsConcat(get, before + [t], after);
    LookupsConcat(get, before, [t]);
    LookupsConcat(get, before, after);
    assert Lookups(get, [t]) == [Ok([])];
    PoolSilent(Lookups(get, before), Lookups(get, after));
  }

  // ------------------------------------------------------------------ ranking

  /** Weights never increase along the sequence. */
  predicate Descending(ps: seq<Posting>) {
    forall i, j :: 0 <= i < j < |ps| ==> ps[i].weight >= ps[j].weight
  }

  /** `ranked` lists every candidate exactly once, heaviest first. */
  ghost predicate Ranking(ranked: seq<Posting>, cands: set<Posting>) {
    multiset(ranked) == multiset(cands) && Descending(ranked)
  }

  /** An element found at two positions of s counts at least twice in its multiset. */
  lemma Twice<T>(s: seq<T>, i: int, j: int)
    requires 0 <= i < j < |s| && s[i] == s[j]
    ensures multiset(s)[s[i]] >= 2
  {
    assert s == s[..j] + s[j..];
    assert s[i] in s[..j];
    assert s[j..][0] == s[j];
  }

  /** A ranking has as many entries as there are candidates, and holds each of them once. */
  lemma RankingCount(ranked: seq<Posting>, cands: set<Posting>)
    requires Ranking(ranked, cands)
    ensures |ranked| == |cands|
    ensures forall p :: p in ranked <==> p in cands
    ensures forall i, j :: 0 <= i < j < |ranked| ==> ranked[i] != ranked[j]
  {
    assert |multiset(ranked)| == |ranked|;
    assert |multiset(cands)| == |cands|;
    forall p
      ensures p in ranked <==> p in cands
    {
      assert p in ranked <==> p in multiset(ranked);
    }
    forall i, j | 0 <= i < j < |ranked|
      ensures ranked[i] != ranked[j]
    {
      if ranked[i] == ranked[j] {
        Twice(ranked, i, j);
        assert false;
      }
    }
  }

  /** `list(document_ids)`: some listing of the set; Python's iteration order is left open. */
  method ToList(cands: set<Posting>) returns (list: seq<Posting>)
    ensures multiset(list) == multiset(cands)
  {
    list := [];
    var rest := cands;
    while rest != {}
      invariant multiset(list) + multiset(rest) == multiset(cands)
      decreases |rest|
    {
      var p :| p in rest;
      assert multiset(rest) == multiset(rest - {p}) + multiset{p};
      list := list + [p];
      rest := rest - {p};
    }
  }

  /** Position x of s holds at least the weight of position y. */
  predicate Heavier(s: seq<Posting>, x: int, y: int) {
    0 <= x < |s| && 0 <= y < |s| && s[x].weight >= s[y].weight
  }

  /**
   * The step of the insertion pass: s is b with the lighter b[j - 1] and the
   * heavier b[j] exchanged; the pass's three orderings then hold one place further left.
   */
  lemma SwapStep(b: seq<Posting>, s: seq<Posting>, i: int, j: int)
    requires 0 < j <= i < |b| && b[j - 1].weight < b[j].weight
    requires s == b[j - 1 := b[j]][j := b[j - 1]]
    requires forall x, y :: 0 <= x < y < j ==> Heavier(b, x, y)
    requires forall x, y :: j <= x < y <= i ==> Heavier(b, x, y)
    requires forall x, y :: 0 <= x < j < y <= i ==> Heavier(b, x, y)
    ensures forall x, y :: 0 <= x < y < j - 1 ==> Heavier(s, x, y)
    ensures forall x, y :: j - 1 <= x < y <= i ==> Heavier(s, x, y)
    ensures forall x, y :: 0 <= x < j - 1 < y <= i ==> Heavier(s, x, y)
  {
    forall x, y | 0 <= x < y < j - 1
      ensures Heavier(s, x, y)
    {
      assert Heavier(b, x, y);
    }
    forall x, y | j - 1 <= x < y <= i
      ensures Heavier(s, x, y)
    {
      if x == j - 1 && y > j {
        assert Heavier(b, j, y);
      } else if x == j {
        assert Heavier(b, j - 1, y);
      } else if x > j {
        assert Heavier(b, x, y);
      }
    }
    forall x, y | 0 <= x < j - 1 < y <= i
      ensures Heavier(s, x, y)
    {
      if y == j {
        assert Heavier(b, x, j - 1);
      } else {
        assert Heavier(b, x, y);
      }
    }
  }

  /** The end of the insertion pass: b[j] is no heavier than b[j - 1], so b[..i + 1] is in order. */
  lemma PassDone(b: seq<Posting>, i: int, j: int)
    requires 0 <= j <= i < |b| && (j == 0 || b[j - 1].weight >= b[j].weight)
    requires forall x, y :: 0 <= x < y < j ==> Heavier(b, x, y)
    requires forall x, y :: j <= x < y <= i ==> Heavier(b, x, y)
    requires forall x, y :: 0 <= x < j < y <= i ==> Heavier(b, x, y)
    ensures forall x, y :: 0 <= x < y <= i ==> Heavier(b, x, y)
  {
    forall x, y | 0 <= x < y <= i
      ensures Heavier(b, x, y)
    {
      if y == j && x < j - 1 {
        assert Heavier(b, x, j - 1);
      }
    }
  }

  /** Exchanges a[x] and a[y]. */
  method Swap(a: array<Posting>, x: int, y: int)
    requires 0 <= x < a.Length && 0 <= y < a.Length
    modifies a
    ensures a[..] == old(a[..])[x := old(a[y])][y := old(a[x])]
    ensures multiset(a[..]) == multiset(old(a[..]))
  {
    a[x], a[y] := a[y], a[x];
  }

  /** One pass of the sort: a[i] moves left past every lighter posting. */
  method InsertAt(a: array<Posting>, i: nat)
    requires i < a.Length
    requires forall x, y :: 0 <= x < y < i ==> Heavier(a[..], x, y)
    modifies a
    ensures forall x, y :: 0 <= x < y <= i ==> Heavier(a[..], x, y)
    ensures multiset(a[..]) == multiset(old(a[..]))
  {
    var j := i;
    while j > 0 && a[j - 1].weight < a[j].weight
      invariant 0 <= j <= i
      invariant forall x, y :: 0 <= x < y < j ==> Heavier(a[..], x, y)
      invariant forall x, y :: j <= x < y <= i ==> Heavier(a[..], x, y)
      invariant forall x, y :: 0 <= x < j < y <= i ==> Heavier(a[..], x, y)
      invariant multiset(a[..]) == multiset(old(a[..]))
    {
      ghost var b := a[..];
      Swap(a, j - 1, j);
      SwapStep(b, a[..], i, j);
      j := j - 1;
    }
    PassDone(a[..], i, j);
  }

  /**
   * `document_ids.sort(key=lambda x: x[1], reverse=True)`: the array is
   * rearranged so that weights never increase.
   */
  method SortByWeight(a: array<Posting>)
    modifies a
    ensures Descending(a[..])
    ensures multiset(a[..]) == multiset(old(a[..]))
  {
    for i := 0 to a.Length
      invariant forall x, y :: 0 <= x < y < i ==> Heavier(a[..], x, y)
      invariant multiset(a[..]) == multiset(old(a[..]))
    {
      InsertAt(a, i);
    }
    forall x, y | 0 <= x < y < a.Length
      ensures a[..][x].weight >= a[..][y].weight
    {
      assert Heavier(a[..], x, y);
    }
  }

  /** `list(document_ids)` then the sort: every candidate once, heaviest first. */
  method Rank(cands: set<Posting>) returns (ranked: seq<Posting>)
    ensures Ranking(ranked, cands)
  {
    var list := ToList(cands);
    var a := new Posting[|list|](k requires 0 <= k < |list| => list[k]);
    assert a[..] == list;
    SortByWeight(a);
    ranked := a[..];
  }

  // ------------------------------------------------------------------ search

  /** `Search`: helpers/search.py:7-34, over the stemmed tokens of the query. */
  class Search {
    const indexer: Indexer

    constructor(indexer: Indexer)
      ensures this.indexer == indexer
    {
      this.indexer := indexer;
    }

    /** The loop over the tokens: `document_ids` grows by the union with each token's postings. */
    method Gather(tokens: seq<string>) returns (r: Result<set<Posting>>)
      ensures r == Candidates(indexer.database.State(), tokens, indexer.database.codec)
    {
      ghost var s, c := indexer.database.State(), indexer.database.codec;
      ghost var answers := Lookups(t => GetSpec(s, t, c), tokens);
      var documentIds: set<Posting> := {};
      for i := 0 to |tokens|
        invariant Pool(answers[..i]) == Ok(documentIds)
      {
        var ps := indexer.GetPostings(tokens[i]);
        assert answers[..i + 1][..i] == answers[..i];
        if ps.Err? {
          PoolPrefixErr(answers, i + 1);
          return Err(ps.error);
        }
        documentIds := documentIds + set p | p in ps.value;
      }
      assert answers[..|tokens|] == answers;
      r := Ok(documentIds);
    }

    /** The loop that appends `get_doc` of each ranked posting's document. */
    method Urls(ranked: seq<Posting>) returns (r: Result<seq<string>>)
      ensures r.Ok? <==> forall p :: p in ranked ==> p.doc in indexer.urlMap
      ensures r.Err? ==> r.error == UnknownDocument
      ensures r.Ok? ==> |r.value| == |ranked| && forall k :: 0 <= k < |ranked| ==> r.value[k] == indexer.urlMap[ranked[k].doc]
    {
      var urls: seq<string> := [];
      for k := 0 to |ranked|
        invariant |urls| == k
        invariant forall m :: 0 <= m < k ==> ranked[m].doc in indexer.urlMap && urls[m] == indexer.urlMap[ranked[m].doc]
      {
        var url := indexer.GetDoc(ranked[k].doc);
        if url.Err? {
          return Err(url.error);
        }
        urls := urls + [url.value];
      }
      r := Ok(urls);
    }

    /**
     * `search`: the urls of every candidate posting, heaviest first. A lookup
     * error is raised as it comes; a candidate whose document has no url
     * raises KeyError.
     */
    method Search(tokens: seq<string>) returns (r: Result<seq<string>>)
      ensures tokens == [] ==> r == Ok([])
      ensures var cands := Candidates(indexer.database.State(), tokens, indexer.database.codec);
        && (cands.Err? ==> r == Err(cands.error))
        && (cands.Ok? && (exists p :: p in cands.value && p.doc !in indexer.urlMap) ==> r == Err(UnknownDocument))
        && (cands.Ok? && (forall p :: p in cands.value ==> p.doc in indexer.urlMap) ==>
              r.Ok? && |r.value| == |cands.value| && exists ranked: seq<Posting> ::
                (Ranking(ranked, cands.value) && |ranked| == |r.value|
                 && forall k :: 0 <= k < |ranked| ==> ranked[k].doc in indexer.urlMap && r.value[k] == indexer.urlMap[ranked[k].doc]))
    {
      if tokens == [] {
        return Ok([]);
      }
      var cands := Gather(tokens);
      if cands.Err? {
        return Err(cands.error);
      }
      var ranked := Rank(cands.value);
      RankingCount(ranked, cands.value);
      r := Urls(ranked);
    }
  }
}
