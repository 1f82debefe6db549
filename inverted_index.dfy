/**
 * The in-memory batch index of helpers/inverted_index.py: a dict from each
 * term to the list of `(document_id, weight)` postings added for it.
 */
module BatchIndex {
  import opened Codec
  import opened PyDict

  type Postings = Dict<string, seq<Posting>>

  /** One call `add(term, doc, weight)`. */
  type Addition = (string, Posting)

  /** `index.get(term, list())`. */
  function Lookup(d: Postings, term: string): seq<Posting> {
    if term in d.values then d.values[term] else []
  }

  /** The dict after one `add`: the posting goes to the end of the term's list, created if missing. */
  function AddPosting(d: Postings, term: string, p: Posting): (r: Postings)
    requires d.Valid()
    ensures r.Valid()
  {
    Put(d, term, Lookup(d, term) + [p])
  }

  /** The dict a fresh index holds after a sequence of additions. */
  function FromLog(log: seq<Addition>): (d: Postings)
    ensures d.Valid()
  {
    if log == [] then Empty()
    else AddPosting(FromLog(log[..|log| - 1]), log[|log| - 1].0, log[|log| - 1].1)
  }

  /** The postings added for `term`, in the order they were added. */
  function PostingsFor(log: seq<Addition>, term: string): seq<Posting> {
    if log == [] then []
    else PostingsFor(log[..|log| - 1], term) + (if log[|log| - 1].0 == term then [log[|log| - 1].1] else [])
  }

  /** The distinct terms of the additions, in order of first addition. */
  function TermsInOrder(log: seq<Addition>): seq<string> {
    if log == [] then []
    else
      var ts := TermsInOrder(log[..|log| - 1]);
      if log[|log| - 1].0 in ts then ts else ts + [log[|log| - 1].0]
  }

  // --------------------------------------------------------- one addition

  /**
   * `add(t, d, w)` appends `(d, w)` at the end of t's list, keeps every other
   * term's list, and grows the dict by one key exactly when t is new.
   */
  lemma {:induction false} AddPostingEffect(d: Postings, term: string, p: Posting)
    requires d.Valid()
    ensures Lookup(AddPosting(d, term, p), term) == Lookup(d, term) + [p]
    ensures forall u :: u != term ==> Lookup(AddPosting(d, term, p), u) == Lookup(d, u)
    ensures term !in d.values ==> Lookup(AddPosting(d, term, p), term) == [p]
    ensures |AddPosting(d, term, p).values| == |d.values| + (if term in d.values then 0 else 1)
  {
    var r := AddPosting(d, term, p);
    if term !in d.values {
      assert r.values.Keys == d.values.Keys + {term};
    } else {
      assert r.values.Keys == d.values.Keys;
    }
  }

  // ---------------------------------------------------- many additions

  /** Every list holds exactly the postings added for its term, in order: repeats are kept, nothing is merged. */
  lemma {:induction false} FromLogLookup(log: seq<Addition>, term: string)
    ensures Lookup(FromLog(log), term) == PostingsFor(log, term)
  {
    if log != [] {
      var init := log[..|log| - 1];
      FromLogLookup(init, term);
      AddPostingEffect(FromLog(init), log[|log| - 1].0, log[|log| - 1].1);
    }
  }

  /** The dict's keys are the distinct terms ever added, in order of first addition. */
  lemma {:induction false} FromLogKeys(log: seq<Addition>)
    ensures FromLog(log).keys == TermsInOrder(log)
  {
    if log != [] {
      FromLogKeys(log[..|log| - 1]);
    }
  }

  /** No list in the dict is empty. */
  lemma {:induction false} FromLogNonEmpty(log: seq<Addition>)
    ensures forall t :: t in FromLog(log).values ==> |FromLog(log).values[t]| > 0
  {
    if log != [] {
      FromLogNonEmpty(log[..|log| - 1]);
    }
  }

  class InvertedIndex {
    var index: Postings
    /** Every `add` made so far. */
    ghost var log: seq<Addition>

    ghost predicate Valid()
      reads this
    {
      index == FromLog(log)
    }

    constructor ()
      ensures Valid() && log == []
    {
      index := Empty();
      log := [];
    }

    /** helpers/inverted_index.py:11-15 */
    method Add(term: string, documentId: nat, termFrequency: real)
      requires Valid()
      modifies this
      ensures Valid()
      ensures log == old(log) + [(term, Posting(documentId, termFrequency))]
      ensures index == AddPosting(old(index), term, Posting(documentId, termFrequency))
    {
      if term !in index.values {
        index := Put(index, term, []);
      }
      index := Put(index, term, index.values[term] + [Posting(documentId, termFrequency)]);
      log := log + [(term, Posting(documentId, termFrequency))];
      assert log[..|log| - 1] == old(log);
    }

    /** `get(term)`: every posting added for the term, in order; [] for a term never added. */
    function Get(term: string): (r: seq<Posting>)
      requires Valid()
      reads this
      ensures r == PostingsFor(log, term)
    {
      FromLogLookup(log, term);
      Lookup(index, term)
    }

    /** `items()`: each term once, in order of first addition, with its list. */
    function Items(): (r: seq<(string, seq<Posting>)>)
      requires Valid()
      reads this
      ensures |r| == |TermsInOrder(log)|
      ensures forall i :: 0 <= i < |r| ==> r[i].0 == TermsInOrder(log)[i] && r[i].1 == PostingsFor(log, r[i].0) && |r[i].1| > 0
    {
      FromLogKeys(log);
      FromLogNonEmpty(log);
      forall t ensures Lookup(index, t) == PostingsFor(log, t) {
        FromLogLookup(log, t);
      }
      PyDict.Items(index)
    }

    /** `len(self)`: the number of distinct terms ever added. */
    function Len(): (n: nat)
      requires Valid()
      reads this
      ensures n == |TermsInOrder(log)|
    {
      FromLogKeys(log);
      LenKeys(index);
      |index.values|
    }
  }
}
