/** Option and Result values, and the exceptions the modelled code can raise. */
module Results {

  datatype Option<+T> = None | Some(value: T)

  /** The exceptions raised by the storage engine, the indexer and the search. */
  datatype Error =
    | NotOpen           // Exception("Database is not open."): no file handle was ever opened
    | ClosedFile        // ValueError: I/O on a file handle that close() has closed
    | MissingDelimiter  // IndexError: `line.split("<>")[1]` on a line without "<>"
    | BadPosting        // ValueError from int()/float(), or a piece that is not "doc,weight"
    | MathDomain        // ValueError: math.log10 of a non-positive term frequency
    | UnknownDocument   // KeyError: a document id with no entry in url_map

  datatype Result<+T> = Ok(value: T) | Err(error: Error) {

    predicate IsFailure() {
      Err?
    }

    function PropagateFailure<U>(): Result<U>
      requires Err?
    {
      Err(error)
    }

    function Extract(): T
      requires Ok?
    {
      value
    }
  }

  /**
   * The values of a sequence of results, evaluated in order: the first
   * error stops the evaluation, as a raised exception does.
   */
  function Collect<T>(rs: seq<Result<T>>): (r: Result<seq<T>>)
    ensures r.Ok? <==> forall i :: 0 <= i < |rs| ==> rs[i].Ok?
    ensures r.Ok? ==> |r.value| == |rs| && forall i :: 0 <= i < |rs| ==> rs[i] == Ok(r.value[i])
    ensures r.Err? ==> exists i :: 0 <= i < |rs| && rs[i] == Err(r.error) && forall j :: 0 <= j < i ==> rs[j].Ok?
  {
    if rs == [] then Ok([])
    else
      var init := rs[..|rs| - 1];
      assert forall j :: 0 <= j < |init| ==> init[j] == rs[j];
      match Collect(init)
      case Err(e) => Err(e)
      case Ok(vs) =>
        match rs[|rs| - 1]
        case Err(e) => Err(e)
        case Ok(v) => Ok(vs + [v])
  }

  /** Once a prefix has failed, the whole sequence fails with the same error. */
  lemma {:induction false} CollectPrefixErr<T>(rs: seq<Result<T>>, i: nat)
    requires i <= |rs| && Collect(rs[..i]).Err?
    ensures Collect(rs) == Collect(rs[..i])
  {
    if i < |rs| {
      CollectPrefixErr(rs[..|rs| - 1], i);
      assert rs[..|rs| - 1][..i] == rs[..i];
    } else {
      assert rs[..i] == rs;
    }
  }

  /** Extending a successful prefix by one result. */
  lemma {:induction false} CollectSnoc<T>(rs: seq<Result<T>>, i: nat)
    requires i < |rs| && Collect(rs[..i]).Ok?
    ensures Collect(rs[..i + 1]) == match rs[i] case Err(e) => Err(e) case Ok(v) => Ok(Collect(rs[..i]).value + [v])
  {
    assert rs[..i + 1][..i] == rs[..i];
  }

  /** A loop over the results keeps `Collect(rs[..i]) == Ok(vs)` while the next result is a value. */
  lemma {:induction false} CollectOkStep<T>(rs: seq<Result<T>>, i: nat, vs: seq<T>)
    requires i < |rs| && Collect(rs[..i]) == Ok(vs) && rs[i].Ok?
    ensures Collect(rs[..i + 1]) == Ok(vs + [rs[i].value])
  {
    CollectSnoc(rs, i);
  }

  /** The first error met by such a loop is the error of the whole sequence. */
  lemma {:induction false} CollectErrStep<T>(rs: seq<Result<T>>, i: nat, vs: seq<T>)
    requires i < |rs| && Collect(rs[..i]) == Ok(vs) && rs[i].Err?
    ensures Collect(rs) == Err(rs[i].error)
  {
    CollectSnoc(rs, i);
    CollectPrefixErr(rs, i + 1);
  }
}
