/**
 * The on-disk postings store of helpers/database.py. The postings file is
 * its text (`data`); file positions are positions in that text. The offset
 * index is a dict from each term to the position where the term's line starts.
 */
module Database {
  import opened Results
  import opened Text
  import opened PyDict
  import opened Codec
  import opened BatchIndex

  /**
   * The `self.database` attribute: never opened (None), an open file, or a
   * file object that `close()` has closed (close does not reset it to None).
   */
  datatype Handle = Unset | Opened | Closed

  type Offsets = Dict<string, nat>

  /** Everything the operations read: the handle, the file text and the offset index. */
  datatype DbState = DbState(handle: Handle, data: string, index: Offsets)

  // ------------------------------------------------------------ the file

  /** Just past the first newline at or after `pos`, or the end of the file. */
  function LineEnd(data: string, pos: nat): (e: nat)
    requires pos <= |data|
    ensures pos <= e <= |data|
    ensures pos < |data| ==> pos < e
    decreases |data| - pos
  {
    if pos == |data| then pos
    else if data[pos] == '\n' then pos + 1
    else LineEnd(data, pos + 1)
  }

  /** `seek(pos)` then `readline()`: the line from `pos` up to and including its newline; "" at the end. */
  function ReadLine(data: string, pos: nat): (line: string)
    ensures line == [] <==> pos >= |data|
  {
    if pos < |data| then data[pos..LineEnd(data, pos)] else ""
  }

  /** What the scan of `refresh_index` adds to `acc` from position `pos` on. */
  function ScanIndex(data: string, pos: nat, acc: Offsets): Offsets
    requires pos <= |data|
    decreases |data| - pos
  {
    if pos == |data| then acc
    else
      var e := LineEnd(data, pos);
      ScanIndex(data, e, Put(acc, Key(data[pos..e]), pos))
  }

  /** The scan keeps the key order of the index in step with its map. */
  lemma {:induction false} ScanValid(data: string, pos: nat, acc: Offsets)
    requires pos <= |data| && acc.Valid()
    ensures ScanIndex(data, pos, acc).Valid()
    decreases |data| - pos
  {
    if pos < |data| {
      var e := LineEnd(data, pos);
      ScanValid(data, e, Put(acc, Key(data[pos..e]), pos));
    }
  }

  /** One step of the scan: the line at `pos` is read and its key recorded at `pos`. */
  lemma ScanAdvance(data: string, pos: nat, acc: Offsets, line: string, next: Offsets)
    requires pos < |data| && line == ReadLine(data, pos) && next == Put(acc, Key(line), pos)
    ensures pos + |line| <= |data| && ScanIndex(data, pos + |line|, next) == ScanIndex(data, pos, acc)
  {
    var e := LineEnd(data, pos);
    assert line == data[pos..e];
    assert ScanIndex(data, pos, acc) == ScanIndex(data, e, Put(acc, Key(data[pos..e]), pos));
  }

  /** The offset index `refresh_index` builds from the file text. */
  function IndexOf(data: string): (r: Offsets)
    ensures r.Valid()
  {
    ScanValid(data, 0, Empty());
    ScanIndex(data, 0, Empty())
  }

  /** The state right after a rewrite: the new file reopened and its index rebuilt. */
  function Reopened(data: string): DbState {
    DbState(Opened, data, IndexOf(data))
  }

  /** The text of a rewrite: its lines one after another, or the first error met producing them. */
  function Written(lines: seq<Result<string>>): Result<string> {
    match Collect(lines)
    case Err(e) => Err(e)
    case Ok(ls) => Ok(Concat(ls))
  }

  // ------------------------------------------------------------------ get

  /** `get(key)`: helpers/database.py:92-115. */
  function GetSpec(s: DbState, key: string, c: WeightCodec): Result<seq<Posting>> {
    if s.handle == Unset then Err(NotOpen)
    else if key !in s.index.values then Ok([])
    else if s.handle == Closed then Err(ClosedFile)
    else DecodeLine(ReadLine(s.data, s.index.values[key]), c)
  }

  // ------------------------------------------------------------------ set

  /** The line `set` writes for one batch term: its stored text then the new postings, or the new postings alone. */
  function MergedLine(s: DbState, key: string, ps: seq<Posting>, c: WeightCodec): Result<string> {
    var valueStr := TupleTexts(ps, c);
    if key !in s.index.values then Ok(key + "<>" + Join(valueStr, '|') + "\n")
    else if s.handle != Opened then Err(ClosedFile)
    else
      match SecondField(ReadLine(s.data, s.index.values[key]))
      case Err(e) => Err(e)
      case Ok(oldValue) => Ok(key + "<>" + Join(Split(Strip(oldValue), '|') + valueStr, '|') + "\n")
  }

  function MergedLines(s: DbState, items: seq<(string, seq<Posting>)>, c: WeightCodec): (r: seq<Result<string>>)
    ensures |r| == |items| && forall i :: 0 <= i < |items| ==> r[i] == MergedLine(s, items[i].0, items[i].1, c)
  {
    seq(|items|, i requires 0 <= i < |items| => MergedLine(s, items[i].0, items[i].1, c))
  }

  /** `set(batch)`: helpers/database.py:58-90; `items` is the batch's `items()`. */
  function SetSpec(s: DbState, items: seq<(string, seq<Posting>)>, c: WeightCodec): Result<DbState> {
    if s.handle == Unset then Err(NotOpen)
    else if items == [] then Ok(s)
    else
      match Written(MergedLines(s, items, c))
      case Err(e) => Err(e)
      case Ok(text) => Ok(Reopened(text))
  }

  // ---------------------------------------------------------------- tf-idf

  /** `calculate_tf_idf(tf, df, n)` for one posting; the logarithm of a non-positive term frequency raises. */
  function TfIdfOne(p: Posting, df: nat, n: nat, tfIdf: (real, nat, nat) -> real): Result<Posting> {
    if p.weight <= 0.0 then Err(MathDomain) else Ok(Posting(p.doc, tfIdf(p.weight, df, n)))
  }

  function TfIdfResults(ps: seq<Posting>, n: nat, tfIdf: (real, nat, nat) -> real): (r: seq<Result<Posting>>)
    ensures |r| == |ps| && forall i :: 0 <= i < |ps| ==> r[i] == TfIdfOne(ps[i], |ps|, n, tfIdf)
  {
    seq(|ps|, i requires 0 <= i < |ps| => TfIdfOne(ps[i], |ps|, n, tfIdf))
  }

  /** Every posting of a list rewritten in order, with the list's length as document frequency. */
  function TfIdfPostings(ps: seq<Posting>, n: nat, tfIdf: (real, nat, nat) -> real): (r: Result<seq<Posting>>)
    ensures r.Ok? <==> forall i :: 0 <= i < |ps| ==> ps[i].weight > 0.0
    ensures r.Err? ==> r.error == MathDomain
    ensures r.Ok? ==> |r.value| == |ps| && forall i :: 0 <= i < |ps| ==> r.value[i] == Posting(ps[i].doc, tfIdf(ps[i].weight, |ps|, n))
  {
    Collect(TfIdfResults(ps, n, tfIdf))
  }

  /** The line `convert_to_tf_idf` writes: `key<>doc,weight|...|doc,weight`. */
  function FieldLine(key: string, ps: seq<Posting>, c: WeightCodec): string {
    key + "<>" + Join(FieldTexts(ps, c), '|') + "\n"
  }

  /** `data = self.get(key)` followed by the rewriting loop over `data`. */
  function ConvertedPostings(s: DbState, key: string, n: nat, c: WeightCodec, tfIdf: (real, nat, nat) -> real): Result<seq<Posting>> {
    match GetSpec(s, key, c)
    case Err(e) => Err(e)
    case Ok(ps) => TfIdfPostings(ps, n, tfIdf)
  }

  /** The line `convert_to_tf_idf` writes for one indexed term. */
  function ConvertedLine(s: DbState, key: string, n: nat, c: WeightCodec, tfIdf: (real, nat, nat) -> real): Result<string> {
    match ConvertedPostings(s, key, n, c, tfIdf)
    case Err(e) => Err(e)
    case Ok(qs) => Ok(FieldLine(key, qs, c))
  }

  function ConvertedLines(s: DbState, c: WeightCodec, tfIdf: (real, nat, nat) -> real): (r: seq<Result<string>>)
    ensures |r| == |s.index.keys|
    ensures forall i :: 0 <= i < |r| ==> r[i] == ConvertedLine(s, s.index.keys[i], |s.index.values|, c, tfIdf)
  {
    var keys := s.index.keys;
    seq(|keys|, i requires 0 <= i < |keys| => ConvertedLine(s, keys[i], |s.index.values|, c, tfIdf))
  }

  /** `convert_to_tf_idf()`: helpers/database.py:120-146. N is the number of indexed terms. */
  function ConvertSpec(s: DbState, c: WeightCodec, tfIdf: (real, nat, nat) -> real): Result<DbState> {
    if s.handle == Unset then Err(NotOpen)
    else
      match Written(ConvertedLines(s, c, tfIdf))
      case Err(e) => Err(e)
      case Ok(text) => Ok(Reopened(text))
  }

  // ------------------------------------------------------- the loops

  /** Scanning on from `pos` with `offsets` recorded so far ends in the index `goal`. */
  ghost predicate Reaches(text: string, pos: nat, offsets: Offsets, goal: Offsets) {
    pos <= |text| && ScanIndex(text, pos, offsets) == goal
  }

  /** One round of the loop of `refresh_index`: read the line at `pos`, leaving the file at `after`, and,
      unless the file has ended, record the line's key at `pos`; the scan still to come ends in the same
      index `goal`. */
  method ScanLine(text: string, pos: nat, offsets: Offsets, ghost goal: Offsets)
    returns (line: string, after: nat, next: Offsets)
    requires Reaches(text, pos, offsets, goal)
    ensures line == ReadLine(text, pos) && after == pos + |line|
    ensures line == [] ==> pos == |text| && offsets == goal
    ensures line != [] ==> pos < after && Reaches(text, after, next, goal)
  {
    line := ReadLine(text, pos);
    after := pos + |line|;
    next := offsets;
    if line != [] {
      var key := Key(line);
      next := Put(offsets, key, pos);
      ScanAdvance(text, pos, offsets, line, next);
    }
  }

  /** The loop of `refresh_index`: read line after line, recording where each key's line starts. */
  method ScanFile(text: string) returns (offsets: Offsets)
    ensures offsets == IndexOf(text)
  {
    var pos := 0;
    offsets := Empty();
    ghost var goal := IndexOf(text);
    while true
      invariant Reaches(text, pos, offsets, goal)
      decreases |text| - pos
    {
      var line, after, next := ScanLine(text, pos, offsets, goal);
      if line == [] {
        break;
      }
      pos, offsets := after, next;
    }
  }

  /** The decoding loop of `get`: `int` of the first field and `float` of the second, piece by piece. */
  method DecodeList(dataList: seq<string>, c: WeightCodec) returns (r: Result<seq<Posting>>)
    ensures r == DecodePieces(dataList, c)
  {
    ghost var rs := DecodeResults(dataList, c);
    var tuples: seq<Posting> := [];
    var i := 0;
    while i < |dataList|
      invariant 0 <= i <= |dataList|
      invariant Collect(rs[..i]) == Ok(tuples)
    {
      var tempTuple := Split(dataList[i], ',');
      if |tempTuple| != 2 {
        CollectErrStep(rs, i, tuples);
        return Err(BadPosting);
      }
      var docId := ParseNat(tempTuple[0]);
      var weight := c.read(tempTuple[1]);
      if docId.None? || weight.None? {
        CollectErrStep(rs, i, tuples);
        return Err(BadPosting);
      }
      CollectOkStep(rs, i, tuples);
      tuples := tuples + [Posting(docId.value, weight.value)];
      i := i + 1;
    }
    assert rs[..i] == rs;
    return Ok(tuples);
  }

  /** `get(key)` on a given state. */
  method ReadPostings(s: DbState, key: string, c: WeightCodec) returns (r: Result<seq<Posting>>)
    ensures r == GetSpec(s, key, c)
  {
    if s.handle == Unset {
      return Err(NotOpen);
    }
    if key !in s.index.values {
      return Ok([]);
    }
    if s.handle == Closed {
      return Err(ClosedFile);
    }
    var field := SecondField(ReadLine(s.data, s.index.values[key]));
    if field.Err? {
      return Err(field.error);
    }
    var dataList := Split(Strip(field.value), '|');
    r := DecodeList(dataList, c);
  }

  /** The body of `set`'s loop for one batch term. */
  method MergeLine(s: DbState, key: string, value: seq<Posting>, c: WeightCodec) returns (r: Result<string>)
    ensures r == MergedLine(s, key, value, c)
  {
    var valueStr := TupleTexts(value, c);
    var newValue;
    if key in s.index.values {
      if s.handle != Opened {
        return Err(ClosedFile);
      }
      var field := SecondField(ReadLine(s.data, s.index.values[key]));
      if field.Err? {
        return Err(field.error);
      }
      var oldValueList := Split(Strip(field.value), '|');
      newValue := Join(oldValueList + valueStr, '|');
    } else {
      newValue := Join(valueStr, '|');
    }
    return Ok(key + "<>" + newValue + "\n");
  }

  /** The loop of `set`: the temporary file's text, one merged line per batch term in batch order. */
  method MergeBatch(s: DbState, items: seq<(string, seq<Posting>)>, c: WeightCodec) returns (r: Result<string>)
    ensures r == Written(MergedLines(s, items, c))
  {
    ghost var lines := MergedLines(s, items, c);
    ghost var done: seq<string> := [];
    var written := "";
    var i := 0;
    while i < |items|
      invariant 0 <= i <= |items|
      invariant Collect(lines[..i]) == Ok(done) && written == Concat(done)
    {
      var line := MergeLine(s, items[i].0, items[i].1, c);
      WriteStep(lines, i, done, line);
      if line.Err? {
        return Err(line.error);
      }
      done := done + [line.value];
      written := written + line.value;
      i := i + 1;
    }
    assert lines[..i] == lines;
    return Ok(written);
  }

  /** The first loop of `convert_to_tf_idf` for one term: each posting's weight replaced in place. */
  method ApplyTfIdf(ps: seq<Posting>, n: nat, tfIdf: (real, nat, nat) -> real) returns (r: Result<seq<Posting>>)
    ensures r == TfIdfPostings(ps, n, tfIdf)
  {
    ghost var rs := TfIdfResults(ps, n, tfIdf);
    var data := ps;
    var i := 0;
    while i < |data|
      invariant 0 <= i <= |ps| && |data| == |ps|
      invariant Collect(rs[..i]) == Ok(data[..i])
      invariant data[i..] == ps[i..]
    {
      var (docId, tf) := (data[i].doc, data[i].weight);
      if tf <= 0.0 {
        CollectErrStep(rs, i, data[..i]);
        return Err(MathDomain);
      }
      CollectOkStep(rs, i, data[..i]);
      var tfIdfValue := tfIdf(tf, |data|, n);
      assert data[..i] + [Posting(docId, tfIdfValue)] == data[i := Posting(docId, tfIdfValue)][..i + 1];
      data := data[i := Posting(docId, tfIdfValue)];
      i := i + 1;
    }
    assert rs[..i] == rs && data[..i] == data;
    return Ok(data);
  }

  /** What the second loop of `convert_to_tf_idf` has written after `i` postings. */
  function PartialLine(key: string, texts: seq<string>, i: nat): string
    requires i <= |texts|
  {
    key + "<>" + Join(texts[..i], '|') + (if 0 < i < |texts| then "|" else "")
  }

  lemma {:induction false} PartialLineStep(key: string, texts: seq<string>, i: nat)
    requires i < |texts|
    ensures PartialLine(key, texts, i + 1) == PartialLine(key, texts, i) + texts[i] + (if i == |texts| - 1 then "" else "|")
  {
    JoinStep(texts, i);
  }

  /** The second loop of `convert_to_tf_idf` for one term: `key<>`, the postings separated by `|`, a newline. */
  method WriteLine(key: string, data: seq<Posting>, c: WeightCodec) returns (line: string)
    ensures line == FieldLine(key, data, c)
  {
    ghost var texts := FieldTexts(data, c);
    line := key + "<>";
    var i := 0;
    while i < |data|
      invariant 0 <= i <= |data|
      invariant line == PartialLine(key, texts, i)
    {
      PartialLineStep(key, texts, i);
      if i == |data| - 1 {
        line := line + FieldText(data[i], c);
      } else {
        line := line + FieldText(data[i], c) + "|";
      }
      i := i + 1;
    }
    assert texts[..i] == texts;
    line := line + "\n";
  }

  /** One term of `convert_to_tf_idf`: its stored postings read, reweighted and written as a line. */
  method ConvertLine(s: DbState, key: string, n: nat, c: WeightCodec, tfIdf: (real, nat, nat) -> real) returns (r: Result<string>)
    ensures r == ConvertedLine(s, key, n, c, tfIdf)
  {
    var data := ReadPostings(s, key, c);
    if data.Err? {
      return Err(data.error);
    }
    var converted := ApplyTfIdf(data.value, n, tfIdf);
    if converted.Err? {
      return Err(converted.error);
    }
    var line := WriteLine(key, converted.value, c);
    return Ok(line);
  }

  /** The loop of `convert_to_tf_idf`: one rewritten line per indexed term, in index order. */
  method ConvertAll(s: DbState, c: WeightCodec, tfIdf: (real, nat, nat) -> real) returns (r: Result<string>)
    ensures r == Written(ConvertedLines(s, c, tfIdf))
  {
    ghost var lines := ConvertedLines(s, c, tfIdf);
    ghost var done: seq<string> := [];
    var keys := s.index.keys;
    var written := "";
    var k := 0;
    while k < |keys|
      invariant 0 <= k <= |keys|
      invariant Collect(lines[..k]) == Ok(done) && written == Concat(done)
    {
      var line := ConvertLine(s, keys[k], |s.index.values|, c, tfIdf);
      WriteStep(lines, k, done, line);
      if line.Err? {
        return Err(line.error);
      }
      done := done + [line.value];
      written := written + line.value;
      k := k + 1;
    }
    assert lines[..k] == lines;
    return Ok(written);
  }

  /** One round of a rewriting loop: a failing line is the rewrite's error, a produced line extends the text. */
  lemma WriteStep(lines: seq<Result<string>>, i: nat, done: seq<string>, line: Result<string>)
    requires i < |lines| && Collect(lines[..i]) == Ok(done) && lines[i] == line
    ensures line.Err? ==> Written(lines) == Err(line.error)
    ensures line.Ok? ==> Collect(lines[..i + 1]) == Ok(done + [line.value]) && Concat(done + [line.value]) == Concat(done) + line.value
  {
    if line.Err? {
      CollectErrStep(lines, i, done);
    } else {
      CollectOkStep(lines, i, done);
      ConcatSnoc(done, line.value);
    }
  }

  /** Appending one text to a concatenation. */
  lemma {:induction false} ConcatSnoc(parts: seq<string>, p: string)
    ensures Concat(parts + [p]) == Concat(parts) + p
  {
    assert (parts + [p])[..|parts|] == parts;
  }

  /** Joining one more part adds a separator and the part. */
  lemma {:induction false} JoinStep(parts: seq<string>, i: nat)
    requires i < |parts|
    ensures Join(parts[..i + 1], '|') == if i == 0 then parts[0] else Join(parts[..i], '|') + "|" + parts[i]
  {
    if i > 0 {
      JoinAppend(parts[..i], [parts[i]], '|');
      assert parts[..i + 1] == parts[..i] + [parts[i]];
    }
  }

  // ------------------------------------------------------------- the class

  /** A rewrite either succeeds and leaves the new state, or raises and leaves the state as it was. */
  predicate Outcome(res: Result<DbState>, r: Result<()>, before: DbState, after: DbState) {
    && (res.Ok? ==> r == Ok(()) && after == res.value)
    && (res.Err? ==> r == Err(res.error) && after == before)
  }

  class InvertedIndexDatabase {
    var handle: Handle
    var data: string
    var index: Offsets
    const restart: bool
    /** `str(float)` and `float(str)`. */
    const codec: WeightCodec
    /** `calculate_tf_idf(tf, df, N)` on positive term frequencies. */
    const tfIdf: (real, nat, nat) -> real

    ghost predicate Valid()
      reads this
    {
      index.Valid()
    }

    function State(): DbState
      reads this
    {
      DbState(handle, data, index)
    }

    /** helpers/database.py:9-14; `existing` is what the postings file holds on disk. */
    constructor (existing: string, restart: bool, codec: WeightCodec, tfIdf: (real, nat, nat) -> real)
      ensures Valid() && State() == DbState(Unset, existing, Empty())
      ensures this.restart == restart && this.codec == codec && this.tfIdf == tfIdf
    {
      handle := Unset;
      data := existing;
      index := Empty();
      this.restart := restart;
      this.codec := codec;
      this.tfIdf := tfIdf;
    }

    /** helpers/database.py:16-29, without the branch that loads a saved index. */
    method Open()
      requires Valid()
      modifies this
      ensures Valid() && handle == Opened
      ensures restart ==> data == "" && index == old(index)
      ensures !restart ==> data == old(data) && index == IndexOf(data)
    {
      if restart {
        data := "";
        handle := Opened;
      } else {
        handle := Opened;
        var _ := RefreshIndex();
      }
    }

    /** helpers/database.py:31-38, without saving the index. */
    method Close() returns (r: Result<()>)
      modifies this`handle
      ensures old(handle) == Unset ==> r == Err(NotOpen) && handle == Unset
      ensures old(handle) != Unset ==> r == Ok(()) && handle == Closed
    {
      if handle == Unset {
        return Err(NotOpen);
      }
      handle := Closed;
      return Ok(());
    }

    /** helpers/database.py:40-56. On a closed file the index is emptied before the seek fails. */
    method RefreshIndex() returns (r: Result<()>)
      requires Valid()
      modifies this`index
      ensures Valid()
      ensures handle == Unset ==> r == Err(NotOpen) && index == old(index)
      ensures handle == Closed ==> r == Err(ClosedFile) && index == Empty()
      ensures handle == Opened ==> r == Ok(()) && index == IndexOf(data)
    {
      if handle == Unset {
        return Err(NotOpen);
      }
      index := Empty();
      if handle == Closed {
        return Err(ClosedFile);
      }
      index := ScanFile(data);
      return Ok(());
    }

    /**
     * helpers/database.py:58-90. The file is only replaced once every line
     * was produced: on an error the state is left as it was.
     */
    method Set(batch: InvertedIndex?) returns (r: Result<()>)
      requires Valid()
      requires batch != null ==> batch.Valid()
      modifies this
      ensures Valid()
      ensures Outcome(SetSpec(old(State()), if batch == null then [] else batch.Items(), codec), r, old(State()), State())
    {
      if handle == Unset {
        return Err(NotOpen);
      }
      if batch == null || batch.Len() == 0 {
        return Ok(());
      }
      var items := batch.Items();
      var written := MergeBatch(State(), items, codec);
      if written.Err? {
        return Err(written.error);
      }
      data := written.value;
      handle := Opened;
      r := RefreshIndex();
    }

    /** helpers/database.py:92-115. */
    method Get(key: string) returns (r: Result<seq<Posting>>)
      ensures r == GetSpec(State(), key, codec)
    {
      r := ReadPostings(State(), key, codec);
    }

    /** helpers/database.py:120-146. */
    method ConvertToTfIdf() returns (r: Result<()>)
      requires Valid()
      modifies this
      ensures Valid()
      ensures Outcome(ConvertSpec(old(State()), codec, tfIdf), r, old(State()), State())
    {
      if handle == Unset {
        return Err(NotOpen);
      }
      var written := ConvertAll(State(), codec, tfIdf);
      if written.Err? {
        return Err(written.error);
      }
      data := written.value;
      handle := Opened;
      r := RefreshIndex();
    }

    /** helpers/database.py:148-152. */
    function Len(): (r: Result<nat>)
      reads this
      ensures handle == Unset <==> r == Err(NotOpen)
      ensures handle != Unset ==> r == Ok(|index.values|)
    {
      if handle == Unset then Err(NotOpen) else Ok(|index.values|)
    }
  }
}
