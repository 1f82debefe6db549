/**
 * What the operations of helpers/database.py guarantee about the postings
 * file and its offset index, proved on the specification functions of
 * module Database.
 */
module Storage {
  import opened Results
  import opened Text
  import opened PyDict
  import opened Codec
  import opened Database

  predicate NoNewline(s: string) {
    forall i :: 0 <= i < |s| ==> s[i] != '\n'
  }

  /** A line as `readline` returns it from the middle of a file: its one newline is its last character. */
  predicate ProperLine(l: string) {
    |l| > 0 && l[|l| - 1] == '\n' && forall i :: 0 <= i < |l| - 1 ==> l[i] != '\n'
  }

  /** A term `set` can write and read back under its own name: no delimiter and no newline in it. */
  predicate CleanKey(key: string) {
    FindDelim(key).None? && NoNewline(key)
  }

  // ------------------------------------------------------------- reading lines

  lemma {:induction false} LineEndAt(data: string, pos: nat, end: nat)
    requires pos < end <= |data| && data[end - 1] == '\n'
    requires forall i :: pos <= i < end - 1 ==> data[i] != '\n'
    ensures LineEnd(data, pos) == end
    decreases end - pos
  {
    if pos < end - 1 {
      LineEndAt(data, pos + 1, end);
    }
  }

  /** `readline` at the start of a line returns that line. */
  lemma {:induction false} ReadLineAt(pre: string, l: string, post: string)
    requires ProperLine(l)
    ensures ReadLine(pre + l + post, |pre|) == l
  {
    var data := pre + l + post;
    forall i | |pre| <= i < |pre| + |l| - 1
      ensures data[i] != '\n'
    {
      assert data[i] == l[i - |pre|];
    }
    assert data[|pre| + |l| - 1] == l[|l| - 1];
    LineEndAt(data, |pre|, |pre| + |l|);
    assert data[|pre|..|pre| + |l|] == l;
  }

  lemma {:induction false} LineEndInner(data: string, pos: nat)
    requires pos <= |data|
    ensures forall i :: pos <= i < LineEnd(data, pos) - 1 ==> data[i] != '\n'
    decreases |data| - pos
  {
    if pos < |data| && data[pos] != '\n' {
      LineEndInner(data, pos + 1);
    }
  }

  /** Whatever `readline` returns holds a newline at most as its last character. */
  lemma {:induction false} ReadLineInner(data: string, pos: nat)
    ensures var l := ReadLine(data, pos); forall i :: 0 <= i < |l| - 1 ==> l[i] != '\n'
  {
    if pos < |data| {
      LineEndInner(data, pos);
    }
  }

  /** Line k of a file written line by line starts after the lines before it. */
  lemma {:induction false} ReadLineConcat(lines: seq<string>, k: nat)
    requires k < |lines| && ProperLine(lines[k])
    ensures ReadLine(Concat(lines), |Concat(lines[..k])|) == lines[k]
  {
    var pre, post := lines[..k], lines[k + 1..];
    assert lines == (pre + [lines[k]]) + post;
    ConcatAppend(pre + [lines[k]], post);
    assert (pre + [lines[k]])[..k] == pre;
    assert Concat(pre + [lines[k]]) == Concat(pre) + lines[k];
    ReadLineAt(Concat(pre), lines[k], Concat(post));
  }

  // ------------------------------------------------------------ refresh_index

  /**
   * The offset index of a file made of `lines`: each line's key at the sum
   * of the lengths of the lines before it, a later line overriding an
   * earlier one with the same key.
   */
  function LinesIndex(lines: seq<string>): (r: Offsets)
    ensures r.Valid()
  {
    if lines == [] then Empty()
    else Put(LinesIndex(lines[..|lines| - 1]), Key(lines[|lines| - 1]), |Concat(lines[..|lines| - 1])|)
  }

  lemma {:induction false} ScanConcat(done: seq<string>, rest: seq<string>)
    requires forall i :: 0 <= i < |rest| ==> ProperLine(rest[i])
    ensures |Concat(done)| <= |Concat(done + rest)|
    ensures ScanIndex(Concat(done + rest), |Concat(done)|, LinesIndex(done)) == LinesIndex(done + rest)
    decreases |rest|
  {
    ConcatAppend(done, rest);
    if rest == [] {
      assert done + rest == done;
    } else {
      var l := rest[0];
      var next := done + [l];
      assert done + rest == next + rest[1..];
      ConcatAppend(next, rest[1..]);
      assert next[..|next| - 1] == done;
      var data := Concat(done + rest);
      assert data == Concat(done) + l + Concat(rest[1..]);
      ReadLineAt(Concat(done), l, Concat(rest[1..]));
      ScanConcat(next, rest[1..]);
    }
  }

  /** `refresh_index` on a file made of whole lines builds the index of those lines. */
  lemma {:induction false} IndexOfLines(lines: seq<string>)
    requires forall i :: 0 <= i < |lines| ==> ProperLine(lines[i])
    ensures IndexOf(Concat(lines)) == LinesIndex(lines)
  {
    ScanConcat([], lines);
    assert [] + lines == lines;
  }

  /** A key sits at the start of the last line that has it. */
  lemma {:induction false} LinesIndexLast(lines: seq<string>, i: nat)
    requires i < |lines|
    requires forall j :: i < j < |lines| ==> Key(lines[j]) != Key(lines[i])
    ensures Key(lines[i]) in LinesIndex(lines).values
    ensures LinesIndex(lines).values[Key(lines[i])] == |Concat(lines[..i])|
  {
    var init, last := lines[..|lines| - 1], lines[|lines| - 1];
    if i < |init| {
      assert init[i] == lines[i];
      forall j | i < j < |init|
        ensures Key(init[j]) != Key(init[i])
      {
        assert init[j] == lines[j];
      }
      LinesIndexLast(init, i);
      assert init[..i] == lines[..i];
      assert Key(last) != Key(lines[i]);
    } else {
      assert init == lines[..i];
    }
  }

  /** The indexed keys are exactly the keys of the lines. */
  lemma {:induction false} LinesIndexKeys(lines: seq<string>)
    ensures forall k :: k in LinesIndex(lines).values <==> exists i :: 0 <= i < |lines| && Key(lines[i]) == k
  {
    if lines != [] {
      var init := lines[..|lines| - 1];
      LinesIndexKeys(init);
      forall k | k in LinesIndex(lines).values && k != Key(lines[|lines| - 1])
        ensures exists i :: 0 <= i < |lines| && Key(lines[i]) == k
      {
        var i :| 0 <= i < |init| && Key(init[i]) == k;
        assert Key(lines[i]) == k;
      }
      forall k | (exists i :: 0 <= i < |lines| && Key(lines[i]) == k)
        ensures k in LinesIndex(lines).values
      {
        var i :| 0 <= i < |lines| && Key(lines[i]) == k;
        if i < |init| {
          assert Key(init[i]) == k;
        }
      }
    }
  }

  /** The keys of the lines, in order. */
  function KeysOf(lines: seq<string>): (r: seq<string>)
    ensures |r| == |lines| && forall i :: 0 <= i < |lines| ==> r[i] == Key(lines[i])
  {
    seq(|lines|, i requires 0 <= i < |lines| => Key(lines[i]))
  }

  /** With distinct keys the last line's key is not among the earlier lines' keys. */
  lemma LastKeyFresh(lines: seq<string>)
    requires lines != [] && Distinct(KeysOf(lines))
    ensures Key(lines[|lines| - 1]) !in LinesIndex(lines[..|lines| - 1]).values
  {
    LinesIndexKeys(lines[..|lines| - 1]);
    DistinctInit(KeysOf(lines));
  }

  /** With distinct keys the index lists them in file order. */
  lemma {:induction false} LinesIndexOrder(lines: seq<string>)
    requires Distinct(KeysOf(lines))
    ensures LinesIndex(lines).keys == KeysOf(lines)
  {
    if lines != [] {
      var n := |lines| - 1;
      var init, ks := lines[..n], KeysOf(lines);
      assert KeysOf(init) == ks[..n];
      DistinctInit(ks);
      LinesIndexOrder(init);
      LastKeyFresh(lines);
      assert LinesIndex(lines).keys == LinesIndex(init).keys + [Key(lines[n])];
      assert ks == KeysOf(init) + [Key(lines[n])];
    }
  }

  /** Every entry the scan records points at a line of the file that starts with its key. */
  ghost predicate PointsAtKeys(data: string, index: Offsets) {
    forall k :: k in index.values ==> index.values[k] < |data| && Key(ReadLine(data, index.values[k])) == k
  }

  lemma {:induction false} ScanPointsAtKeys(data: string, pos: nat, acc: Offsets)
    requires pos <= |data| && PointsAtKeys(data, acc)
    ensures PointsAtKeys(data, ScanIndex(data, pos, acc))
    decreases |data| - pos
  {
    if pos < |data| {
      var e := LineEnd(data, pos);
      assert ReadLine(data, pos) == data[pos..e];
      ScanPointsAtKeys(data, e, Put(acc, Key(data[pos..e]), pos));
    }
  }

  /** After `refresh_index` every indexed term leads to a line that starts with that term. */
  lemma {:induction false} IndexPointsAtKeys(data: string)
    ensures PointsAtKeys(data, IndexOf(data))
  {
    ScanPointsAtKeys(data, 0, Empty());
  }

  /**
   * A file written as whole lines with distinct terms, once reopened, lists
   * the terms in file order, reads each term back from its own line, and
   * finds nothing for any other term.
   */
  lemma {:induction false} ReadBackLines(ls: seq<string>, c: WeightCodec)
    requires forall i :: 0 <= i < |ls| ==> ProperLine(ls[i])
    requires Distinct(KeysOf(ls))
    ensures var t := Reopened(Concat(ls));
      && t.index.keys == KeysOf(ls)
      && (forall i :: 0 <= i < |ls| ==> GetSpec(t, Key(ls[i]), c) == DecodeLine(ls[i], c))
      && (forall k :: k !in KeysOf(ls) ==> GetSpec(t, k, c) == Ok([]))
  {
    IndexOfLines(ls);
    LinesIndexOrder(ls);
    LinesIndexKeys(ls);
    forall i | 0 <= i < |ls|
      ensures GetSpec(Reopened(Concat(ls)), Key(ls[i]), c) == DecodeLine(ls[i], c)
    {
      ReadBackLine(ls, i, c);
    }
  }

  /** One line of such a file: its term leads back to it. */
  lemma ReadBackLine(ls: seq<string>, i: nat, c: WeightCodec)
    requires forall i :: 0 <= i < |ls| ==> ProperLine(ls[i])
    requires Distinct(KeysOf(ls)) && i < |ls|
    requires Reopened(Concat(ls)).index == LinesIndex(ls)
    ensures GetSpec(Reopened(Concat(ls)), Key(ls[i]), c) == DecodeLine(ls[i], c)
  {
    forall j | i < j < |ls|
      ensures Key(ls[j]) != Key(ls[i])
    {
      DistinctAt(KeysOf(ls), i, j);
    }
    LinesIndexLast(ls, i);
    ReadLineConcat(ls, i);
  }

  // ------------------------------------------------------------ stored text

  /** `strip()` returns a slice of its input that neither starts nor ends with whitespace. */
  lemma {:induction false} StripSlice(v: string)
    ensures var r := Strip(v); var a := |v| - |StripLeft(v)|;
      && a + |r| <= |v| && r == v[a..a + |r|]
      && (r != [] ==> !IsSpace(r[0]) && !IsSpace(r[|r| - 1]))
  {
    var l := StripLeft(v);
    var a := |v| - |l|;
    var r := StripRight(l);
    assert l == v[a..];
    assert v[a..][..|r|] == v[a..a + |r|];
  }

  /** Stripping text whose only newline may be its last character leaves no newline. */
  lemma {:induction false} StripInner(v: string)
    requires forall i :: 0 <= i < |v| - 1 ==> v[i] != '\n'
    ensures NoNewline(Strip(v))
  {
    StripSlice(v);
    var r := Strip(v);
    var a := |v| - |StripLeft(v)|;
    forall i | 0 <= i < |r|
      ensures r[i] != '\n'
    {
      assert r[i] == v[a + i];
      if a + i < |v| - 1 {
        assert v[a + i] != '\n';
      } else {
        assert i == |r| - 1;
      }
    }
  }

  /** Stripping text without the delimiter leaves none. */
  lemma {:induction false} StripNoDelim(v: string)
    requires FindDelim(v).None?
    ensures FindDelim(Strip(v)).None?
  {
    StripSlice(v);
    var a := |v| - |StripLeft(v)|;
    SliceNoDelim(v, a, a + |Strip(v)|);
  }

  /** A slice of text without the delimiter holds no delimiter. */
  lemma {:induction false} SliceNoDelim(v: string, a: nat, b: nat)
    requires a <= b <= |v| && FindDelim(v).None?
    ensures FindDelim(v[a..b]).None?
  {
    var x := v[a..b];
    forall j | 0 <= j
      ensures !DelimAt(x, j)
    {
      if j + 1 < |x| {
        assert x[j] == v[a + j] && x[j + 1] == v[a + j + 1];
        assert !DelimAt(v, a + j);
      }
    }
  }

  /**
   * `line.split("<>")[1]` of a line `readline` returned holds no delimiter,
   * and a newline at most as its last character.
   */
  lemma {:induction false} SecondFieldShape(line: string)
    requires forall i :: 0 <= i < |line| - 1 ==> line[i] != '\n'
    requires SecondField(line).Ok?
    ensures var o := SecondField(line).value;
      FindDelim(o).None? && forall i :: 0 <= i < |o| - 1 ==> o[i] != '\n'
  {
    var d := FindDelim(line).value;
    var rest := line[d + 2..];
    forall i | 0 <= i < |rest|
      ensures rest[i] == line[d + 2 + i]
    {
    }
    if FindDelim(rest).Some? {
      var j := FindDelim(rest).value;
      SliceNoDelimBefore(rest, j);
    }
  }

  /** The text before the first delimiter holds no delimiter. */
  lemma {:induction false} SliceNoDelimBefore(v: string, j: nat)
    requires FindDelim(v) == Some(j)
    ensures FindDelim(v[..j]).None?
  {
    var x := v[..j];
    forall i | 0 <= i
      ensures !DelimAt(x, i)
    {
      if i + 1 < |x| {
        assert x[i] == v[i] && x[i + 1] == v[i + 1];
        assert i < j && !DelimAt(v, i);
      }
    }
  }

  /** The term of a readable stored line is clean: no delimiter, no newline. */
  lemma {:induction false} KeyOfStoredLine(line: string)
    requires forall i :: 0 <= i < |line| - 1 ==> line[i] != '\n'
    requires SecondField(line).Ok?
    ensures CleanKey(Key(line))
  {
    var d := FindDelim(line).value;
    SliceNoDelimBefore(line, d);
  }

  /** A clean term, the delimiter, text without newlines and one newline make a line with that term. */
  lemma {:induction false} LineShape(key: string, v: string)
    requires CleanKey(key) && NoNewline(v)
    ensures ProperLine(key + "<>" + v + "\n")
    ensures Key(key + "<>" + v + "\n") == key
    ensures FindDelim(v + "\n").None? ==> SecondField(key + "<>" + v + "\n") == Ok(v + "\n")
  {
    assert key + "<>" + v + "\n" == key + "<>" + (v + "\n");
    DelimAfterKey(key, v + "\n");
    var l := key + "<>" + v + "\n";
    forall i | 0 <= i < |l| - 1
      ensures l[i] != '\n'
    {
      if i < |key| {
        assert l[i] == key[i];
      } else if i >= |key| + 2 {
        assert l[i] == v[i - |key| - 2];
      }
    }
  }

  // ------------------------------------------------------------------ set

  lemma {:induction false} TupleTextsAreFieldTexts(ps: seq<Posting>, c: WeightCodec)
    requires Faithful(c) && Floats(ps, c)
    ensures TupleTexts(ps, c) == FieldTexts(ps, c)
  {
    forall i | 0 <= i < |ps| {
      TupleTextIsFieldText(ps[i], c);
    }
  }

  /** The joined texts of a non-empty posting list: plain text that splits back into the texts. */
  lemma {:induction false} JoinedFields(ps: seq<Posting>, c: WeightCodec)
    requires Faithful(c) && Floats(ps, c) && |ps| > 0
    ensures var w := Join(FieldTexts(ps, c), '|');
      && w != [] && (forall k :: 0 <= k < |w| ==> !IsSpace(w[k]) && w[k] != '<')
      && Split(w, '|') == FieldTexts(ps, c)
  {
    var texts := FieldTexts(ps, c);
    forall i | 0 <= i < |ps|
      ensures |texts[i]| > 0
      ensures forall k :: 0 <= k < |texts[i]| ==> texts[i][k] != '|' && !IsSpace(texts[i][k]) && texts[i][k] != '<' && texts[i][k] != '\n'
    {
      FieldTextPlain(ps[i], c);
    }
    JoinPlain(texts);
    SplitJoin(texts, '|');
  }

  /** Old text, a bar and plain new text, then a newline: still no delimiter. */
  lemma {:induction false} NoDelimAfterBar(t: string, w: string)
    requires FindDelim(t).None?
    requires forall k :: 0 <= k < |w| ==> w[k] != '<'
    ensures FindDelim(t + "|" + w + "\n").None?
  {
    var x := t + "|" + w + "\n";
    forall j | 0 <= j
      ensures !DelimAt(x, j)
    {
      if j + 1 < |t| {
        assert x[j] == t[j] && x[j + 1] == t[j + 1];
        assert !DelimAt(t, j);
      } else if j + 1 == |t| {
        assert x[j + 1] == '|';
      } else if j == |t| {
        assert x[j] == '|';
      } else if j < |t| + 1 + |w| {
        assert x[j] == w[j - |t| - 1];
      } else if j < |x| {
        assert x[j] == '\n';
      }
    }
  }

  /** The line `set` writes for a term new to the index decodes to the batch's postings. */
  lemma {:induction false} DecodeFreshLine(s: DbState, key: string, ps: seq<Posting>, c: WeightCodec)
    requires Faithful(c) && Floats(ps, c) && |ps| > 0 && CleanKey(key) && key !in s.index.values
    ensures MergedLine(s, key, ps, c).Ok?
    ensures var l := MergedLine(s, key, ps, c).value;
      ProperLine(l) && Key(l) == key && DecodeLine(l, c) == Ok(ps)
  {
    var w := Join(FieldTexts(ps, c), '|');
    TupleTextsAreFieldTexts(ps, c);
    assert MergedLine(s, key, ps, c) == Ok(key + "<>" + w + "\n");
    JoinedFields(ps, c);
    assert NoNewline(w);
    EncodeDecodeLine(key, ps, c);
    LineShape(key, w);
  }

  /** Stripped stored text holds no newline and no delimiter, and does not start with whitespace. */
  lemma {:induction false} StoredText(line: string, t: string)
    requires forall i :: 0 <= i < |line| - 1 ==> line[i] != '\n'
    requires SecondField(line).Ok? && t == Strip(SecondField(line).value)
    ensures NoNewline(t) && FindDelim(t).None? && (t != [] ==> !IsSpace(t[0]))
  {
    SecondFieldShape(line);
    var o := SecondField(line).value;
    StripInner(o);
    StripNoDelim(o);
    StripSlice(o);
  }

  lemma {:induction false} NoNewlineAppend(a: string, b: string)
    requires NoNewline(a) && NoNewline(b)
    ensures NoNewline(a + b)
  {
    forall i | 0 <= i < |a + b|
      ensures (a + b)[i] != '\n'
    {
      if i < |a| {
        assert (a + b)[i] == a[i];
      } else {
        assert (a + b)[i] == b[i - |a|];
      }
    }
  }

  /** Stored text, a bar and new plain text form a line body that reads back as its two parts. */
  lemma {:induction false} MergedBody(key: string, t: string, w: string, texts: seq<string>)
    requires CleanKey(key) && NoNewline(t) && FindDelim(t).None? && (t != [] ==> !IsSpace(t[0]))
    requires w != [] && forall k :: 0 <= k < |w| ==> !IsSpace(w[k]) && w[k] != '<'
    requires Split(w, '|') == texts
    ensures var l := key + "<>" + (t + "|" + w) + "\n";
      && ProperLine(l) && Key(l) == key
      && SecondField(l).Ok? && Split(Strip(SecondField(l).value), '|') == Split(t, '|') + texts
  {
    var v := t + "|" + w;
    assert v[|v| - 1] == w[|w| - 1];
    assert t == [] ==> v[0] == '|';
    assert t != [] ==> v[0] == t[0];
    NoDelimAfterBar(t, w);
    StripNewline(v);
    SplitAround(t, w, '|');
    assert NoNewline(w);
    NoNewlineAppend(t, "|");
    NoNewlineAppend(t + "|", w);
    LineShape(key, v);
  }

  /** The line `set` writes for a term already stored decodes to the old postings followed by the batch's. */
  lemma {:induction false} DecodeAppendedLine(s: DbState, key: string, ps: seq<Posting>, c: WeightCodec)
    requires Faithful(c) && Floats(ps, c) && |ps| > 0 && CleanKey(key) && key in s.index.values
    requires s.handle == Opened && GetSpec(s, key, c).Ok?
    ensures MergedLine(s, key, ps, c).Ok?
    ensures var l := MergedLine(s, key, ps, c).value;
      ProperLine(l) && Key(l) == key && DecodeLine(l, c) == Ok(GetSpec(s, key, c).value + ps)
  {
    var texts := FieldTexts(ps, c);
    TupleTextsAreFieldTexts(ps, c);
    JoinedFields(ps, c);
    var w := Join(texts, '|');
    var line0 := ReadLine(s.data, s.index.values[key]);
    ReadLineInner(s.data, s.index.values[key]);
    var t := Strip(SecondField(line0).value);
    StoredText(line0, t);
    JoinSplit(t, '|');
    JoinAppend(Split(t, '|'), texts, '|');
    assert Join(Split(t, '|') + texts, '|') == t + "|" + w;
    assert MergedLine(s, key, ps, c) == Ok(key + "<>" + (t + "|" + w) + "\n");
    MergedBody(key, t, w, texts);
    DecodeFieldTexts(ps, c);
    DecodePiecesAppend(Split(t, '|'), texts, c);
  }

  /** The batch terms, in batch order. */
  function BatchKeys(items: seq<(string, seq<Posting>)>): (r: seq<string>)
    ensures |r| == |items| && forall i :: 0 <= i < |items| ==> r[i] == items[i].0
  {
    seq(|items|, i requires 0 <= i < |items| => items[i].0)
  }

  /**
   * What `items()` of a batch index delivers: distinct clean terms, each with
   * a non-empty list. A term holding a carriage return is excluded as well:
   * reading the file in text mode would end a line there.
   */
  predicate CleanBatch(items: seq<(string, seq<Posting>)>) {
    && Distinct(BatchKeys(items))
    && forall i :: 0 <= i < |items| ==> CleanKey(items[i].0) && '\r' !in items[i].0 && |items[i].1| > 0
  }

  /** Every batch weight is a float. */
  ghost predicate FloatBatch(items: seq<(string, seq<Posting>)>, c: WeightCodec) {
    forall i :: 0 <= i < |items| ==> Floats(items[i].1, c)
  }

  /**
   * `set` rewrites the file with one line per batch term, in batch order:
   * a term gets its stored postings followed by the batch's, a new term
   * exactly the batch's, and every stored term missing from the batch is
   * no longer found.
   */
  lemma {:induction false} SetMerges(s: DbState, items: seq<(string, seq<Posting>)>, c: WeightCodec)
    requires Faithful(c) && s.handle == Opened && items != [] && CleanBatch(items) && FloatBatch(items, c)
    requires forall i :: 0 <= i < |items| ==> GetSpec(s, items[i].0, c).Ok?
    ensures SetSpec(s, items, c).Ok?
    ensures var t := SetSpec(s, items, c).value;
      && t.handle == Opened
      && t.index.keys == BatchKeys(items)
      && (forall i :: 0 <= i < |items| ==> GetSpec(t, items[i].0, c) == Ok(GetSpec(s, items[i].0, c).value + items[i].1))
      && (forall k :: k !in BatchKeys(items) ==> GetSpec(t, k, c) == Ok([]))
  {
    var lines := MergedLines(s, items, c);
    forall i | 0 <= i < |items|
      ensures lines[i].Ok? && ProperLine(lines[i].value) && Key(lines[i].value) == items[i].0
      ensures DecodeLine(lines[i].value, c) == Ok(GetSpec(s, items[i].0, c).value + items[i].1)
    {
      if items[i].0 in s.index.values {
        DecodeAppendedLine(s, items[i].0, items[i].1, c);
      } else {
        DecodeFreshLine(s, items[i].0, items[i].1, c);
        assert GetSpec(s, items[i].0, c).value + items[i].1 == items[i].1;
      }
    }
    var ls := Collect(lines).value;
    assert KeysOf(ls) == BatchKeys(items);
    assert SetSpec(s, items, c) == Ok(Reopened(Concat(ls)));
    ReadBackLines(ls, c);
  }

  // ------------------------------------------------------------- convert

  /** Python's arithmetic on floats yields floats: every result of the weighting function is one. */
  ghost predicate FloatValued(tfIdf: (real, nat, nat) -> real, c: WeightCodec) {
    forall tf, df, n :: c.isFloat(tfIdf(tf, df, n))
  }

  /** A stored term whose line decodes has a clean term and a non-empty posting list. */
  lemma {:induction false} StoredPostings(s: DbState, key: string, c: WeightCodec)
    requires s.handle == Opened && PointsAtKeys(s.data, s.index) && key in s.index.values
    requires GetSpec(s, key, c).Ok?
    ensures CleanKey(key) && |GetSpec(s, key, c).value| > 0
  {
    var line := ReadLine(s.data, s.index.values[key]);
    ReadLineInner(s.data, s.index.values[key]);
    assert GetSpec(s, key, c) == DecodeLine(line, c);
    KeyOfStoredLine(line);
    var pieces := Split(Strip(SecondField(line).value), '|');
    assert GetSpec(s, key, c) == DecodePieces(pieces, c);
    assert |pieces| >= 1;
  }

  /** The line `convert_to_tf_idf` writes for a stored term reads back as the rewritten list. */
  lemma {:induction false} ConvertedLineShape(s: DbState, key: string, n: nat, c: WeightCodec, tfIdf: (real, nat, nat) -> real, l: string)
    requires Faithful(c) && FloatValued(tfIdf, c) && s.handle == Opened && PointsAtKeys(s.data, s.index) && key in s.index.values
    requires ConvertedLine(s, key, n, c, tfIdf) == Ok(l)
    ensures ProperLine(l) && Key(l) == key && DecodeLine(l, c) == ConvertedPostings(s, key, n, c, tfIdf)
  {
    StoredPostings(s, key, c);
    var qs := ConvertedPostings(s, key, n, c, tfIdf).value;
    assert Floats(qs, c);
    var w := Join(FieldTexts(qs, c), '|');
    assert l == key + "<>" + w + "\n";
    JoinedFields(qs, c);
    assert NoNewline(w);
    EncodeDecodeLine(key, qs, c);
    LineShape(key, w);
  }

  /** Every stored term's line is produced exactly when every stored list reads back with positive weights. */
  lemma {:induction false} ConvertedLinesOk(s: DbState, c: WeightCodec, tfIdf: (real, nat, nat) -> real)
    requires s.index.Valid()
    ensures Collect(ConvertedLines(s, c, tfIdf)).Ok? <==>
      forall k :: k in s.index.values ==> ConvertedPostings(s, k, |s.index.values|, c, tfIdf).Ok?
  {
    var keys, n := s.index.keys, |s.index.values|;
    var lines := ConvertedLines(s, c, tfIdf);
    if Collect(lines).Ok? {
      forall k | k in s.index.values
        ensures ConvertedPostings(s, k, n, c, tfIdf).Ok?
      {
        var i :| 0 <= i < |keys| && keys[i] == k;
        assert lines[i].Ok?;
      }
    } else {
      var i :| 0 <= i < |lines| && lines[i].Err?;
      assert keys[i] in s.index.values;
    }
  }

  /** The produced lines are whole lines, one per stored term in index order, each reading back rewritten. */
  lemma {:induction false} ConvertedLinesShape(s: DbState, c: WeightCodec, tfIdf: (real, nat, nat) -> real, ls: seq<string>)
    requires Faithful(c) && FloatValued(tfIdf, c) && s.handle == Opened && s.index.Valid() && PointsAtKeys(s.data, s.index)
    requires |ls| == |s.index.keys|
    requires forall i :: 0 <= i < |ls| ==> ConvertedLine(s, s.index.keys[i], |s.index.values|, c, tfIdf) == Ok(ls[i])
    ensures KeysOf(ls) == s.index.keys
    ensures forall i :: 0 <= i < |ls| ==> ProperLine(ls[i])
    ensures forall i :: 0 <= i < |ls| ==>
      DecodeLine(ls[i], c) == ConvertedPostings(s, s.index.keys[i], |s.index.values|, c, tfIdf)
  {
    var keys, n := s.index.keys, |s.index.values|;
    forall i | 0 <= i < |ls|
      ensures ProperLine(ls[i]) && Key(ls[i]) == keys[i]
      ensures DecodeLine(ls[i], c) == ConvertedPostings(s, keys[i], n, c, tfIdf)
    {
      ConvertedLineShape(s, keys[i], n, c, tfIdf, ls[i]);
    }
  }

  /** A file of lines for distinct terms reads each term back as its line decodes. */
  lemma {:induction false} ReadBackAs(ls: seq<string>, keys: seq<string>, want: seq<Result<seq<Posting>>>, c: WeightCodec)
    requires KeysOf(ls) == keys && Distinct(keys) && |want| == |ls|
    requires forall i :: 0 <= i < |ls| ==> ProperLine(ls[i])
    requires forall i :: 0 <= i < |ls| ==> DecodeLine(ls[i], c) == want[i]
    ensures var t := Reopened(Concat(ls));
      && t.index.keys == keys
      && (forall i :: 0 <= i < |keys| ==> GetSpec(t, keys[i], c) == want[i])
      && (forall k :: k !in keys ==> GetSpec(t, k, c) == Ok([]))
  {
    ReadBackLines(ls, c);
    assert forall i :: 0 <= i < |keys| ==> Key(ls[i]) == keys[i];
  }

  /** The file rewritten from the produced lines lists the same terms, each reading back rewritten. */
  lemma {:induction false} ConvertedState(s: DbState, c: WeightCodec, tfIdf: (real, nat, nat) -> real, ls: seq<string>)
    requires Faithful(c) && FloatValued(tfIdf, c) && s.handle == Opened && s.index.Valid() && PointsAtKeys(s.data, s.index)
    requires |ls| == |s.index.keys|
    requires forall i :: 0 <= i < |ls| ==> ConvertedLine(s, s.index.keys[i], |s.index.values|, c, tfIdf) == Ok(ls[i])
    ensures var t, keys := Reopened(Concat(ls)), s.index.keys;
      && t.index.keys == keys
      && (forall i :: 0 <= i < |keys| ==> GetSpec(t, keys[i], c) == ConvertedPostings(s, keys[i], |s.index.values|, c, tfIdf))
      && (forall k :: k !in keys ==> GetSpec(t, k, c) == Ok([]))
  {
    ConvertedLinesShape(s, c, tfIdf, ls);
    var keys, n := s.index.keys, |s.index.values|;
    var want := seq(|ls|, i requires 0 <= i < |ls| => ConvertedPostings(s, keys[i], n, c, tfIdf));
    ReadBackAs(ls, keys, want, c);
  }

  lemma {:induction false} ConvertOk(s: DbState, c: WeightCodec, tfIdf: (real, nat, nat) -> real)
    requires s.handle != Unset && s.index.Valid()
    ensures ConvertSpec(s, c, tfIdf).Ok? <==>
      forall k :: k in s.index.values ==> ConvertedPostings(s, k, |s.index.values|, c, tfIdf).Ok?
  {
    ConvertedLinesOk(s, c, tfIdf);
  }

  lemma {:induction false} ConvertOkState(s: DbState, c: WeightCodec, tfIdf: (real, nat, nat) -> real)
    requires Faithful(c) && FloatValued(tfIdf, c) && s.handle == Opened && s.index.Valid() && PointsAtKeys(s.data, s.index)
    requires ConvertSpec(s, c, tfIdf).Ok?
    ensures var t, keys := ConvertSpec(s, c, tfIdf).value, s.index.keys;
      && t.handle == Opened
      && t.index.keys == keys
      && (forall i :: 0 <= i < |keys| ==> GetSpec(t, keys[i], c) == ConvertedPostings(s, keys[i], |s.index.values|, c, tfIdf))
      && (forall k :: k !in keys ==> GetSpec(t, k, c) == Ok([]))
  {
    var lines := ConvertedLines(s, c, tfIdf);
    var ls := Collect(lines).value;
    assert ConvertSpec(s, c, tfIdf) == Ok(Reopened(Concat(ls)));
    assert |ls| == |lines| == |s.index.keys|;
    assert forall i :: 0 <= i < |ls| ==> lines[i] == Ok(ls[i]);
    ConvertedState(s, c, tfIdf, ls);
  }

  /**
   * `convert_to_tf_idf` succeeds exactly when every stored list reads back
   * and has only positive weights (see TfIdfPostings); it then keeps the
   * terms in index order, and each term now reads back as its list
   * rewritten by the weighting function, with the list's length as
   * document frequency and the number of terms as N.
   */
  lemma {:induction false} ConvertRewrites(s: DbState, c: WeightCodec, tfIdf: (real, nat, nat) -> real)
    requires Faithful(c) && FloatValued(tfIdf, c) && s.handle == Opened && s.index == IndexOf(s.data)
    ensures ConvertSpec(s, c, tfIdf).Ok? <==>
      forall k :: k in s.index.values ==> ConvertedPostings(s, k, |s.index.values|, c, tfIdf).Ok?
    ensures ConvertSpec(s, c, tfIdf).Ok? ==>
      var t, keys := ConvertSpec(s, c, tfIdf).value, s.index.keys;
      && t.handle == Opened
      && t.index.keys == keys
      && (forall i :: 0 <= i < |keys| ==> GetSpec(t, keys[i], c) == ConvertedPostings(s, keys[i], |s.index.values|, c, tfIdf))
      && (forall k :: k !in keys ==> GetSpec(t, k, c) == Ok([]))
  {
    IndexPointsAtKeys(s.data);
    ConvertOk(s, c, tfIdf);
    if ConvertSpec(s, c, tfIdf).Ok? {
      ConvertOkState(s, c, tfIdf);
    }
  }

  // ------------------------------------------------------------- example

  /** Text without '<' holds no delimiter. */
  lemma {:induction false} NoAngleNoDelim(t: string)
    requires forall i :: 0 <= i < |t| ==> t[i] != '<'
    ensures FindDelim(t).None?
  {
    forall j | 0 <= j
      ensures !DelimAt(t, j)
    {
    }
  }

  /** The batch of the usage example: the terms "hello" and "world", in that order, with the same postings. */
  function HelloWorld(ps: seq<Posting>): seq<(string, seq<Posting>)> {
    [("hello", ps), ("world", ps)]
  }

  /** The usage example's batch is a clean batch whenever its lists are non-empty. */
  lemma HelloWorldClean(ps: seq<Posting>)
    requires |ps| > 0
    ensures CleanBatch(HelloWorld(ps))
  {
    NoAngleNoDelim("hello");
    NoAngleNoDelim("world");
    assert BatchKeys(HelloWorld(ps)) == ["hello", "world"];
  }

  /** `set` of a batch with "hello" and "world" appends the batch's postings to both terms. */
  lemma {:induction false} SetHelloWorld(s: DbState, ps: seq<Posting>, c: WeightCodec)
    requires Faithful(c) && Floats(ps, c) && s.handle == Opened && |ps| > 0
    requires GetSpec(s, "hello", c).Ok? && GetSpec(s, "world", c).Ok?
    ensures SetSpec(s, HelloWorld(ps), c).Ok?
    ensures var t := SetSpec(s, HelloWorld(ps), c).value;
      && t.handle == Opened
      && GetSpec(t, "hello", c) == Ok(GetSpec(s, "hello", c).value + ps)
      && GetSpec(t, "world", c) == Ok(GetSpec(s, "world", c).value + ps)
  {
    var b := HelloWorld(ps);
    HelloWorldClean(ps);
    assert b[0].0 == "hello" && b[1].0 == "world";
    SetMerges(s, b, c);
  }

  /** Two sets of the "hello"/"world" batch append both batches' postings to "hello", in order. */
  lemma {:induction false} TwoSets(s: DbState, ps1: seq<Posting>, ps2: seq<Posting>, c: WeightCodec)
    requires Faithful(c) && Floats(ps1, c) && Floats(ps2, c) && s.handle == Opened && |ps1| > 0 && |ps2| > 0
    requires GetSpec(s, "hello", c).Ok? && GetSpec(s, "world", c).Ok?
    ensures SetSpec(s, HelloWorld(ps1), c).Ok?
    ensures var s1 := SetSpec(s, HelloWorld(ps1), c).value;
      && GetSpec(s1, "hello", c) == Ok(GetSpec(s, "hello", c).value + ps1)
      && SetSpec(s1, HelloWorld(ps2), c).Ok?
      && GetSpec(SetSpec(s1, HelloWorld(ps2), c).value, "hello", c) == Ok(GetSpec(s, "hello", c).value + ps1 + ps2)
  {
    SetHelloWorld(s, ps1, c);
    var s1 := SetSpec(s, HelloWorld(ps1), c).value;
    SetHelloWorld(s1, ps2, c);
  }

  /** The store right after `open()` with `restart` finds no term. */
  lemma EmptyStore(s: DbState, c: WeightCodec)
    requires s.handle == Opened && s.index == Empty()
    ensures GetSpec(s, "hello", c) == Ok([]) && GetSpec(s, "world", c) == Ok([])
  {
  }

  /**
   * The usage example at the end of helpers/database.py: on the store right
   * after `open()` with `restart`, two batches with documents 1, 2 and then
   * 3, 4 for "hello" and "world" are set; `get("hello")` then returns the
   * first two postings, and after the second batch all four in order.
   */
  lemma {:induction false} UsageExample(s0: DbState, ps1: seq<Posting>, ps2: seq<Posting>, c: WeightCodec)
    requires Faithful(c) && c.isFloat(1.0)
    requires s0.handle == Opened && s0.data == "" && s0.index == Empty()
    requires ps1 == [Posting(1, 1.0), Posting(2, 1.0)] && ps2 == [Posting(3, 1.0), Posting(4, 1.0)]
    ensures SetSpec(s0, HelloWorld(ps1), c).Ok?
    ensures var s1 := SetSpec(s0, HelloWorld(ps1), c).value;
      && GetSpec(s1, "hello", c) == Ok(ps1)
      && SetSpec(s1, HelloWorld(ps2), c).Ok?
      && GetSpec(SetSpec(s1, HelloWorld(ps2), c).value, "hello", c) == Ok(ps1 + ps2)
  {
    assert Floats(ps1, c) && Floats(ps2, c);
    EmptyStore(s0, c);
    TwoSets(s0, ps1, ps2, c);
    assert [] + ps1 == ps1;
  }
}
