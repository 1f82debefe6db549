/**
 * The text form of a posting list in the postings file: a line
 * `term<>doc,weight|doc,weight|...` (helpers/database.py).
 */
module Codec {
  import opened Results
  import opened Text

  /** One `(document_id, weight)` tuple. */
  datatype Posting = Posting(doc: nat, weight: real)

  /**
   * Python's floats, `str(weight)` and `float(text)`, kept abstract: the
   * model does not fix which reals are floats or how they are printed, only
   * what the storage format needs of them (see Faithful). `isFloat` picks
   * out the reals that are Python floats.
   */
  datatype WeightCodec = WeightCodec(isFloat: real -> bool, show: real -> string, read: string -> Option<real>)

  /** Characters a printed number never contains, and which the line format uses as structure. */
  predicate PlainChar(c: char) {
    !IsSpace(c) && c != ',' && c != '|' && c != '(' && c != ')' && c != '<' && c != '>'
  }

  predicate PlainText(t: string) {
    |t| > 0 && forall i :: 0 <= i < |t| ==> PlainChar(t[i])
  }

  /**
   * For every float w, `float(str(w)) == w` and the printed form is a
   * non-empty run of plain characters; and `float()` only returns floats.
   */
  ghost predicate Faithful(c: WeightCodec) {
    && (forall w :: c.isFloat(w) ==> c.read(c.show(w)) == Some(w) && PlainText(c.show(w)))
    && (forall t, w :: c.read(t) == Some(w) ==> c.isFloat(w))
  }

  /** Every weight of the list is a float. */
  ghost predicate Floats(ps: seq<Posting>, c: WeightCodec) {
    forall i :: 0 <= i < |ps| ==> c.isFloat(ps[i].weight)
  }

  /**
   * A codec that meets Faithful: the non-negative whole numbers, printed and
   * parsed in decimal. It shows that Faithful can be met, so the lemmas that
   * assume it are not vacuous.
   */
  function WholeCodec(): WeightCodec {
    WeightCodec(
      w => 0.0 <= w && w == w.Floor as real,
      w => if 0.0 <= w then NatToString(w.Floor) else "0",
      t => match ParseNat(t) case Some(n) => Some(n as real) case None => None)
  }

  lemma WholeCodecFaithful()
    ensures Faithful(WholeCodec())
  {
    var c := WholeCodec();
    forall w | c.isFloat(w)
      ensures c.read(c.show(w)) == Some(w) && PlainText(c.show(w))
    {
      var n: nat := w.Floor;
      assert c.show(w) == NatToString(n);
      ParseNatToString(n);
    }
    forall t, w | c.read(t) == Some(w)
      ensures c.isFloat(w)
    {
      var n := ParseNat(t).value;
      assert w == n as real;
    }
  }

  // ------------------------------------------------------------- encoding

  /** `.replace("(", "").replace(")", "").replace(" ", "")`. */
  function RemovePunct(s: string): (r: string)
    ensures forall i :: 0 <= i < |r| ==> r[i] != '(' && r[i] != ')' && r[i] != ' '
  {
    if s == [] then []
    else (if s[0] in "() " then [] else [s[0]]) + RemovePunct(s[1..])
  }

  lemma {:induction false} RemovePunctAppend(a: string, b: string)
    ensures RemovePunct(a + b) == RemovePunct(a) + RemovePunct(b)
  {
    if a == [] {
      assert a + b == b;
    } else {
      assert (a + b)[1..] == a[1..] + b;
      RemovePunctAppend(a[1..], b);
    }
  }

  lemma {:induction false} RemovePunctPlain(a: string)
    requires forall i :: 0 <= i < |a| ==> a[i] !in "() "
    ensures RemovePunct(a) == a
  {
    if a != [] {
      RemovePunctPlain(a[1..]);
    }
  }

  /** How `set` writes a new posting: `str((doc, weight))` with parentheses and spaces removed. */
  function TupleText(p: Posting, c: WeightCodec): string {
    RemovePunct("(" + NatToString(p.doc) + ", " + c.show(p.weight) + ")")
  }

  /** How `convert_to_tf_idf` writes a posting: `f"{doc_id},{tf_idf}"`. */
  function FieldText(p: Posting, c: WeightCodec): string {
    NatToString(p.doc) + "," + c.show(p.weight)
  }

  /** With a faithful printer both writers produce the same `doc,weight` text. */
  lemma {:induction false} TupleTextIsFieldText(p: Posting, c: WeightCodec)
    requires Faithful(c) && c.isFloat(p.weight)
    ensures TupleText(p, c) == FieldText(p, c)
  {
    assert PlainText(c.show(p.weight));
    RemovePunctTuple(NatToString(p.doc), c.show(p.weight));
  }

  /** Removing the punctuation of `(d, w)` leaves `d,w` when neither part has any. */
  lemma {:induction false} RemovePunctTuple(d: string, w: string)
    requires forall i :: 0 <= i < |d| ==> d[i] !in "() "
    requires forall i :: 0 <= i < |w| ==> w[i] !in "() "
    ensures RemovePunct("(" + d + ", " + w + ")") == d + "," + w
  {
    RemovePunctPlain(d);
    RemovePunctPlain(w);
    var s1 := "(" + d;
    var s2 := s1 + ", ";
    var s3 := s2 + w;
    RemovePunctAppend("(", d);
    assert RemovePunct("(") == "";
    assert RemovePunct(s1) == d;
    RemovePunctAppend(s1, ", ");
    assert RemovePunct(", ") == ",";
    RemovePunctAppend(s2, w);
    RemovePunctAppend(s3, ")");
    assert RemovePunct(")") == "";
  }

  function TupleTexts(ps: seq<Posting>, c: WeightCodec): (r: seq<string>)
    ensures |r| == |ps| && forall i :: 0 <= i < |ps| ==> r[i] == TupleText(ps[i], c)
  {
    seq(|ps|, i requires 0 <= i < |ps| => TupleText(ps[i], c))
  }

  function FieldTexts(ps: seq<Posting>, c: WeightCodec): (r: seq<string>)
    ensures |r| == |ps| && forall i :: 0 <= i < |ps| ==> r[i] == FieldText(ps[i], c)
  {
    seq(|ps|, i requires 0 <= i < |ps| => FieldText(ps[i], c))
  }

  // ------------------------------------------------------------- decoding

  /** One piece of a stored list: `int(fields[0])` and `float(fields[1])`. */
  function DecodePiece(piece: string, c: WeightCodec): Result<Posting> {
    var fields := Split(piece, ',');
    if |fields| != 2 then Err(BadPosting)
    else
      match (ParseNat(fields[0]), c.read(fields[1]))
      case (Some(d), Some(w)) => Ok(Posting(d, w))
      case _ => Err(BadPosting)
  }

  /** Each piece decoded on its own. */
  function DecodeResults(pieces: seq<string>, c: WeightCodec): (r: seq<Result<Posting>>)
    ensures |r| == |pieces| && forall i :: 0 <= i < |pieces| ==> r[i] == DecodePiece(pieces[i], c)
  {
    seq(|pieces|, i requires 0 <= i < |pieces| => DecodePiece(pieces[i], c))
  }

  /** The pieces decoded in order; the first bad piece fails the whole list. */
  function DecodePieces(pieces: seq<string>, c: WeightCodec): Result<seq<Posting>> {
    Collect(DecodeResults(pieces, c))
  }

  /** What `get` does with the line it read: second field, stripped, split on `|`, each piece decoded. */
  function DecodeLine(line: string, c: WeightCodec): Result<seq<Posting>> {
    match SecondField(line)
    case Err(e) => Err(e)
    case Ok(text) => DecodePieces(Split(Strip(text), '|'), c)
  }

  // ------------------------------------------------------------ round trip

  lemma {:induction false} DecodeFieldText(p: Posting, c: WeightCodec)
    requires Faithful(c) && c.isFloat(p.weight)
    ensures DecodePiece(FieldText(p, c), c) == Ok(p)
  {
    var d, w := NatToString(p.doc), c.show(p.weight);
    assert PlainText(w);
    assert ',' !in d;
    assert ',' !in w;
    SplitNone(d, ',');
    SplitNone(w, ',');
    SplitAround(d, w, ',');
    ParseNatToString(p.doc);
  }

  /** Decoding the `doc,weight` texts of a list gives the list back. */
  lemma {:induction false} DecodeFieldTexts(ps: seq<Posting>, c: WeightCodec)
    requires Faithful(c) && Floats(ps, c)
    ensures DecodePieces(FieldTexts(ps, c), c) == Ok(ps)
  {
    forall i | 0 <= i < |ps| {
      DecodeFieldText(ps[i], c);
    }
    var r := DecodePieces(FieldTexts(ps, c), c);
    assert r.Ok?;
    assert r.value == ps;
  }

  /** Decoding the concatenation of two piece lists decodes each part. */
  lemma {:induction false} DecodePiecesAppend(a: seq<string>, b: seq<string>, c: WeightCodec)
    requires DecodePieces(a, c).Ok? && DecodePieces(b, c).Ok?
    ensures DecodePieces(a + b, c) == Ok(DecodePieces(a, c).value + DecodePieces(b, c).value)
  {
    var va, vb := DecodePieces(a, c).value, DecodePieces(b, c).value;
    forall i | 0 <= i < |a + b|
      ensures DecodePiece((a + b)[i], c) == Ok((va + vb)[i])
    {
      if i < |a| {
        assert DecodePiece(a[i], c) == Ok(va[i]);
      } else {
        assert DecodePiece(b[i - |a|], c) == Ok(vb[i - |a|]);
      }
    }
    var r := DecodePieces(a + b, c);
    assert r.Ok?;
    assert r.value == va + vb;
  }

  /** The texts a faithful printer produces for floats hold no separator, whitespace or delimiter character. */
  lemma {:induction false} FieldTextPlain(p: Posting, c: WeightCodec)
    requires Faithful(c) && c.isFloat(p.weight)
    ensures forall i :: 0 <= i < |FieldText(p, c)| ==> FieldText(p, c)[i] != '|' && !IsSpace(FieldText(p, c)[i]) && FieldText(p, c)[i] != '<' && FieldText(p, c)[i] != '\n'
  {
    assert PlainText(c.show(p.weight));
  }

  /**
   * The round trip of the storage format: a non-empty list written after
   * `key<>` on its own line is read back by get's decoding unchanged.
   */
  lemma {:induction false} EncodeDecodeLine(key: string, ps: seq<Posting>, c: WeightCodec)
    requires Faithful(c) && Floats(ps, c)
    requires FindDelim(key).None?
    requires |ps| > 0
    ensures DecodeLine(key + "<>" + Join(FieldTexts(ps, c), '|') + "\n", c) == Ok(ps)
  {
    var texts := FieldTexts(ps, c);
    var v := Join(texts, '|');
    forall i | 0 <= i < |ps|
      ensures forall k :: 0 <= k < |texts[i]| ==> texts[i][k] != '|' && !IsSpace(texts[i][k]) && texts[i][k] != '<' && texts[i][k] != '\n'
    {
      FieldTextPlain(ps[i], c);
    }
    JoinPlain(texts);
    assert key + "<>" + v + "\n" == key + "<>" + (v + "\n");
    DelimAfterKey(key, v + "\n");
    assert FindDelim(v + "\n").None? by {
      forall j ensures !DelimAt(v + "\n", j) {
        if 0 <= j < |v| {
          assert (v + "\n")[j] == v[j];
        }
      }
    }
    StripNewline(v);
    SplitJoin(texts, '|');
    DecodeFieldTexts(ps, c);
  }

  /** Joined plain texts: non-empty, with no '<', newline or whitespace, and non-space ends. */
  lemma {:induction false} JoinPlain(texts: seq<string>)
    requires |texts| > 0
    requires forall i :: 0 <= i < |texts| ==> |texts[i]| > 0
    requires forall i :: 0 <= i < |texts| ==> forall k :: 0 <= k < |texts[i]| ==> texts[i][k] != '|' && !IsSpace(texts[i][k]) && texts[i][k] != '<' && texts[i][k] != '\n'
    ensures var v := Join(texts, '|'); v != [] && forall k :: 0 <= k < |v| ==> !IsSpace(v[k]) && v[k] != '<' && v[k] != '\n'
  {
    if |texts| > 1 {
      JoinPlain(texts[1..]);
    }
  }
}
