# search-engine core in Dafny

This project models the storage, indexing and query core of a small inverted-index search engine. The modelled code is `helpers/inverted_index.py`, `helpers/database.py`, `helpers/indexer.py` and `helpers/search.py`. The project also proves what that code guarantees.

- **`InvertedIndex`** (module `BatchIndex`, `inverted_index.dfy`) is the in-memory batch index.
  - It is a class whose `index` field is a Python-style dict: a map plus its key insertion order (`PyDict.Dict`, `pydict.dfy`).
  - A ghost log of every `add` call specifies it.
- **`InvertedIndexDatabase`** (module `Database`, `database.dfy`) is the on-disk postings store.
  - The postings file is its text. File positions are positions in that text, and `readline` is the text up to and including the next newline.
  - The offset index is a dict from term to line start. The file handle is `Unset`, `Opened` or `Closed`.
  - `refresh_index`, `get`, `set` and `convert_to_tf_idf` are methods with the source's loops. Each is proved equal to a specification function (`IndexOf`, `GetSpec`, `SetSpec`, `ConvertSpec`).
  - Module `Storage` (`storage.dfy`) proves what those functions guarantee:
    - the offset index of a file written line by line;
    - the line-format round trip;
    - `set` appending batch postings after the stored ones and dropping stored terms absent from the batch;
    - `convert_to_tf_idf` reweighting every list in place;
    - the usage example at the end of `helpers/database.py`.
- **Line format and its text helpers.** Module `Codec` (`codec.dfy`) holds the line format `term<>doc,weight|doc,weight|...`. Module `Text` (`text.dfy`) holds the Python string operations the format relies on.
- **`Indexer`** (module `Indexing`, `indexer.dfy`) covers:
  - the weighted word counts with bold, title and header boosts;
  - the duplicate test against earlier fingerprints;
  - the corpus loop, which assigns dense ids, flushes a batch before every id that is a multiple of 10000, makes a final flush, and runs one conversion to tf-idf.

  The simhash fingerprint and the similarity measure are in module `Simhash` (`fingerprint.dfy`).
- **`Search`** (module `Retrieval`, `search.dfy`) takes the stemmed query tokens. It pools the postings of every token in a set, sorts that set by weight with an in-place array insertion sort, and maps each posting to its document's url.
- **Errors.** Exceptions are values of `Results.Result` (`results.dfy`). The first error raised ends the operation, as the exception would.

The store's "Database is not open." guard only fires when no file was ever opened (`self.database is None`). `close()` closes the file but does not reset `self.database`, so an operation after `close()` passes the guard and fails with the closed file's I/O error at its first file access. The model keeps the two apart (`Handle.Unset` with `Error.NotOpen`, `Handle.Closed` with `Error.ClosedFile`).

Python's floats and their text forms are abstract. A `WeightCodec` holds `isFloat` (which reals are floats), `show` (`str(float)`) and `read` (`float(text)`). The round-trip lemmas of the store assume the codec is `Faithful`: `read(show(w)) == w` for every float `w`, `show(w)` is a non-empty run of characters the line format does not use, and `read` only returns floats. They also assume the weights written are floats. `Codec.WholeCodecFaithful` exhibits a codec that meets this, so the assumption is satisfiable.

## Model

| member | source | states |
|---|---|---|
| Results.Collect | helpers/database.py:103-115 | Evaluating results in order succeeds exactly when every one does, and then holds their values in order. Otherwise it fails with the first error, and every result before that error is a value. |
| PyDict.Put | helpers/inverted_index.py:12-13 | `d[k] = v` maps k to v. A new key goes to the end of the key order and an existing key keeps its place. The dict stays well formed. |
| PyDict.LenKeys | helpers/inverted_index.py:26-27 | `len(d)` is the length of the key order. |
| Text.StripLeft | helpers/database.py:76 | The left strip is a suffix of its input that does not start with whitespace. |
| Text.StripRight | helpers/database.py:76 | The right strip is a prefix of its input that does not end with whitespace. |
| Text.StripLeftDropsSpace | helpers/database.py:76 | Everything the left strip drops is whitespace. |
| Text.StripRightDropsSpace | helpers/database.py:76 | Everything the right strip drops is whitespace. |
| Text.Strip | helpers/database.py:76 | `str.strip()` as the right strip of the left strip; Storage.StripSlice proves the result is the input minus its whitespace ends. |
| Text.StripNewline | helpers/database.py:100 | Text without outer whitespace, followed by a newline, strips back to itself. |
| Text.Split | helpers/database.py:102 | `split` on one character yields one more part than the separator occurs, and no part holds the separator. |
| Text.Join | helpers/database.py:79 | `"|".join(parts)`: the parts with one separator between neighbours; Text.JoinSplit and Text.SplitJoin prove it inverse to split. |
| Text.JoinSplit | helpers/database.py:77-79 | Joining the parts of a split gives back the text. |
| Text.SplitAround | helpers/database.py:77-79 | Splitting around one separator splits each side on its own. |
| Text.JoinAppend | helpers/database.py:78-79 | Joining two non-empty part lists puts one separator between the two joins. |
| Text.SplitNone | helpers/database.py:102 | Text without the separator is not cut by split. |
| Text.SplitJoin | helpers/database.py:77-79 | Split undoes join when no part holds the separator. |
| Text.FindDelimFrom | helpers/database.py:55 | Finds the first "<>" at or after a position: the one reported is a delimiter with none before it, and "none" means there is none. |
| Text.DelimAfterKey | helpers/database.py:55 | On a line `key<>rest` with no delimiter in the key, field 0 is the key and field 1 is the text of rest before its first delimiter. |
| Text.Key | helpers/database.py:55 | `line.split("<>")[0]`: the text before the first delimiter, or the whole line without one; Storage.KeyOfStoredLine and Storage.LineShape state what it gives on stored and written lines. |
| Text.SecondField | helpers/database.py:76 | `line.split("<>")[1]`: the text between the first and second delimiter, or to the end; a line without a delimiter raises IndexError (`MissingDelimiter`). Storage.SecondFieldShape states its shape. |
| Text.NatToString | helpers/database.py:136 | `str(n)` of a non-negative integer is a non-empty run of digits. |
| Text.ParseNat | helpers/database.py:111 | `int(s)` succeeds exactly on a non-empty run of digits. |
| Text.ParseNatToString | helpers/database.py:111 | Parsing a printed document id gives the id back. |
| Codec.RemovePunct | helpers/database.py:70 | The result of the three `replace` calls holds no parenthesis and no space. |
| Codec.RemovePunctAppend | helpers/database.py:70 | Removing the punctuation works piece by piece over a concatenation. |
| Codec.RemovePunctPlain | helpers/database.py:70 | Text without parentheses or spaces is unchanged. |
| Codec.WholeCodecFaithful | helpers/database.py:109 | The codec of non-negative whole numbers printed and parsed in decimal is faithful: the round-trip assumption can be met. |
| Codec.TupleText | helpers/database.py:69-72 | How `set` writes a new posting: `str((doc, weight))` with "(", ")" and " " removed. Codec.TupleTextIsFieldText shows it equals `FieldText` for a float weight. |
| Codec.FieldText | helpers/database.py:136-138 | How `convert_to_tf_idf` writes a posting: `f"{doc_id},{tf_idf}"`. Codec.FieldTextPlain shows it holds no bar, whitespace, '<' or newline, and Codec.DecodeFieldText shows it decodes back to the posting. |
| Codec.TupleTextIsFieldText | helpers/database.py:69-72 | With a faithful codec and a float weight, `set`'s `str((doc, w))` without punctuation equals `convert_to_tf_idf`'s `f"{doc},{w}"`. |
| Codec.DecodePiece | helpers/database.py:105-113 | One piece `doc,weight`: `int` of field 0 and `float` of field 1; a piece that does not split into two fields or does not parse raises (`BadPosting`). Codec.DecodeFieldText proves it inverts the writers. |
| Codec.DecodeLine | helpers/database.py:100-115 | `get`'s decoding of a read line: field 1, stripped, split on `|`, each piece decoded, the first bad piece raising. Codec.EncodeDecodeLine proves the round trip. |
| Codec.DecodeFieldText | helpers/database.py:104-113 | With a faithful codec, a written `doc,weight` piece of a float weight decodes to its posting. |
| Codec.DecodeFieldTexts | helpers/database.py:104-115 | With a faithful codec, the pieces written for a list of float weights decode to that list. |
| Codec.DecodePiecesAppend | helpers/database.py:77-78 | Decoding old pieces followed by new pieces gives the old postings followed by the new ones. |
| Codec.FieldTextPlain | helpers/database.py:136 | With a faithful codec, a written piece of a float weight holds no bar, whitespace, '<' or newline. |
| Codec.EncodeDecodeLine | helpers/database.py:81-115 | Round trip: with a faithful codec, a non-empty list of float weights written after `key<>` on its own line decodes back to the same postings. |
| Codec.JoinPlain | helpers/database.py:79 | Joined plain pieces form non-empty text without whitespace, '<' or newline. |
| Database.LineEnd | helpers/database.py:50 | The end of the line at a position lies after it, within the file; a line ends just after a newline. |
| Database.ReadLine | helpers/database.py:50-53 | `readline` returns "" exactly at the end of the file. |
| Database.ScanValid | helpers/database.py:44-56 | The scan keeps the index a well-formed dict. |
| Database.ScanAdvance | helpers/database.py:49-56 | One round of the scan reads a line of the file and records its key at the line's start. The index still to come is unchanged. |
| Database.ScanIndex | helpers/database.py:48-56 | The `refresh_index` loop from a position on: each line's key is recorded at the line's start, a later line overriding an earlier one. Database.ScanValid, Database.ScanAdvance and Storage.ScanConcat state its properties. |
| Database.IndexOf | helpers/database.py:44-56 | The index the scan builds from an empty dict is a well-formed dict. Storage.IndexOfLines, Storage.LinesIndexLast and Storage.LinesIndexKeys state its contents on a file of whole lines. |
| Database.GetSpec | helpers/database.py:92-115 | `get(key)`: "not open" with no handle, [] for an unindexed key, the closed file's error after `close()`, otherwise the line at the key's offset decoded. Storage.ReadBackLines, Storage.SetMerges and Storage.ConvertRewrites state what it returns after a rewrite. |
| Database.MergedLine | helpers/database.py:69-83 | The line `set` writes for one batch term: the stored pieces followed by the new ones for an indexed term, the new ones alone otherwise. Storage.DecodeAppendedLine and Storage.DecodeFreshLine prove what it decodes to. |
| Database.SetSpec | helpers/database.py:58-90 | `set(batch)`: "not open" with no handle, no change for an empty batch, otherwise the file rewritten with one merged line per batch term and re-indexed, or the first error. Storage.SetMerges proves its effect. |
| Database.TfIdfOne | helpers/database.py:117-129 | `calculate_tf_idf(tf, len(data), len(self.index))` for one posting: the log10 domain error for a non-positive tf, otherwise the document with weight `tfIdf(tf, df, N)`. Database.TfIdfPostings states what it gives for a whole list. |
| Database.TfIdfPostings | helpers/database.py:117-130 | Reweighting succeeds exactly when every weight is positive; otherwise it fails with the log10 domain error. On success it keeps length and document ids, and the weight at i is `tfIdf(tf_i, len, N)`. |
| Database.ConvertSpec | helpers/database.py:120-146 | `convert_to_tf_idf()`: "not open" with no handle, otherwise every indexed term's list read, reweighted with N the number of terms and rewritten, or the first error. Storage.ConvertRewrites proves its effect. |
| Database.ScanLine | helpers/database.py:49-56 | One round of the loop returns the line at the position and the position after it. At the end of the file ("") the index is complete; otherwise the key is recorded and the scan still reaches the same index. |
| Database.ScanFile | helpers/database.py:44-56 | The loop of `refresh_index` builds exactly `IndexOf(text)`. |
| Database.DecodeList | helpers/database.py:102-115 | The decoding loop yields the pieces' postings in order, or the first bad piece's error. |
| Database.ReadPostings | helpers/database.py:92-115 | `get` on a given state computes `GetSpec`. |
| Database.MergeLine | helpers/database.py:74-83 | The loop body of `set` computes the merged line of one term. |
| Database.MergeBatch | helpers/database.py:65-83 | The loop of `set` produces the merged lines, one after another, or the first error. |
| Database.ApplyTfIdf | helpers/database.py:127-130 | The in-place reweighting loop computes `TfIdfPostings`. |
| Database.PartialLineStep | helpers/database.py:133-138 | Each round of the writing loop adds the next piece, followed by a bar except after the last piece. |
| Database.WriteLine | helpers/database.py:132-139 | The writing loop produces `key<>`, the pieces joined by bars, and a newline. |
| Database.ConvertLine | helpers/database.py:126-139 | One term of `convert_to_tf_idf`: read, reweighted and written, or the first error. |
| Database.ConvertAll | helpers/database.py:124-139 | The loop of `convert_to_tf_idf` writes one line per indexed term in index order, or fails with the first error. |
| Database.InvertedIndexDatabase.constructor | helpers/database.py:9-14 | The store starts with no handle and an empty index, over the file's existing text. |
| Database.InvertedIndexDatabase.Open | helpers/database.py:16-29 | After `open` the handle is open. With `restart` the file is emptied; otherwise the text is kept and the index is rebuilt from it. |
| Database.InvertedIndexDatabase.Close | helpers/database.py:31-35 | Closing with no handle raises "not open"; otherwise the handle is closed. |
| Database.InvertedIndexDatabase.RefreshIndex | helpers/database.py:40-56 | With no handle it raises and changes nothing. On a closed file the index is emptied and the seek fails. Otherwise the index becomes `IndexOf(data)`. |
| Database.InvertedIndexDatabase.Set | helpers/database.py:58-90 | `set` either reaches `SetSpec`'s new state or raises and leaves the state as it was. |
| Database.InvertedIndexDatabase.Get | helpers/database.py:92-115 | `get` computes `GetSpec`: "not open" with no handle, [] for an unindexed key, otherwise the decoded line. |
| Database.InvertedIndexDatabase.ConvertToTfIdf | helpers/database.py:120-146 | `convert_to_tf_idf` either reaches `ConvertSpec`'s new state or raises and leaves the state as it was. |
| Database.InvertedIndexDatabase.Len | helpers/database.py:148-152 | `len` raises "not open" exactly when there is no handle, and otherwise is the number of indexed terms. |
| Storage.ReadLineAt | helpers/database.py:50 | `readline` at the start of a line returns that line. |
| Storage.ReadLineInner | helpers/database.py:50 | What `readline` returns holds a newline at most as its last character. |
| Storage.ReadLineConcat | helpers/database.py:50-83 | Line k of a file written line by line is read back from the sum of the lengths of the lines before it. |
| Storage.LinesIndex | helpers/database.py:44-56 | The index of a list of lines is a well-formed dict. |
| Storage.ScanConcat | helpers/database.py:48-56 | Scanning the rest of a file of whole lines extends the index of the lines already scanned to the index of all of them. |
| Storage.IndexOfLines | helpers/database.py:44-56 | `refresh_index` on a file of whole lines builds the index of those lines. |
| Storage.LinesIndexLast | helpers/database.py:55-56 | A key maps to the start of the last line that has it: a later duplicate key overrides an earlier one. The start is the sum of the preceding line lengths. |
| Storage.LinesIndexKeys | helpers/database.py:55-56 | The indexed keys are exactly the keys of the lines. |
| Storage.LastKeyFresh | helpers/database.py:55-56 | With distinct keys, the last line's key is not yet indexed by the lines before it. |
| Storage.LinesIndexOrder | helpers/database.py:56 | With distinct keys the index lists them in file order. |
| Storage.ScanPointsAtKeys | helpers/database.py:49-56 | The scan only records positions of lines that start with the recorded key. |
| Storage.IndexPointsAtKeys | helpers/database.py:44-56 | After `refresh_index`, every indexed term leads `get` to a line that starts with that term. |
| Storage.ReadBackLines | helpers/database.py:44-115 | A reopened file of whole lines with distinct terms lists the terms in file order. Each term reads back as its line decodes, and any other term reads back as []. |
| Storage.StripSlice | helpers/database.py:100 | `strip()` returns a slice of its input with no whitespace at either end. |
| Storage.StripInner | helpers/database.py:100 | Stripping a line whose only newline is its last character leaves no newline. |
| Storage.StripNoDelim | helpers/database.py:76 | Stripping text without "<>" leaves none. |
| Storage.SliceNoDelim | helpers/database.py:76 | A slice of text without "<>" holds none. |
| Storage.SecondFieldShape | helpers/database.py:76 | Field 1 of a read line holds no "<>", and a newline at most as its last character. |
| Storage.SliceNoDelimBefore | helpers/database.py:55 | The text before the first "<>" holds none. |
| Storage.KeyOfStoredLine | helpers/database.py:55-76 | The term of a readable stored line holds neither "<>" nor a newline. |
| Storage.LineShape | helpers/database.py:83 | `f"{key}<>{v}\n"` with a clean key and v without newlines is one whole line whose key is `key`. Its field 1 is v and the newline. |
| Storage.TupleTextsAreFieldTexts | helpers/database.py:69-72 | With a faithful codec and float weights, `set`'s texts are the `doc,weight` texts. |
| Storage.JoinedFields | helpers/database.py:79-81 | With a faithful codec, the joined texts of a non-empty list of float weights are plain and split back into the texts. |
| Storage.NoDelimAfterBar | helpers/database.py:79-83 | Appending a bar and plain text adds no "<>". |
| Storage.DecodeFreshLine | helpers/database.py:80-83 | The line `set` writes for a new term is a whole line with that term, and it decodes to exactly the batch's postings. |
| Storage.StoredText | helpers/database.py:76 | Stripped stored text holds no newline and no "<>", and does not start with whitespace. |
| Storage.MergedBody | helpers/database.py:76-83 | Old text, a bar and new text make a line whose field 1 splits into the old pieces followed by the new ones. |
| Storage.DecodeAppendedLine | helpers/database.py:74-83 | The line `set` writes for a stored term decodes to the stored postings followed by the batch's. |
| Storage.SetMerges | helpers/database.py:58-90 | `set` of a clean non-empty batch of float weights, under a faithful codec, succeeds. Afterwards the file lists exactly the batch terms in batch order. Each term reads back as its stored postings followed by the batch's (exactly the batch's for a new term), and every other term, including stored terms absent from the batch, reads back as []. |
| Storage.StoredPostings | helpers/database.py:99-115 | A stored term whose line decodes is clean and has a non-empty list. |
| Storage.ConvertedLineShape | helpers/database.py:132-139 | With a faithful codec and a float-valued weighting function, the line written for a stored term is whole, keyed by the term, and decodes to the reweighted list. |
| Storage.ConvertedLinesOk | helpers/database.py:124-139 | Every line is produced exactly when every stored list reads back and reweights. |
| Storage.ConvertedLinesShape | helpers/database.py:124-139 | The produced lines are whole lines, one per stored term in index order, each decoding to its reweighted list. |
| Storage.ReadBackAs | helpers/database.py:141-146 | A reopened file of lines for distinct terms reads each term back as its line decodes, and anything else as []. |
| Storage.ConvertedState | helpers/database.py:141-146 | The reopened rewritten file lists the same terms in the same order, each reading back reweighted. |
| Storage.ConvertOk | helpers/database.py:120-139 | `convert_to_tf_idf` succeeds exactly when every stored list reads back with positive weights. |
| Storage.ConvertOkState | helpers/database.py:120-146 | After a successful conversion the file is open and keeps the terms in index order. Each term reads back as its list reweighted with df = its length and N = the number of terms. |
| Storage.ConvertRewrites | helpers/database.py:120-146 | With a faithful codec and a float-valued weighting function: both directions of the success condition of `convert_to_tf_idf` on a freshly indexed file, and the terms, order and reweighted lists after it. |
| Storage.HelloWorldClean | helpers/database.py:161-166 | A batch holding "hello" and "world" with the same non-empty list satisfies CleanBatch: distinct terms, none containing "<>", a newline or '\r', each with a non-empty list. |
| Storage.SetHelloWorld | helpers/database.py:168 | `set` of that batch appends its postings to both "hello" and "world". |
| Storage.TwoSets | helpers/database.py:168-181 | Two successive `set`s of such batches both succeed, and `get("hello")` returns its old postings followed by the first batch's, then by both batches' in order. |
| Storage.UsageExample | helpers/database.py:155-181 | For any faithful codec under which 1.0 is a float, on the store right after `open()` with `restart`: both sets of the usage example succeed, and `get("hello")` returns documents 1, 2 after the first and 1, 2, 3, 4 after the second. |
| Simhash.CountSet | helpers/indexer.py:163-170 | The number of tokens whose hash has bit i set is at most the number of tokens. |
| Simhash.GetSimhash | helpers/indexer.py:156-178 | The loops over the counter array compute the fingerprint `Simhash`. |
| Simhash.Simhash | helpers/indexer.py:156-178 | The fingerprint: bit i set when vote i is non-negative. Simhash.SimhashBitVote, Simhash.SimhashBound, Simhash.SimhashEmpty and Simhash.SimhashPermutation state its properties. |
| Simhash.BitBelow | helpers/indexer.py:176 | A number below 2^i has bit i clear. |
| Simhash.BitLow | helpers/indexer.py:176 | Adding a multiple of 2^m keeps the bits below m. |
| Simhash.BitTop | helpers/indexer.py:176 | Below 2^m, adding c·2^m with c a bit sets bit m to c. |
| Simhash.FromVotesBound | helpers/indexer.py:173-176 | The fingerprint of n votes is below 2^n. |
| Simhash.FromVotesBit | helpers/indexer.py:173-176 | Bit i of the fingerprint is set exactly when vote i is not negative. |
| Simhash.VoteCount | helpers/indexer.py:165-170 | A vote is the number of hashes with the bit set minus the number with it clear. |
| Simhash.SimhashBitVote | helpers/indexer.py:160-178 | Bit-vote rule: bit i is set exactly when at least as many token hashes have it set as clear. |
| Simhash.SimhashBound | helpers/indexer.py:160-176 | The fingerprint is below 2^hashbits. |
| Simhash.FromVotesAllSet | helpers/indexer.py:173-176 | With no negative vote every bit is set. |
| Simhash.SimhashEmpty | helpers/indexer.py:160-176 | No tokens give all ones, 2^hashbits − 1. |
| Simhash.VoteAppend | helpers/indexer.py:163-170 | The votes of concatenated token lists add up. |
| Simhash.VotePermutation | helpers/indexer.py:163-170 | Each vote depends only on the multiset of tokens. |
| Simhash.SimhashPermutation | helpers/indexer.py:156-178 | The fingerprint depends only on the multiset of tokens. |
| Simhash.Xor | helpers/indexer.py:188 | `hash1 ^ hash2` on non-negative integers. Simhash.XorBit, Simhash.XorSymmetric, Simhash.XorZero and Simhash.XorBound state its properties. |
| Simhash.XorBit | helpers/indexer.py:188 | Bit i of `a ^ b` is set exactly when a and b differ in bit i. |
| Simhash.XorSymmetric | helpers/indexer.py:188 | `a ^ b == b ^ a`. |
| Simhash.XorZero | helpers/indexer.py:184-188 | `a ^ b == 0` exactly when a == b. |
| Simhash.XorBound | helpers/indexer.py:188 | The xor of two n-bit numbers has n bits. |
| Simhash.Popcount | helpers/indexer.py:188 | `bin(x).count("1")`: the number of one bits. Simhash.PopcountBound and Simhash.PopcountPositive state its properties. |
| Simhash.PopcountBound | helpers/indexer.py:188 | An n-bit number has at most n one bits. |
| Simhash.PopcountPositive | helpers/indexer.py:188 | A non-zero number has a one bit. |
| Simhash.FractionBounds | helpers/indexer.py:188 | A positive count at most n over n lies in (0, 1]. |
| Simhash.SimilaritySymmetric | helpers/indexer.py:180-188 | `similarity(a, b) == similarity(b, a)`. |
| Simhash.Similarity | helpers/indexer.py:180-188 | 1.0 for equal fingerprints, otherwise 1 − popcount(a xor b)/hashbits. Simhash.SimilaritySymmetric and Simhash.SimilarityRange state its properties. |
| Simhash.SimilarityRange | helpers/indexer.py:180-188 | For hashbits-wide fingerprints the similarity lies in [0, 1], and it is 1 exactly for equal fingerprints. |
| Indexing.TimesIsProduct | helpers/indexer.py:93-136 | n additions of a amount to n·a. |
| Indexing.AddAllCount | helpers/indexer.py:92-93 | A counting loop adds its amount once per occurrence of the word, starting from 0 for a word not yet counted. |
| Indexing.AddAllValid | helpers/indexer.py:92-93 | A counting loop keeps the counts a well-formed dict. |
| Indexing.WordCountsValid | helpers/indexer.py:91-136 | The word counts form a well-formed dict. |
| Indexing.WordCounts | helpers/indexer.py:91-136 | The four counting loops in order: text tokens by 1, then bold, title and header words by their weight minus 1. Indexing.WordCountsSum and Indexing.WordCountsKeys state the counts. |
| Indexing.AddAllKeys | helpers/indexer.py:92-93 | A word is counted after the loop exactly when it was counted before or occurs in the loop's words. |
| Indexing.WordCountsSum | helpers/indexer.py:91-136 | A word's count is its occurrences in the text, plus (weight − 1) per occurrence among the bold, title and header words. |
| Indexing.WordCountsKeys | helpers/indexer.py:91-136 | A word is counted exactly when it occurs in the text or the bold, title or header words. |
| Indexing.AddEach | helpers/indexer.py:92-93 | The loop of one counting pass computes `AddAll`. |
| Indexing.CountWords | helpers/indexer.py:91-136 | The four counting loops compute `WordCounts`. |
| Indexing.TaggedShape | helpers/indexer.py:139-140 | One addition per item, in order, with the document's id and the item's count. |
| Indexing.TaggedSnoc | helpers/indexer.py:139-140 | One more item adds one more addition at the end. |
| Indexing.DocAdditions | helpers/indexer.py:139-140 | The `add` calls for a unique document: its word counts tagged with its id. Indexing.DocAdditionsShape states their contents and order. |
| Indexing.DocAdditionsShape | helpers/indexer.py:139-140 | A unique document adds one posting per counted word, in order of first count, with its id and the word's count. |
| Indexing.UniqueIn | helpers/indexer.py:190-195 | `is_unique`: no stored fingerprint reaches the similarity threshold. Indexing.TableUnique and Indexing.Indexer.IsUnique state its properties. |
| Indexing.TableUnique | helpers/indexer.py:190-195 | The test against the table is the test against every earlier document, duplicates included. |
| Indexing.DocLogIds | helpers/indexer.py:139-143 | Every addition of document i carries id i: ids are dense from 0. |
| Indexing.CutPartition | helpers/indexer.py:67-140 | The flushed batches followed by the open batch are the additions so far, in document order. |
| Indexing.Cut | helpers/indexer.py:58-143 | The batches flushed before document k and the batch still open, as the loop forms them. Indexing.CutPartition, Indexing.CutRanges and Indexing.CutGrows state their shape. |
| Indexing.Batches | helpers/indexer.py:58-145 | Every batch `set` receives: the flushed ones, then the final one. Indexing.BatchesPartition and Indexing.BatchesRanges state their shape. |
| Indexing.RunSets | helpers/indexer.py:68-145 | The batches set one after another, stopping at the first error. |
| Indexing.RunAll | helpers/indexer.py:145-147 | Every batch set, then exactly one `convert_to_tf_idf`. |
| Indexing.BatchesPartition | helpers/indexer.py:67-145 | Flushing loses and repeats no addition, and keeps document order. |
| Indexing.CutRanges | helpers/indexer.py:67 | The open batch only holds ids sharing one quotient by 10000, and the flushed batches are numbered by that quotient. |
| Indexing.BatchesRanges | helpers/indexer.py:58-145 | Batch 0 is the empty batch flushed before document 0. Batch b > 0 holds only ids 10000(b − 1) to 10000b − 1. There is one batch per started block of 10000, plus the final one. |
| Indexing.CutGrows | helpers/indexer.py:67-69 | Later flushes only extend the flushed batches. |
| Indexing.RunSetsPrefixErr | helpers/indexer.py:68 | Once a `set` fails, the ingestion fails with its error. |
| Indexing.FlushErr | helpers/indexer.py:67-68 | A failing flush before document k is the outcome of the whole ingestion. |
| Indexing.CutStep | helpers/indexer.py:67-140 | Document k first flushes when k is a multiple of 10000, then adds its postings to the open batch. |
| Indexing.DocLogsByTable | helpers/indexer.py:84-142 | Each document adds its word counts when no earlier fingerprint is similar enough, and nothing otherwise. |
| Indexing.TableSnoc | helpers/indexer.py:142 | The loop records document k's fingerprint under id k. |
| Indexing.UrlMapStep | helpers/indexer.py:74 | The loop records document k's url under id k. |
| Indexing.RunSetsSnoc | helpers/indexer.py:68-145 | One more batch set after successful sets. |
| Indexing.Indexer.constructor | helpers/indexer.py:17-38 | The database is opened, with the behaviour of `open`, and the url and fingerprint maps start empty. |
| Indexing.Indexer.IsUnique | helpers/indexer.py:190-195 | `is_unique` is true exactly when no stored fingerprint has similarity at least the threshold (true for an empty table). |
| Indexing.Indexer.AddCounts | helpers/indexer.py:139-140 | The batch receives one `add` per counted word, in order. |
| Indexing.Indexer.IndexDocument | helpers/indexer.py:71-143 | Records the url and fingerprint under the id. The word counts are added to the batch exactly when the document is unique against the earlier fingerprints. |
| Indexing.Indexer.Flush | helpers/indexer.py:67-69 | Sets the open batch and starts an empty one. An error is the error of the whole ingestion. |
| Indexing.Indexer.IngestDocument | helpers/indexer.py:67-143 | One round of the corpus loop keeps the database, batch, url map and fingerprint table in step with the specification functions (`Cut`, `UrlMap`, `Table`), or returns the ingestion's error. |
| Indexing.Indexer.IndexAll | helpers/indexer.py:58-143 | The corpus loop ends with every flushed batch set, `url_map` holding exactly the ids below the document count, each with its document's url (duplicates included), and `simhashes` each id's fingerprint, or with the first error. |
| Indexing.Indexer.Finish | helpers/indexer.py:145-147 | The final set and the one conversion reach `RunAll`'s state, or its error. |
| Indexing.IngestSpec | helpers/indexer.py:54-147 | The database after `create_index`: each flushed batch set in turn, then one conversion to tf-idf. Indexing.BatchesPartition and Indexing.BatchesRanges state what the batches hold, Indexing.RunSetsPrefixErr and Indexing.FlushErr state how an error decides the outcome, and Indexing.Indexer.CreateIndex is proved against it. |
| Indexing.Indexer.CreateIndex | helpers/indexer.py:54-147 | `create_index` succeeds exactly when `IngestSpec` does, raises its error otherwise, and ends in its state with complete url and fingerprint tables. |
| Indexing.Indexer.GetPostings | helpers/indexer.py:197-198 | `get_postings` is the database's `get`. |
| Indexing.Indexer.GetDoc | helpers/indexer.py:200-201 | `get_doc` returns the url exactly for ids in `url_map`, and raises KeyError otherwise. |
| Indexing.Indexer.Close | helpers/indexer.py:203-205 | Closing raises "not open" when no file was opened; otherwise the handle is closed. |
| BatchIndex.AddPosting | helpers/inverted_index.py:11-15 | Adding keeps the dict well formed. |
| BatchIndex.FromLog | helpers/inverted_index.py:8-15 | A fresh index after any additions is a well-formed dict. |
| BatchIndex.AddPostingEffect | helpers/inverted_index.py:11-27 | `add(t, d, w)` appends `(d, w)` to t's list, creating `[(d, w)]` for a new term, and leaves every other list alone. The length grows by one exactly for a new term. |
| BatchIndex.FromLogLookup | helpers/inverted_index.py:15-18 | Each list holds every posting added for its term, in order: repeats are kept and nothing is merged. |
| BatchIndex.FromLogKeys | helpers/inverted_index.py:12-21 | The keys are the distinct terms added, in order of first addition. |
| BatchIndex.FromLogNonEmpty | helpers/inverted_index.py:12-15 | No list is empty. |
| BatchIndex.InvertedIndex.constructor | helpers/inverted_index.py:8-9 | A new index holds no additions. |
| BatchIndex.InvertedIndex.Add | helpers/inverted_index.py:11-15 | `add` records one addition and updates the dict as `AddPosting` does. |
| BatchIndex.InvertedIndex.Get | helpers/inverted_index.py:17-18 | `get` returns every posting added for the term, in order, and [] for a term never added, without inserting it. |
| BatchIndex.InvertedIndex.Items | helpers/inverted_index.py:20-21 | `items` lists each term once, in order of first addition, with its non-empty list. |
| BatchIndex.InvertedIndex.Len | helpers/inverted_index.py:26-27 | `len` is the number of distinct terms ever added. |
| Retrieval.LookupsConcat | helpers/search.py:21-22 | Looking up two token lists in turn answers as looking up their concatenation. |
| Retrieval.PoolUnion | helpers/search.py:20-22 | Pooling succeeds exactly when every lookup does. The pool then holds exactly the postings of the answers, as (doc, weight) pairs, with no per-document merging or summing. |
| Retrieval.Pool | helpers/search.py:20-22 | The running set union over the answers, stopping at the first error. Retrieval.PoolUnion states what it holds. |
| Retrieval.Candidates | helpers/search.py:20-22 | The pool of the `get` answers of the query tokens, in query order. |
| Retrieval.PoolPrefixErr | helpers/search.py:20-22 | Once a prefix fails, the whole pool fails with the same error. |
| Retrieval.PoolFirstError | helpers/search.py:21-22 | The error raised is that of the first failing lookup. |
| Retrieval.PoolSilent | helpers/search.py:22 | An empty answer adds and removes nothing. |
| Retrieval.SilentToken | helpers/search.py:22 | A token with no postings can be added to or dropped from a query without changing its candidates. |
| Retrieval.RankingCount | helpers/search.py:24-27 | A ranking has one entry per candidate, holds exactly the candidates, and repeats none. |
| Retrieval.ToList | helpers/search.py:24 | `list(document_ids)` holds each element of the set exactly once. |
| Retrieval.SwapStep | helpers/search.py:27 | An exchange in the insertion pass keeps its orderings one place further left. |
| Retrieval.PassDone | helpers/search.py:27 | The end of an insertion pass leaves the prefix in descending order. |
| Retrieval.Swap | helpers/search.py:27 | The exchange of two entries keeps the multiset. |
| Retrieval.InsertAt | helpers/search.py:27 | One pass extends the descending prefix by one and keeps the multiset. |
| Retrieval.SortByWeight | helpers/search.py:27 | The sort leaves weights non-increasing and is a permutation. |
| Retrieval.Rank | helpers/search.py:24-27 | Listing and sorting give every candidate once, heaviest first. |
| Retrieval.Search.constructor | helpers/search.py:8-10 | The search keeps its indexer. |
| Retrieval.Search.Gather | helpers/search.py:20-22 | The union loop computes the candidates of the query, or the first lookup error. |
| Retrieval.Search.Urls | helpers/search.py:30-32 | The url loop succeeds exactly when every ranked document has a url. The k-th url is then that of the k-th posting; otherwise it raises KeyError. |
| Retrieval.Search.Search | helpers/search.py:12-34 | An empty query gives []. A lookup error is raised as is, and a candidate without a url raises KeyError. Otherwise there is one url per candidate, and the k-th url is that of the k-th posting of a ranking of the candidates, heaviest first. |

## Left out

- File mechanics are not modelled:
  - pickle persistence of the offset index and url map (the branch of `open` that loads a saved index, and the save in `close`);
  - the temporary file `database_temp.db` and `os.remove` and `os.rename`;
  - crash safety between the write and the rename.

  A rewrite is modelled as replacing the text all at once after every line was produced.
- LineEnd: a line ends only at '\n'. Python reads the file in text mode, where '\r' and '\r\n' also end a line and are read as '\n'. The model covers files without '\r'; the `set` round trip (Storage.SetMerges) requires batch terms without '\r'.
- File positions count characters of the text, not the bytes or opaque cookies that `tell()` returns on a text file.
- Indexing.Indexer.constructor: does not model loading or deleting the url map file. Whether `create_index` runs depends on that file, so the caller runs `CreateIndex` itself.
- MD5 (`get_hash`) is the uninterpreted `hash: string -> nat` of the configuration.
- BeautifulSoup extraction, nltk tokenizing and stemming, and `os.walk` with JSON loading are not modelled. Documents arrive with their url and stemmed token lists, and a query as its stemmed tokens.
- Floating point is not modelled:
  - Weights are real numbers.
  - `str(float)` and `float()` form an abstract printer and parser pair with an abstract set of floats. It is assumed to read back every float it prints, to print no structural character, and to return only floats; `calculate_tf_idf` is assumed to return floats.
  - `calculate_tf_idf` is an abstract function of (tf, df, N). Only its log10 domain error is modelled: tf ≤ 0 raises.
  - NaN, infinities and rounding are not modelled.
- Indexing.WordCountsSum: states the count as repeated exact addition (`Times`, shown equal to n·a by `TimesIsProduct`), without float rounding.
- Codec.DecodePiece: a piece with other than two comma-separated fields is rejected with `BadPosting`. Python's `get` returns it as a tuple of that length instead, such as `(5,)` for "5" or `(1, 2.0, 3)` for "1,2.0,3"; `convert_to_tf_idf` then fails to unpack it, while `search` ranks it (a 3-tuple) or fails on `x[1]` (a 1-tuple).
- Text.ParseNat: accepts only plain decimal digits. Python's `int()` also accepts signs, surrounding whitespace and underscores.
- Text.IsSpace: is ASCII whitespace only. `str.strip()` also removes other Unicode whitespace.
- Simhash.Similarity: requires a non-zero width for different fingerprints. The code always passes 128 and would divide by zero at 0.
- Indexing.Indexer.CreateIndex: states the fingerprint table's contents by id, not the insertion order of its keys. After an error the url and fingerprint tables are left unstated.
- Retrieval.Search.Search: the order among postings of equal weight is left open. Python keeps the set's iteration order there, because the sort is stable.
- Retrieval.SortByWeight: `list.sort` is modelled as an in-place insertion sort on an array, which gives the same weight order.
- `InvertedIndex.size` (uses `sys.getsizeof`) and `__str__` are not modelled. Nor are `helpers/statistics.py`, `app.py` and `main.py`.
