/** finance-rag/retrieval/retrieve.py: the bookkeeping around dense
    retrieval. The corpus files become two parallel lists, texts are encoded
    in fixed-size batches, and each query's search results become a record
    of ranked hits. The sentence encoder and the FAISS search are parameters:
    `encode` maps a batch of texts to one row per text, and `search` maps the
    corpus and query rows and top_k to the score and index matrices. */
module Retrieve {
  import opened Wrappers
  import opened Records

  // ---------- load_corpus ----------

  /** The passages of the corpus and their document ids, as parallel lists. */
  datatype Corpus = Corpus(texts: seq<string>, ids: seq<string>)

  /** `ex.get(key, "")` */
  function FieldOr(fields: map<string, string>, key: string): string
  {
    if key in fields then fields[key] else ""
  }

  /** The lines of every corpus file, one file after another, in the order
      the directory listing gives them. */
  function Flatten(files: seq<seq<Line>>): seq<Line>
  {
    if files == [] then [] else Flatten(files[..|files| - 1]) + files[|files| - 1]
  }

  /** load_corpus over the corpus lines: the first line that is not valid
      JSON, or not an object, raises; every other line adds its "text" and
      its "doc_id" (each "" when absent). */
  function CorpusOf(lines: seq<Line>): Result<Corpus>
  {
    if lines == [] then Success(Corpus([], []))
    else
      var init := CorpusOf(lines[..|lines| - 1]);
      if init.Failure? then init
      else match lines[|lines| - 1]
        case Unparseable => Failure("JSONDecodeError")
        case Parsed(NonObject) => Failure("AttributeError")
        case Parsed(Object(f)) =>
          Success(Corpus(init.value.texts + [FieldOr(f, "text")], init.value.ids + [FieldOr(f, "doc_id")]))
  }

  predicate IsObjectLine(l: Line) { l.Parsed? && l.value.Object? }

  /** load_corpus succeeds exactly when every line is a JSON object, and
      then the i-th text and the i-th id both come from the i-th line. */
  lemma {:induction false} CorpusSpec(lines: seq<Line>)
    ensures CorpusOf(lines).Success? <==> forall k :: 0 <= k < |lines| ==> IsObjectLine(lines[k])
    ensures CorpusOf(lines).Success? ==>
              var c := CorpusOf(lines).value;
              && |c.texts| == |lines| && |c.ids| == |lines|
              && forall k :: 0 <= k < |lines| ==>
                   c.texts[k] == FieldOr(lines[k].value.fields, "text")
                   && c.ids[k] == FieldOr(lines[k].value.fields, "doc_id")
  {
    if lines != [] {
      var init := lines[..|lines| - 1];
      CorpusSpec(init);
      assert forall k :: 0 <= k < |init| ==> init[k] == lines[k];
    }
  }

  /** Once a line has raised, later lines change nothing. */
  lemma {:induction false} CorpusFailureStays(a: seq<Line>, b: seq<Line>)
    requires CorpusOf(a).Failure?
    ensures CorpusOf(a + b) == CorpusOf(a)
  {
    if b == [] {
      assert a + b == a;
    } else {
      assert (a + b)[..|a + b| - 1] == a + b[..|b| - 1];
      CorpusFailureStays(a, b[..|b| - 1]);
    }
  }

  lemma {:induction false} FlattenConcat(a: seq<seq<Line>>, b: seq<seq<Line>>)
    ensures Flatten(a + b) == Flatten(a) + Flatten(b)
  {
    if b == [] {
      assert a + b == a;
    } else {
      var init, last := b[..|b| - 1], b[|b| - 1];
      assert (a + b)[..|a + b| - 1] == a + init;
      assert (a + b)[|a + b| - 1] == last;
      FlattenConcat(a, init);
      assert (Flatten(a) + Flatten(init)) + last == Flatten(a) + (Flatten(init) + last);
    }
  }

  /** The lines of the first i + 1 files come before those of the rest. */
  lemma FlattenSplit(files: seq<seq<Line>>, i: nat)
    requires i < |files|
    ensures Flatten(files) == Flatten(files[..i]) + files[i] + Flatten(files[i + 1..])
  {
    FlattenConcat(files[..i + 1], files[i + 1..]);
    assert files == files[..i + 1] + files[i + 1..];
    assert files[..i + 1][..i] == files[..i];
  }

  lemma PrefixSnoc(seen: seq<Line>, lines: seq<Line>, j: nat)
    requires j < |lines|
    ensures seen + lines[..j + 1] == (seen + lines[..j]) + [lines[j]]
  {
    assert lines[..j + 1] == lines[..j] + [lines[j]];
  }

  /** A line that raises ends load_corpus with that error. */
  lemma CorpusFailsAt(seen: seq<Line>, lines: seq<Line>, j: nat)
    requires j < |lines| && CorpusOf(seen + lines[..j + 1]).Failure?
    ensures CorpusOf(seen + lines) == CorpusOf(seen + lines[..j + 1])
  {
    SplitAfter(lines, j);
    AppendAssoc(seen, lines[..j + 1], lines[j + 1..]);
    CorpusFailureStays(seen + lines[..j + 1], lines[j + 1..]);
  }

  lemma SplitAfter<T>(xs: seq<T>, j: nat)
    requires j < |xs|
    ensures xs[..j + 1] + xs[j + 1..] == xs
  {
  }

  lemma AppendAssoc<T>(a: seq<T>, b: seq<T>, c: seq<T>)
    ensures (a + b) + c == a + (b + c)
  {
  }

  /** The inner loop of load_corpus over the lines of one file, with
      `corpus` and `ids` already holding what the earlier lines `seen` gave. */
  method LoadFile(ghost seen: seq<Line>, lines: seq<Line>, corpus0: seq<string>, ids0: seq<string>)
    returns (r: Result<Corpus>)
    requires CorpusOf(seen) == Success(Corpus(corpus0, ids0))
    ensures r == CorpusOf(seen + lines)
  {
    var corpus, ids := corpus0, ids0;
    assert seen + lines[..0] == seen;
    for j := 0 to |lines|
      invariant CorpusOf(seen + lines[..j]) == Success(Corpus(corpus, ids))
    {
      PrefixSnoc(seen, lines, j);
      match lines[j] {
        case Parsed(Object(f)) =>
          corpus := corpus + [FieldOr(f, "text")];
          ids := ids + [FieldOr(f, "doc_id")];
        case Parsed(NonObject) =>
          CorpusFailsAt(seen, lines, j);
          return Failure("AttributeError");
        case Unparseable =>
          CorpusFailsAt(seen, lines, j);
          return Failure("JSONDecodeError");
      }
    }
    assert lines[..|lines|] == lines;
    r := Success(Corpus(corpus, ids));
  }

  /** load_corpus(): for each file, for each line, append its text and id. */
  method LoadCorpus(files: seq<seq<Line>>) returns (r: Result<Corpus>)
    ensures r == CorpusOf(Flatten(files))
  {
    var corpus: seq<string> := [];
    var ids: seq<string> := [];
    for i := 0 to |files|
      invariant CorpusOf(Flatten(files[..i])) == Success(Corpus(corpus, ids))
    {
      assert files[..i + 1][..i] == files[..i];
      var loaded := LoadFile(Flatten(files[..i]), files[i], corpus, ids);
      if loaded.Failure? {
        FlattenSplit(files, i);
        CorpusFailureStays(Flatten(files[..i]) + files[i], Flatten(files[i + 1..]));
        return loaded;
      }
      corpus, ids := loaded.value.texts, loaded.value.ids;
    }
    assert files[..|files|] == files;
    r := Success(Corpus(corpus, ids));
  }

  // ---------- encode_texts ----------

  /** One embedding. */
  type Row = seq<real>

  function Min(a: int, b: int): int { if a <= b then a else b }

  /** The slices `texts[j:j+bs]` for j = i, i + bs, i + 2*bs, ... below
      len(texts). Batching looks neither at the texts nor at the rows, so
      this part is generic in both. */
  function Batches<T>(texts: seq<T>, bs: nat, i: nat): seq<seq<T>>
    requires bs > 0
    decreases |texts| - i
  {
    if i >= |texts| then []
    else [texts[i..Min(i + bs, |texts|)]] + Batches(texts, bs, i + bs)
  }

  /** `model.encode(batch)` for each of those batches, in order. */
  function Embeddings<T, R>(texts: seq<T>, encode: seq<T> -> seq<R>, bs: nat, i: nat): seq<seq<R>>
    requires bs > 0
    decreases |texts| - i
  {
    if i >= |texts| then []
    else [encode(texts[i..Min(i + bs, |texts|)])] + Embeddings(texts, encode, bs, i + bs)
  }

  /** `np.vstack`: the rows of every block, block after block. */
  function Concat<T>(xss: seq<seq<T>>): seq<T>
  {
    if xss == [] then [] else xss[0] + Concat(xss[1..])
  }

  lemma ConcatCons<T>(xs: seq<T>, xss: seq<seq<T>>)
    ensures Concat([xs] + xss) == xs + Concat(xss)
  {
    assert ([xs] + xss)[1..] == xss;
  }

  /** encode_texts(texts, model, batch_size). A zero batch size makes
      range() raise; a negative one, or no texts at all, leaves no batch,
      and np.vstack of an empty list raises. */
  function Encoded<T, R>(texts: seq<T>, encode: seq<T> -> seq<R>, bs: int): Result<seq<R>>
  {
    if bs <= 0 || texts == [] then Failure("ValueError")
    else Success(Concat(Embeddings(texts, encode, bs, 0)))
  }

  /** The batches put back together are the texts from i on. */
  lemma {:induction false} BatchesConcat<T>(texts: seq<T>, bs: nat, i: nat)
    requires bs > 0 && i <= |texts|
    ensures Concat(Batches(texts, bs, i)) == texts[i..]
    decreases |texts| - i
  {
    if i == |texts| {
      assert texts[i..] == [];
    } else {
      var k := Min(i + bs, |texts|);
      ConcatCons(texts[i..k], Batches(texts, bs, i + bs));
      if i + bs <= |texts| {
        BatchesConcat(texts, bs, i + bs);
      }
      assert texts[i..] == texts[i..k] + texts[k..];
    }
  }

  /** Every batch holds between 1 and bs texts and only the last may hold
      fewer than bs, so there are ceil((n - i) / bs) of them. */
  lemma {:induction false} BatchesShape<T>(texts: seq<T>, bs: nat, i: nat)
    requires bs > 0 && i <= |texts|
    ensures var b := Batches(texts, bs, i);
            && (forall k :: 0 <= k < |b| ==> 0 < |b[k]| <= bs)
            && (forall k :: 0 <= k < |b| - 1 ==> |b[k]| == bs)
            && (|b| - 1) * bs < |texts| - i <= |b| * bs
            && (b == [] <==> i == |texts|)
    decreases |texts| - i
  {
    if i < |texts| {
      var b := Batches(texts, bs, i);
      var rest := Batches(texts, bs, i + bs);
      assert b == [texts[i..Min(i + bs, |texts|)]] + rest;
      assert forall k :: 1 <= k < |b| ==> b[k] == rest[k - 1];
      if i + bs < |texts| {
        BatchesShape(texts, bs, i + bs);
        assert |b| * bs == |rest| * bs + bs;
        assert (|b| - 1) * bs == (|rest| - 1) * bs + bs;
      } else {
        assert rest == [];
      }
    }
  }

  /** The embeddings are the encoder's answer for each batch, batch by
      batch. */
  lemma {:induction false} EmbeddingsPerBatch<T, R>(texts: seq<T>, encode: seq<T> -> seq<R>, bs: nat, i: nat)
    requires bs > 0
    ensures var e := Embeddings(texts, encode, bs, i);
            var b := Batches(texts, bs, i);
            |e| == |b| && forall k :: 0 <= k < |e| ==> e[k] == encode(b[k])
    decreases |texts| - i
  {
    if i < |texts| {
      EmbeddingsPerBatch(texts, encode, bs, i + bs);
    }
  }

  /** `rows` holds f of each of `xs`, in order. */
  ghost predicate RowsOf<T, R>(rows: seq<R>, xs: seq<T>, f: T -> R)
  {
    |rows| == |xs| && forall k :: 0 <= k < |rows| ==> rows[k] == f(xs[k])
  }

  lemma RowsOfAppend<T, R>(rx: seq<R>, xs: seq<T>, ry: seq<R>, ys: seq<T>, f: T -> R)
    requires RowsOf(rx, xs, f) && RowsOf(ry, ys, f)
    ensures RowsOf(rx + ry, xs + ys, f)
  {
    forall k | 0 <= k < |rx + ry|
      ensures (rx + ry)[k] == f((xs + ys)[k])
    {
      if k >= |rx| {
        assert (rx + ry)[k] == ry[k - |rx|];
      }
    }
  }

  /** With an encoder that gives one row per text, and each text's row on
      its own, the stacked embeddings are the rows of the texts from i on. */
  lemma {:induction false} StackedRows<T, R>(texts: seq<T>, encode: seq<T> -> seq<R>, f: T -> R, bs: nat, i: nat)
    requires forall b :: |encode(b)| == |b|
    requires forall b, k :: 0 <= k < |b| ==> encode(b)[k] == f(b[k])
    requires bs > 0 && i <= |texts|
    ensures RowsOf(Concat(Embeddings(texts, encode, bs, i)), texts[i..], f)
    decreases |texts| - i
  {
    if i < |texts| {
      var j := Min(i + bs, |texts|);
      var batch := texts[i..j];
      var rest := Embeddings(texts, encode, bs, i + bs);
      ConcatCons(encode(batch), rest);
      assert RowsOf(encode(batch), batch, f);
      if i + bs <= |texts| {
        StackedRows(texts, encode, f, bs, i + bs);
      } else {
        assert rest == [] && texts[j..] == [];
      }
      RowsOfAppend(encode(batch), batch, Concat(rest), texts[j..], f);
      assert batch + texts[j..] == texts[i..];
    } else {
      assert Embeddings(texts, encode, bs, i) == [] && texts[i..] == [];
    }
  }

  /** Rows in, rows out: encode_texts gives one row per text, in text
      order, whatever the batch size, when the encoder treats each text on
      its own. */
  lemma EncodedRowPerText<T, R>(texts: seq<T>, encode: seq<T> -> seq<R>, f: T -> R, bs: int)
    requires forall b :: |encode(b)| == |b|
    requires forall b, k :: 0 <= k < |b| ==> encode(b)[k] == f(b[k])
    requires bs > 0 && texts != []
    ensures Encoded(texts, encode, bs).Success?
    ensures |Encoded(texts, encode, bs).value| == |texts|
    ensures forall k :: 0 <= k < |texts| ==> Encoded(texts, encode, bs).value[k] == f(texts[k])
  {
    StackedRows(texts, encode, f, bs, 0);
    assert texts[0..] == texts;
  }

  /** encode_texts(): the `for i in range(0, len(texts), batch_size)` loop. */
  method EncodeTexts<T, R>(texts: seq<T>, encode: seq<T> -> seq<R>, bs: int) returns (r: Result<seq<R>>)
    ensures r == Encoded(texts, encode, bs)
  {
    if bs <= 0 {
      return Failure("ValueError");
    }
    var embeddings: seq<seq<R>> := [];
    var i: nat := 0;
    while i < |texts|
      invariant embeddings + Embeddings(texts, encode, bs, i) == Embeddings(texts, encode, bs, 0)
      decreases |texts| - i
    {
      var e := encode(texts[i..Min(i + bs, |texts|)]);
      ghost var later := Embeddings(texts, encode, bs, i + bs);
      assert Embeddings(texts, encode, bs, i) == [e] + later;
      assert embeddings + ([e] + later) == (embeddings + [e]) + later;
      embeddings := embeddings + [e];
      i := i + bs;
    }
    assert embeddings + [] == embeddings;
    if embeddings == [] {
      return Failure("ValueError");
    }
    r := Success(Concat(embeddings));
  }

  // ---------- hits and records ----------

  /** The index `xs[i]` reads in Python: negative indices count from the end. */
  function Resolve(n: nat, i: int): int
  {
    if i < 0 then n + i else i
  }

  /** Python indexing does not raise. */
  predicate InRange(n: nat, i: int) { 0 <= n + i && i < n }

  /** `zip(D[q], I[q])`: pairs up to the shorter of the two. */
  function Zip(scores: seq<real>, idxs: seq<int>): (pairs: seq<(real, int)>)
    ensures |pairs| == Min(|scores|, |idxs|)
  {
    seq(Min(|scores|, |idxs|), k requires 0 <= k < Min(|scores|, |idxs|) => (scores[k], idxs[k]))
  }

  /** The hits loop for one query: the r-th pair becomes a hit of rank r + 1
      whose id and text both come from corpus index doc_idx. An index Python
      cannot read raises IndexError. */
  function HitsOf(pairs: seq<(real, int)>, c: Corpus): Result<seq<Hit>>
  {
    if pairs == [] then Success([])
    else
      var init := HitsOf(pairs[..|pairs| - 1], c);
      var (score, docIdx) := pairs[|pairs| - 1];
      if init.Failure? then init
      else if !InRange(|c.ids|, docIdx) || !InRange(|c.texts|, docIdx) then Failure("IndexError")
      else Success(init.value + [Hit(|pairs|, score, c.ids[Resolve(|c.ids|, docIdx)], c.texts[Resolve(|c.texts|, docIdx)])])
  }

  /** The hit list fails exactly when some doc_idx is outside the corpus;
      otherwise it has one hit per pair, ranked 1, 2, 3, ... in order, each
      with the pair's score and the id and text of the same passage. */
  lemma {:induction false} HitsSpec(pairs: seq<(real, int)>, c: Corpus)
    requires |c.ids| == |c.texts|
    ensures HitsOf(pairs, c).Success? <==> forall r :: 0 <= r < |pairs| ==> InRange(|c.ids|, pairs[r].1)
    ensures HitsOf(pairs, c).Success? ==>
              var hits := HitsOf(pairs, c).value;
              && |hits| == |pairs|
              && forall r :: 0 <= r < |pairs| ==>
                   var j := Resolve(|c.ids|, pairs[r].1);
                   hits[r] == Hit(r + 1, pairs[r].0, c.ids[j], c.texts[j])
  {
    if pairs != [] {
      var init := pairs[..|pairs| - 1];
      HitsSpec(init, c);
      assert forall r :: 0 <= r < |init| ==> init[r] == pairs[r];
    }
  }

  /** A doc_idx of -1, which FAISS returns when it has fewer passages than
      top_k, does not raise: it reads the last passage of the corpus. */
  lemma MinusOneIsLastPassage(pairs: seq<(real, int)>, c: Corpus, r: nat)
    requires |c.ids| == |c.texts| && |c.ids| > 0
    requires r < |pairs| && pairs[r].1 == -1
    requires HitsOf(pairs, c).Success?
    ensures var hits := HitsOf(pairs, c).value;
            r < |hits| && hits[r].docId == c.ids[|c.ids| - 1] && hits[r].text == c.texts[|c.texts| - 1]
  {
    HitsSpec(pairs, c);
  }

  /** The inner loop of run_retrieval for one query. */
  method BuildHits(scores: seq<real>, idxs: seq<int>, c: Corpus) returns (r: Result<seq<Hit>>)
    ensures r == HitsOf(Zip(scores, idxs), c)
  {
    var pairs := Zip(scores, idxs);
    var hits: seq<Hit> := [];
    for rank := 0 to |pairs|
      invariant HitsOf(pairs[..rank], c) == Success(hits)
    {
      assert pairs[..rank + 1][..rank] == pairs[..rank];
      var (score, docIdx) := pairs[rank];
      if !InRange(|c.ids|, docIdx) || !InRange(|c.texts|, docIdx) {
        HitsFailureStays(pairs[..rank + 1], pairs[rank + 1..], c);
        assert pairs[..rank + 1] + pairs[rank + 1..] == pairs;
        return Failure("IndexError");
      }
      hits := hits + [Hit(rank + 1, score, c.ids[Resolve(|c.ids|, docIdx)], c.texts[Resolve(|c.texts|, docIdx)])];
    }
    assert pairs[..|pairs|] == pairs;
    r := Success(hits);
  }

  lemma {:induction false} HitsFailureStays(a: seq<(real, int)>, b: seq<(real, int)>, c: Corpus)
    requires HitsOf(a, c).Failure?
    ensures HitsOf(a + b, c) == HitsOf(a, c)
  {
    if b == [] {
      assert a + b == a;
    } else {
      assert (a + b)[..|a + b| - 1] == a + b[..|b| - 1];
      HitsFailureStays(a, b[..|b| - 1], c);
    }
  }

  /** `ex[key]` for a parsed query line. */
  function Field(ex: Json, key: string): Result<string>
  {
    match ex
    case NonObject => Failure("TypeError")
    case Object(f) => if key in f then Success(f[key]) else Failure("KeyError")
  }

  /** The output loop of run_retrieval over the queries, with D and I the
      search results: one record per query, in query order. */
  function RecordsOf(queries: seq<Json>, D: seq<seq<real>>, I: seq<seq<int>>, c: Corpus): Result<seq<RetrievalRecord>>
  {
    if queries == [] then Success([])
    else
      var q := |queries| - 1;
      var init := RecordsOf(queries[..q], D, I, c);
      if init.Failure? then init
      else if q >= |D| || q >= |I| then Failure("IndexError")
      else
        var hits := HitsOf(Zip(D[q], I[q]), c);
        if hits.Failure? then Failure(hits.error)
        else
          var qid := Field(queries[q], "question_id");
          var query := Field(queries[q], "expanded_question");
          if qid.Failure? then Failure(qid.error)
          else if query.Failure? then Failure(query.error)
          else Success(init.value + [RetrievalRecord(qid.value, query.value, hits.value)])
  }

  /** A query the output loop can write: its rows of D and I exist, its hits
      can be read, and it has both keys. */
  predicate Writable(queries: seq<Json>, D: seq<seq<real>>, I: seq<seq<int>>, c: Corpus, q: nat)
    requires q < |queries|
  {
    && q < |D| && q < |I|
    && HitsOf(Zip(D[q], I[q]), c).Success?
    && Field(queries[q], "question_id").Success?
    && Field(queries[q], "expanded_question").Success?
  }

  /** The records are written exactly when every query is writable. */
  lemma {:induction false} RecordsWritten(queries: seq<Json>, D: seq<seq<real>>, I: seq<seq<int>>, c: Corpus)
    ensures RecordsOf(queries, D, I, c).Success? <==> forall q :: 0 <= q < |queries| ==> Writable(queries, D, I, c, q)
  {
    if queries != [] {
      var n := |queries| - 1;
      var init := queries[..n];
      RecordsWritten(init, D, I, c);
      assert forall q :: 0 <= q < n ==> init[q] == queries[q];
      assert forall q :: 0 <= q < n ==> (Writable(init, D, I, c, q) <==> Writable(queries, D, I, c, q));
      if RecordsOf(init, D, I, c).Success? && !Writable(queries, D, I, c, n) {
        assert RecordsOf(queries, D, I, c).Failure?;
      }
    }
  }

  /** One record per query, in query order: record q copies query q's
      question_id, has its expanded question as the query, and carries
      query q's hits. */
  lemma {:induction false} RecordsContents(queries: seq<Json>, D: seq<seq<real>>, I: seq<seq<int>>, c: Corpus)
    requires RecordsOf(queries, D, I, c).Success?
    ensures var out := RecordsOf(queries, D, I, c).value;
            && |out| == |queries|
            && forall q :: 0 <= q < |queries| ==>
                 && Field(queries[q], "question_id") == Success(out[q].questionId)
                 && Field(queries[q], "expanded_question") == Success(out[q].query)
                 && q < |D| && q < |I| && HitsOf(Zip(D[q], I[q]), c) == Success(out[q].hits)
  {
    if queries != [] {
      var n := |queries| - 1;
      var init := queries[..n];
      RecordsContents(init, D, I, c);
      var prev := RecordsOf(init, D, I, c).value;
      var out := RecordsOf(queries, D, I, c).value;
      assert out == prev + [out[n]];
      assert forall q :: 0 <= q < n ==> init[q] == queries[q] && out[q] == prev[q];
    }
  }

  lemma {:induction false} RecordsFailureStays(a: seq<Json>, b: seq<Json>, D: seq<seq<real>>, I: seq<seq<int>>, c: Corpus)
    requires RecordsOf(a, D, I, c).Failure?
    ensures RecordsOf(a + b, D, I, c) == RecordsOf(a, D, I, c)
  {
    if b == [] {
      assert a + b == a;
    } else {
      assert (a + b)[..|a + b| - 1] == a + b[..|b| - 1];
      RecordsFailureStays(a, b[..|b| - 1], D, I, c);
    }
  }

  /** The output loop of run_retrieval, record by record. */
  method WriteRecords(queries: seq<Json>, D: seq<seq<real>>, I: seq<seq<int>>, c: Corpus)
    returns (r: Result<seq<RetrievalRecord>>)
    ensures r == RecordsOf(queries, D, I, c)
  {
    var out: seq<RetrievalRecord> := [];
    for q := 0 to |queries|
      invariant RecordsOf(queries[..q], D, I, c) == Success(out)
    {
      assert queries[..q + 1][..q] == queries[..q];
      var fail := false;
      var error := "";
      if q >= |D| || q >= |I| {
        fail, error := true, "IndexError";
      } else {
        var hits := BuildHits(D[q], I[q], c);
        var qid := Field(queries[q], "question_id");
        var query := Field(queries[q], "expanded_question");
        if hits.Failure? {
          fail, error := true, hits.error;
        } else if qid.Failure? {
          fail, error := true, qid.error;
        } else if query.Failure? {
          fail, error := true, query.error;
        } else {
          out := out + [RetrievalRecord(qid.value, query.value, hits.value)];
        }
      }
      if fail {
        assert RecordsOf(queries[..q + 1], D, I, c) == Failure(error);
        RecordsFailureStays(queries[..q + 1], queries[q + 1..], D, I, c);
        assert queries[..q + 1] + queries[q + 1..] == queries;
        return Failure(error);
      }
    }
    assert queries[..|queries|] == queries;
    r := Success(out);
  }

  // ---------- run_retrieval ----------

  const BatchSize := 32

  predicate AllParsed(lines: seq<Line>) {
    forall k :: 0 <= k < |lines| ==> lines[k].Parsed?
  }

  /** `[ex["expanded_question"] for ex in queries]` */
  function QueryTexts(queries: seq<Json>): Result<seq<string>>
  {
    if queries == [] then Success([])
    else
      var init := QueryTexts(queries[..|queries| - 1]);
      var t := Field(queries[|queries| - 1], "expanded_question");
      if init.Failure? then init
      else if t.Failure? then Failure(t.error)
      else Success(init.value + [t.value])
  }

  /** run_retrieval(): load and encode the corpus, parse and encode the
      queries, search, and assemble the records, stopping at the first
      exception. */
  function Retrieval(files: seq<seq<Line>>, queryLines: seq<Line>, encode: seq<string> -> seq<Row>,
                     search: (seq<Row>, seq<Row>, int) -> (seq<seq<real>>, seq<seq<int>>), topK: int)
    : Result<seq<RetrievalRecord>>
  {
    var corpus := CorpusOf(Flatten(files));
    if corpus.Failure? then Failure(corpus.error)
    else
      var corpusRows := Encoded(corpus.value.texts, encode, BatchSize);
      if corpusRows.Failure? then Failure(corpusRows.error)
      else if !AllParsed(queryLines) then Failure("JSONDecodeError")
      else
        var queries := seq(|queryLines|, k requires 0 <= k < |queryLines| && queryLines[k].Parsed? => queryLines[k].value);
        var texts := QueryTexts(queries);
        if texts.Failure? then Failure(texts.error)
        else
          var queryRows := Encoded(texts.value, encode, BatchSize);
          if queryRows.Failure? then Failure(queryRows.error)
          else
            var (D, I) := search(corpusRows.value, queryRows.value, topK);
            RecordsOf(queries, D, I, corpus.value)
  }

  /** With no corpus passage, the corpus encoding raises, so nothing is
      written. */
  lemma EmptyCorpusFails(files: seq<seq<Line>>, queryLines: seq<Line>, encode: seq<string> -> seq<Row>,
                         search: (seq<Row>, seq<Row>, int) -> (seq<seq<real>>, seq<seq<int>>), topK: int)
    requires Flatten(files) == []
    ensures Retrieval(files, queryLines, encode, search, topK) == Failure("ValueError")
  {
  }

  method QueryTextsOf(queries: seq<Json>) returns (r: Result<seq<string>>)
    ensures r == QueryTexts(queries)
  {
    var texts: seq<string> := [];
    for k := 0 to |queries|
      invariant QueryTexts(queries[..k]) == Success(texts)
    {
      assert queries[..k + 1][..k] == queries[..k];
      var t := Field(queries[k], "expanded_question");
      if t.Failure? {
        QueryTextsFailureStays(queries[..k + 1], queries[k + 1..]);
        assert queries[..k + 1] + queries[k + 1..] == queries;
        return Failure(t.error);
      }
      texts := texts + [t.value];
    }
    assert queries[..|queries|] == queries;
    r := Success(texts);
  }

  lemma {:induction false} QueryTextsFailureStays(a: seq<Json>, b: seq<Json>)
    requires QueryTexts(a).Failure?
    ensures QueryTexts(a + b) == QueryTexts(a)
  {
    if b == [] {
      assert a + b == a;
    } else {
      assert (a + b)[..|a + b| - 1] == a + b[..|b| - 1];
      QueryTextsFailureStays(a, b[..|b| - 1]);
    }
  }

  /** run_retrieval(query_file, corpus_dir, out_file, top_k). */
  method RunRetrieval(files: seq<seq<Line>>, queryLines: seq<Line>, encode: seq<string> -> seq<Row>,
                      search: (seq<Row>, seq<Row>, int) -> (seq<seq<real>>, seq<seq<int>>), topK: int)
    returns (r: Result<seq<RetrievalRecord>>)
    ensures r == Retrieval(files, queryLines, encode, search, topK)
  {
    var corpus := LoadCorpus(files);
    if corpus.Failure? {
      return Failure(corpus.error);
    }
    var corpusRows := EncodeTexts(corpus.value.texts, encode, BatchSize);
    if corpusRows.Failure? {
      return Failure(corpusRows.error);
    }
    if exists k :: 0 <= k < |queryLines| && !queryLines[k].Parsed? {
      return Failure("JSONDecodeError");
    }
    var queries := seq(|queryLines|, k requires 0 <= k < |queryLines| && queryLines[k].Parsed? => queryLines[k].value);
    var texts := QueryTextsOf(queries);
    if texts.Failure? {
      return Failure(texts.error);
    }
    var queryRows := EncodeTexts(texts.value, encode, BatchSize);
    if queryRows.Failure? {
      return Failure(queryRows.error);
    }
    var (D, I) := search(corpusRows.value, queryRows.value, topK);
    r := WriteRecords(queries, D, I, corpus.value);
  }
}
