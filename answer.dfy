/** generate/answer.py: packing retrieved passages into a token budget,
    reconciling two answers by the numbers they share, and the choice
    between one LLM call and two calls over the halves of the hits.
    The tokenizer and the chat-completion endpoint are parameters: `tok`
    counts the tokens of a string, `llm` returns the content of the reply
    to (model, system message, user message, max_tokens). */
module Answer {
  import opened Text
  import opened Records

  // ---------- build_ctx ----------

  /** The stripped text of each hit, in hit order. */
  function Pieces(hits: seq<Hit>): (ps: seq<string>)
    ensures |ps| == |hits|
  {
    seq(|hits|, i requires 0 <= i < |hits| => Strip(hits[i].text))
  }

  /** Total token count of a list of pieces, each counted on its own. */
  function TokSum(tok: string -> nat, ps: seq<string>): nat
  {
    if ps == [] then 0 else tok(ps[0]) + TokSum(tok, ps[1..])
  }

  lemma {:induction false} TokSumSnoc(tok: string -> nat, ps: seq<string>, x: string)
    ensures TokSum(tok, ps + [x]) == TokSum(tok, ps) + tok(x)
  {
    if ps != [] {
      assert (ps + [x])[1..] == ps[1..] + [x];
      TokSumSnoc(tok, ps[1..], x);
    } else {
      assert ps + [x] == [x];
    }
  }

  /** How many leading pieces the greedy packing takes with `room` tokens
      left: a piece is taken when it fits in what is left, and the first
      piece that does not fit ends the packing. */
  function Fit(tok: string -> nat, ps: seq<string>, room: int): (k: nat)
    ensures k <= |ps|
  {
    if ps == [] || tok(ps[0]) > room then 0
    else 1 + Fit(tok, ps[1..], room - tok(ps[0]))
  }

  /** The greedy packing takes the longest prefix whose token total is within
      the limit: a non-empty prefix fits exactly when it is no longer than
      what was taken. Nothing is taken when there is no piece or the first
      piece alone is over the limit. */
  lemma {:induction false} FitIsLongestFittingPrefix(tok: string -> nat, ps: seq<string>, limit: int)
    ensures forall j :: 0 < j <= |ps| ==> (TokSum(tok, ps[..j]) <= limit <==> j <= Fit(tok, ps, limit))
    ensures Fit(tok, ps, limit) > 0 ==> TokSum(tok, ps[..Fit(tok, ps, limit)]) <= limit
    ensures Fit(tok, ps, limit) == 0 <==> ps == [] || tok(ps[0]) > limit
  {
    if ps != [] {
      var rest := ps[1..];
      var room := limit - tok(ps[0]);
      FitIsLongestFittingPrefix(tok, rest, room);
      forall j | 0 < j <= |ps|
        ensures TokSum(tok, ps[..j]) <= limit <==> j <= Fit(tok, ps, limit)
      {
        assert ps[..j][1..] == rest[..j - 1];
        assert TokSum(tok, ps[..j]) == tok(ps[0]) + TokSum(tok, rest[..j - 1]);
        if j > 1 {
          assert TokSum(tok, rest[..j - 1]) <= room <==> j - 1 <= Fit(tok, rest, room);
        }
      }
      if Fit(tok, ps, limit) > 0 {
        assert Fit(tok, ps, limit) <= |ps|;
      }
    }
  }

  /** One step of the packing, from the i-th piece on. */
  lemma FitStep(tok: string -> nat, ps: seq<string>, i: nat, room: int)
    requires i < |ps|
    ensures tok(ps[i]) > room ==> Fit(tok, ps[i..], room) == 0
    ensures tok(ps[i]) <= room ==> Fit(tok, ps[i..], room) == 1 + Fit(tok, ps[i + 1..], room - tok(ps[i]))
  {
    assert ps[i..][0] == ps[i];
    assert ps[i..][1..] == ps[i + 1..];
  }

  /** The string build_ctx returns: the fitting pieces joined by blank lines. */
  function Ctx(tok: string -> nat, hits: seq<Hit>, limit: int): string
  {
    var ps := Pieces(hits);
    Join("\n\n", ps[..Fit(tok, ps, limit)])
  }

  /** build_ctx(): the loop that appends stripped texts while the running
      total stays within the limit and stops at the first text that would
      exceed it. */
  method BuildCtx(tok: string -> nat, hits: seq<Hit>, limit: int) returns (r: string)
    ensures r == Ctx(tok, hits, limit)
  {
    ghost var ps := Pieces(hits);
    var ctx: seq<string> := [];
    var total := 0;
    var i := 0;
    while i < |hits|
      invariant 0 <= i <= |hits|
      invariant ctx == ps[..i]
      invariant total == TokSum(tok, ctx)
      invariant Fit(tok, ps, limit) == i + Fit(tok, ps[i..], limit - total)
    {
      var t := Strip(hits[i].text);
      assert t == ps[i];
      var tks := tok(t);
      FitStep(tok, ps, i, limit - total);
      if total + tks > limit {
        break;
      }
      TokSumSnoc(tok, ctx, t);
      assert ps[..i + 1] == ps[..i] + [t];
      ctx := ctx + [t];
      total := total + tks;
      i := i + 1;
    }
    r := Join("\n\n", ctx);
  }

  // ---------- choose_answer ----------

  /** A character of the class [\d,\.]. */
  predicate IsNumChar(c: char) { IsDigit(c) || c == ',' || c == '.' }

  /** Number of consecutive [\d,\.] characters of t starting at i. */
  function NumCharRun(t: string, i: nat): (n: nat)
    requires i <= |t|
    ensures i + n <= |t|
    ensures forall k :: i <= k < i + n ==> IsNumChar(t[k])
    ensures i + n < |t| ==> !IsNumChar(t[i + n])
    decreases |t| - i
  {
    if i < |t| && IsNumChar(t[i]) then 1 + NumCharRun(t, i + 1) else 0
  }

  /** A match of \d[\d,\.]*: a digit, then digits, commas and periods. */
  predicate NumericToken(m: string) {
    |m| > 0 && IsDigit(m[0]) && forall k :: 0 <= k < |m| ==> IsNumChar(m[k])
  }

  /** re.findall(r"\d[\d,\.]*", t) from position i: each match starts at a
      digit and runs as far as the class allows. */
  function NumericMatches(t: string, i: nat): (ms: seq<string>)
    requires i <= |t|
    ensures forall m :: m in ms ==> NumericToken(m)
    decreases |t| - i
  {
    if i == |t| then []
    else if IsDigit(t[i]) then
      var e := i + 1 + NumCharRun(t, i + 1);
      [t[i..e]] + NumericMatches(t, e)
    else NumericMatches(t, i + 1)
  }

  /** The positions [start, end) in t of the matches NumericMatches(t, i)
      returns, found by the same left-to-right scan. */
  function NumericSpans(t: string, i: nat): seq<(nat, nat)>
    requires i <= |t|
    decreases |t| - i
  {
    if i == |t| then []
    else if IsDigit(t[i]) then
      var e := i + 1 + NumCharRun(t, i + 1);
      [(i, e)] + NumericSpans(t, e)
    else NumericSpans(t, i + 1)
  }

  /** The k-th match is the text of the k-th span. */
  lemma {:induction false} NumericSpansText(t: string, i: nat)
    requires i <= |t|
    ensures |NumericMatches(t, i)| == |NumericSpans(t, i)|
    ensures forall k :: 0 <= k < |NumericSpans(t, i)| ==>
      NumericSpans(t, i)[k].0 <= NumericSpans(t, i)[k].1 <= |t| &&
      NumericMatches(t, i)[k] == t[NumericSpans(t, i)[k].0..NumericSpans(t, i)[k].1]
    decreases |t| - i
  {
    if i < |t| {
      if IsDigit(t[i]) {
        var e := i + 1 + NumCharRun(t, i + 1);
        NumericSpansText(t, e);
        assert NumericSpans(t, i) == [(i, e)] + NumericSpans(t, e);
        assert NumericMatches(t, i) == [t[i..e]] + NumericMatches(t, e);
      } else {
        NumericSpansText(t, i + 1);
      }
    }
  }

  /** A span starts at a digit at or after i and is greedy: it stops at the
      end of t or just before a character outside [\d,\.]. Spans come in
      order without overlap. */
  lemma {:induction false} NumericSpansShape(t: string, i: nat)
    requires i <= |t|
    ensures var sp := NumericSpans(t, i);
      (forall k :: 0 <= k < |sp| ==>
        i <= sp[k].0 < sp[k].1 <= |t| && IsDigit(t[sp[k].0]) &&
        (sp[k].1 == |t| || !IsNumChar(t[sp[k].1]))) &&
      (forall k :: 0 <= k < |sp| - 1 ==> sp[k].1 < sp[k + 1].0)
    decreases |t| - i
  {
    if i < |t| {
      if IsDigit(t[i]) {
        var e := i + 1 + NumCharRun(t, i + 1);
        NumericSpansShape(t, e);
        var sp := NumericSpans(t, i);
        assert sp == [(i, e)] + NumericSpans(t, e);
        if |sp| > 1 {
          assert e < |t| && !IsNumChar(t[e]);
          assert sp[1].0 != e;
        }
      } else {
        NumericSpansShape(t, i + 1);
        assert NumericSpans(t, i) == NumericSpans(t, i + 1);
      }
    }
  }

  /** No digit is skipped: every digit of t at or after i lies inside some
      span, so every number of the text takes part in a match. */
  lemma {:induction false} NumericSpansCover(t: string, i: nat, p: nat)
    requires i <= p < |t| && IsDigit(t[p])
    ensures exists k :: (0 <= k < |NumericSpans(t, i)| &&
      NumericSpans(t, i)[k].0 <= p < NumericSpans(t, i)[k].1)
    decreases |t| - i
  {
    var sp := NumericSpans(t, i);
    if IsDigit(t[i]) {
      var e := i + 1 + NumCharRun(t, i + 1);
      assert sp == [(i, e)] + NumericSpans(t, e);
      if p < e {
        assert sp[0].0 <= p < sp[0].1;
      } else {
        NumericSpansCover(t, e, p);
        var k :| 0 <= k < |NumericSpans(t, e)| &&
          NumericSpans(t, e)[k].0 <= p < NumericSpans(t, e)[k].1;
        assert sp[k + 1] == NumericSpans(t, e)[k];
      }
    } else {
      assert p != i;
      NumericSpansCover(t, i + 1, p);
    }
  }

  /** set(re.findall(r"\d[\d,\.]*", t)) */
  function NumericSet(t: string): set<string>
  {
    set m | m in NumericMatches(t, 0)
  }

  lemma {:induction false} MatchesFrom(t: string, i: nat)
    requires i <= |t|
    ensures NumericMatches(t, i) == [] <==> forall k :: i <= k < |t| ==> !IsDigit(t[k])
    decreases |t| - i
  {
    if i < |t| && !IsDigit(t[i]) {
      MatchesFrom(t, i + 1);
    }
  }

  /** A text has a numeric substring exactly when it has a digit. */
  lemma NumericSetEmpty(t: string)
    ensures NumericSet(t) == {} <==> forall c :: c in t ==> !IsDigit(c)
  {
    MatchesFrom(t, 0);
    var ms := NumericMatches(t, 0);
    if ms != [] {
      assert ms[0] in NumericSet(t);
    }
    if exists c :: c in t && IsDigit(c) {
      var c :| c in t && IsDigit(c);
      var k :| 0 <= k < |t| && t[k] == c;
    }
  }

  /** The period is part of the class, so a trailing period stays in the
      match: "42." yields "42.", not "42". */
  lemma TrailingPeriodKept()
    ensures NumericSet("42.") == {"42."}
  {
    var t := "42.";
    assert NumCharRun(t, 3) == 0;
    assert NumCharRun(t, 2) == 1;
    assert NumCharRun(t, 1) == 2;
    assert NumericMatches(t, 3) == [];
    assert t[0..3] == t;
    assert NumericMatches(t, 0) == [t];
  }

  /** choose_answer(): the shorter of the two answers (the first on a tie)
      when they share a numeric substring, the first answer otherwise. */
  function ChooseAnswer(ans1: string, ans2: string): (r: string)
    ensures r == ans1 || r == ans2
    ensures |r| <= |ans1|
    ensures NumericSet(ans1) * NumericSet(ans2) == {} ==> r == ans1
    ensures NumericSet(ans1) * NumericSet(ans2) != {} ==>
      |r| <= |ans2| && (|ans1| <= |ans2| ==> r == ans1)
  {
    if NumericSet(ans1) * NumericSet(ans2) != {} then
      (if |ans1| <= |ans2| then ans1 else ans2)
    else ans1
  }

  /** An answer without a digit shares no number, so the first answer is
      kept. */
  lemma ChooseWithoutDigits(ans1: string, ans2: string)
    requires (forall c :: c in ans1 ==> !IsDigit(c)) || (forall c :: c in ans2 ==> !IsDigit(c))
    ensures ChooseAnswer(ans1, ans2) == ans1
  {
    NumericSetEmpty(ans1);
    NumericSetEmpty(ans2);
  }

  /** When the answers share a number and differ in length, the order of
      the arguments does not matter. */
  lemma ChooseSymmetric(ans1: string, ans2: string)
    requires NumericSet(ans1) * NumericSet(ans2) != {}
    requires |ans1| != |ans2|
    ensures ChooseAnswer(ans1, ans2) == ChooseAnswer(ans2, ans1)
  {
    assert NumericSet(ans1) * NumericSet(ans2) == NumericSet(ans2) * NumericSet(ans1);
  }

  // ---------- generate ----------

  const SystemMessage := "You are a helpful financial QA assistant."

  /** Tokens left for the answer: the packing budget is max_ctx_tokens - 1024. */
  const AnswerRoom := 1024

  /** The user message for a question and a packed context. */
  function Prompt(question: string, ctx: string): string
  {
    "Question:\n" + question + "\n\nContext:\n" + ctx + "\n\nAnswer the question."
  }

  /** call_llm(): the stripped content of the reply. */
  function CallLlm(llm: (string, string, string, int) -> string, model: string, user: string, maxTokens: int): string
  {
    Strip(llm(model, SystemMessage, user, maxTokens))
  }

  /** One output line of generate(). */
  datatype AnswerRecord = AnswerRecord(questionId: string, answer: string, rawAnswers: seq<string>, model: string)

  /** What generate() writes for one retrieval record. */
  function AnswerFor(tok: string -> nat, llm: (string, string, string, int) -> string,
                     model: string, maxCtxTokens: int, answerMaxTokens: int,
                     rec: RetrievalRecord): AnswerRecord
  {
    var budget := maxCtxTokens - AnswerRoom;
    var full := Prompt(rec.query, Ctx(tok, rec.hits, budget));
    if tok(full) <= maxCtxTokens then
      var a1 := CallLlm(llm, model, full, answerMaxTokens);
      AnswerRecord(rec.questionId, a1, [a1], model)
    else
      var mid := |rec.hits| / 2;
      var a1 := CallLlm(llm, model, Prompt(rec.query, Ctx(tok, rec.hits[..mid], budget)), answerMaxTokens);
      var a2 := CallLlm(llm, model, Prompt(rec.query, Ctx(tok, rec.hits[mid..], budget)), answerMaxTokens);
      AnswerRecord(rec.questionId, ChooseAnswer(a1, a2), [a1, a2], model)
  }

  /** Path selection: one call exactly when the full prompt fits
      max_ctx_tokens, otherwise one call per half of the hits (halves that
      put the hits back together). The answer is always one of the raw
      answers; the record keeps the question id and names the model. */
  lemma AnswerPaths(tok: string -> nat, llm: (string, string, string, int) -> string,
                    model: string, maxCtxTokens: int, answerMaxTokens: int, rec: RetrievalRecord)
    ensures var a := AnswerFor(tok, llm, model, maxCtxTokens, answerMaxTokens, rec);
            var budget := maxCtxTokens - AnswerRoom;
            var mid := |rec.hits| / 2;
            && a.questionId == rec.questionId
            && a.model == model
            && a.answer in a.rawAnswers
            && (|a.rawAnswers| == 1 <==> tok(Prompt(rec.query, Ctx(tok, rec.hits, budget))) <= maxCtxTokens)
            && (|a.rawAnswers| == 1 ==>
                  && a.answer == a.rawAnswers[0]
                  && a.rawAnswers[0] == CallLlm(llm, model, Prompt(rec.query, Ctx(tok, rec.hits, budget)), answerMaxTokens))
            && (|a.rawAnswers| != 1 ==>
                  && |a.rawAnswers| == 2
                  && rec.hits[..mid] + rec.hits[mid..] == rec.hits
                  && a.answer == ChooseAnswer(a.rawAnswers[0], a.rawAnswers[1])
                  && a.rawAnswers[0] == CallLlm(llm, model, Prompt(rec.query, Ctx(tok, rec.hits[..mid], budget)), answerMaxTokens)
                  && a.rawAnswers[1] == CallLlm(llm, model, Prompt(rec.query, Ctx(tok, rec.hits[mid..], budget)), answerMaxTokens))
  {
    var a := AnswerFor(tok, llm, model, maxCtxTokens, answerMaxTokens, rec);
    assert rec.hits[..|rec.hits| / 2] + rec.hits[|rec.hits| / 2..] == rec.hits;
  }

  /** The body of generate()'s loop for one record: pack the context, make
      one call when the prompt fits, otherwise one call per half of the hits
      and reconcile the two answers. */
  method AnswerRecordOf(tok: string -> nat, llm: (string, string, string, int) -> string,
                        record: RetrievalRecord, model: string, maxCtxTokens: int, answerMaxTokens: int)
    returns (a: AnswerRecord)
    ensures a == AnswerFor(tok, llm, model, maxCtxTokens, answerMaxTokens, record)
  {
    var hits := record.hits;
    var ctx := BuildCtx(tok, hits, maxCtxTokens - AnswerRoom);
    var fullPrompt := Prompt(record.query, ctx);
    var final, raw;
    if tok(fullPrompt) <= maxCtxTokens {
      var a1 := CallLlm(llm, model, fullPrompt, answerMaxTokens);
      final := a1;
      raw := [a1];
    } else {
      var mid := |hits| / 2;
      var ctx1 := BuildCtx(tok, hits[..mid], maxCtxTokens - AnswerRoom);
      var ctx2 := BuildCtx(tok, hits[mid..], maxCtxTokens - AnswerRoom);
      var a1 := CallLlm(llm, model, Prompt(record.query, ctx1), answerMaxTokens);
      var a2 := CallLlm(llm, model, Prompt(record.query, ctx2), answerMaxTokens);
      final := ChooseAnswer(a1, a2);
      raw := [a1, a2];
    }
    a := AnswerRecord(record.questionId, final, raw, model);
  }

  /** generate(): one answer record per input record, in input order. */
  method Generate(tok: string -> nat, llm: (string, string, string, int) -> string,
                  data: seq<RetrievalRecord>, model: string, maxCtxTokens: int, answerMaxTokens: int)
    returns (results: seq<AnswerRecord>)
    ensures |results| == |data|
    ensures forall i :: 0 <= i < |data| ==> results[i] == AnswerFor(tok, llm, model, maxCtxTokens, answerMaxTokens, data[i])
  {
    ghost var spec := seq(|data|, j requires 0 <= j < |data| => AnswerFor(tok, llm, model, maxCtxTokens, answerMaxTokens, data[j]));
    results := [];
    for i := 0 to |data|
      invariant results == spec[..i]
    {
      var a := AnswerRecordOf(tok, llm, data[i], model, maxCtxTokens, answerMaxTokens);
      assert a == spec[i];
      results := results + [a];
    }
    assert spec[..|data|] == spec;
  }
}
