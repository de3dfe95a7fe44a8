# finance-rag in Dafny

A verified model of the pipeline stages of finance-rag, a retrieval-augmented
question-answering system for financial reports:

- **pre-retrieval** (`pre_retrieval.py`). Each query is expanded into keywords by
  a chat model. The call is retried with exponential back-off on rate-limit
  errors, and the run resumes after the ids already present in the output file.
- **dense retrieval** (`finance-rag/retrieval/retrieve.py`). The corpus files
  are loaded into parallel text and id lists. Texts are encoded in batches of
  32. The score and index matrices of the search become ranked hit records.
- **reranking** (`rerank.py`). Each record's hits are rescored by a
  cross-encoder, sorted by descending score (stably), optionally cut to
  `top_k`, and ranked again from 1.
- **answer generation** (`finance-rag/generate/answer.py`). A context is built
  from the hits within a token budget. One prompt is used, or two half-contexts
  when the prompt is too long, and a final answer is chosen between them.
- **evaluation** (`evaluate.py`). EM, numeric EM and SQuAD-style token F1 are
  averaged over the gold questions.

The files:

| file | module | contents |
|---|---|---|
| `wrappers.dfy` | `Wrappers` | `Option`, `Result` (a Python exception is a `Failure` naming its class) |
| `text.dfy` | `Text` | ASCII character classes, `str.lower`, `str.strip`, `str.split()`, `" ".join` |
| `records.dfy` | `Records` | `Hit`, `RetrievalRecord`, a JSON line (`Json`, `Line`) |
| `evaluate.dfy` | `Evaluate` | normalisation, number extraction, token F1, the metric averages, loading the two files, the evaluation as written |
| `evaluate_example.dfy` | `EvaluateExample` | the numbers of the example pair in the docstring of `evaluate.py` |
| `answer.dfy` | `Answer` | context building, answer choice, the per-record generation paths |
| `rerank.dfy` | `Rerank` | rescoring, stable descending sort on an array, truncation, ranks |
| `pre_retrieval.dfy` | `PreRetrieval` | `expand_query` with retries and back-off; `run` with resume, as a class over the output file |
| `retrieve.dfy` | `Retrieve` | `load_corpus`, `encode_texts`, hit and record assembly, `run_retrieval` |

Everything the program gets from outside is a parameter of the model:
- the chat and completion APIs;
- the tokenizer;
- the sentence encoder and the cross-encoder;
- the FAISS search;
- the files, given as sequences of lines.

Each loop of the source is a method with a `while` or `for` loop. Its `ensures`
ties the result to a specification function, and lemmas prove what the source
promises about that function.

## Model

| member | source | states |
|---|---|---|
| Text.Lower | evaluate.py:38 | lower-casing keeps the length and maps each character by itself; upper-case letters go to lower case, others are kept |
| Text.StripSpec | finance-rag/generate/answer.py:22 | `strip()` removes leading and trailing whitespace only: the result is a contiguous slice with no whitespace at either end, and all that is cut is whitespace |
| Text.StripIdempotent | finance-rag/generate/answer.py:22 | stripping twice is stripping once |
| Text.SplitSpec | evaluate.py:40 | `split()` yields non-empty whitespace-free words made of characters of the input |
| Text.SplitKeepsContent | evaluate.py:40 | `split()` loses only whitespace: its words put back together, in order, are the input with every whitespace character removed |
| Text.SplitJoin | evaluate.py:40 | splitting words joined by single spaces gives the words back |
| Text.JoinWordsSingleSpaced | evaluate.py:40 | joining words with one space leaves no leading, trailing or doubled space; it is empty only for no words |
| Evaluate.DropPunctChars | evaluate.py:39 | dropping punctuation keeps exactly the non-punctuation characters |
| Evaluate.DropPunctAppend | evaluate.py:39 | dropping punctuation works character by character: on a concatenation it is the concatenation of the two results |
| Evaluate.NormalizeSpec | evaluate.py:37-41 | a normalised answer has no punctuation, no upper case and is single-spaced |
| Evaluate.NormalizeIdempotent | evaluate.py:37-41 | normalising twice is normalising once |
| Evaluate.GetNumbersSpec | evaluate.py:44-45 | the numbers found are the texts of the scan's spans in the comma-free text, in order and without overlap; each has the pattern's shape and no comma |
| Evaluate.NumberEndMaximal | evaluate.py:45 | a match is as long as the pattern allows: it ends at the end of the text or before a non-digit, and one without a fraction does not stop before a '.' followed by a digit |
| Evaluate.NumberSpansMaximal | evaluate.py:45 | every match of the scan is maximal in that sense |
| Evaluate.NumberSpansCover | evaluate.py:45 | no number is missed: every digit of the comma-free text lies inside some match |
| Evaluate.NoDigitNoNumbers | evaluate.py:44-45 | a text without digits has no numbers |
| Evaluate.RemoveOneMultiset | evaluate.py:53 | removing one occurrence of a token takes exactly one copy out of the multiset |
| Evaluate.OverlapIsIntersection | evaluate.py:53-54 | the common-token count is the size of the multiset intersection (`Counter &`) |
| Evaluate.OverlapSymmetric | evaluate.py:53-54 | the common-token count does not depend on argument order |
| Evaluate.F1OfRange | evaluate.py:55-59 | F1 is 2c/(p+g) when c > 0, lies in [0, 1], is 0 exactly when nothing is shared and is 1 when both token lists equal the shared ones |
| Evaluate.TokenF1Range | evaluate.py:49-59 | token F1 lies in [0, 1] and is 0 exactly when the token multisets are disjoint |
| Evaluate.TokenF1Symmetric | evaluate.py:49-59 | token F1 is symmetric in prediction and gold |
| Evaluate.ExactMatchGivesFullF1 | evaluate.py:49-59 | equal non-empty normalised answers score F1 = 1 |
| Evaluate.ExactMatch | evaluate.py:74 | EM is 1 exactly when the normalised answers are equal, else 0 |
| Evaluate.NumTermAsWritten | evaluate.py:79 | the numeric term as written raises exactly when either number list is empty |
| Evaluate.AsWrittenFailsWithoutDigits | evaluate.py:79 | as written, any prediction without a digit makes the numeric term raise |
| Evaluate.NumMatch | evaluate.py:79 | numeric EM is 1 exactly when both lists are non-empty and their first numbers are equal |
| Evaluate.NumMatchAgrees | evaluate.py:79 | wherever the as-written term does not raise, numeric EM gives the same value |
| Evaluate.Score | evaluate.py:70-82 | every per-question metric lies in [0, 1] |
| Evaluate.DictOfLastWins | evaluate.py:64-65 | in the id-to-answer dict the last record with an id wins |
| Evaluate.DictOfKeys | evaluate.py:64-65 | every dict key comes from some record |
| Evaluate.DictKeys | evaluate.py:65-70 | the gold question ids, without repetition, are exactly the dict's keys |
| Evaluate.GoldKeys | evaluate.py:65-68 | there are no gold questions exactly when the gold file is empty |
| Evaluate.TotalsBounded | evaluate.py:67-82 | each running total is at most the number of questions |
| Evaluate.Means | evaluate.py:84-89 | averaging raises exactly when n = 0; otherwise N = n, and each mean lies in [0, 1] when each total is at most n |
| Evaluate.Accumulate | evaluate.py:70-82 | the loop's totals are the sums of the per-question scores over the gold ids |
| Evaluate.Evaluate | evaluate.py:63-89 | with the corrected numeric term, evaluate fails (division by zero) exactly when the gold file is empty; otherwise it returns the means of the totals, each in [0, 1] |
| Evaluate.ScoreAsWritten | evaluate.py:70-82 | with line 79 as written, scoring one question raises exactly when the prediction or the gold answer holds no number; otherwise it gives the corrected scores |
| Evaluate.TotalsAsWrittenSpec | evaluate.py:70-82 | the loop as written raises exactly when some gold question's pair has no number on one side; otherwise its totals are the sums of the corrected scores |
| Evaluate.NumberlessSomewhere | evaluate.py:65-70 | some position of the iteration order is such a question exactly when some gold id is |
| Evaluate.EvaluateAsWrittenFails | evaluate.py:63-89 | evaluate as written raises exactly when the gold file is empty or some gold question's prediction or gold answer holds no number |
| Evaluate.EvaluateAsWrittenAgrees | evaluate.py:63-89 | whenever evaluate as written returns, it returns the corrected means |
| Evaluate.MissingPredictionRaises | evaluate.py:71-79 | as written, a gold question without a prediction is scored against "" and makes evaluate raise |
| Evaluate.LabelsSpec | evaluate.py:64-65 | reading the records succeeds exactly when every line is a JSON object with "question_id" and the answer key; then there is one record per line, in order, holding those two values |
| Evaluate.LoadLabelsSpec | evaluate.py:28-30 | loading a file raises `JSONDecodeError` when a line does not parse, before any record is read; otherwise it reads the records as above |
| Evaluate.EvaluateFiles | evaluate.py:63-89 | evaluate on the two files: a loading error of the predictions, then of the gold file, is raised; otherwise the result is evaluate on the loaded records |
| EvaluateExample.WorkedExampleNumbers | evaluate.py:5-15 | in the docstring's example both "The net income was $3.5 million." and "3.5 million" yield exactly the number "3.5", so NumEM counts 1, as written and corrected |
| Answer.Pieces | finance-rag/generate/answer.py:21-22 | one context piece per hit |
| Answer.TokSumSnoc | finance-rag/generate/answer.py:23-27 | the running token total grows by each piece's count |
| Answer.FitIsLongestFittingPrefix | finance-rag/generate/answer.py:18-28 | the context takes the longest prefix of the passages whose token total fits the limit, stopping at the first passage that does not fit |
| Answer.FitStep | finance-rag/generate/answer.py:21-27 | one loop turn: a passage that does not fit ends the context, one that fits is taken and its tokens are charged |
| Answer.BuildCtx | finance-rag/generate/answer.py:18-28 | the loop builds the fitting prefix joined by blank lines |
| Answer.NumericMatches | finance-rag/generate/answer.py:47-48 | every match starts with a digit and holds only digits, commas and periods |
| Answer.NumericSpansText | finance-rag/generate/answer.py:47-48 | the k-th match is the text of t between the k-th span's start and end |
| Answer.NumericSpansShape | finance-rag/generate/answer.py:47-48 | each span starts at a digit and is greedy, ending at the end of the text or before a character outside `[\d,\.]`; the spans are in order and do not overlap |
| Answer.NumericSpansCover | finance-rag/generate/answer.py:47-48 | no digit is skipped: every digit of the text lies inside some span |
| Answer.NumericSetEmpty | finance-rag/generate/answer.py:47-48 | an answer has no numeric token exactly when it has no digit |
| Answer.TrailingPeriodKept | finance-rag/generate/answer.py:47 | the pattern keeps a trailing period: "42." yields "42." |
| Answer.ChooseAnswer | finance-rag/generate/answer.py:44-52 | the choice is one of the two answers and never longer than the first; with no shared number it is the first answer; with a shared number it is the shorter, the first on a tie |
| Answer.ChooseWithoutDigits | finance-rag/generate/answer.py:44-52 | with no shared number (here: one answer has no digit) the first answer is kept |
| Answer.ChooseSymmetric | finance-rag/generate/answer.py:49-51 | with a shared number and different lengths, the choice (the shorter) does not depend on order |
| Answer.AnswerPaths | finance-rag/generate/answer.py:69-103 | one LLM call with the full context when the prompt fits the window; otherwise two calls on the two halves of the hits and the chosen answer; the id and model are copied and the answer is among the raw answers |
| Answer.AnswerRecordOf | finance-rag/generate/answer.py:69-103 | the per-record body computes that answer record |
| Answer.Generate | finance-rag/generate/answer.py:55-103 | one result per input record, in order, each the record's answer |
| Rerank.Rescored | rerank.py:44-45 | rescoring keeps the number of hits |
| Rerank.RescoredByPosition | rerank.py:44-45 | the i-th hit gets the i-th score and keeps everything else |
| Rerank.Rescore | rerank.py:44-45 | the array in place becomes the rescored hits |
| Rerank.FirstBelowSplits | rerank.py:46 | in a sorted list the hits scoring at least x come before those scoring less |
| Rerank.InsertSorted | rerank.py:46 | inserting into a sorted list keeps it sorted and adds exactly the new hit |
| Rerank.SortDescSortedPermutation | rerank.py:46 | the sort gives a descending permutation of the hits |
| Rerank.InsertStable | rerank.py:46 | inserting keeps the order of the hits of every score, the new one last |
| Rerank.SortDescStable | rerank.py:46 | the sort is stable: the hits of each score keep their input order |
| Rerank.ShiftLower | rerank.py:46 | moving the lower-scoring hits up by one leaves the rest in place and finds where the key goes |
| Rerank.InsertLast | rerank.py:46 | one insertion step on the array inserts the next hit into the sorted prefix and leaves the suffix alone |
| Rerank.SortByScoreDesc | rerank.py:46 | the in-place sort of the array gives the specified stable descending sort |
| Rerank.TruncatePrefix | rerank.py:48-49 | truncation keeps a prefix: all hits when top_k is None or 0, min(top_k, n) when positive, and n + top_k (at least 0) when negative |
| Rerank.RankedDense | rerank.py:51-52 | ranks become 1, 2, 3, ... and nothing else changes |
| Rerank.AssignRanks | rerank.py:51-52 | the in-place loop assigns those ranks |
| Rerank.RerankedSpec | rerank.py:39-52 | a reranked record keeps its id and query; its hits are a prefix of a sorted permutation of the rescored hits, ranked from 1, never more than before, and all of them without top_k |
| Rerank.RerankRecord | rerank.py:39-52 | the loop body on one record computes the reranked record |
| Rerank.RerankFile | rerank.py:39-52 | every record of the file is replaced by its reranked version under the cross-encoder's scores |
| PreRetrieval.ExpandSpec | pre_retrieval.py:17-37 | at most max_retries calls; every call but the last hit a rate limit or quota error; a call count below the maximum means the last outcome was final; the sleeps double from `delay`, one fewer than the calls; the result is the stripped reply or the original query |
| PreRetrieval.ExpandOtherErrorStops | pre_retrieval.py:28-36 | an error that is not a rate limit gives the query back after one call, with no sleep |
| PreRetrieval.ExpandGivesUp | pre_retrieval.py:29-37 | when every call is rate-limited the query comes back after max_retries calls and max_retries - 1 sleeps |
| PreRetrieval.ExpandQuery | pre_retrieval.py:17-37 | the retry loop computes the expansion |
| PreRetrieval.ExpanderCalls | pre_retrieval.py:19 | an expansion never makes more than 3 calls |
| PreRetrieval.ProcessedIdsSpec | pre_retrieval.py:45-53 | an id is processed exactly when some parseable object line of the existing output has it ("" when absent) |
| PreRetrieval.ProcessedIdsConcat | pre_retrieval.py:45-53 | the ids of two files together are the union of their ids |
| PreRetrieval.LoadProcessedIds | pre_retrieval.py:45-53 | the loop over the existing output collects those ids |
| PreRetrieval.StepSpec | pre_retrieval.py:60-66 | one input record is appended, expanded, exactly when its id is new; a non-object record raises, and so does a new one without "text" |
| PreRetrieval.RunCompletes | pre_retrieval.py:57-64 | the run ends without error exactly when every input record is an object and every new one has "text" |
| PreRetrieval.RunAppendsPending | pre_retrieval.py:59-66 | what the run appends is, in order, the new records with the expansion added, and all of them when no error occurs |
| PreRetrieval.DuplicateIdsBothAppended | pre_retrieval.py:61-64 | two new input records with the same id are both appended: the skip set is not updated during a run |
| PreRetrieval.ExtendedIds | pre_retrieval.py:64-65 | adding the expanded question keeps the record's id |
| PreRetrieval.PendingIds | pre_retrieval.py:59-66 | the ids of the appended records are exactly the input ids not already processed: every new id, and never one already in the output |
| PreRetrieval.InputIdsSpec | pre_retrieval.py:61 | every object input record's id is among the input ids |
| PreRetrieval.ResumeIds | pre_retrieval.py:45-66 | after a complete run the output file's processed ids are the old ones plus every input id |
| PreRetrieval.SecondRunAppendsNothing | pre_retrieval.py:45-66 | running again on the completed output appends nothing and calls the API no more |
| PreRetrieval.RunCallsBound | pre_retrieval.py:19-64 | a run makes at most 3 API calls per appended record |
| PreRetrieval.JsonlFile.Append | pre_retrieval.py:65-66 | appending a record adds exactly one line at the end of the file |
| PreRetrieval.Step | pre_retrieval.py:60-68 | one loop turn appends that step's records to the file |
| PreRetrieval.RunLoop | pre_retrieval.py:59-68 | the loop over the inputs appends the run's records, stopping at the first exception |
| PreRetrieval.RunOn | pre_retrieval.py:39-68 | run raises on an unparseable input line before appending anything; otherwise the output file grows by exactly the records of the specified run |
| Retrieve.CorpusSpec | finance-rag/retrieval/retrieve.py:8-20 | loading succeeds exactly when every corpus line is a JSON object; then texts and ids are parallel, one per line, from "text" and "doc_id" ("" when absent) |
| Retrieve.CorpusFailureStays | finance-rag/retrieval/retrieve.py:14-15 | once a line has raised, later lines change nothing |
| Retrieve.FlattenConcat | finance-rag/retrieval/retrieve.py:11-14 | the lines of two groups of files are the lines of the first group and then of the second |
| Retrieve.LoadFile | finance-rag/retrieval/retrieve.py:14-19 | the loop over one file's lines extends the corpus as specified |
| Retrieve.LoadCorpus | finance-rag/retrieval/retrieve.py:8-20 | the nested loops compute the specified corpus or the first error |
| Retrieve.BatchesConcat | finance-rag/retrieval/retrieve.py:24-25 | the batches put back together are the texts |
| Retrieve.BatchesShape | finance-rag/retrieval/retrieve.py:24-25 | each batch holds 1 to batch_size texts, only the last fewer, and there are ceil(n / batch_size) of them |
| Retrieve.EmbeddingsPerBatch | finance-rag/retrieval/retrieve.py:24-27 | the collected embeddings are the encoder's output for each batch, in order |
| Retrieve.StackedRows | finance-rag/retrieval/retrieve.py:24-28 | with a per-text encoder, the stacked rows from position i are the rows of the texts from i |
| Retrieve.EncodedRowPerText | finance-rag/retrieval/retrieve.py:22-28 | with a per-text encoder, encoding gives one row per text, in order, whatever the batch size |
| Retrieve.EncodeTexts | finance-rag/retrieval/retrieve.py:22-28 | the batching loop stacks the batch encodings; no texts or a batch size of 0 or less raises |
| Retrieve.HitsSpec | finance-rag/retrieval/retrieve.py:60-66 | the hits fail exactly when some index is outside [-n, n); otherwise hit r has rank r + 1, the r-th score and the id and text of the same passage |
| Retrieve.MinusOneIsLastPassage | finance-rag/retrieval/retrieve.py:64-65 | a FAISS padding index of -1 reads the last passage instead of raising |
| Retrieve.BuildHits | finance-rag/retrieval/retrieve.py:59-66 | the inner loop builds those hits over the zip of a score row and an index row |
| Retrieve.RecordsWritten | finance-rag/retrieval/retrieve.py:58-71 | records are produced exactly when every query has its rows in D and I, readable hits, a question_id and an expanded_question |
| Retrieve.RecordsContents | finance-rag/retrieval/retrieve.py:67-71 | one record per query in order, with the query's question_id, its expanded question and its hits |
| Retrieve.WriteRecords | finance-rag/retrieval/retrieve.py:57-73 | the output loop produces those records or the first error |
| Retrieve.EmptyCorpusFails | finance-rag/retrieval/retrieve.py:35-38 | an empty corpus raises when it is encoded |
| Retrieve.QueryTextsOf | finance-rag/retrieval/retrieve.py:50 | the query texts are the queries' expanded questions, or the first error |
| Retrieve.RunRetrieval | finance-rag/retrieval/retrieve.py:30-75 | run_retrieval loads, encodes, searches and assembles as specified, stopping at the first exception |

## Left out

- File and directory I/O, `argparse`, `print`, `tqdm`, `load_dotenv`, the API-key check, `os.makedirs`: the model takes and returns sequences of lines instead.
- The OpenAI chat APIs, the tiktoken tokenizer, the sentence encoder, the cross-encoder and the FAISS index are parameters. Their internals (embedding values, cosine similarity, tokenization) are not modelled.
- Floating point: scores, sleeps and metric averages are exact reals.
- `time.sleep` does not wait: the model records each sleep's duration in order.
- Characters are ASCII. `str.lower`, `str.isspace`, `string.punctuation` and `\d` are modelled on the ASCII range only.
- JSON values other than strings inside an object are not modelled: a record is a map from keys to strings.
- A chat reply with `None` content, whose `.strip()` raises inside the `try`, is modelled as an ordinary non-rate-limit error.
- Retrieve.RunRetrieval: a run that raises during the output loop leaves the records written so far in the output file; the model returns only the error.
- Answer.Generate: a record without "question_id", "query" or "hits" raises `KeyError` in the source. The model takes records already in `RetrievalRecord` form, and the answers are written only after the loop.
- Evaluate.Score / Evaluate.Evaluate: compute the corrected numeric term of evaluate.py:79 (0 when either side has no number) where the source raises `TypeError`. Evaluate.EvaluateAsWritten models the line as written, and Evaluate.EvaluateAsWrittenFails and Evaluate.EvaluateAsWrittenAgrees relate the two.
- Evaluate.Evaluate: takes the records already loaded. The loading errors of evaluate.py:28-30 and 64-65 (`JSONDecodeError` for a line that does not parse, `KeyError` for a missing "question_id", "answer" or "gold_answer") are modelled by Evaluate.EvaluateFiles over the files' parsed lines. JSON syntax itself is not modelled: a line is given as parsed or unparseable, and a value is a string.
- EvaluateExample.WorkedExampleNumbers: covers the numeric part of the docstring example only. Its EM of 0 and F1 of 0.5 depend on normalising the literal strings, which is not computed here.
- The order of `os.listdir` is the order of the sequence of corpus files given to the model.
- `prepare_dataset.py` is not part of this model.
- The search results `D` and `I` are modelled as given. FAISS pads missing results with index -1, which Python reads as the last passage (Retrieve.MinusOneIsLastPassage). The hits are not "all passages" when the corpus is smaller than top_k.
- Rerank.RerankFile: a record without "query" or "hits", or a hit without "text", raises `KeyError` in the source (rerank.py:37, 40-41). The model takes records already in `RetrievalRecord` form, so these error paths are not modelled.
- Answer.Generate: a failing `call_llm` (an API error, with no retry) aborts the whole run, and no answer file is written. The model's `llm` parameter always returns an answer, so this path is not modelled.
- Rerank.RerankFile: the cross-encoder's `batch_size` and `device` only affect how scores are computed, so they are not modelled. A score list shorter than the hits rescores only a prefix, as `zip` does.

## Findings

| source | as written | input that shows it | evidently intended | confidence | as-written member | corrected member |
|---|---|---|---|---|---|---|
| evaluate.py:79 | `int(nums_pred and nums_gold and nums_pred[0] == nums_gold[0])`. When either list is empty, the `and` chain yields that empty list, and `int([])` raises `TypeError` | prediction "unknown" with gold "3.5 million": `get_numbers("unknown")` is `[]` | count 0 for this question when either side has no number | not executed | Evaluate.NumTermAsWritten, Evaluate.AsWrittenFailsWithoutDigits, Evaluate.EvaluateAsWrittenFails, Evaluate.MissingPredictionRaises | Evaluate.NumMatch, Evaluate.NumMatchAgrees, Evaluate.EvaluateAsWrittenAgrees |
