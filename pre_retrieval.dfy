/** pre_retrieval.py: keyword expansion of each question through a chat
    model, with exponential backoff on rate-limit errors, and a resumable
    run that appends one expanded record per unprocessed question to a JSON
    Lines file. The chat API is a parameter: `api(req, n)` is the outcome of
    the n-th call of the run, so every call may answer differently. */
module PreRetrieval {
  import opened Wrappers
  import opened Text
  import opened Records

  // ---------- expand_query ----------

  const KeywordModel := "gpt-3.5-turbo"
  const KeywordMaxTokens := 50
  /** The defaults run() relies on: `max_retries=3, delay=1`. */
  const MaxRetries := 3
  const FirstDelay: real := 1.0

  datatype Request = Request(model: string, prompt: string, maxTokens: int, temperature: real)

  /** What one chat completion call produces: the message content, or the
      text of the exception it raised. */
  datatype CallOutcome = Reply(content: string) | Error(message: string)

  /** The request expand_query sends for question q. */
  function KeywordRequest(q: string): Request
  {
    Request(KeywordModel, "Extract keywords:\n" + q, KeywordMaxTokens, 0.0)
  }

  /** The error text, lower-cased, mentions "rate_limit" or "quota". */
  predicate IsRateLimit(message: string) {
    Contains(Lower(message), "rate_limit") || Contains(Lower(message), "quota")
  }

  predicate IsRetryable(o: CallOutcome) { o.Error? && IsRateLimit(o.message) }

  /** The returned text, the sleeps taken (in seconds, in order) and the
      number of calls made. */
  datatype Expansion = Expansion(text: string, sleeps: seq<real>, calls: nat)

  /** 2 to the power k. */
  function Pow2(k: nat): real
  {
    if k == 0 then 1.0 else 2.0 * Pow2(k - 1)
  }

  /** The retry loop from attempt `attempt` on, with the current delay.
      The calls are numbered from `first`. */
  function ExpandFrom(q: string, api: (Request, nat) -> CallOutcome, first: nat,
                      maxRetries: int, attempt: nat, delay: real): Expansion
    decreases maxRetries - attempt
  {
    if attempt >= maxRetries then Expansion(q, [], attempt)
    else match api(KeywordRequest(q), first + attempt)
      case Reply(content) => Expansion(Strip(content), [], attempt + 1)
      case Error(message) =>
        if IsRateLimit(message) && attempt < maxRetries - 1 then
          var rest := ExpandFrom(q, api, first, maxRetries, attempt + 1, delay * 2.0);
          rest.(sleeps := [delay] + rest.sleeps)
        else Expansion(q, [], attempt + 1)
  }

  /** expand_query(q, max_retries, delay). */
  function Expand(q: string, api: (Request, nat) -> CallOutcome, first: nat,
                  maxRetries: int, delay: real): Expansion
  {
    ExpandFrom(q, api, first, maxRetries, 0, delay)
  }

  /** The outcome of call number first + i of expand_query on q. */
  function CallAt(q: string, api: (Request, nat) -> CallOutcome, first: nat, i: nat): CallOutcome
  {
    api(KeywordRequest(q), first + i)
  }

  /** The outcome of the last call an expansion made. */
  function LastOutcome(q: string, api: (Request, nat) -> CallOutcome, first: nat, r: Expansion): CallOutcome
  {
    api(KeywordRequest(q), if r.calls > 0 then first + r.calls - 1 else first)
  }

  /** From attempt a on, the loop makes between one call and the rest of
      its max_retries, and sleeps once between consecutive calls. */
  lemma {:induction false} ExpandFromCalls(q: string, api: (Request, nat) -> CallOutcome, first: nat,
                                           maxRetries: int, a: nat, delay: real)
    requires a < maxRetries
    ensures var r := ExpandFrom(q, api, first, maxRetries, a, delay);
            a < r.calls <= maxRetries && |r.sleeps| == r.calls - 1 - a
    decreases maxRetries - a
  {
    var o := api(KeywordRequest(q), first + a);
    if o.Error? && IsRateLimit(o.message) && a < maxRetries - 1 {
      ExpandFromCalls(q, api, first, maxRetries, a + 1, delay * 2.0);
    }
  }

  /** The k-th of the sleeps is delay doubled k times. */
  predicate Doubling(sleeps: seq<real>, delay: real) {
    forall k :: 0 <= k < |sleeps| ==> sleeps[k] == delay * Pow2(k)
  }

  /** Doubling sleeps stay doubling with one more sleep in front. */
  lemma DoublingFrom(delay: real, rest: seq<real>)
    requires Doubling(rest, delay * 2.0)
    ensures Doubling([delay] + rest, delay)
  {
    forall k | 0 < k < |rest| + 1
      ensures ([delay] + rest)[k] == delay * Pow2(k)
    {
      var x := Pow2(k - 1);
      assert ([delay] + rest)[k] == rest[k - 1] == (delay * 2.0) * x;
      assert Pow2(k) == 2.0 * x;
      assert (delay * 2.0) * x == delay * (2.0 * x);
    }
  }

  /** The loop sleeps only between two attempts, after a rate-limit error. */
  lemma ExpandFromSleepStep(q: string, api: (Request, nat) -> CallOutcome, first: nat,
                            maxRetries: int, a: nat, delay: real)
    ensures var r := ExpandFrom(q, api, first, maxRetries, a, delay);
            if a < maxRetries - 1 && IsRetryable(CallAt(q, api, first, a))
            then r.sleeps == [delay] + ExpandFrom(q, api, first, maxRetries, a + 1, delay * 2.0).sleeps
            else r.sleeps == []
  {
  }

  /** The k-th sleep is the starting delay doubled k times. */
  lemma {:induction false} ExpandFromSleeps(q: string, api: (Request, nat) -> CallOutcome, first: nat,
                                            maxRetries: int, a: nat, delay: real)
    ensures Doubling(ExpandFrom(q, api, first, maxRetries, a, delay).sleeps, delay)
    decreases maxRetries - a
  {
    ExpandFromSleepStep(q, api, first, maxRetries, a, delay);
    if a < maxRetries - 1 && IsRetryable(CallAt(q, api, first, a)) {
      var rest := ExpandFrom(q, api, first, maxRetries, a + 1, delay * 2.0);
      ExpandFromSleeps(q, api, first, maxRetries, a + 1, delay * 2.0);
      DoublingFrom(delay, rest.sleeps);
    }
  }

  /** From attempt a on, every call but the last failed with a rate-limit
      error, the loop stops before max_retries calls only on a reply or
      another error, and the text is the stripped last reply or q. */
  lemma {:induction false} ExpandFromOutcomes(q: string, api: (Request, nat) -> CallOutcome, first: nat,
                                              maxRetries: int, a: nat, delay: real)
    requires a < maxRetries
    ensures var r := ExpandFrom(q, api, first, maxRetries, a, delay);
            var last := LastOutcome(q, api, first, r);
            && (forall i: nat :: a <= i < r.calls - 1 ==> IsRetryable(CallAt(q, api, first, i)))
            && (r.calls < maxRetries ==> !IsRetryable(last))
            && r.text == (if last.Reply? then Strip(last.content) else q)
    decreases maxRetries - a
  {
    var o := api(KeywordRequest(q), first + a);
    ExpandFromCalls(q, api, first, maxRetries, a, delay);
    if o.Error? && IsRateLimit(o.message) && a < maxRetries - 1 {
      ExpandFromOutcomes(q, api, first, maxRetries, a + 1, delay * 2.0);
      ExpandFromCalls(q, api, first, maxRetries, a + 1, delay * 2.0);
    }
  }

  /** expand_query makes at most max_retries calls (none when it is not
      positive, and then returns q). Every call but the last hit a rate
      limit; it stops early only on a reply or another error; it sleeps
      delay, 2*delay, 4*delay, ... between consecutive calls, never after
      the last; and it returns the stripped reply, or q. */
  lemma ExpandSpec(q: string, api: (Request, nat) -> CallOutcome, first: nat, maxRetries: int, delay: real)
    ensures var r := Expand(q, api, first, maxRetries, delay);
            var last := LastOutcome(q, api, first, r);
            && (maxRetries <= 0 ==> r == Expansion(q, [], 0))
            && (maxRetries > 0 ==>
                  && 0 < r.calls <= maxRetries
                  && |r.sleeps| == r.calls - 1
                  && Doubling(r.sleeps, delay)
                  && (forall i: nat :: i < r.calls - 1 ==> IsRetryable(CallAt(q, api, first, i)))
                  && (r.calls < maxRetries ==> !IsRetryable(last))
                  && r.text == (if last.Reply? then Strip(last.content) else q))
  {
    if maxRetries > 0 {
      ExpandFromCalls(q, api, first, maxRetries, 0, delay);
      ExpandFromSleeps(q, api, first, maxRetries, 0, delay);
      ExpandFromOutcomes(q, api, first, maxRetries, 0, delay);
    }
  }

  /** An error that is not a rate-limit error ends expand_query at once:
      q comes back, after one call and no sleep. */
  lemma ExpandOtherErrorStops(q: string, api: (Request, nat) -> CallOutcome, first: nat, maxRetries: int, delay: real)
    requires maxRetries > 0
    requires api(KeywordRequest(q), first).Error? && !IsRateLimit(api(KeywordRequest(q), first).message)
    ensures Expand(q, api, first, maxRetries, delay) == Expansion(q, [], 1)
  {
  }

  /** When every call is rate-limited, expand_query gives up after
      max_retries calls and max_retries - 1 sleeps and returns q: the last
      rate-limit error is not followed by a sleep. */
  lemma ExpandGivesUp(q: string, api: (Request, nat) -> CallOutcome, first: nat, maxRetries: int, delay: real)
    requires maxRetries > 0
    requires forall i: nat :: i < maxRetries ==> IsRetryable(CallAt(q, api, first, i))
    ensures var r := Expand(q, api, first, maxRetries, delay);
            r.text == q && r.calls == maxRetries && |r.sleeps| == maxRetries - 1
  {
    ExpandSpec(q, api, first, maxRetries, delay);
    var r := Expand(q, api, first, maxRetries, delay);
    assert LastOutcome(q, api, first, r) == CallAt(q, api, first, r.calls - 1);
  }

  /** expand_query(): the `for attempt in range(max_retries)` loop, with the
      sleeps it takes recorded instead of slept. */
  method ExpandQuery(q: string, api: (Request, nat) -> CallOutcome, first: nat, maxRetries: int, delay: real)
    returns (r: Expansion)
    ensures r == Expand(q, api, first, maxRetries, delay)
  {
    var req := KeywordRequest(q);
    var attempt: nat := 0;
    var d := delay;
    var sleeps: seq<real> := [];
    while attempt < maxRetries
      invariant var rest := ExpandFrom(q, api, first, maxRetries, attempt, d);
                Expand(q, api, first, maxRetries, delay) == rest.(sleeps := sleeps + rest.sleeps)
      decreases maxRetries - attempt
    {
      var outcome := api(req, first + attempt);
      match outcome {
        case Reply(content) =>
          return Expansion(Strip(content), sleeps, attempt + 1);
        case Error(message) =>
          if IsRateLimit(message) && attempt < maxRetries - 1 {
            ghost var rest := ExpandFrom(q, api, first, maxRetries, attempt + 1, d * 2.0);
            assert sleeps + ([d] + rest.sleeps) == (sleeps + [d]) + rest.sleeps;
            sleeps := sleeps + [d];
            d := d * 2.0;
            attempt := attempt + 1;
          } else {
            return Expansion(q, sleeps, attempt + 1);
          }
      }
    }
    r := Expansion(q, sleeps, attempt);
  }

  // ---------- run: resume and append ----------

  const IdKey := "_id"
  const TextKey := "text"
  const ExpandedKey := "expanded_question"
  /** The pause after each appended record, `time.sleep(0.5)`. */
  const Pause: real := 0.5

  /** `ex.get('_id', '')` */
  function IdOf(fields: map<string, string>): string
  {
    if IdKey in fields then fields[IdKey] else ""
  }

  predicate HasId(l: Line, id: string) {
    l.Parsed? && l.value.Object? && IdOf(l.value.fields) == id
  }

  /** The ids of the parseable object lines already in the output file;
      every other line is skipped. */
  function ProcessedIds(lines: seq<Line>): set<string>
  {
    if lines == [] then {}
    else
      var l := lines[|lines| - 1];
      ProcessedIds(lines[..|lines| - 1]) + (if l.Parsed? && l.value.Object? then {IdOf(l.value.fields)} else {})
  }

  lemma {:induction false} ProcessedIdsSpec(lines: seq<Line>, id: string)
    ensures id in ProcessedIds(lines) <==> exists k :: 0 <= k < |lines| && HasId(lines[k], id)
  {
    if lines != [] {
      var init := lines[..|lines| - 1];
      ProcessedIdsSpec(init, id);
      if id in ProcessedIds(init) {
        var k :| 0 <= k < |init| && HasId(init[k], id);
        assert lines[k] == init[k];
      }
      if exists k :: 0 <= k < |lines| && HasId(lines[k], id) {
        var k :| 0 <= k < |lines| && HasId(lines[k], id);
        if k < |init| {
          assert init[k] == lines[k];
        }
      }
    }
  }

  lemma {:induction false} ProcessedIdsConcat(a: seq<Line>, b: seq<Line>)
    ensures ProcessedIds(a + b) == ProcessedIds(a) + ProcessedIds(b)
  {
    if b == [] {
      assert a + b == a;
    } else {
      assert (a + b)[..|a + b| - 1] == a + b[..|b| - 1];
      ProcessedIdsConcat(a, b[..|b| - 1]);
    }
  }

  /** What a run did: the records it appended, the sleeps it took, the
      API calls it made and the exception that ended it, if any. */
  datatype RunLog = RunLog(appended: seq<map<string, string>>, sleeps: seq<real>, calls: nat, error: Option<string>)

  /** How run() expands a question: expand_query with its defaults, the
      calls numbered from `first`. */
  function Expander(api: (Request, nat) -> CallOutcome): (string, nat) -> Expansion
  {
    (q: string, first: nat) => Expand(q, api, first, MaxRetries, FirstDelay)
  }

  /** What one iteration of run()'s loop does with input record ex, with
      `done` the ids found in the output file beforehand: a non-object fails
      in `ex.get`, a processed id is skipped, an unprocessed object without
      "text" fails in `ex["text"]`, and any other is expanded, appended and
      followed by the pause. */
  function StepOf(ex: Json, done: set<string>, expand: (string, nat) -> Expansion, first: nat): RunLog
  {
    match ex
    case NonObject => RunLog([], [], 0, Some("AttributeError"))
    case Object(f) =>
      if IdOf(f) in done then RunLog([], [], 0, None)
      else if TextKey !in f then RunLog([], [], 0, Some("KeyError"))
      else
        var e := expand(f[TextKey], first);
        RunLog([f[ExpandedKey := e.text]], e.sleeps + [Pause], e.calls, None)
  }

  /** Two stretches of a run, one after the other. */
  function Then(a: RunLog, b: RunLog): RunLog
  {
    RunLog(a.appended + b.appended, a.sleeps + b.sleeps, a.calls + b.calls, b.error)
  }

  /** run()'s loop over the parsed input. `done` is not updated while the
      loop runs; an exception ends it, and what was appended before stays. */
  function RunFrom(input: seq<Json>, done: set<string>, expand: (string, nat) -> Expansion, first: nat): RunLog
    decreases |input|
  {
    if input == [] then RunLog([], [], 0, None)
    else
      var step := StepOf(input[0], done, expand, first);
      if step.error.Some? then step
      else Then(step, RunFrom(input[1..], done, expand, first + step.calls))
  }

  predicate AllParsed(input: seq<Line>) {
    forall k :: 0 <= k < |input| ==> input[k].Parsed?
  }

  function Values(input: seq<Line>): (vs: seq<Json>)
    requires AllParsed(input)
    ensures |vs| == |input|
    ensures forall k :: 0 <= k < |input| ==> input[k] == Parsed(vs[k])
  {
    seq(|input|, k requires 0 <= k < |input| && input[k].Parsed? => input[k].value)
  }

  /** run(in_file, out_file) on the input lines and the lines the output
      file held before: every input line is parsed first, so one invalid
      line ends the run before anything is appended. */
  function Run(input: seq<Line>, existing: seq<Line>, api: (Request, nat) -> CallOutcome): RunLog
  {
    if !AllParsed(input) then RunLog([], [], 0, Some("JSONDecodeError"))
    else RunFrom(Values(input), ProcessedIds(existing), Expander(api), 0)
  }

  /** The lines json.dump writes for the appended records. */
  function Written(records: seq<map<string, string>>): seq<Line>
  {
    if records == [] then []
    else Written(records[..|records| - 1]) + [Parsed(Object(records[|records| - 1]))]
  }

  lemma {:induction false} WrittenConcat(a: seq<map<string, string>>, b: seq<map<string, string>>)
    ensures Written(a + b) == Written(a) + Written(b)
  {
    if b != [] {
      assert (a + b)[..|a + b| - 1] == a + b[..|b| - 1];
      WrittenConcat(a, b[..|b| - 1]);
    } else {
      assert a + b == a;
    }
  }

  /** The input objects whose id was not processed before, in input order,
      duplicates included. */
  function Pending(input: seq<Json>, done: set<string>): seq<map<string, string>>
  {
    if input == [] then []
    else PendingOne(input[0], done) + Pending(input[1..], done)
  }

  /** The pending records of one input record. */
  function PendingOne(ex: Json, done: set<string>): seq<map<string, string>>
  {
    if ex.Object? && IdOf(ex.fields) !in done then [ex.fields] else []
  }

  /** The run ends without an error exactly when every input line is an
      object and every unprocessed one has a "text" field. */
  predicate Completes(input: seq<Json>, done: set<string>) {
    forall k :: 0 <= k < |input| ==>
      input[k].Object? && (IdOf(input[k].fields) !in done ==> TextKey in input[k].fields)
  }

  /** Each of rs is the record at the same place in p, extended with
      "expanded_question"; rs may be shorter than p. */
  predicate Extends(rs: seq<map<string, string>>, p: seq<map<string, string>>) {
    && |rs| <= |p|
    && forall i :: 0 <= i < |rs| ==> ExpandedKey in rs[i] && rs[i] == p[i][ExpandedKey := rs[i][ExpandedKey]]
  }

  lemma ExtendsConcat(a: seq<map<string, string>>, pa: seq<map<string, string>>,
                      b: seq<map<string, string>>, pb: seq<map<string, string>>)
    requires Extends(a, pa) && |a| == |pa| && Extends(b, pb)
    ensures Extends(a + b, pa + pb)
  {
    forall i | |a| <= i < |a + b|
      ensures (a + b)[i] == b[i - |a|] && (pa + pb)[i] == pb[i - |a|]
    {
    }
  }

  lemma CompletesCons(input: seq<Json>, done: set<string>)
    requires input != []
    ensures Completes(input, done) <==>
              && input[0].Object?
              && (IdOf(input[0].fields) !in done ==> TextKey in input[0].fields)
              && Completes(input[1..], done)
  {
    var tail := input[1..];
    if Completes(input, done) {
      forall k | 0 <= k < |tail|
        ensures tail[k].Object? && (IdOf(tail[k].fields) !in done ==> TextKey in tail[k].fields)
      {
        assert tail[k] == input[k + 1];
      }
    }
  }

  /** One step appends the record's pending part, extended, unless it fails;
      it fails exactly on a non-object or an unprocessed record without text. */
  lemma StepSpec(ex: Json, done: set<string>, expand: (string, nat) -> Expansion, first: nat)
    ensures var step := StepOf(ex, done, expand, first);
            && Extends(step.appended, PendingOne(ex, done))
            && (step.error == None <==> ex.Object? && (IdOf(ex.fields) !in done ==> TextKey in ex.fields))
            && (step.error == None ==> |step.appended| == |PendingOne(ex, done)|)
  {
  }

  /** The run ends without an error exactly when every input record is an
      object and every unprocessed one has a "text" field. */
  lemma {:induction false} RunCompletes(input: seq<Json>, done: set<string>, expand: (string, nat) -> Expansion, first: nat)
    ensures RunFrom(input, done, expand, first).error == None <==> Completes(input, done)
    decreases |input|
  {
    if input != [] {
      var step := StepOf(input[0], done, expand, first);
      StepSpec(input[0], done, expand, first);
      CompletesCons(input, done);
      if step.error == None {
        RunCompletes(input[1..], done, expand, first + step.calls);
      }
    }
  }

  /** The appended records are the pending records, in order, each extended
      with "expanded_question": all of them when the run completes, a prefix
      otherwise. */
  lemma {:induction false} RunAppendsPending(input: seq<Json>, done: set<string>, expand: (string, nat) -> Expansion, first: nat)
    ensures var r := RunFrom(input, done, expand, first);
            && Extends(r.appended, Pending(input, done))
            && (r.error == None ==> |r.appended| == |Pending(input, done)|)
    decreases |input|
  {
    if input != [] {
      var step := StepOf(input[0], done, expand, first);
      StepSpec(input[0], done, expand, first);
      if step.error == None {
        var rest := RunFrom(input[1..], done, expand, first + step.calls);
        RunAppendsPending(input[1..], done, expand, first + step.calls);
        ExtendsConcat(step.appended, PendingOne(input[0], done), rest.appended, Pending(input[1..], done));
      }
    }
  }

  /** Each pending record is appended, even when its id repeats an earlier
      input record's: the processed set is fixed for the whole run. */
  lemma DuplicateIdsBothAppended(f: map<string, string>, g: map<string, string>, done: set<string>,
                                 expand: (string, nat) -> Expansion)
    requires IdOf(f) == IdOf(g) && IdOf(f) !in done
    requires TextKey in f && TextKey in g
    ensures |RunFrom([Object(f), Object(g)], done, expand, 0).appended| == 2
  {
    var input := [Object(f), Object(g)];
    RunAppendsPending(input, done, expand, 0);
    RunCompletes(input, done, expand, 0);
    assert input[1..] == [Object(g)];
    assert input[1..][1..] == [];
    assert Pending(input[1..], done) == [g];
    assert Pending(input, done) == [f, g];
    CompletesCons(input, done);
    CompletesCons(input[1..], done);
  }

  /** The ids of the input objects. */
  function InputIds(input: seq<Json>): set<string>
  {
    if input == [] then {}
    else (if input[0].Object? then {IdOf(input[0].fields)} else {}) + InputIds(input[1..])
  }

  lemma WrittenOne(f: map<string, string>)
    ensures Written([f]) == [Parsed(Object(f))]
  {
    assert [f][..0] == [];
  }

  /** The records appended carry exactly the input ids not yet processed:
      every new id, and never an id already in the output. */
  lemma {:induction false} PendingIds(input: seq<Json>, done: set<string>)
    ensures ProcessedIds(Written(Pending(input, done))) == InputIds(input) - done
    decreases |input|
  {
    if input != [] {
      var tail := input[1..];
      var head := PendingOne(input[0], done);
      PendingIds(tail, done);
      WrittenConcat(head, Pending(tail, done));
      ProcessedIdsConcat(Written(head), Written(Pending(tail, done)));
      if head != [] {
        WrittenOne(input[0].fields);
        assert [Parsed(Object(input[0].fields))][..0] == [];
      }
    }
  }

  lemma ProcessedIdsSnoc(w: seq<Line>, f: map<string, string>)
    ensures ProcessedIds(w + [Parsed(Object(f))]) == ProcessedIds(w) + {IdOf(f)}
  {
    assert (w + [Parsed(Object(f))])[..|w|] == w;
  }

  /** Adding "expanded_question" leaves a record's id alone. */
  lemma IdOfExtended(f: map<string, string>, v: string)
    ensures IdOf(f[ExpandedKey := v]) == IdOf(f)
  {
    assert IdKey != ExpandedKey by { assert |IdKey| != |ExpandedKey|; }
  }

  /** Records extending the pending ones carry the same ids. */
  lemma {:induction false} ExtendedIds(rs: seq<map<string, string>>, p: seq<map<string, string>>)
    requires |rs| == |p| && Extends(rs, p)
    ensures ProcessedIds(Written(rs)) == ProcessedIds(Written(p))
  {
    if rs != [] {
      var n := |rs| - 1;
      assert Extends(rs[..n], p[..n]) by {
        forall i | 0 <= i < n
          ensures rs[..n][i] == rs[i] && p[..n][i] == p[i]
        {
        }
      }
      ExtendedIds(rs[..n], p[..n]);
      ProcessedIdsSnoc(Written(rs[..n]), rs[n]);
      ProcessedIdsSnoc(Written(p[..n]), p[n]);
      IdOfExtended(p[n], rs[n][ExpandedKey]);
    }
  }

  /** After a run that completes, the output file's ids are the ids it had
      before together with every input id. */
  lemma ResumeIds(input: seq<Line>, existing: seq<Line>, api: (Request, nat) -> CallOutcome)
    requires Run(input, existing, api).error == None
    ensures var out := existing + Written(Run(input, existing, api).appended);
            ProcessedIds(out) == ProcessedIds(existing) + InputIds(Values(input))
  {
    var done := ProcessedIds(existing);
    var vs := Values(input);
    var r := RunFrom(vs, done, Expander(api), 0);
    RunAppendsPending(vs, done, Expander(api), 0);
    ExtendedIds(r.appended, Pending(vs, done));
    PendingIds(vs, done);
    ProcessedIdsConcat(existing, Written(r.appended));
  }

  lemma {:induction false} NothingPending(input: seq<Json>, done: set<string>, expand: (string, nat) -> Expansion, first: nat)
    requires forall k :: 0 <= k < |input| ==> input[k].Object? && IdOf(input[k].fields) in done
    ensures RunFrom(input, done, expand, first) == RunLog([], [], 0, None)
    decreases |input|
  {
    if input != [] {
      NothingPending(input[1..], done, expand, first);
    }
  }

  lemma {:induction false} InputIdsSpec(input: seq<Json>)
    ensures forall k :: 0 <= k < |input| && input[k].Object? ==> IdOf(input[k].fields) in InputIds(input)
    decreases |input|
  {
    if input != [] {
      InputIdsSpec(input[1..]);
      forall k | 0 < k < |input| && input[k].Object?
        ensures IdOf(input[k].fields) in InputIds(input)
      {
        assert input[k] == input[1..][k - 1];
      }
    }
  }

  /** Running again on the same input after a completed run appends
      nothing, makes no call and does not fail, whatever the API answers. */
  lemma SecondRunAppendsNothing(input: seq<Line>, existing: seq<Line>,
                                api: (Request, nat) -> CallOutcome, api2: (Request, nat) -> CallOutcome)
    requires Run(input, existing, api).error == None
    ensures Run(input, existing + Written(Run(input, existing, api).appended), api2) == RunLog([], [], 0, None)
  {
    var vs := Values(input);
    var done := ProcessedIds(existing);
    ResumeIds(input, existing, api);
    RunCompletes(vs, done, Expander(api), 0);
    InputIdsSpec(vs);
    var done2 := ProcessedIds(existing + Written(Run(input, existing, api).appended));
    assert forall k :: 0 <= k < |vs| ==> vs[k].Object? && IdOf(vs[k].fields) in done2;
    NothingPending(vs, done2, Expander(api2), 0);
  }

  /** A run makes at most max_retries calls per appended record. */
  lemma {:induction false} RunCallsBound(input: seq<Json>, done: set<string>, expand: (string, nat) -> Expansion, first: nat)
    requires forall q, n :: expand(q, n).calls <= MaxRetries
    ensures var r := RunFrom(input, done, expand, first);
            r.calls <= MaxRetries * |r.appended|
    decreases |input|
  {
    if input != [] {
      var step := StepOf(input[0], done, expand, first);
      if step.error == None {
        RunCallsBound(input[1..], done, expand, first + step.calls);
      }
    }
  }

  /** expand_query with run()'s defaults makes at most three calls. */
  lemma ExpanderCalls(api: (Request, nat) -> CallOutcome)
    ensures forall q, n :: Expander(api)(q, n).calls <= MaxRetries
  {
    forall q, n
      ensures Expander(api)(q, n).calls <= MaxRetries
    {
      ExpandSpec(q, api, n, MaxRetries, FirstDelay);
    }
  }

  /** The output file, a sequence of lines that run() only appends to. */
  class JsonlFile {
    var lines: seq<Line>

    constructor (initial: seq<Line>)
      ensures lines == initial
    {
      lines := initial;
    }

    /** `json.dump(ex, out); out.write("\n")` */
    method Append(record: map<string, string>)
      modifies this
      ensures lines == old(lines) + [Parsed(Object(record))]
    {
      lines := lines + [Parsed(Object(record))];
    }
  }

  /** The loop that collects processed_ids from the lines of the output file. */
  method LoadProcessedIds(lines: seq<Line>) returns (ids: set<string>)
    ensures ids == ProcessedIds(lines)
  {
    ids := {};
    for i := 0 to |lines|
      invariant ids == ProcessedIds(lines[..i])
    {
      assert lines[..i + 1][..i] == lines[..i];
      match lines[i] {
        case Parsed(Object(f)) => ids := ids + {IdOf(f)};
        case _ =>
      }
    }
    assert lines[..|lines|] == lines;
  }

  lemma ThenAssoc(a: RunLog, b: RunLog, c: RunLog)
    ensures Then(a, Then(b, c)) == Then(Then(a, b), c)
  {
    assert a.appended + (b.appended + c.appended) == (a.appended + b.appended) + c.appended;
    assert a.sleeps + (b.sleeps + c.sleeps) == (a.sleeps + b.sleeps) + c.sleeps;
  }

  lemma ThenNothing(a: RunLog)
    requires a.error == None
    ensures Then(a, RunLog([], [], 0, None)) == a
  {
    assert a.appended + [] == a.appended;
    assert a.sleeps + [] == a.sleeps;
  }

  lemma AppendAssoc(x: seq<Line>, y: seq<Line>, z: seq<Line>)
    ensures x + (y + z) == (x + y) + z
  {
  }

  lemma RunFromAt(vs: seq<Json>, i: nat, done: set<string>, expand: (string, nat) -> Expansion, first: nat)
    requires i < |vs|
    ensures var step := StepOf(vs[i], done, expand, first);
            RunFrom(vs[i..], done, expand, first)
              == if step.error.Some? then step else Then(step, RunFrom(vs[i + 1..], done, expand, first + step.calls))
  {
    assert vs[i..][0] == vs[i];
    assert vs[i..][1..] == vs[i + 1..];
  }

  /** One more record taken by the loop keeps its account of the run. */
  lemma LoopAdvance(vs: seq<Json>, i: nat, done: set<string>, expand: (string, nat) -> Expansion, log: RunLog, step: RunLog)
    requires i < |vs|
    requires step == StepOf(vs[i], done, expand, log.calls) && step.error == None
    ensures Then(log, RunFrom(vs[i..], done, expand, log.calls))
              == Then(Then(log, step), RunFrom(vs[i + 1..], done, expand, Then(log, step).calls))
  {
    var rest := RunFrom(vs[i + 1..], done, expand, log.calls + step.calls);
    RunFromAt(vs, i, done, expand, log.calls);
    ThenAssoc(log, step, rest);
  }

  /** One iteration of run()'s loop. */
  method Step(ex: Json, done: set<string>, api: (Request, nat) -> CallOutcome, first: nat, out: JsonlFile)
    returns (step: RunLog)
    modifies out
    ensures step == StepOf(ex, done, Expander(api), first)
    ensures out.lines == old(out.lines) + Written(step.appended)
  {
    match ex {
      case NonObject =>
        return RunLog([], [], 0, Some("AttributeError"));
      case Object(f) =>
        if IdOf(f) in done {
          return RunLog([], [], 0, None);
        }
        if TextKey !in f {
          return RunLog([], [], 0, Some("KeyError"));
        }
        var e := ExpandQuery(f[TextKey], api, first, MaxRetries, FirstDelay);
        var record := f[ExpandedKey := e.text];
        out.Append(record);
        WrittenOne(record);
        step := RunLog([record], e.sleeps + [Pause], e.calls, None);
    }
  }

  /** run()'s loop over the parsed input records. */
  method RunLoop(vs: seq<Json>, done: set<string>, out: JsonlFile, api: (Request, nat) -> CallOutcome)
    returns (log: RunLog)
    modifies out
    ensures log == RunFrom(vs, done, Expander(api), 0)
    ensures out.lines == old(out.lines) + Written(log.appended)
  {
    log := RunLog([], [], 0, None);
    var i := 0;
    while i < |vs|
      invariant 0 <= i <= |vs|
      invariant log.error == None
      invariant RunFrom(vs, done, Expander(api), 0) == Then(log, RunFrom(vs[i..], done, Expander(api), log.calls))
      invariant out.lines == old(out.lines) + Written(log.appended)
    {
      var step := Step(vs[i], done, api, log.calls, out);
      WrittenConcat(log.appended, step.appended);
      AppendAssoc(old(out.lines), Written(log.appended), Written(step.appended));
      if step.error.Some? {
        RunFromAt(vs, i, done, Expander(api), log.calls);
        log := Then(log, step);
        return;
      }
      LoopAdvance(vs, i, done, Expander(api), log, step);
      log := Then(log, step);
      i := i + 1;
    }
    ThenNothing(log);
  }

  /** run(): load processed_ids, parse every input line, then take the
      records in order, expanding and appending each unprocessed one. */
  method RunOn(input: seq<Line>, out: JsonlFile, api: (Request, nat) -> CallOutcome) returns (log: RunLog)
    modifies out
    ensures log == Run(input, old(out.lines), api)
    ensures out.lines == old(out.lines) + Written(log.appended)
  {
    var done := LoadProcessedIds(out.lines);
    if exists k :: 0 <= k < |input| && input[k].Unparseable? {
      return RunLog([], [], 0, Some("JSONDecodeError"));
    }
    log := RunLoop(Values(input), done, out, api);
  }
}
