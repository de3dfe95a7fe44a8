/** evaluate.py: the three answer-correctness metrics (normalised exact
    match, numeric exact match, token F1) and their mean over the gold set. */
module Evaluate {
  import opened Text
  import opened Wrappers
  import opened Records

  // ---------- Normalisation ----------

  /** The characters of s that are not in string.punctuation, in order. */
  function DropPunct(s: string): string
  {
    if s == [] then []
    else (if IsPunct(s[0]) then [] else [s[0]]) + DropPunct(s[1..])
  }

  /** Exactly the non-punctuation characters of s survive. */
  lemma {:induction false} DropPunctChars(s: string)
    ensures forall c :: c in DropPunct(s) <==> c in s && !IsPunct(c)
  {
    if s != [] {
      DropPunctChars(s[1..]);
      assert s == [s[0]] + s[1..];
    }
  }

  /** Dropping punctuation works character by character: it distributes
      over concatenation, so the surviving characters keep their order. */
  lemma {:induction false} DropPunctAppend(a: string, b: string)
    ensures DropPunct(a + b) == DropPunct(a) + DropPunct(b)
  {
    if a == [] {
      assert a + b == b;
    } else {
      assert (a + b)[1..] == a[1..] + b;
      DropPunctAppend(a[1..], b);
    }
  }

  /** normalize(): lower-case, drop punctuation, squeeze whitespace. */
  function Normalize(s: string): string
  {
    Join(" ", Split(DropPunct(Lower(s))))
  }

  /** The normalised form holds no punctuation and no upper-case letter, and
      is its words joined by single spaces: no leading, trailing or doubled
      whitespace. */
  lemma NormalizeSpec(s: string)
    ensures forall c :: c in Normalize(s) ==> !IsPunct(c) && !IsUpper(c)
    ensures SingleSpaced(Normalize(s))
  {
    var t := DropPunct(Lower(s));
    var ws := Split(t);
    DropPunctChars(Lower(s));
    SplitSpec(t);
    JoinChars(" ", ws);
    JoinWordsSingleSpaced(ws);
    forall c | c in Normalize(s)
      ensures !IsPunct(c) && !IsUpper(c)
    {
      if c !in " " {
        var w :| w in ws && c in w;
        var k :| 0 <= k < |Lower(s)| && Lower(s)[k] == c;
      }
    }
  }

  lemma {:induction false} DropPunctNoop(s: string)
    requires forall c :: c in s ==> !IsPunct(c)
    ensures DropPunct(s) == s
  {
    if s != [] {
      assert s[0] in s;
      assert forall c :: c in s[1..] ==> c in s;
      DropPunctNoop(s[1..]);
      assert s == [s[0]] + s[1..];
    }
  }

  /** normalize is idempotent. */
  lemma NormalizeIdempotent(s: string)
    ensures Normalize(Normalize(s)) == Normalize(s)
  {
    var r := Normalize(s);
    var ws := Split(DropPunct(Lower(s)));
    NormalizeSpec(s);
    assert Lower(r) == r;
    DropPunctNoop(r);
    SplitSpec(DropPunct(Lower(s)));
    SplitJoin(ws);
  }

  // ---------- Numeric extraction ----------

  /** The characters of s other than ',' (text.replace(",", "")). */
  function StripCommas(s: string): string
  {
    if s == [] then []
    else (if s[0] == ',' then [] else [s[0]]) + StripCommas(s[1..])
  }

  /** Exactly the characters other than ',' survive. */
  lemma {:induction false} StripCommasChars(s: string)
    ensures forall c :: c in StripCommas(s) <==> c in s && c != ','
  {
    if s != [] {
      StripCommasChars(s[1..]);
      assert s == [s[0]] + s[1..];
    }
  }

  /** Number of consecutive ASCII digits of t starting at i. */
  function DigitRun(t: string, i: nat): (n: nat)
    requires i <= |t|
    ensures i + n <= |t|
    ensures forall k :: i <= k < i + n ==> IsDigit(t[k])
    ensures i + n < |t| ==> !IsDigit(t[i + n])
    decreases |t| - i
  {
    if i < |t| && IsDigit(t[i]) then 1 + DigitRun(t, i + 1) else 0
  }

  /** End of the match of -?\d+(?:[\d,]*\d)?(?:\.\d+)? that starts at i, or
      i itself when no match starts there. On comma-free text the middle
      group can never consume anything the greedy \d+ has not already
      taken, so the pattern reads -?\d+(\.\d+)? with every repetition as
      long as possible. */
  function NumberEnd(t: string, i: nat): (e: nat)
    requires i <= |t|
    ensures i <= e <= |t|
  {
    var j := if i < |t| && t[i] == '-' then i + 1 else i;
    var d := DigitRun(t, j);
    if d == 0 then i
    else
      var f := j + d;
      if f < |t| && t[f] == '.' && DigitRun(t, f + 1) > 0 then f + 1 + DigitRun(t, f + 1) else f
  }

  /** re.findall as a scan from i: the (start, end) of each match, leftmost
      first, each taken as long as possible, never overlapping. */
  function NumberSpans(t: string, i: nat): (sp: seq<(nat, nat)>)
    requires i <= |t|
    ensures forall k :: 0 <= k < |sp| ==> i <= sp[k].0 < sp[k].1 <= |t| && sp[k].1 == NumberEnd(t, sp[k].0)
    ensures forall k :: 0 <= k < |sp| - 1 ==> sp[k].1 <= sp[k + 1].0
    decreases |t| - i
  {
    if i == |t| then []
    else
      var e := NumberEnd(t, i);
      if e > i then [(i, e)] + NumberSpans(t, e) else NumberSpans(t, i + 1)
  }

  /** get_numbers(): the matches, in order, in the comma-stripped text. */
  function GetNumbers(text: string): seq<string>
  {
    var t := StripCommas(text);
    var sp := NumberSpans(t, 0);
    seq(|sp|, k requires 0 <= k < |sp| => t[sp[k].0..sp[k].1])
  }

  /** An unsigned number: digits, or digits '.' digits. */
  predicate Unsigned(x: string) {
    (|x| > 0 && AllDigits(x)) ||
    (exists p :: 0 < p < |x| - 1 && x[p] == '.' && AllDigits(x[..p]) && AllDigits(x[p + 1..]))
  }

  /** An optional '-' followed by an unsigned number. */
  predicate NumberShape(x: string) {
    Unsigned(x) || (|x| > 1 && x[0] == '-' && Unsigned(x[1..]))
  }

  lemma DigitsAt(t: string, j: nat)
    requires j <= |t|
    ensures AllDigits(t[j..j + DigitRun(t, j)])
  {
    var u := t[j..j + DigitRun(t, j)];
    forall k | 0 <= k < |u|
      ensures IsDigit(u[k])
    {
      assert u[k] == t[j + k];
    }
  }

  /** The unsigned part of a match, from j (past any '-') to e. */
  lemma UnsignedPart(t: string, s: nat, j: nat)
    requires s <= j <= |t| && NumberEnd(t, s) > s
    requires j == if s < |t| && t[s] == '-' then s + 1 else s
    ensures Unsigned(t[j..NumberEnd(t, s)])
  {
    var e := NumberEnd(t, s);
    var d := DigitRun(t, j);
    var f := j + d;
    var u := t[j..e];
    DigitsAt(t, j);
    if e == f {
      assert u == t[j..j + d];
    } else {
      DigitsAt(t, f + 1);
      assert u[..d] == t[j..j + d];
      assert u[d + 1..] == t[f + 1..f + 1 + DigitRun(t, f + 1)];
      assert 0 < d < |u| - 1 && u[d] == '.' && AllDigits(u[..d]) && AllDigits(u[d + 1..]);
    }
  }

  lemma MatchShape(t: string, s: nat)
    requires s <= |t| && NumberEnd(t, s) > s
    ensures NumberShape(t[s..NumberEnd(t, s)])
    ensures ',' !in t[s..NumberEnd(t, s)]
  {
    var e := NumberEnd(t, s);
    var j := if s < |t| && t[s] == '-' then s + 1 else s;
    UnsignedPart(t, s, j);
    var u := t[j..e];
    var m := t[s..e];
    if j == s + 1 {
      assert m[1..] == u;
      assert m[0] == '-';
    } else {
      assert m == u;
    }
    assert NumberShape(m);
    forall k | 0 <= k < |m|
      ensures m[k] != ','
    {
      assert m[k] == t[s + k];
      if k > 0 || j == s {
        assert u[k - (j - s)] == m[k];
      }
    }
  }

  /** Every number returned lies, in order and without overlap, in the
      comma-stripped text, has the shape -?digits(.digits)? and holds no
      comma. */
  lemma GetNumbersSpec(text: string)
    ensures var t := StripCommas(text);
            var sp := NumberSpans(t, 0);
            var r := GetNumbers(text);
            && |r| == |sp|
            && (forall k :: 0 <= k < |r| ==> r[k] == t[sp[k].0..sp[k].1])
            && (forall k :: 0 <= k < |r| - 1 ==> sp[k].1 <= sp[k + 1].0)
            && (forall k :: 0 <= k < |r| ==> NumberShape(r[k]) && ',' !in r[k])
  {
    var t := StripCommas(text);
    var sp := NumberSpans(t, 0);
    forall k | 0 <= k < |sp|
      ensures NumberShape(t[sp[k].0..sp[k].1]) && ',' !in t[sp[k].0..sp[k].1]
    {
      MatchShape(t, sp[k].0);
    }
  }

  /** The match t[s..e] is as long as the pattern allows: it ends at the end
      of the text or before a non-digit, and a match without a fraction does
      not stop before a '.' followed by a digit. */
  predicate MaximalSpan(t: string, s: nat, e: nat)
    requires s <= e <= |t|
  {
    (e == |t| || !IsDigit(t[e])) &&
    ('.' !in t[s..e] ==> !(e + 1 < |t| && t[e] == '.' && IsDigit(t[e + 1])))
  }

  lemma NumberEndMaximal(t: string, i: nat)
    requires i <= |t| && NumberEnd(t, i) > i
    ensures MaximalSpan(t, i, NumberEnd(t, i))
  {
    var e := NumberEnd(t, i);
    var j := if i < |t| && t[i] == '-' then i + 1 else i;
    var f := j + DigitRun(t, j);
    if e == f {
      forall k | i <= k < e
        ensures t[k] != '.'
      {
        if k >= j {
          assert IsDigit(t[k]);
        }
      }
      assert forall k :: 0 <= k < e - i ==> t[i..e][k] == t[i + k];
    } else {
      assert t[i..e][f - i] == '.';
    }
  }

  /** Every match of the scan is maximal. */
  lemma NumberSpansMaximal(t: string, i: nat)
    requires i <= |t|
    ensures forall k :: 0 <= k < |NumberSpans(t, i)| ==>
      MaximalSpan(t, NumberSpans(t, i)[k].0, NumberSpans(t, i)[k].1)
  {
    var sp := NumberSpans(t, i);
    forall k | 0 <= k < |sp|
      ensures MaximalSpan(t, sp[k].0, sp[k].1)
    {
      NumberEndMaximal(t, sp[k].0);
    }
  }

  /** Position p lies inside one of the spans. */
  predicate Covers(sp: seq<(nat, nat)>, p: nat) {
    exists k :: 0 <= k < |sp| && sp[k].0 <= p < sp[k].1
  }

  lemma CoversPrepend(x: (nat, nat), sp: seq<(nat, nat)>, p: nat)
    requires Covers(sp, p)
    ensures Covers([x] + sp, p)
  {
    var k :| 0 <= k < |sp| && sp[k].0 <= p < sp[k].1;
    assert ([x] + sp)[k + 1] == sp[k];
  }

  /** One step of the scan: the match at i, ending at e, is taken, or no
      match starts at i (a non-digit) and the scan moves on by one. */
  lemma NumberSpansStep(t: string, i: nat) returns (e: nat)
    requires i < |t|
    ensures i <= e <= |t|
    ensures e > i ==> NumberSpans(t, i) == [(i, e)] + NumberSpans(t, e)
    ensures e == i ==> !IsDigit(t[i]) && NumberSpans(t, i) == NumberSpans(t, i + 1)
  {
    e := NumberEnd(t, i);
    if IsDigit(t[i]) {
      assert DigitRun(t, i) > 0;
    }
  }

  /** The first match covers the positions it spans. */
  lemma CoveredByFirst(t: string, i: nat, p: nat, e: nat)
    requires i <= p < e <= |t| && NumberSpans(t, i) == [(i, e)] + NumberSpans(t, e)
    ensures Covers(NumberSpans(t, i), p)
  {
    assert NumberSpans(t, i)[0] == (i, e);
  }

  /** A position the rest of the scan covers stays covered. */
  lemma CoveredByRest(t: string, i: nat, p: nat, e: nat)
    requires i < e <= |t| && NumberSpans(t, i) == [(i, e)] + NumberSpans(t, e)
    requires Covers(NumberSpans(t, e), p)
    ensures Covers(NumberSpans(t, i), p)
  {
    CoversPrepend((i, e), NumberSpans(t, e), p);
  }

  /** No number is missed: every digit of t at or after i lies inside some
      match of the scan from i; with i = 0 on the comma-stripped text this
      is every digit get_numbers() sees. */
  lemma {:induction false} NumberSpansCover(t: string, i: nat, p: nat)
    requires i <= p < |t| && IsDigit(t[p])
    ensures Covers(NumberSpans(t, i), p)
    decreases |t| - i
  {
    var e := NumberSpansStep(t, i);
    if e > p {
      CoveredByFirst(t, i, p, e);
    } else if e > i {
      NumberSpansCover(t, e, p);
      CoveredByRest(t, i, p, e);
    } else {
      NumberSpansCover(t, i + 1, p);
    }
  }

  /** Text without a digit has no number in it. */
  lemma {:induction false} NoDigitNoSpans(t: string, i: nat)
    requires i <= |t|
    requires forall k :: i <= k < |t| ==> !IsDigit(t[k])
    ensures NumberSpans(t, i) == []
    decreases |t| - i
  {
    if i < |t| {
      var j := if t[i] == '-' then i + 1 else i;
      assert DigitRun(t, j) == 0;
      NoDigitNoSpans(t, i + 1);
    }
  }

  lemma NoDigitNoNumbers(text: string)
    requires forall c :: c in text ==> !IsDigit(c)
    ensures GetNumbers(text) == []
  {
    var t := StripCommas(text);
    StripCommasChars(text);
    assert forall k :: 0 <= k < |t| ==> t[k] in t;
    NoDigitNoSpans(t, 0);
  }

  // ---------- Token F1 ----------

  /** normalize(s).split() */
  function Tokens(s: string): seq<string>
  {
    Split(Normalize(s))
  }

  /** g without its first occurrence of x. */
  function RemoveOne(g: seq<string>, x: string): (r: seq<string>)
    ensures |r| <= |g|
    ensures x in g ==> |r| == |g| - 1
  {
    if g == [] then []
    else if g[0] == x then g[1..]
    else [g[0]] + RemoveOne(g[1..], x)
  }

  lemma {:induction false} RemoveOneMultiset(g: seq<string>, x: string)
    ensures multiset(RemoveOne(g, x)) == multiset(g) - multiset{x}
  {
    if g != [] {
      assert g == [g[0]] + g[1..];
      if g[0] != x {
        RemoveOneMultiset(g[1..], x);
      }
    }
  }

  /** sum((Counter(p) & Counter(g)).values()): each token of p is matched
      against a still unmatched equal token of g. */
  function Overlap(p: seq<string>, g: seq<string>): (c: nat)
    ensures c <= |p| && c <= |g|
  {
    if p == [] then 0
    else if p[0] in g then 1 + Overlap(p[1..], RemoveOne(g, p[0]))
    else Overlap(p[1..], g)
  }

  /** The matching counts exactly the multiset intersection of the tokens. */
  lemma {:induction false} OverlapIsIntersection(p: seq<string>, g: seq<string>)
    ensures Overlap(p, g) == |multiset(p) * multiset(g)|
  {
    if p != [] {
      var x, a, m := p[0], multiset(p[1..]), multiset(g);
      assert multiset(p) == a + multiset{x} by {
        assert p == [x] + p[1..];
      }
      if x in g {
        var g' := RemoveOne(g, x);
        RemoveOneMultiset(g, x);
        OverlapIsIntersection(p[1..], g');
        assert (a + multiset{x}) * m == (a * multiset(g')) + multiset{x};
      } else {
        OverlapIsIntersection(p[1..], g);
        assert (a + multiset{x}) * m == a * m;
      }
    }
  }

  /** The overlap does not depend on the order of the two token lists. */
  lemma OverlapSymmetric(p: seq<string>, g: seq<string>)
    ensures Overlap(p, g) == Overlap(g, p)
  {
    OverlapIsIntersection(p, g);
    OverlapIsIntersection(g, p);
    assert multiset(p) * multiset(g) == multiset(g) * multiset(p);
  }

  // Real-arithmetic steps used by the proofs of F1OfRange and Means.

  lemma DivBounds(a: real, n: real)
    requires n > 0.0
    ensures 0.0 <= a <= n ==> 0.0 <= a / n <= 1.0
  {
  }

  lemma DivPos(a: real, b: real)
    requires a > 0.0 && b > 0.0
    ensures a / b > 0.0
  {
  }

  lemma DivSelf(x: real)
    requires x > 0.0
    ensures x / x == 1.0
  {
  }

  lemma CrossDiv(a: real, b: real, c: real, d: real)
    requires b != 0.0 && d != 0.0 && a * d == c * b
    ensures a / b == c / d
  {
    var x, y := a / b, c / d;
    assert x * b == a && y * d == c;
    assert x * b * d == y * d * b;
    assert (x - y) * (b * d) == 0.0;
    assert b * d != 0.0;
  }

  lemma Expand(x: real, y: real, p: real, g: real, c: real)
    requires x * p == c && y * g == c
    ensures x * y * (p + g) == c * (x + y)
  {
    calc {
      x * y * (p + g);
      x * y * p + x * y * g;
      (x * p) * y + x * (y * g);
      c * y + x * c;
    }
  }

  /** 2PR/(P+R) with P = c/p and R = c/g is 2c/(p+g). */
  lemma HarmonicMean(c: real, p: real, g: real)
    requires 0.0 < c && 0.0 < p && 0.0 < g
    ensures 2.0 * (c / p) * (c / g) / (c / p + c / g) == 2.0 * c / (p + g)
  {
    var x, y := c / p, c / g;
    assert x * p == c && y * g == c;
    DivPos(c, p);
    DivPos(c, g);
    Expand(x, y, p, g, c);
    assert (2.0 * x * y) * (p + g) == (2.0 * c) * (x + y);
    CrossDiv(2.0 * x * y, x + y, 2.0 * c, p + g);
  }

  /** The arithmetic of _token_f1() once the shared-token count is known:
      0 when nothing is shared, else 2PR/(P+R). */
  function F1Of(same: nat, np: nat, ng: nat): real
    requires same <= np && same <= ng
  {
    if same == 0 then 0.0
    else
      var precision := same as real / np as real;
      var recall := same as real / ng as real;
      DivPos(same as real, np as real);
      DivPos(same as real, ng as real);
      2.0 * precision * recall / (precision + recall)
  }

  /** F1 is 2·same / (np + ng), lies in [0, 1], is 0 exactly when nothing is
      shared, and is 1 when everything is. */
  lemma F1OfRange(same: nat, np: nat, ng: nat)
    requires same <= np && same <= ng
    ensures same > 0 ==> F1Of(same, np, ng) == 2.0 * same as real / (np + ng) as real
    ensures 0.0 <= F1Of(same, np, ng) <= 1.0
    ensures F1Of(same, np, ng) == 0.0 <==> same == 0
    ensures 0 < same == np == ng ==> F1Of(same, np, ng) == 1.0
  {
    if same > 0 {
      HarmonicMean(same as real, np as real, ng as real);
      DivPos(2.0 * same as real, (np + ng) as real);
      DivBounds(2.0 * same as real, (np + ng) as real);
      if same == np == ng {
        DivSelf(2.0 * same as real);
      }
    }
  }

  /** _token_f1() */
  function TokenF1(pred: string, truth: string): real
  {
    var p, g := Tokens(pred), Tokens(truth);
    F1Of(Overlap(p, g), |p|, |g|)
  }

  /** Token F1 lies in [0, 1] and is 0 exactly when the two token multisets
      share nothing (so also when either side has no token). */
  lemma TokenF1Range(pred: string, truth: string)
    ensures 0.0 <= TokenF1(pred, truth) <= 1.0
    ensures TokenF1(pred, truth) == 0.0 <==> multiset(Tokens(pred)) * multiset(Tokens(truth)) == multiset{}
  {
    var p, g := Tokens(pred), Tokens(truth);
    F1OfRange(Overlap(p, g), |p|, |g|);
    OverlapIsIntersection(p, g);
  }

  /** F1 does not depend on which argument is the prediction. */
  lemma TokenF1Symmetric(pred: string, truth: string)
    ensures TokenF1(pred, truth) == TokenF1(truth, pred)
  {
    var p, g := Tokens(pred), Tokens(truth);
    OverlapSymmetric(p, g);
    F1OfRange(Overlap(p, g), |p|, |g|);
    F1OfRange(Overlap(g, p), |g|, |p|);
  }

  /** Exact match of non-empty normalised forms gives F1 = 1. */
  lemma ExactMatchGivesFullF1(pred: string, truth: string)
    requires Normalize(pred) == Normalize(truth) != ""
    ensures TokenF1(pred, truth) == 1.0
  {
    var ws := Split(DropPunct(Lower(pred)));
    SplitSpec(DropPunct(Lower(pred)));
    JoinWordsSingleSpaced(ws);
    SplitJoin(ws);
    var p := Tokens(pred);
    assert p == ws && p == Tokens(truth) && |p| > 0;
    OverlapIsIntersection(p, p);
    assert multiset(p) * multiset(p) == multiset(p);
    F1OfRange(Overlap(p, p), |p|, |p|);
  }

  // ---------- Per-question scores ----------

  /** int(normalize(pred) == normalize(gold)) */
  function ExactMatch(pred: string, gold: string): (r: real)
    ensures r == 1.0 || r == 0.0
    ensures r == 1.0 <==> Normalize(pred) == Normalize(gold)
  {
    if Normalize(pred) == Normalize(gold) then 1.0 else 0.0
  }

  /** evaluate.py:79 as written,
      int(nums_pred and nums_gold and nums_pred[0] == nums_gold[0]).
      Python's `and` yields its first falsy operand, so an empty list of
      numbers reaches int(), which raises TypeError. */
  function NumTermAsWritten(np: seq<string>, ng: seq<string>): (r: Result<int>)
    ensures r.Failure? <==> np == [] || ng == []
  {
    if np == [] then Failure("TypeError")
    else if ng == [] then Failure("TypeError")
    else Success(if np[0] == ng[0] then 1 else 0)
  }

  /** The intended per-question NumEM: 1 exactly when both sides have a
      number and their first numbers are the same string. */
  function NumMatch(np: seq<string>, ng: seq<string>): (r: real)
    ensures r == 1.0 || r == 0.0
    ensures r == 1.0 <==> np != [] && ng != [] && np[0] == ng[0]
  {
    if np != [] && ng != [] && np[0] == ng[0] then 1.0 else 0.0
  }

  /** Wherever the code as written returns a value, NumMatch returns the same. */
  lemma NumMatchAgrees(np: seq<string>, ng: seq<string>)
    requires NumTermAsWritten(np, ng).Success?
    ensures NumMatch(np, ng) == NumTermAsWritten(np, ng).value as real
  {
  }

  /** The line as written fails on every question whose prediction holds no
      digit, whatever the gold answer: "I don't know", or the "" that stands
      for a missing prediction. */
  lemma AsWrittenFailsWithoutDigits(pred: string, gold: string)
    requires forall c :: c in pred ==> !IsDigit(c)
    ensures NumTermAsWritten(GetNumbers(pred), GetNumbers(gold)).Failure?
  {
    NoDigitNoNumbers(pred);
  }

  datatype Totals = Totals(em: real, num: real, f1: real)

  /** The three per-question scores of one (prediction, gold) pair. */
  function Score(pred: string, gold: string): (s: Totals)
    ensures 0.0 <= s.em <= 1.0 && 0.0 <= s.num <= 1.0 && 0.0 <= s.f1 <= 1.0
  {
    TokenF1Range(pred, gold);
    Totals(ExactMatch(pred, gold), NumMatch(GetNumbers(pred), GetNumbers(gold)), TokenF1(pred, gold))
  }

  // ---------- Aggregation ----------

  /** A JSONL record keyed by question_id: a prediction (its answer) or a
      gold label (its gold_answer). */
  datatype Labelled = Labelled(questionId: string, text: string)

  /** {d["question_id"]: d[...] for d in records} */
  function DictOf(records: seq<Labelled>): map<string, string>
  {
    if records == [] then map[]
    else
      var last := records[|records| - 1];
      DictOf(records[..|records| - 1])[last.questionId := last.text]
  }

  /** The dict holds exactly the ids of the records, and each id maps to the
      text of its LAST record: duplicates are last-wins. */
  lemma {:induction false} DictOfLastWins(records: seq<Labelled>, i: nat)
    requires i < |records|
    ensures records[i].questionId in DictOf(records)
    ensures (forall j :: i < j < |records| ==> records[j].questionId != records[i].questionId)
              ==> DictOf(records)[records[i].questionId] == records[i].text
  {
    if i < |records| - 1 {
      DictOfLastWins(records[..|records| - 1], i);
    }
  }

  lemma {:induction false} DictOfKeys(records: seq<Labelled>, k: string)
    requires k in DictOf(records)
    ensures exists i :: 0 <= i < |records| && records[i].questionId == k
  {
    var init := records[..|records| - 1];
    if k != records[|records| - 1].questionId {
      DictOfKeys(init, k);
      var i :| 0 <= i < |init| && init[i].questionId == k;
      assert records[i] == init[i];
    }
  }

  /** The dict's keys in iteration order: first-insertion order, each once. */
  function DictKeys(records: seq<Labelled>): (ks: seq<string>)
    ensures forall i, j :: 0 <= i < j < |ks| ==> ks[i] != ks[j]
    ensures forall k :: k in ks <==> k in DictOf(records)
    ensures |ks| == |DictOf(records)|
  {
    if records == [] then []
    else
      var last := records[|records| - 1];
      var ks := DictKeys(records[..|records| - 1]);
      if last.questionId in ks then ks else ks + [last.questionId]
  }

  /** preds.get(qid, "") */
  function PredictionFor(preds: map<string, string>, qid: string): string
  {
    if qid in preds then preds[qid] else ""
  }

  predicate Bounded(t: Totals, n: real) {
    0.0 <= t.em <= n && 0.0 <= t.num <= n && 0.0 <= t.f1 <= n
  }

  function Add(t: Totals, s: Totals): Totals
  {
    Totals(t.em + s.em, t.num + s.num, t.f1 + s.f1)
  }

  /** The running totals after scoring the gold ids in order: each id's
      prediction (or "" when it has none) against its gold answer. The
      scorer is a parameter, instantiated with Score by Evaluate. */
  function TotalsOf(score: (string, string) -> Totals, ids: seq<string>,
                    preds: map<string, string>, golds: map<string, string>): Totals
    requires forall k :: k in ids ==> k in golds
  {
    if ids == [] then Totals(0.0, 0.0, 0.0)
    else
      var qid := ids[|ids| - 1];
      Add(TotalsOf(score, ids[..|ids| - 1], preds, golds), score(PredictionFor(preds, qid), golds[qid]))
  }

  /** Scores in [0, 1] add up to totals in [0, number of ids]. */
  lemma {:induction false} TotalsBounded(score: (string, string) -> Totals, ids: seq<string>,
                                         preds: map<string, string>, golds: map<string, string>)
    requires forall k :: k in ids ==> k in golds
    requires forall pred, gold :: Bounded(score(pred, gold), 1.0)
    ensures Bounded(TotalsOf(score, ids, preds, golds), |ids| as real)
  {
    if ids != [] {
      TotalsBounded(score, ids[..|ids| - 1], preds, golds);
    }
  }

  datatype Metrics = Metrics(em: real, numEm: real, f1: real, n: nat)

  /** The returned dict: each total divided by n; n = 0 raises
      ZeroDivisionError. Totals in [0, n] give means in [0, 1]. */
  function Means(t: Totals, n: nat): (r: Result<Metrics>)
    ensures r.Failure? <==> n == 0
    ensures r.Success? ==> r.value.n == n
    ensures r.Success? && Bounded(t, n as real) ==> Bounded(Totals(r.value.em, r.value.numEm, r.value.f1), 1.0)
  {
    if n == 0 then Failure("ZeroDivisionError")
    else
      DivBounds(t.em, n as real);
      DivBounds(t.num, n as real);
      DivBounds(t.f1, n as real);
      Success(Metrics(t.em / n as real, t.num / n as real, t.f1 / n as real, n))
  }

  /** The gold dict is empty only when there is no gold record. */
  lemma GoldKeys(goldRecords: seq<Labelled>)
    ensures |DictOf(goldRecords)| == 0 <==> goldRecords == []
  {
    if goldRecords != [] {
      DictOfLastWins(goldRecords, 0);
    }
  }

  /** The loop of evaluate(): scores each gold id in iteration order and
      adds its three scores to the running totals. */
  method Accumulate(score: (string, string) -> Totals, ids: seq<string>,
                    preds: map<string, string>, golds: map<string, string>) returns (t: Totals)
    requires forall k :: k in ids ==> k in golds
    ensures t == TotalsOf(score, ids, preds, golds)
  {
    var emTotal, numTotal, f1Total := 0.0, 0.0, 0.0;
    for i := 0 to |ids|
      invariant TotalsOf(score, ids[..i], preds, golds) == Totals(emTotal, numTotal, f1Total)
    {
      var qid := ids[i];
      var predAns := PredictionFor(preds, qid);
      var s := score(predAns, golds[qid]);
      assert ids[..i + 1][..i] == ids[..i];
      emTotal := emTotal + s.em;
      numTotal := numTotal + s.num;
      f1Total := f1Total + s.f1;
    }
    assert ids[..|ids|] == ids;
    t := Totals(emTotal, numTotal, f1Total);
  }

  /** evaluate(): the mean of each per-question score over the distinct gold
      ids, a missing prediction counting as ""; no gold record at all is a
      division by zero. */
  method Evaluate(predictions: seq<Labelled>, goldRecords: seq<Labelled>) returns (r: Result<Metrics>)
    ensures r.Failure? <==> goldRecords == []
    ensures r == Means(TotalsOf(Score, DictKeys(goldRecords), DictOf(predictions), DictOf(goldRecords)), |DictOf(goldRecords)|)
    ensures r.Success? ==> Bounded(Totals(r.value.em, r.value.numEm, r.value.f1), 1.0)
  {
    var preds := DictOf(predictions);
    var golds := DictOf(goldRecords);
    var n := |golds|;
    var totals := Accumulate(Score, DictKeys(goldRecords), preds, golds);
    GoldKeys(goldRecords);
    assert forall pred, gold :: Bounded(Score(pred, gold), 1.0);
    TotalsBounded(Score, DictKeys(goldRecords), preds, golds);
    r := Means(totals, n);
  }

  // ---------- evaluate() as written ----------

  /** A question whose prediction or gold answer holds no number: line 79
      as written raises on it. */
  predicate Numberless(pred: string, gold: string) {
    GetNumbers(pred) == [] || GetNumbers(gold) == []
  }

  /** The three scores of one question with line 79 as written. */
  function ScoreAsWritten(pred: string, gold: string): (r: Result<Totals>)
    ensures r.Failure? <==> Numberless(pred, gold)
    ensures r.Success? ==> r.value == Score(pred, gold)
  {
    var num := NumTermAsWritten(GetNumbers(pred), GetNumbers(gold));
    if num.Failure? then Failure(num.error)
    else
      NumMatchAgrees(GetNumbers(pred), GetNumbers(gold));
      Success(Totals(ExactMatch(pred, gold), num.value as real, TokenF1(pred, gold)))
  }

  /** The gold id ids[k] is numberless. */
  predicate NumberlessAt(ids: seq<string>, preds: map<string, string>, golds: map<string, string>, k: int)
    requires forall q :: q in ids ==> q in golds
  {
    0 <= k < |ids| && Numberless(PredictionFor(preds, ids[k]), golds[ids[k]])
  }

  /** The loop of evaluate() with line 79 as written: the first gold id,
      in iteration order, whose numeric term raises ends the loop. */
  function TotalsAsWritten(ids: seq<string>, preds: map<string, string>, golds: map<string, string>): Result<Totals>
    requires forall k :: k in ids ==> k in golds
  {
    if ids == [] then Success(Totals(0.0, 0.0, 0.0))
    else
      var prev := TotalsAsWritten(ids[..|ids| - 1], preds, golds);
      var qid := ids[|ids| - 1];
      var s := ScoreAsWritten(PredictionFor(preds, qid), golds[qid]);
      if prev.Failure? then prev
      else if s.Failure? then Failure(s.error)
      else Success(Add(prev.value, s.value))
  }

  /** The loop as written raises exactly when some gold id is numberless,
      and otherwise reaches the same totals as the corrected scoring. */
  lemma {:induction false} TotalsAsWrittenSpec(ids: seq<string>, preds: map<string, string>, golds: map<string, string>)
    requires forall k :: k in ids ==> k in golds
    ensures TotalsAsWritten(ids, preds, golds).Failure? <==> exists k :: NumberlessAt(ids, preds, golds, k)
    ensures TotalsAsWritten(ids, preds, golds).Success? ==>
              TotalsAsWritten(ids, preds, golds).value == TotalsOf(Score, ids, preds, golds)
  {
    if ids != [] {
      var init := ids[..|ids| - 1];
      TotalsAsWrittenSpec(init, preds, golds);
      var last := |ids| - 1;
      assert forall k :: NumberlessAt(init, preds, golds, k) ==> NumberlessAt(ids, preds, golds, k);
      assert forall k :: NumberlessAt(ids, preds, golds, k) ==>
        NumberlessAt(init, preds, golds, k) || k == last;
      assert NumberlessAt(ids, preds, golds, last) <==>
        ScoreAsWritten(PredictionFor(preds, ids[last]), golds[ids[last]]).Failure?;
    }
  }

  /** evaluate() with line 79 as written. */
  function EvaluateAsWritten(predictions: seq<Labelled>, goldRecords: seq<Labelled>): Result<Metrics>
  {
    var preds := DictOf(predictions);
    var golds := DictOf(goldRecords);
    var t := TotalsAsWritten(DictKeys(goldRecords), preds, golds);
    if t.Failure? then Failure(t.error) else Means(t.value, |golds|)
  }

  /** As written, evaluate() raises exactly when the gold file is empty
      (ZeroDivisionError) or some gold question has a numberless prediction
      or gold answer (TypeError). */
  lemma EvaluateAsWrittenFails(predictions: seq<Labelled>, goldRecords: seq<Labelled>)
    ensures EvaluateAsWritten(predictions, goldRecords).Failure? <==>
              goldRecords == [] ||
              exists qid :: qid in DictOf(goldRecords) &&
                Numberless(PredictionFor(DictOf(predictions), qid), DictOf(goldRecords)[qid])
  {
    var preds := DictOf(predictions);
    var golds := DictOf(goldRecords);
    var ids := DictKeys(goldRecords);
    TotalsAsWrittenSpec(ids, preds, golds);
    GoldKeys(goldRecords);
    NumberlessSomewhere(ids, preds, golds);
  }

  /** Some position of the iteration order is numberless exactly when some
      key is. */
  lemma NumberlessSomewhere(ids: seq<string>, preds: map<string, string>, golds: map<string, string>)
    requires forall q :: q in ids <==> q in golds
    ensures (exists k :: NumberlessAt(ids, preds, golds, k)) <==>
            exists qid :: qid in golds && Numberless(PredictionFor(preds, qid), golds[qid])
  {
    if exists qid :: qid in golds && Numberless(PredictionFor(preds, qid), golds[qid]) {
      var qid :| qid in golds && Numberless(PredictionFor(preds, qid), golds[qid]);
      var k :| 0 <= k < |ids| && ids[k] == qid;
      assert NumberlessAt(ids, preds, golds, k);
    }
    if exists k :: NumberlessAt(ids, preds, golds, k) {
      var k :| NumberlessAt(ids, preds, golds, k);
      assert ids[k] in golds;
    }
  }

  /** Whenever evaluate() as written returns, it returns what the corrected
      Evaluate returns. */
  lemma EvaluateAsWrittenAgrees(predictions: seq<Labelled>, goldRecords: seq<Labelled>)
    requires EvaluateAsWritten(predictions, goldRecords).Success?
    ensures EvaluateAsWritten(predictions, goldRecords) ==
              Means(TotalsOf(Score, DictKeys(goldRecords), DictOf(predictions), DictOf(goldRecords)), |DictOf(goldRecords)|)
  {
    TotalsAsWrittenSpec(DictKeys(goldRecords), DictOf(predictions), DictOf(goldRecords));
  }

  /** A gold question without any prediction is scored against "", which
      holds no number: as written, evaluate() then always raises. */
  lemma MissingPredictionRaises(predictions: seq<Labelled>, goldRecords: seq<Labelled>, qid: string)
    requires qid in DictOf(goldRecords) && qid !in DictOf(predictions)
    ensures EvaluateAsWritten(predictions, goldRecords).Failure?
  {
    EvaluateAsWrittenFails(predictions, goldRecords);
    NoDigitNoNumbers("");
    assert Numberless(PredictionFor(DictOf(predictions), qid), DictOf(goldRecords)[qid]);
  }

  // ---------- load_jsonl and the two dict comprehensions ----------

  const QuestionIdKey := "question_id"
  const AnswerKey := "answer"
  const GoldAnswerKey := "gold_answer"

  /** A line that yields a record: a JSON object with the id and the value key. */
  predicate IsLabelLine(l: Line, key: string) {
    l.Parsed? && l.value.Object? && QuestionIdKey in l.value.fields && key in l.value.fields
  }

  predicate AllParsed(lines: seq<Line>) {
    forall k :: 0 <= k < |lines| ==> lines[k].Parsed?
  }

  /** d["question_id"] and d[key] of one parsed line: subscripting a JSON
      value that is not an object raises TypeError, a missing key KeyError. */
  function LabelOf(l: Line, key: string): Result<Labelled>
  {
    match l
    case Unparseable => Failure("JSONDecodeError")
    case Parsed(NonObject) => Failure("TypeError")
    case Parsed(Object(f)) =>
      if QuestionIdKey !in f || key !in f then Failure("KeyError")
      else Success(Labelled(f[QuestionIdKey], f[key]))
  }

  /** The records the comprehension reads, in file order, up to the first
      line that raises. */
  function LabelsOf(lines: seq<Line>, key: string): Result<seq<Labelled>>
  {
    if lines == [] then Success([])
    else
      var prev := LabelsOf(lines[..|lines| - 1], key);
      var last := LabelOf(lines[|lines| - 1], key);
      if prev.Failure? then prev
      else if last.Failure? then Failure(last.error)
      else Success(prev.value + [last.value])
  }

  /** load_jsonl parses the whole file before the comprehension reads it,
      so an invalid line anywhere raises JSONDecodeError first. */
  function LoadLabels(lines: seq<Line>, key: string): Result<seq<Labelled>>
  {
    if !AllParsed(lines) then Failure("JSONDecodeError") else LabelsOf(lines, key)
  }

  /** Loading succeeds exactly when every line is an object with both keys;
      an invalid line anywhere gives JSONDecodeError; on success there is one
      record per line, holding that line's id and value. */
  lemma {:induction false} LabelsSpec(lines: seq<Line>, key: string)
    ensures var r := LabelsOf(lines, key);
            && (r.Success? <==> forall k :: 0 <= k < |lines| ==> IsLabelLine(lines[k], key))
            && (r.Success? ==> |r.value| == |lines|)
            && (r.Success? ==> forall k :: 0 <= k < |lines| ==>
                  (IsLabelLine(lines[k], key) &&
                   r.value[k] == Labelled(lines[k].value.fields[QuestionIdKey], lines[k].value.fields[key])))
  {
    if lines != [] {
      var init := lines[..|lines| - 1];
      LabelsSpec(init, key);
      assert forall k :: 0 <= k < |init| ==> init[k] == lines[k];
    }
  }

  lemma LoadLabelsSpec(lines: seq<Line>, key: string)
    ensures var r := LoadLabels(lines, key);
            && (!AllParsed(lines) ==> r == Failure("JSONDecodeError"))
            && (r.Success? <==> forall k :: 0 <= k < |lines| ==> IsLabelLine(lines[k], key))
            && (r.Success? ==> |r.value| == |lines|)
            && (r.Success? ==> forall k :: 0 <= k < |lines| ==>
                  (IsLabelLine(lines[k], key) &&
                   r.value[k] == Labelled(lines[k].value.fields[QuestionIdKey], lines[k].value.fields[key])))
  {
    LabelsSpec(lines, key);
  }

  /** evaluate(pred_file, gold_file) from the two files' lines: the
      prediction file is loaded and read first, then the gold file, and
      only then are the metrics computed. */
  method EvaluateFiles(predLines: seq<Line>, goldLines: seq<Line>) returns (r: Result<Metrics>)
    ensures LoadLabels(predLines, AnswerKey).Failure? ==> r == Failure(LoadLabels(predLines, AnswerKey).error)
    ensures LoadLabels(predLines, AnswerKey).Success? && LoadLabels(goldLines, GoldAnswerKey).Failure? ==>
              r == Failure(LoadLabels(goldLines, GoldAnswerKey).error)
    ensures LoadLabels(predLines, AnswerKey).Success? && LoadLabels(goldLines, GoldAnswerKey).Success? ==>
              var predictions := LoadLabels(predLines, AnswerKey).value;
              var goldRecords := LoadLabels(goldLines, GoldAnswerKey).value;
              r == Means(TotalsOf(Score, DictKeys(goldRecords), DictOf(predictions), DictOf(goldRecords)), |DictOf(goldRecords)|)
  {
    var predictions := LoadLabels(predLines, AnswerKey);
    if predictions.Failure? {
      return Failure(predictions.error);
    }
    var goldRecords := LoadLabels(goldLines, GoldAnswerKey);
    if goldRecords.Failure? {
      return Failure(goldRecords.error);
    }
    r := Evaluate(predictions.value, goldRecords.value);
  }
}
