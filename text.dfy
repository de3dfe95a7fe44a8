/** The string primitives the pipeline borrows from Python, restricted to
    ASCII: character classes, str.lower, str.strip, str.split() and
    str.join. */
module Text {

  /** `\d` restricted to ASCII. */
  predicate IsDigit(c: char) { '0' <= c <= '9' }

  predicate IsUpper(c: char) { 'A' <= c <= 'Z' }

  /** The ASCII characters for which Python's str.isspace holds:
      tab, newline, vertical tab, form feed, carriage return (9-13),
      the four information separators (28-31) and space (32). */
  predicate IsSpace(c: char) { 9 <= c as int <= 13 || 28 <= c as int <= 32 }

  /** Membership in Python's string.punctuation,
      !"#$%&'()*+,-./:;<=>?@[\]^_`{|}~ */
  predicate IsPunct(c: char) {
    33 <= c as int <= 47 || 58 <= c as int <= 64 || 91 <= c as int <= 96 || 123 <= c as int <= 126
  }

  predicate AllDigits(s: string) { forall k :: 0 <= k < |s| ==> IsDigit(s[k]) }

  predicate NoSpace(s: string) { forall k :: 0 <= k < |s| ==> !IsSpace(s[k]) }

  /** A token of str.split(): non-empty and free of whitespace. */
  predicate IsWord(w: string) { |w| > 0 && NoSpace(w) }

  /** `sub in s` for strings. */
  predicate Contains(s: string, sub: string) {
    exists i :: 0 <= i <= |s| && sub <= s[i..]
  }

  /** str.lower() on one character; characters outside A-Z are kept. */
  function LowerChar(c: char): (d: char)
    ensures !IsUpper(d)
    ensures IsUpper(c) ==> d as int == c as int + 32
    ensures !IsUpper(c) ==> d == c
  {
    if IsUpper(c) then (c as int + 32) as char else c
  }

  function Lower(s: string): (r: string)
    ensures |r| == |s|
    ensures forall i :: 0 <= i < |s| ==> r[i] == LowerChar(s[i])
  {
    seq(|s|, i requires 0 <= i < |s| => LowerChar(s[i]))
  }

  /** Drops leading whitespace. */
  function TrimStart(s: string): string
  {
    if s != [] && IsSpace(s[0]) then TrimStart(s[1..]) else s
  }

  /** Drops trailing whitespace. */
  function TrimEnd(s: string): string
  {
    if s != [] && IsSpace(s[|s| - 1]) then TrimEnd(s[..|s| - 1]) else s
  }

  predicate AllSpace(w: string) { forall k :: 0 <= k < |w| ==> IsSpace(w[k]) }

  /** TrimStart leaves a suffix of s that does not start with whitespace,
      and what it dropped is all whitespace. */
  lemma {:induction false} TrimStartSpec(s: string)
    ensures var r := TrimStart(s);
            && |r| <= |s| && r == s[|s| - |r|..]
            && AllSpace(s[..|s| - |r|])
            && (r != [] ==> !IsSpace(r[0]))
  {
    if s != [] && IsSpace(s[0]) {
      var u := s[1..];
      var r := TrimStart(u);
      TrimStartSpec(u);
      var n := |s| - |r|;
      assert r == u[n - 1..] == s[n..];
      assert s[..n] == [s[0]] + u[..n - 1];
    }
  }

  /** TrimEnd leaves a prefix of s that does not end with whitespace, and
      what it dropped is all whitespace. */
  lemma {:induction false} TrimEndSpec(s: string)
    ensures var r := TrimEnd(s);
            && |r| <= |s| && r == s[..|r|]
            && AllSpace(s[|r|..])
            && (r != [] ==> !IsSpace(r[|r| - 1]))
  {
    if s != [] && IsSpace(s[|s| - 1]) {
      var u := s[..|s| - 1];
      var r := TrimEnd(u);
      TrimEndSpec(u);
      assert r == u[..|r|] == s[..|r|];
      assert s[|r|..] == u[|r|..] + [s[|s| - 1]];
    }
  }

  /** str.strip() */
  function Strip(s: string): string
  {
    TrimEnd(TrimStart(s))
  }

  /** str.strip() keeps a middle slice of s whose ends are not whitespace
      and drops only whitespace around it. */
  lemma StripSpec(s: string)
    ensures var r := Strip(s);
            && |r| <= |s|
            && (exists i :: 0 <= i <= |s| - |r| && r == s[i..i + |r|]
                  && AllSpace(s[..i]) && AllSpace(s[i + |r|..]))
            && (r != [] ==> !IsSpace(r[0]) && !IsSpace(r[|r| - 1]))
  {
    var t := TrimStart(s);
    var r := TrimEnd(t);
    TrimStartSpec(s);
    TrimEndSpec(t);
    var i := |s| - |t|;
    assert s[i + |r|..] == t[|r|..];
    assert r == s[i..i + |r|];
    if r != [] {
      assert r[0] == t[0];
    }
  }

  /** A string without whitespace is its own strip. */
  lemma StripNoSpace(s: string)
    requires NoSpace(s)
    ensures Strip(s) == s
  {
    if s != [] {
      assert TrimStart(s) == s;
      assert TrimEnd(s) == s;
    }
  }

  /** Stripping twice is stripping once. */
  lemma StripIdempotent(s: string)
    ensures Strip(Strip(s)) == Strip(s)
  {
    var r := Strip(s);
    StripSpec(s);
    if r != [] {
      assert TrimStart(r) == r;
      assert TrimEnd(r) == r;
    }
  }

  /** Length of the run of non-whitespace characters that starts s. */
  function WordLen(s: string): (k: nat)
    ensures k <= |s|
    ensures forall i :: 0 <= i < k ==> !IsSpace(s[i])
    ensures k < |s| ==> IsSpace(s[k])
  {
    if s == [] || IsSpace(s[0]) then 0 else 1 + WordLen(s[1..])
  }

  /** str.split() without a separator: the maximal runs of non-whitespace
      characters of s, in order. */
  function Split(s: string): (words: seq<string>)
    decreases |s|
  {
    if s == [] then []
    else if IsSpace(s[0]) then Split(s[1..])
    else
      var k := WordLen(s);
      [s[..k]] + Split(s[k..])
  }

  /** Every piece of str.split() is a word made of characters of s. */
  lemma {:induction false} SplitSpec(s: string)
    ensures forall w :: w in Split(s) ==> IsWord(w)
    ensures forall w, c :: w in Split(s) && c in w ==> c in s
    decreases |s|
  {
    if s == [] {
    } else if IsSpace(s[0]) {
      SplitSpec(s[1..]);
      assert forall c :: c in s[1..] ==> c in s;
    } else {
      var k := WordLen(s);
      SplitSpec(s[k..]);
      assert forall c :: c in s[..k] ==> c in s;
      assert forall c :: c in s[k..] ==> c in s;
      assert Split(s) == [s[..k]] + Split(s[k..]);
    }
  }

  /** sep.join(parts). */
  function Join(sep: string, parts: seq<string>): (r: string)
  {
    if parts == [] then ""
    else if |parts| == 1 then parts[0]
    else parts[0] + sep + Join(sep, parts[1..])
  }

  /** Every character of sep.join(parts) comes from sep or from a part. */
  lemma {:induction false} JoinChars(sep: string, parts: seq<string>)
    ensures forall c :: c in Join(sep, parts) ==> c in sep || exists w :: w in parts && c in w
  {
    if |parts| > 1 {
      JoinChars(sep, parts[1..]);
      forall c | c in Join(sep, parts)
        ensures c in sep || exists w :: w in parts && c in w
      {
        if c in parts[0] {
          assert parts[0] in parts;
        } else if c !in sep {
          var w :| w in parts[1..] && c in w;
          assert w in parts;
        }
      }
    } else if |parts| == 1 {
      assert parts[0] in parts;
    }
  }

  /** Words joined by single spaces: the only whitespace is ' ', never at
      either end and never twice in a row. */
  predicate SingleSpaced(r: string) {
    forall i :: 0 <= i < |r| && IsSpace(r[i]) ==>
      r[i] == ' ' && 0 < i < |r| - 1 && !IsSpace(r[i + 1])
  }

  lemma {:induction false} JoinWordsSingleSpaced(ws: seq<string>)
    requires forall w :: w in ws ==> IsWord(w)
    ensures SingleSpaced(Join(" ", ws))
    ensures ws != [] <==> Join(" ", ws) != []
  {
    if |ws| > 1 {
      JoinWordsSingleSpaced(ws[1..]);
      var rest := Join(" ", ws[1..]);
      var r := ws[0] + " " + rest;
      assert r == Join(" ", ws);
      forall i | 0 <= i < |r| && IsSpace(r[i])
        ensures r[i] == ' ' && 0 < i < |r| - 1 && !IsSpace(r[i + 1])
      {
        assert ws[0] in ws && ws[1] in ws;
        if i < |ws[0]| {
          assert false;
        } else if i == |ws[0]| {
          assert r[i + 1] == rest[0];
          assert rest[0] == ws[1][0];
        } else {
          var j := i - |ws[0]| - 1;
          assert r[i] == rest[j];
          assert r[i + 1] == rest[j + 1];
        }
      }
    } else if |ws| == 1 {
      assert ws[0] in ws;
      assert Join(" ", ws) == ws[0];
    }
  }

  lemma WordLenOfWord(w: string, t: string)
    requires IsWord(w)
    requires t == [] || IsSpace(t[0])
    ensures WordLen(w + t) == |w|
  {
    if |w| > 1 {
      assert (w + t)[1..] == w[1..] + t;
      WordLenOfWord(w[1..], t);
    } else {
      assert (w + t)[1..] == t;
    }
  }

  /** Splitting words joined by single spaces gives the words back. */
  lemma {:induction false} SplitJoin(ws: seq<string>)
    requires forall w :: w in ws ==> IsWord(w)
    ensures Split(Join(" ", ws)) == ws
  {
    if ws == [] {
    } else if |ws| == 1 {
      var w := ws[0];
      WordLenOfWord(w, []);
      assert w + [] == w;
      assert w[..|w|] == w && w[|w|..] == [];
    } else {
      var w := ws[0];
      var rest := Join(" ", ws[1..]);
      var s := w + " " + rest;
      assert s == w + (" " + rest);
      WordLenOfWord(w, " " + rest);
      assert s[..|w|] == w;
      assert s[|w|..] == " " + rest;
      assert (" " + rest)[1..] == rest;
      SplitJoin(ws[1..]);
    }
  }

  /** The characters of s other than whitespace, in order. */
  function DropSpace(s: string): string
  {
    if s == [] then [] else (if IsSpace(s[0]) then [] else [s[0]]) + DropSpace(s[1..])
  }

  /** The words of a split laid end to end: "".join(words). */
  function ConcatWords(ws: seq<string>): string
  {
    if ws == [] then [] else ws[0] + ConcatWords(ws[1..])
  }

  lemma {:induction false} DropSpaceAppend(a: string, b: string)
    ensures DropSpace(a + b) == DropSpace(a) + DropSpace(b)
  {
    if a == [] {
      assert a + b == b;
    } else {
      assert (a + b)[1..] == a[1..] + b;
      DropSpaceAppend(a[1..], b);
    }
  }

  lemma {:induction false} DropSpaceNoSpace(w: string)
    requires NoSpace(w)
    ensures DropSpace(w) == w
  {
    if w != [] {
      DropSpaceNoSpace(w[1..]);
    }
  }

  /** str.split() loses only whitespace: its words laid end to end are the
      non-whitespace characters of s, in order. */
  lemma {:induction false} SplitKeepsContent(s: string)
    ensures ConcatWords(Split(s)) == DropSpace(s)
    decreases |s|
  {
    if s == [] {
    } else if IsSpace(s[0]) {
      SplitKeepsContent(s[1..]);
    } else {
      var k := WordLen(s);
      SplitKeepsContent(s[k..]);
      assert s == s[..k] + s[k..];
      DropSpaceAppend(s[..k], s[k..]);
      DropSpaceNoSpace(s[..k]);
      assert Split(s) == [s[..k]] + Split(s[k..]);
    }
  }
}
