/**
 * The Python string operations the identity helpers rely on, written out:
 * `str.split()` and `str.split(maxsplit=1)` on whitespace, `' '.join`,
 * `str.replace`, `str.startswith`/`endswith`, ASCII `str.lower`, and the
 * set difference `set(a) - set(b)` rendered as a duplicate-free sequence.
 */
module Strings {

  /** The characters Python's `str.isspace()` accepts, which `str.split()` uses as separators. */
  predicate IsSpace(c: char)
  {
    var n := c as int;
    (9 <= n <= 13) || (28 <= n <= 32) || n == 0x85 || n == 0xA0 || n == 0x1680
    || (0x2000 <= n <= 0x200A) || n == 0x2028 || n == 0x2029 || n == 0x202F
    || n == 0x205F || n == 0x3000
  }

  /** A piece that `str.split()` can return: non-empty and free of whitespace. */
  predicate IsWord(w: string)
  {
    w != [] && forall i :: 0 <= i < |w| ==> !IsSpace(w[i])
  }

  /** Length of the whitespace run that `s` starts with. */
  function LeadingSpace(s: string): (n: nat)
    ensures n <= |s|
    ensures forall i :: 0 <= i < n ==> IsSpace(s[i])
    ensures n == |s| || !IsSpace(s[n])
  {
    if s == [] || !IsSpace(s[0]) then 0 else 1 + LeadingSpace(s[1..])
  }

  /** `s` with its leading whitespace removed. */
  function TrimStart(s: string): (t: string)
    ensures |t| <= |s| && t == s[|s| - |t|..]
    ensures t == [] || !IsSpace(t[0])
  {
    s[LeadingSpace(s)..]
  }

  /** Length of the longest whitespace-free prefix of `s`. */
  function WordLength(s: string): (n: nat)
    ensures n <= |s|
    ensures forall i :: 0 <= i < n ==> !IsSpace(s[i])
    ensures n == |s| || IsSpace(s[n])
  {
    if s == [] || IsSpace(s[0]) then 0 else 1 + WordLength(s[1..])
  }

  /** Python's `s.split()`: the maximal runs of non-whitespace characters, in order. */
  function Words(s: string): (ws: seq<string>)
    ensures forall w :: w in ws ==> IsWord(w)
    decreases |s|
  {
    var t := TrimStart(s);
    if t == [] then []
    else
      var n := WordLength(t);
      LeadingWord(t);
      [t[..n]] + Words(t[n..])
  }

  /** The first word of a text that starts with a non-space. */
  lemma LeadingWord(t: string)
    requires t != [] && !IsSpace(t[0])
    ensures 0 < WordLength(t) && IsWord(t[..WordLength(t)])
  {
  }

  /**
   * Python's `s.split(maxsplit=1)`: the first word and, when anything but
   * whitespace follows it, the remainder with its leading whitespace removed
   * (trailing whitespace is kept).
   */
  function SplitOnce(s: string): (parts: seq<string>)
    ensures |parts| <= 2
    ensures parts == [] <==> TrimStart(s) == []
    ensures |parts| >= 1 ==> IsWord(parts[0])
    ensures |parts| == 2 ==> parts[1] != [] && !IsSpace(parts[1][0])
  {
    var t := TrimStart(s);
    if t == [] then []
    else
      var n := WordLength(t);
      assert n != 0 by { assert !IsSpace(t[0]); }
      var word := t[..n];
      assert IsWord(word);
      var rest := TrimStart(t[n..]);
      if rest == [] then [word] else [word, rest]
  }

  /** Python's `sep.join(xs)`. */
  function Join(xs: seq<string>, sep: string): string
  {
    if xs == [] then ""
    else if |xs| == 1 then xs[0]
    else xs[0] + sep + Join(xs[1..], sep)
  }

  predicate IsPrefix(p: string, s: string)
  {
    |p| <= |s| && s[..|p|] == p
  }

  predicate IsSuffix(p: string, s: string)
  {
    |p| <= |s| && s[|s| - |p|..] == p
  }

  /** `x` occurs somewhere inside `s` (Python's `x in s` on strings). */
  ghost predicate IsInfix(x: string, s: string)
  {
    exists p, q :: s == p + x + q
  }

  /** Python's `s.replace(pat, rep)`: leftmost, non-overlapping occurrences. */
  function ReplaceAll(s: string, pat: string, rep: string): string
    requires pat != []
    decreases |s|
  {
    if |s| < |pat| then s
    else if s[..|pat|] == pat then rep + ReplaceAll(s[|pat|..], pat, rep)
    else [s[0]] + ReplaceAll(s[1..], pat, rep)
  }

  function LowerChar(c: char): char
  {
    if 'A' <= c <= 'Z' then (c as int + 32) as char else c
  }

  /** Python's `s.lower()` restricted to ASCII letters. */
  function Lower(s: string): string
  {
    seq(|s|, i requires 0 <= i < |s| => LowerChar(s[i]))
  }

  predicate NoDuplicates<T(==)>(s: seq<T>)
  {
    forall i, j :: 0 <= i < j < |s| ==> s[i] != s[j]
  }

  /** `set(wanted) - set(have)` as a duplicate-free sequence. */
  function Absent<T(==,!new)>(wanted: seq<T>, have: seq<T>): (m: seq<T>)
    ensures forall x :: x in m <==> x in wanted && x !in have
    ensures (forall x :: x in wanted ==> x in have) ==> m == []
  {
    if wanted == [] then []
    else
      var rest := Absent(wanted[1..], have);
      if wanted[0] in have || wanted[0] in rest then rest else [wanted[0]] + rest
  }

  /** Like a set difference, the result lists each element once. */
  lemma {:induction false} AbsentHasNoDuplicates<T(!new)>(wanted: seq<T>, have: seq<T>)
    ensures NoDuplicates(Absent(wanted, have))
  {
    if wanted != [] {
      AbsentHasNoDuplicates(wanted[1..], have);
    }
  }

  // ---------------------------------------------------------------------------
  // Splitting and joining

  lemma WordLengthOfWord(w: string, rest: string)
    requires forall i :: 0 <= i < |w| ==> !IsSpace(w[i])
    requires rest == [] || IsSpace(rest[0])
    ensures WordLength(w + rest) == |w|
  {
    assert forall i :: 0 <= i < |w| ==> (w + rest)[i] == w[i];
    if rest != [] {
      assert (w + rest)[|w|] == rest[0];
    }
  }

  lemma WordsSkipSpace(c: char, s: string)
    requires IsSpace(c)
    ensures Words([c] + s) == Words(s)
  {
    assert ([c] + s)[1..] == s;
    assert LeadingSpace([c] + s) == 1 + LeadingSpace(s);
    assert TrimStart([c] + s) == TrimStart(s);
  }

  /** A word followed by whitespace (or nothing) splits off as the first word. */
  lemma WordsOfLeadingWord(w: string, rest: string)
    requires IsWord(w)
    requires rest == [] || IsSpace(rest[0])
    ensures Words(w + rest) == [w] + Words(rest)
  {
    var s := w + rest;
    assert s[0] == w[0];
    assert TrimStart(s) == s;
    WordLengthOfWord(w, rest);
    assert s[..|w|] == w;
    assert s[|w|..] == rest;
  }

  /** Splitting a space-joined list of words gives the words back. */
  lemma {:induction false} WordsJoinRoundTrip(ws: seq<string>)
    requires forall i :: 0 <= i < |ws| ==> IsWord(ws[i])
    ensures Words(Join(ws, " ")) == ws
  {
    if |ws| == 1 {
      WordsOfLeadingWord(ws[0], "");
      assert ws[0] + "" == ws[0];
    } else if |ws| > 1 {
      assert ws == [ws[0]] + ws[1..];
      var tail := Join(ws[1..], " ");
      assert IsWord(ws[0]);
      assert Join(ws, " ") == ws[0] + ([' '] + tail);
      WordsOfLeadingWord(ws[0], [' '] + tail);
      WordsSkipSpace(' ', tail);
      assert forall i :: 0 <= i < |ws[1..]| ==> IsWord(ws[1..][i]) by {
        forall i | 0 <= i < |ws[1..]| ensures IsWord(ws[1..][i]) {
          assert ws[1..][i] == ws[i + 1];
        }
      }
      WordsJoinRoundTrip(ws[1..]);
    }
  }

  /** Text that starts with a non-space has nothing to trim. */
  lemma TrimStartOfNonSpace(s: string)
    requires s != [] && !IsSpace(s[0])
    ensures TrimStart(s) == s
  {
    assert LeadingSpace(s) == 0;
  }

  /** Trimming one space before a non-space leaves what follows it. */
  lemma TrimStartOfSpaceThenNonSpace(c: char, s: string)
    requires IsSpace(c) && s != [] && !IsSpace(s[0])
    ensures TrimStart([c] + s) == s
  {
    assert ([c] + s)[1..] == s;
    assert LeadingSpace(s) == 0;
    assert LeadingSpace([c] + s) == 1;
  }

  /** A word followed by whitespace (or nothing) is the first piece of `split(maxsplit=1)`. */
  lemma SplitOnceOfLeadingWord(w: string, rest: string)
    requires IsWord(w)
    requires rest == [] || IsSpace(rest[0])
    ensures SplitOnce(w + rest) == if TrimStart(rest) == [] then [w] else [w, TrimStart(rest)]
  {
    var s := w + rest;
    assert s[0] == w[0];
    TrimStartOfNonSpace(s);
    WordLengthOfWord(w, rest);
    assert s[..|w|] == w;
    assert s[|w|..] == rest;
  }

  /** `split(maxsplit=1)` of "word token" gives exactly the two pieces back. */
  lemma SplitOnceRoundTrip(w: string, token: string)
    requires IsWord(w)
    requires token != [] && !IsSpace(token[0])
    ensures SplitOnce(w + " " + token) == [w, token]
  {
    assert w + " " + token == w + ([' '] + token);
    TrimStartOfSpaceThenNonSpace(' ', token);
    SplitOnceOfLeadingWord(w, [' '] + token);
  }

  /** `split(maxsplit=1)` and `split()` agree on the first word and on whether there is more than one. */
  lemma SplitOnceAgreesWithWords(s: string)
    ensures SplitOnce(s) == [] <==> Words(s) == []
    ensures SplitOnce(s) != [] ==> SplitOnce(s)[0] == Words(s)[0]
    ensures |SplitOnce(s)| == 1 <==> |Words(s)| == 1
  {
    var t := TrimStart(s);
    if t != [] {
      var n := WordLength(t);
      var u := t[n..];
      assert TrimStart(TrimStart(u)) == TrimStart(u);
      assert Words(u) == Words(TrimStart(u));
    }
  }

  /** Every member of a joined list occurs in the joined string. */
  lemma {:induction false} JoinContainsMember(xs: seq<string>, sep: string, k: nat)
    requires k < |xs|
    ensures IsInfix(xs[k], Join(xs, sep))
  {
    if |xs| == 1 {
      assert Join(xs, sep) == [] + xs[0] + [];
    } else if k == 0 {
      assert Join(xs, sep) == [] + xs[0] + (sep + Join(xs[1..], sep));
    } else {
      JoinContainsMember(xs[1..], sep, k - 1);
      var p, q :| Join(xs[1..], sep) == p + xs[1..][k - 1] + q;
      assert Join(xs, sep) == (xs[0] + sep + p) + xs[k] + q;
    }
  }

  lemma InfixInContext(x: string, s: string, a: string, b: string)
    requires IsInfix(x, s)
    ensures IsInfix(x, a + s + b)
  {
    var p, q :| s == p + x + q;
    assert a + s + b == (a + p) + x + (q + b);
  }

  lemma InfixTransitive(x: string, y: string, z: string)
    requires IsInfix(x, y) && IsInfix(y, z)
    ensures IsInfix(x, z)
  {
    var p, q :| y == p + x + q;
    var p', q' :| z == p' + y + q';
    assert z == (p' + p) + x + (q + q');
  }

  // ---------------------------------------------------------------------------
  // Replacement

  /** A prefix that cannot start a match is copied unchanged. */
  lemma {:induction false} ReplaceSkipsPrefix(a: string, b: string, pat: string, rep: string)
    requires pat != [] && pat[0] !in a
    ensures ReplaceAll(a + b, pat, rep) == a + ReplaceAll(b, pat, rep)
  {
    if a != [] {
      var s := a + b;
      assert s[0] == a[0];
      assert s[1..] == a[1..] + b;
      ReplaceSkipsPrefix(a[1..], b, pat, rep);
      if |s| >= |pat| {
        assert s[..|pat|][0] == a[0];
      }
      assert a == [a[0]] + a[1..];
    } else {
      assert a + b == b;
    }
  }

  /** Replacing one character distributes over concatenation. */
  lemma {:induction false} ReplaceCharAppend(a: string, b: string, c: char, d: string)
    ensures ReplaceAll(a + b, [c], d) == ReplaceAll(a, [c], d) + ReplaceAll(b, [c], d)
  {
    if a == [] {
      assert a + b == b;
    } else {
      assert (a + b)[1..] == a[1..] + b;
      assert (a + b)[..1] == a[..1];
      ReplaceCharAppend(a[1..], b, c, d);
    }
  }

  /** After replacing character `c` by a text without `c`, no `c` is left. */
  lemma {:induction false} ReplaceCharRemoves(s: string, c: char, d: string)
    requires c !in d
    ensures c !in ReplaceAll(s, [c], d)
  {
    if s != [] {
      ReplaceCharRemoves(s[1..], c, d);
    }
  }

  /** A text without character `c` is left as it is by replacing `c`. */
  lemma {:induction false} ReplaceCharFree(s: string, c: char, d: string)
    requires c !in s
    ensures ReplaceAll(s, [c], d) == s
  {
    if s != [] {
      assert s[1..] == s[1..];
      ReplaceCharFree(s[1..], c, d);
      assert s == [s[0]] + s[1..];
    }
  }

  /** An occurrence of a text without `c` survives replacing `c`. */
  lemma ReplaceCharKeepsInfix(x: string, s: string, c: char, d: string)
    requires IsInfix(x, s)
    requires c !in x
    ensures IsInfix(x, ReplaceAll(s, [c], d))
  {
    var p, q :| s == p + x + q;
    ReplaceCharAppend(p + x, q, c, d);
    ReplaceCharAppend(p, x, c, d);
    ReplaceCharFree(x, c, d);
    assert ReplaceAll(s, [c], d) == ReplaceAll(p, [c], d) + x + ReplaceAll(q, [c], d);
  }
}
