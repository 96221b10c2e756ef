/**
 * The normalisation applied to the rendered rules text:
 * `text.replace(/\n+/g, '\n').trim()`.
 * The regular expression replaces every maximal run of line feeds by a
 * single line feed; `trim` then removes ECMAScript white space and line
 * terminators from both ends.
 */
module Normalization {

  /** ECMAScript WhiteSpace and LineTerminator code points, the set `trim` strips. */
  predicate IsJsWhitespace(c: char)
  {
    || c == '\t' || c == '\n' || c == '\U{000B}' || c == '\U{000C}' || c == '\r'
    || c == ' ' || c == '\U{00A0}' || c == '\U{1680}'
    || ('\U{2000}' <= c <= '\U{200A}')
    || c == '\U{2028}' || c == '\U{2029}' || c == '\U{202F}' || c == '\U{205F}'
    || c == '\U{3000}' || c == '\U{FEFF}'
  }

  /** No two adjacent line feeds. */
  predicate NoDoubleNewline(s: string)
  {
    forall i :: 0 <= i < |s| - 1 ==> !(s[i] == '\n' && s[i + 1] == '\n')
  }

  /** Neither the first nor the last character is white space. */
  predicate NoEdgeWhitespace(s: string)
  {
    s == [] || (!IsJsWhitespace(s[0]) && !IsJsWhitespace(s[|s| - 1]))
  }

  /** The characters of `s` other than line feeds, in order. */
  function DropNewlines(s: string): string
  {
    if s == [] then []
    else (if s[0] == '\n' then [] else [s[0]]) + DropNewlines(s[1..])
  }

  /** Length of the run of line feeds that `/\n+/` matches at the start of `s` (greedy). */
  function LeadingNewlines(s: string): (n: nat)
    ensures n <= |s|
    ensures forall i :: 0 <= i < n ==> s[i] == '\n'
    ensures n < |s| ==> s[n] != '\n'
  {
    if s != [] && s[0] == '\n' then 1 + LeadingNewlines(s[1..]) else 0
  }

  /**
   * `s.replace(/\n+/g, '\n')`: scanning left to right, a maximal run of line
   * feeds is replaced by one line feed and any other character is kept.
   */
  function CollapseNewlines(s: string): (r: string)
    ensures NoDoubleNewline(r)
    ensures |r| <= |s|
    ensures |s| > 0 ==> |r| > 0 && r[0] == s[0] && r[|r| - 1] == s[|s| - 1]
    decreases |s|
  {
    if s == [] then []
    else if s[0] == '\n' then
      var n := LeadingNewlines(s);
      assert n > 0;
      "\n" + CollapseNewlines(s[n..])
    else [s[0]] + CollapseNewlines(s[1..])
  }

  /** Number of white space characters at the start of `s`. */
  function LeadingWhitespace(s: string): (n: nat)
    ensures n <= |s|
    ensures forall i :: 0 <= i < n ==> IsJsWhitespace(s[i])
    ensures n < |s| ==> !IsJsWhitespace(s[n])
  {
    if s != [] && IsJsWhitespace(s[0]) then 1 + LeadingWhitespace(s[1..]) else 0
  }

  /** Number of white space characters at the end of `s`. */
  function TrailingWhitespace(s: string): (n: nat)
    ensures n <= |s|
    ensures forall i :: |s| - n <= i < |s| ==> IsJsWhitespace(s[i])
    ensures n < |s| ==> !IsJsWhitespace(s[|s| - n - 1])
  {
    if s != [] && IsJsWhitespace(s[|s| - 1]) then 1 + TrailingWhitespace(s[..|s| - 1]) else 0
  }

  /** `r` is the slice of `s` starting at `k`, and everything around it is white space. */
  predicate SliceWithWhitespaceMargins(s: string, r: string, k: nat)
  {
    && k + |r| <= |s|
    && s[k..k + |r|] == r
    && (forall i :: 0 <= i < k ==> IsJsWhitespace(s[i]))
    && (forall i :: k + |r| <= i < |s| ==> IsJsWhitespace(s[i]))
  }

  /**
   * `String.prototype.trim`: the result is the slice of `s` left once the
   * white space margins on both sides are removed.
   */
  function Trim(s: string): (r: string)
    ensures NoEdgeWhitespace(r)
    ensures exists k :: SliceWithWhitespaceMargins(s, r, k)
  {
    var lo := LeadingWhitespace(s);
    if lo == |s| then
      assert SliceWithWhitespaceMargins(s, [], 0);
      []
    else
      var hi := |s| - TrailingWhitespace(s);
      assert lo < hi;
      assert SliceWithWhitespaceMargins(s, s[lo..hi], lo);
      s[lo..hi]
  }

  /** The whole normalisation of line 76 of index.js. */
  function Normalize(s: string): (r: string)
    ensures NoDoubleNewline(r)
    ensures NoEdgeWhitespace(r)
  {
    var c := CollapseNewlines(s);
    TrimKeepsNoDoubleNewline(c);
    Trim(c)
  }

  lemma TrimKeepsNoDoubleNewline(s: string)
    requires NoDoubleNewline(s)
    ensures NoDoubleNewline(Trim(s))
  {
    var r := Trim(s);
    var k: nat :| SliceWithWhitespaceMargins(s, r, k);
    InfixKeepsNoDoubleNewline(s, k, k + |r|);
  }

  lemma InfixKeepsNoDoubleNewline(s: string, i: nat, j: nat)
    requires i <= j <= |s|
    requires NoDoubleNewline(s)
    ensures NoDoubleNewline(s[i..j])
  {
    forall k | 0 <= k < j - i - 1
      ensures !(s[i..j][k] == '\n' && s[i..j][k + 1] == '\n')
    {
      assert s[i..j][k] == s[i + k] && s[i..j][k + 1] == s[i + k + 1];
    }
  }

  /** Dropping a leading run of line feeds does not change the other characters. */
  lemma {:induction false} DropNewlinesSkipsRun(s: string, n: nat)
    requires n <= |s|
    requires forall i :: 0 <= i < n ==> s[i] == '\n'
    ensures DropNewlines(s) == DropNewlines(s[n..])
  {
    if n > 0 {
      assert s[1..][n - 1..] == s[n..];
      DropNewlinesSkipsRun(s[1..], n - 1);
    }
  }

  /** The collapse removes line feeds only: every other character is kept, in order. */
  lemma {:induction false} CollapseKeepsOtherCharacters(s: string)
    ensures DropNewlines(CollapseNewlines(s)) == DropNewlines(s)
    decreases |s|
  {
    if s == [] {
    } else if s[0] == '\n' {
      var n := LeadingNewlines(s);
      var tail := CollapseNewlines(s[n..]);
      assert ("\n" + tail)[1..] == tail;
      CollapseKeepsOtherCharacters(s[n..]);
      DropNewlinesSkipsRun(s, n);
    } else {
      var tail := CollapseNewlines(s[1..]);
      assert ([s[0]] + tail)[1..] == tail;
      CollapseKeepsOtherCharacters(s[1..]);
    }
  }

  /** The collapse keeps the set of characters: no character disappears, none is added. */
  lemma {:induction false} CollapseKeepsCharacters(s: string)
    ensures forall c :: c in CollapseNewlines(s) <==> c in s
    decreases |s|
  {
    if s != [] {
      var n := if s[0] == '\n' then LeadingNewlines(s) else 1;
      CollapseKeepsCharacters(s[n..]);
      assert s == s[..n] + s[n..];
      assert forall c :: c in s[..n] ==> c == s[0];
    }
  }

  /** A text without adjacent line feeds is left unchanged by the collapse (and only such a text is). */
  lemma {:induction false} CollapseFixedPoint(s: string)
    ensures CollapseNewlines(s) == s <==> NoDoubleNewline(s)
    decreases |s|
  {
    if NoDoubleNewline(s) && s != [] {
      InfixKeepsNoDoubleNewline(s, 1, |s|);
      CollapseFixedPoint(s[1..]);
      assert CollapseNewlines(s[1..]) == s[1..];
      if s[0] == '\n' {
        assert |s| > 1 ==> s[1] != '\n';
        assert LeadingNewlines(s[1..]) == 0;
        assert LeadingNewlines(s) == 1;
      }
      assert CollapseNewlines(s) == [s[0]] + s[1..];
    }
  }

  /** A text without white space at either end is left unchanged by `trim` (and only such a text is). */
  lemma TrimFixedPoint(s: string)
    ensures Trim(s) == s <==> NoEdgeWhitespace(s)
  {
    if NoEdgeWhitespace(s) {
      var r := Trim(s);
      var k: nat :| SliceWithWhitespaceMargins(s, r, k);
      if s != [] {
        assert k == 0;
        assert k + |r| == |s|;
      }
    }
  }

  /** Normalising an already normalised text changes nothing. */
  lemma NormalizeIdempotent(s: string)
    ensures Normalize(Normalize(s)) == Normalize(s)
  {
    var n := Normalize(s);
    CollapseFixedPoint(n);
    TrimFixedPoint(n);
  }

  /** The normalised text is empty exactly when the input consists of white space only. */
  lemma NormalizeEmptyIff(s: string)
    ensures Normalize(s) == [] <==> forall i :: 0 <= i < |s| ==> IsJsWhitespace(s[i])
  {
    var c := CollapseNewlines(s);
    CollapseKeepsCharacters(s);
    if Normalize(s) == [] {
      forall i | 0 <= i < |s| ensures IsJsWhitespace(s[i]) {
        assert s[i] in c;
        var j :| 0 <= j < |c| && c[j] == s[i];
        var k: nat :| SliceWithWhitespaceMargins(c, [], k);
        assert IsJsWhitespace(c[j]);
      }
    } else {
      var r := Normalize(s);
      assert r[0] in c;
      var j :| 0 <= j < |s| && s[j] == r[0];
    }
  }

  /** A prefix without line feeds passes through the collapse unchanged. */
  lemma {:induction false} CollapseNewlineFreePrefix(a: string, b: string)
    requires '\n' !in a
    ensures CollapseNewlines(a + b) == a + CollapseNewlines(b)
  {
    if a != [] {
      var c := a[0];
      assert CollapseNewlines(a + b) == [c] + CollapseNewlines(a[1..] + b) by {
        assert (a + b)[0] == c && c in a;
        assert (a + b)[1..] == a[1..] + b;
      }
      CollapseNewlineFreePrefix(a[1..], b);
      assert [c] + (a[1..] + CollapseNewlines(b)) == a + CollapseNewlines(b) by {
        assert a == [c] + a[1..];
      }
    } else {
      assert a + b == b;
    }
  }

  /** Two line feeds in a row collapse exactly as one does. */
  lemma CollapseDoubleNewline(b: string)
    ensures CollapseNewlines("\n" + ("\n" + b)) == CollapseNewlines("\n" + b)
  {
    var t := "\n" + b;
    var s := "\n" + t;
    assert s[1..] == t;
    assert LeadingNewlines(s) == 1 + LeadingNewlines(t);
    assert s[LeadingNewlines(s)..] == t[LeadingNewlines(t)..];
  }

  /** A single line feed followed by a non-line-feed character is kept as it is. */
  lemma CollapseSingleNewline(b: string)
    requires b != [] && b[0] != '\n'
    ensures CollapseNewlines("\n" + b) == "\n" + CollapseNewlines(b)
  {
    var s := "\n" + b;
    assert s[1..] == b;
    assert LeadingNewlines(b) == 0;
    assert LeadingNewlines(s) == 1;
  }
}
