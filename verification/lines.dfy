/**
 * The rules template as a sequence of lines. A multi-line template literal
 * is the concatenation of its lines with a line feed between each pair, so
 * the template of index.js is `JoinLines` of its fourteen lines. The program
 * never splits text; `SplitLines` (JavaScript's `split('\n')`) is the view
 * used here to state what the lines of the rendered text are.
 */
module Lines {
  import opened Normalization

  /** A line of text: it holds no line feed. */
  predicate IsLine(s: string)
  {
    '\n' !in s
  }

  predicate AllLines(lines: seq<string>)
  {
    forall i :: 0 <= i < |lines| ==> IsLine(lines[i])
  }

  lemma AllLinesAppend(a: seq<string>, b: seq<string>)
    requires AllLines(a) && AllLines(b)
    ensures AllLines(a + b)
  {
    assert forall i :: 0 <= i < |a + b| ==> (a + b)[i] == if i < |a| then a[i] else b[i - |a|];
  }

  /** Regrouping a concatenation around a line feed (kept apart so that proofs stay small). */
  lemma LineFeedRegroup(a: string, b: string)
    ensures a + ("\n" + b) == a + "\n" + b
  {
  }

  /** `lines.join('\n')`. */
  function JoinLines(lines: seq<string>): (r: string)
  {
    if |lines| == 0 then ""
    else if |lines| == 1 then lines[0]
    else lines[0] + "\n" + JoinLines(lines[1..])
  }

  /** The joined text begins with the first line and ends with the last one. */
  lemma {:induction false} JoinLinesEnds(lines: seq<string>)
    requires |lines| > 0
    ensures |lines[0]| <= |JoinLines(lines)| && JoinLines(lines)[..|lines[0]|] == lines[0]
    ensures |lines[|lines| - 1]| <= |JoinLines(lines)|
            && JoinLines(lines)[|JoinLines(lines)| - |lines[|lines| - 1]|..] == lines[|lines| - 1]
  {
    if |lines| > 1 {
      var rest := JoinLines(lines[1..]);
      JoinLinesEnds(lines[1..]);
      assert lines[1..][|lines[1..]| - 1] == lines[|lines| - 1];
      assert (lines[0] + "\n" + rest)[..|lines[0]|] == lines[0];
      var last := lines[|lines| - 1];
      assert (lines[0] + "\n" + rest)[|lines[0] + "\n" + rest| - |last|..] == rest[|rest| - |last|..];
    }
  }

  /**
   * The lines of a text, as `s.split('\n')` would give them: the pieces
   * between line feeds, one more than there are line feeds.
   */
  function SplitLines(s: string): (r: seq<string>)
    ensures |r| >= 1 && AllLines(r)
  {
    if s == [] then [""]
    else
      var rest := SplitLines(s[1..]);
      if s[0] == '\n' then [""] + rest
      else
        assert forall i :: 1 <= i < |rest| ==> ([[s[0]] + rest[0]] + rest[1..])[i] == rest[i];
        [[s[0]] + rest[0]] + rest[1..]
  }

  /** The lines that are not empty, in order. */
  function NonEmptyLines(lines: seq<string>): (r: seq<string>)
    ensures |r| <= |lines|
    ensures forall i :: 0 <= i < |r| ==> r[i] != ""
  {
    if lines == [] then []
    else (if lines[0] == "" then [] else [lines[0]]) + NonEmptyLines(lines[1..])
  }

  lemma {:induction false} NonEmptyLinesAppend(a: seq<string>, b: seq<string>)
    ensures NonEmptyLines(a + b) == NonEmptyLines(a) + NonEmptyLines(b)
  {
    if a != [] {
      assert (a + b)[0] == a[0] && (a + b)[1..] == a[1..] + b;
      NonEmptyLinesAppend(a[1..], b);
    } else {
      assert a + b == b;
    }
  }

  /** Filtering lines none of which is empty changes nothing. */
  lemma {:induction false} NonEmptyLinesUnchanged(lines: seq<string>)
    requires forall i :: 0 <= i < |lines| ==> lines[i] != ""
    ensures NonEmptyLines(lines) == lines
  {
    if lines != [] {
      NonEmptyLinesUnchanged(lines[1..]);
    }
  }

  /** Joining two non-empty blocks of lines puts one line feed between them. */
  lemma {:induction false} JoinLinesAppend(a: seq<string>, b: seq<string>)
    requires |a| > 0 && |b| > 0
    ensures JoinLines(a + b) == JoinLines(a) + "\n" + JoinLines(b)
  {
    if |a| == 1 {
      assert (a + b)[1..] == b;
    } else {
      assert (a + b)[1..] == a[1..] + b;
      JoinLinesAppend(a[1..], b);
    }
  }

  /** The joined lines of `a + b` end with a line feed and the joined lines of `b`, after those of `a`. */
  lemma JoinLinesSuffix(a: seq<string>, b: seq<string>)
    requires |a| > 0 && |b| > 0
    ensures var t, block := JoinLines(a + b), "\n" + JoinLines(b);
            |t| == |JoinLines(a)| + |block| && t[|t| - |block|..] == block
  {
    JoinLinesAppend(a, b);
    assert JoinLines(a) + "\n" + JoinLines(b) == JoinLines(a) + ("\n" + JoinLines(b));
  }

  /** Splitting `a + t` where `a` is a line extends the first piece of `t` by `a`. */
  lemma {:induction false} SplitLinesLinePrefix(a: string, t: string)
    requires IsLine(a)
    ensures SplitLines(a + t) == [a + SplitLines(t)[0]] + SplitLines(t)[1..]
  {
    if a == [] {
      assert a + t == t;
      assert a + SplitLines(t)[0] == SplitLines(t)[0];
      assert [SplitLines(t)[0]] + SplitLines(t)[1..] == SplitLines(t);
    } else {
      assert a[0] in a;
      assert (a + t)[0] == a[0] && (a + t)[1..] == a[1..] + t;
      SplitLinesLinePrefix(a[1..], t);
      assert [a[0]] + (a[1..] + SplitLines(t)[0]) == a + SplitLines(t)[0];
    }
  }

  /** Splitting the joined lines gives the lines back. */
  lemma {:induction false} SplitJoin(lines: seq<string>)
    requires |lines| >= 1 && AllLines(lines)
    ensures SplitLines(JoinLines(lines)) == lines
  {
    if |lines| == 1 {
      SplitLinesLinePrefix(lines[0], "");
      assert lines[0] + "" == lines[0];
    } else {
      var rest := JoinLines(lines[1..]);
      SplitJoin(lines[1..]);
      assert ("\n" + rest)[1..] == rest;
      assert SplitLines("\n" + rest) == [""] + lines[1..];
      assert lines[0] + "\n" + rest == lines[0] + ("\n" + rest);
      SplitLinesLinePrefix(lines[0], "\n" + rest);
      assert lines[0] + "" == lines[0];
    }
  }

  /** Joining the split pieces gives the text back. */
  lemma {:induction false} JoinSplit(s: string)
    ensures JoinLines(SplitLines(s)) == s
  {
    if s != [] {
      var rest := SplitLines(s[1..]);
      JoinSplit(s[1..]);
      if s[0] == '\n' {
        assert JoinLines([""] + rest) == "" + "\n" + JoinLines(rest);
      } else {
        var lines := [[s[0]] + rest[0]] + rest[1..];
        if |rest| == 1 {
          assert JoinLines(lines) == [s[0]] + rest[0];
        } else {
          assert lines[1..] == rest[1..];
          assert JoinLines(lines) == [s[0]] + rest[0] + "\n" + JoinLines(rest[1..]);
        }
      }
    }
  }

  /** A line feed, a non-empty line, then more text: the line survives the collapse. */
  lemma CollapseNewlineLine(l: string, x: string)
    requires IsLine(l) && l != ""
    ensures CollapseNewlines("\n" + (l + ("\n" + x))) == "\n" + (l + CollapseNewlines("\n" + x))
  {
    assert l[0] in l;
    assert (l + ("\n" + x))[0] == l[0];
    CollapseSingleNewline(l + ("\n" + x));
    CollapseNewlineFreePrefix(l, "\n" + x);
  }

  /** A line feed and one non-empty line: nothing to collapse. */
  lemma CollapseNewlineOneLine(l: string)
    requires IsLine(l) && l != ""
    ensures CollapseNewlines("\n" + l) == "\n" + l
  {
    assert l[0] in l;
    CollapseSingleNewline(l);
    CollapseNewlineFreePrefix(l, "");
    assert l + "" == l;
  }

  /** An empty first line: its line feed joins the run of the next one. */
  lemma CollapseAfterEmptyLine(lines: seq<string>)
    requires |lines| > 1 && lines[0] == ""
    ensures NonEmptyLines(lines) == NonEmptyLines(lines[1..])
    ensures CollapseNewlines("\n" + JoinLines(lines)) == CollapseNewlines("\n" + JoinLines(lines[1..]))
  {
    var rest := JoinLines(lines[1..]);
    assert JoinLines(lines) == "\n" + rest by {
      assert JoinLines(lines) == "" + "\n" + rest;
    }
    CollapseDoubleNewline(rest);
  }

  /** A non-empty first line survives, followed by what the rest collapses to. */
  lemma CollapseAfterNonEmptyLine(lines: seq<string>)
    requires |lines| > 1 && IsLine(lines[0]) && lines[0] != ""
    ensures NonEmptyLines(lines) == [lines[0]] + NonEmptyLines(lines[1..])
    ensures CollapseNewlines("\n" + JoinLines(lines))
            == "\n" + (lines[0] + CollapseNewlines("\n" + JoinLines(lines[1..])))
  {
    var rest := JoinLines(lines[1..]);
    assert JoinLines(lines) == lines[0] + ("\n" + rest) by {
      assert JoinLines(lines) == lines[0] + "\n" + rest;
    }
    CollapseNewlineLine(lines[0], rest);
  }

  /** One step of `CollapseAfterNewline`: from the lines after the first to all of them. */
  lemma CollapseAfterNewlineStep(lines: seq<string>)
    requires |lines| > 1 && IsLine(lines[0])
    requires NonEmptyLines(lines[1..]) != []
    requires CollapseNewlines("\n" + JoinLines(lines[1..])) == "\n" + JoinLines(NonEmptyLines(lines[1..]))
    ensures NonEmptyLines(lines) != []
    ensures CollapseNewlines("\n" + JoinLines(lines)) == "\n" + JoinLines(NonEmptyLines(lines))
  {
    var l0 := lines[0];
    var kept := NonEmptyLines(lines[1..]);
    if l0 == "" {
      CollapseAfterEmptyLine(lines);
    } else {
      CollapseAfterNonEmptyLine(lines);
      assert JoinLines(NonEmptyLines(lines)) == l0 + "\n" + JoinLines(kept) by {
        assert ([l0] + kept)[1..] == kept;
      }
      LineFeedRegroup(l0, JoinLines(kept));
    }
  }

  /**
   * The collapse applied to a line feed followed by the joined lines drops the
   * empty lines: each line feed left separates two non-empty lines.
   */
  lemma {:induction false} CollapseAfterNewline(lines: seq<string>)
    requires |lines| >= 1 && AllLines(lines) && lines[|lines| - 1] != ""
    ensures NonEmptyLines(lines) != []
    ensures CollapseNewlines("\n" + JoinLines(lines)) == "\n" + JoinLines(NonEmptyLines(lines))
  {
    if |lines| == 1 {
      assert NonEmptyLines(lines) == [lines[0]] by {
        assert NonEmptyLines(lines[1..]) == [];
      }
      CollapseNewlineOneLine(lines[0]);
    } else {
      assert AllLines(lines[1..]);
      CollapseAfterNewline(lines[1..]);
      CollapseAfterNewlineStep(lines);
    }
  }

  /**
   * Collapsing the runs of line feeds in joined lines whose first and last
   * lines are non-empty is the same as leaving out the empty lines.
   */
  lemma {:induction false} CollapseJoinedLines(lines: seq<string>)
    requires |lines| >= 1 && AllLines(lines)
    requires lines[0] != "" && lines[|lines| - 1] != ""
    ensures CollapseNewlines(JoinLines(lines)) == JoinLines(NonEmptyLines(lines))
  {
    var l0 := lines[0];
    if |lines| == 1 {
      assert NonEmptyLines(lines) == [l0] by {
        assert NonEmptyLines(lines[1..]) == [];
      }
      assert CollapseNewlines(l0) == l0 by {
        CollapseNewlineFreePrefix(l0, "");
        assert l0 + "" == l0;
      }
    } else {
      var rest := JoinLines(lines[1..]);
      var kept := NonEmptyLines(lines[1..]);
      CollapseAfterNewline(lines[1..]);
      assert CollapseNewlines(JoinLines(lines)) == l0 + ("\n" + JoinLines(kept)) by {
        assert JoinLines(lines) == l0 + "\n" + rest;
        LineFeedRegroup(l0, rest);
        CollapseNewlineFreePrefix(l0, "\n" + rest);
      }
      assert JoinLines(NonEmptyLines(lines)) == l0 + "\n" + JoinLines(kept) by {
        assert NonEmptyLines(lines) == [l0] + kept;
        assert ([l0] + kept)[1..] == kept;
      }
      LineFeedRegroup(l0, JoinLines(kept));
    }
  }
}
