/**
 * `generateRules` of index.js: the rules text written to `.cursorrules`.
 * The template literal is fourteen lines: an opening sentence naming the
 * runtime and language, a sentence naming the runtime and framework, a line
 * that is either the front-end tooling sentence or empty, and a fixed block
 * of eleven directive lines. The result is the template normalised by
 * `Normalization.Normalize`.
 */
module Rules {
  import opened Normalization
  import opened Lines
  import opened Choices

  const OpeningHead: string := "您是一个专业的AI编程助手，主要专注于生成清晰、可读的"
  const OpeningTail: string := " 代码。"
  const VersionHead: string := "您始终使用最新的稳定版本的"
  const VersionTail: string := "，并且熟悉最新的功能和最佳实践。"
  const ToolingSentence: string := "您还使用最新版本的Tailwind、Stimulus、Hotwire和Turbo。"

  /** The reasoning sentence and the ten "- " directives, the same for every selection. */
  const Directive0: string := "您仔细提供准确、事实性、深思熟虑的答案，并且在推理方面非常出色。"
  const Directive1: string := "- 仔细遵循用户的要求，逐字执行。"
  const Directive2: string := "- 首先逐步思考 - 详细描述您要构建的计划的伪代码。"
  const Directive3: string := "- 确认后，再编写代码！"
  const Directive4: string := "- 始终编写正确、最新、无错误、完全功能齐全、安全、高效的代码。"
  const Directive5: string := "- 更加注重可读性，而不是性能。"
  const Directive6: string := "- 完全实现所有请求的功能。"
  const Directive7: string := "- 不留任何待办事项、占位符或缺失部分。"
  const Directive8: string := "- 确保引用文件名。"
  const Directive9: string := "- 简明扼要，尽量减少其他文字。"
  const Directive10: string := "- 如果您认为可能没有正确答案，请说明。如果您不知道答案，请直接说，而不是猜测。"
  const Directives: seq<string> :=
    [ Directive0, Directive1, Directive2, Directive3, Directive4, Directive5,
      Directive6, Directive7, Directive8, Directive9, Directive10 ]

  /**
   * The lines of the template literal for the raw answer strings, with the
   * conditional expressions as written, the `ruby` alternatives included.
   */
  function TemplateLines(projectType: string, framework: string, language: string): (lines: seq<string>)
    ensures |lines| == 3 + |Directives| && lines[3..] == Directives
  {
    [ OpeningHead
      + (if language == "ruby" then "Ruby" else if projectType == "nodejs" then "Node.js" else "React")
      + " "
      + (if language == "typescript" then "TypeScript" else if language == "ruby" then "" else "JavaScript")
      + OpeningTail,
      VersionHead
      + (if language == "ruby" then "Ruby和Rails" else if projectType == "nodejs" then "Node.js" else "React")
      + (if framework != "none" then " 和 " + framework else "")
      + VersionTail,
      if language == "ruby" || projectType == "react" then ToolingSentence else ""
    ] + Directives
  }

  /** The template literal itself: its lines separated by line feeds. */
  function Template(projectType: string, framework: string, language: string): string
  {
    JoinLines(TemplateLines(projectType, framework, language))
  }

  /**
   * `generateRules(projectType, framework, language)`. Whatever the strings,
   * the text is non-empty, has no two line feeds in a row, no white space at
   * either end, and normalising it again changes nothing.
   */
  function GenerateRules(projectType: string, framework: string, language: string): (r: string)
    ensures r != []
    ensures NoDoubleNewline(r) && NoEdgeWhitespace(r)
    ensures Normalize(r) == r
  {
    var t := Template(projectType, framework, language);
    TemplateStartsWithText(projectType, framework, language);
    NormalizeEmptyIff(t);
    NormalizeIdempotent(t);
    Normalize(t)
  }

  lemma TemplateStartsWithText(projectType: string, framework: string, language: string)
    ensures var t := Template(projectType, framework, language); |t| > 0 && !IsJsWhitespace(t[0])
  {
    var lines := TemplateLines(projectType, framework, language);
    JoinLinesEnds(lines);
    assert lines[0][0] == '您';
  }

  /** `generateRules` applied to the answers of a selection. */
  function Render(sel: Selection): string
  {
    GenerateRules(ProjectTypeName(sel.projectType), FrameworkName(sel.framework), LanguageName(sel.language))
  }

  // Reference description of the rendered text, stated with the selection's values.

  function RuntimeLabel(pt: ProjectType): string
  {
    match pt
    case NodeJs => "Node.js"
    case React => "React"
  }

  function LanguageLabel(lang: Language): string
  {
    match lang
    case JavaScript => "JavaScript"
    case TypeScript => "TypeScript"
  }

  /** `" 和 " + framework` when a framework is chosen, nothing for `none`. */
  function FrameworkClause(fw: Framework): string
  {
    if fw == NoFramework then "" else " 和 " + FrameworkName(fw)
  }

  /** The opening sentence: "... 生成清晰、可读的<runtime> <language> 代码。" */
  function OpeningLine(sel: Selection): string
  {
    OpeningHead + RuntimeLabel(sel.projectType) + " " + LanguageLabel(sel.language) + OpeningTail
  }

  /** The version sentence: the runtime, then the framework clause. */
  function VersionLine(sel: Selection): string
  {
    VersionHead + RuntimeLabel(sel.projectType) + FrameworkClause(sel.framework) + VersionTail
  }

  /** The two sentences that open the rendered text. */
  function Header(sel: Selection): seq<string>
  {
    [OpeningLine(sel), VersionLine(sel)]
  }

  /** The tooling sentence for React, nothing for Node.js. */
  function ToolingLines(pt: ProjectType): seq<string>
  {
    if pt == React then [ToolingSentence] else []
  }

  /** The lines the rendered text consists of: the empty tooling line is gone. */
  function ExpectedLines(sel: Selection): seq<string>
  {
    Header(sel) + ToolingLines(sel.projectType) + Directives
  }

  // Facts about single literals, one small proof each.

  lemma DirectiveLine0() ensures IsLine(Directive0) && |Directive0| > 1 && Directive0[1] == '仔' {}
  lemma DirectiveLine1() ensures IsLine(Directive1) && Directive1 != "" && Directive1[0] == '-' {}
  lemma DirectiveLine2() ensures IsLine(Directive2) && Directive2 != "" && Directive2[0] == '-' {}
  lemma DirectiveLine3() ensures IsLine(Directive3) && Directive3 != "" && Directive3[0] == '-' {}
  lemma DirectiveLine4() ensures IsLine(Directive4) && Directive4 != "" && Directive4[0] == '-' {}
  lemma DirectiveLine5() ensures IsLine(Directive5) && Directive5 != "" && Directive5[0] == '-' {}
  lemma DirectiveLine6() ensures IsLine(Directive6) && Directive6 != "" && Directive6[0] == '-' {}
  lemma DirectiveLine7() ensures IsLine(Directive7) && Directive7 != "" && Directive7[0] == '-' {}
  lemma DirectiveLine8() ensures IsLine(Directive8) && Directive8 != "" && Directive8[0] == '-' {}
  lemma DirectiveLine9() ensures IsLine(Directive9) && Directive9 != "" && Directive9[0] == '-' {}
  lemma DirectiveLine10() ensures IsLine(Directive10) && Directive10 != "" && Directive10[0] == '-' {}

  lemma OpeningLiterals()
    ensures IsLine(OpeningHead) && IsLine(OpeningTail)
    ensures |OpeningHead| > 1 && OpeningHead[0] == '您' && OpeningHead[1] == '是'
    ensures |OpeningTail| > 2 && OpeningTail[..3] == " 代码"
  {
  }

  lemma VersionLiterals()
    ensures IsLine(VersionHead) && IsLine(VersionTail) && ' ' !in VersionHead && ' ' !in VersionTail
    ensures |VersionHead| > 1 && VersionHead[1] == '始'
  {
  }

  lemma ToolingIsLine() ensures IsLine(ToolingSentence) {}

  lemma ToolingLeadingCharacters()
    ensures |ToolingSentence| > 1 && ToolingSentence[0] == '您' && ToolingSentence[1] == '还'
  {
  }

  /** Each directive is a non-empty line; all but the first begin with "-". */
  lemma DirectivesAreLines()
    ensures AllLines(Directives)
    ensures forall i :: 0 <= i < |Directives| ==> Directives[i] != ""
    ensures |Directives[0]| > 1 && Directives[0][1] == '仔'
    ensures forall i :: 1 <= i < |Directives| ==> Directives[i][0] == '-'
  {
    DirectiveLine0(); DirectiveLine1(); DirectiveLine2(); DirectiveLine3();
    DirectiveLine4(); DirectiveLine5(); DirectiveLine6(); DirectiveLine7();
    DirectiveLine8(); DirectiveLine9(); DirectiveLine10();
  }

  lemma OpeningLineIsLine(sel: Selection)
    ensures IsLine(OpeningLine(sel)) && |OpeningLine(sel)| > 1
    ensures OpeningLine(sel)[0] == '您' && OpeningLine(sel)[1] == '是'
  {
    OpeningLiterals();
    var rest := RuntimeLabel(sel.projectType) + " " + LanguageLabel(sel.language) + OpeningTail;
    assert IsLine(rest);
    assert OpeningLine(sel) == OpeningHead + rest;
  }

  lemma VersionLineIsLine(sel: Selection)
    ensures IsLine(VersionLine(sel)) && |VersionLine(sel)| > 1 && VersionLine(sel)[1] == '始'
  {
    VersionLiterals();
    var rest := RuntimeLabel(sel.projectType) + FrameworkClause(sel.framework) + VersionTail;
    assert IsLine(rest);
    assert VersionLine(sel) == VersionHead + rest;
  }

  /** The header sentences are non-empty lines, told apart by their second character. */
  lemma HeaderAreLines(sel: Selection)
    ensures AllLines(Header(sel))
    ensures forall i :: 0 <= i < |Header(sel)| ==> Header(sel)[i] != ""
    ensures OpeningLine(sel)[0] == '您' && OpeningLine(sel)[1] == '是' && VersionLine(sel)[1] == '始'
  {
    OpeningLineIsLine(sel);
    VersionLineIsLine(sel);
  }

  /**
   * For the answers a selection stands for, every conditional of the template
   * takes its Node.js or React alternative: the `ruby` ones are never taken.
   */
  lemma TemplateOfSelection(sel: Selection)
    ensures TemplateLines(ProjectTypeName(sel.projectType), FrameworkName(sel.framework),
                          LanguageName(sel.language))
            == Header(sel) + [if sel.projectType == React then ToolingSentence else ""] + Directives
  {
  }

  /** The template's lines are lines whose first and last are not empty. */
  lemma TemplateLinesAreLines(sel: Selection)
    ensures var lines := TemplateLines(ProjectTypeName(sel.projectType), FrameworkName(sel.framework),
                                       LanguageName(sel.language));
            AllLines(lines) && lines[0] != "" && lines[|lines| - 1] != ""
  {
    var tooling := if sel.projectType == React then ToolingSentence else "";
    var h := Header(sel);
    TemplateOfSelection(sel);
    DirectivesAreLines();
    HeaderAreLines(sel);
    ToolingIsLine();
    AllLinesAppend(h, [tooling]);
    AllLinesAppend(h + [tooling], Directives);
  }

  /** Leaving out the template's empty lines gives the expected lines. */
  lemma TemplateNonEmptyLines(sel: Selection)
    ensures NonEmptyLines(TemplateLines(ProjectTypeName(sel.projectType), FrameworkName(sel.framework),
                                        LanguageName(sel.language)))
            == ExpectedLines(sel)
  {
    var tooling := if sel.projectType == React then ToolingSentence else "";
    var h := Header(sel);
    TemplateOfSelection(sel);
    DirectivesAreLines();
    HeaderAreLines(sel);
    ToolingLeadingCharacters();
    NonEmptyLinesAppend(h + [tooling], Directives);
    NonEmptyLinesAppend(h, [tooling]);
    NonEmptyLinesUnchanged(h);
    NonEmptyLinesUnchanged(Directives);
    assert NonEmptyLines([tooling]) == ToolingLines(sel.projectType);
  }

  /** Collapsing the template's line feed runs leaves exactly the expected lines. */
  lemma CollapseTemplate(sel: Selection)
    ensures CollapseNewlines(Template(ProjectTypeName(sel.projectType), FrameworkName(sel.framework),
                                      LanguageName(sel.language)))
            == JoinLines(ExpectedLines(sel))
  {
    var lines := TemplateLines(ProjectTypeName(sel.projectType), FrameworkName(sel.framework),
                               LanguageName(sel.language));
    TemplateLinesAreLines(sel);
    TemplateNonEmptyLines(sel);
    CollapseJoinedLines(lines);
  }

  /** The expected text begins and ends with a character that is not white space. */
  lemma ExpectedTextHasNoEdgeWhitespace(sel: Selection)
    ensures NoEdgeWhitespace(JoinLines(ExpectedLines(sel)))
  {
    var expected := ExpectedLines(sel);
    var t := JoinLines(expected);
    JoinLinesEnds(expected);
    HeaderAreLines(sel);
    var first, last := expected[0], expected[|expected| - 1];
    assert first == OpeningLine(sel);
    assert last == Directive10;
    assert t[0] == first[0] by {
      assert t[..|first|] == first;
    }
    assert t[|t| - 1] == last[|last| - 1] by {
      assert t[|t| - |last|..] == last;
    }
  }

  /**
   * The rendered text for a selection is its expected lines joined by single
   * line feeds: normalisation removes the empty tooling line of a Node.js
   * project and nothing else.
   */
  lemma RenderLines(sel: Selection)
    ensures Render(sel) == JoinLines(ExpectedLines(sel))
  {
    CollapseTemplate(sel);
    ExpectedTextHasNoEdgeWhitespace(sel);
    TrimFixedPoint(JoinLines(ExpectedLines(sel)));
  }

  /** The expected lines are lines: none holds a line feed. */
  lemma ExpectedAreLines(sel: Selection)
    ensures AllLines(ExpectedLines(sel))
  {
    var tooling := ToolingLines(sel.projectType);
    DirectivesAreLines();
    HeaderAreLines(sel);
    assert AllLines(tooling) by {
      ToolingIsLine();
    }
    AllLinesAppend(Header(sel), tooling);
    AllLinesAppend(Header(sel) + tooling, Directives);
  }

  /**
   * The lines of the rendered text, `Render(sel).split('\n')`, are exactly
   * the expected lines: thirteen for a Node.js project, fourteen for React.
   */
  lemma RenderedLines(sel: Selection)
    ensures SplitLines(Render(sel)) == ExpectedLines(sel)
    ensures |SplitLines(Render(sel))| == if sel.projectType == React then 14 else 13
  {
    RenderLines(sel);
    ExpectedAreLines(sel);
    SplitJoin(ExpectedLines(sel));
  }

  /** `t` occurs in `s` starting at position `i`. */
  predicate InfixAt(s: string, t: string, i: nat)
  {
    i + |t| <= |s| && s[i..i + |t|] == t
  }

  /** `t` occurs in `s` as a contiguous piece. */
  predicate ContainsInfix(s: string, t: string)
  {
    exists i: nat | i <= |s| :: InfixAt(s, t, i)
  }

  lemma NotInfixOfSpaceless(s: string, t: string)
    requires t != [] && t[0] == ' ' && ' ' !in s
    ensures !ContainsInfix(s, t)
  {
    forall i: nat | i <= |s| ensures !InfixAt(s, t, i) {
      if i + |t| <= |s| {
        assert s[i] in s;
        assert s[i..i + |t|][0] == s[i];
      }
    }
  }

  /** Among the expected lines, the tooling sentence occurs exactly for React. */
  lemma ExpectedToolingIffReact(sel: Selection)
    ensures ToolingSentence in ExpectedLines(sel) <==> sel.projectType == React
  {
    HeaderAreLines(sel);
    DirectivesAreLines();
    ToolingLeadingCharacters();
    assert ToolingSentence !in Header(sel);
    assert ToolingSentence !in Directives by {
      forall i | 0 <= i < |Directives| ensures Directives[i] != ToolingSentence {
        if i > 0 {
          assert Directives[i][0] != ToolingSentence[0];
        }
      }
    }
  }

  /**
   * The tooling sentence (Tailwind, Stimulus, Hotwire, Turbo) is one of the
   * rendered lines exactly when the project type is React.
   */
  lemma ToolingSentenceIffReact(sel: Selection)
    ensures ToolingSentence in SplitLines(Render(sel)) <==> sel.projectType == React
  {
    RenderedLines(sel);
    ExpectedToolingIffReact(sel);
  }

  /** The version sentence holds `" 和 " + framework` exactly when a framework is chosen. */
  lemma VersionLineClause(sel: Selection)
    ensures sel.framework == NoFramework ==> VersionLine(sel) == VersionHead + RuntimeLabel(sel.projectType) + VersionTail
    ensures sel.framework != NoFramework ==> ContainsInfix(VersionLine(sel), " 和 " + FrameworkName(sel.framework))
    ensures ContainsInfix(VersionLine(sel), " 和 ") <==> sel.framework != NoFramework
  {
    var runtime := RuntimeLabel(sel.projectType);
    var line := VersionLine(sel);
    if sel.framework == NoFramework {
      VersionLiterals();
      assert line == VersionHead + runtime + VersionTail;
      assert ' ' !in line by {
        assert ' ' !in runtime;
      }
      NotInfixOfSpaceless(line, " 和 ");
    } else {
      var clause := " 和 " + FrameworkName(sel.framework);
      var k := |VersionHead + runtime|;
      assert line == (VersionHead + runtime) + clause + VersionTail;
      assert InfixAt(line, clause, k);
      assert InfixAt(line, " 和 ", k) by {
        assert line[k..k + 3] == clause[..3];
      }
    }
  }

  /**
   * The second rendered line names the runtime alone for `none`, and the
   * runtime followed by `" 和 " + framework` otherwise: the conjunction
   * `" 和 "` occurs in that line exactly when a framework is chosen.
   */
  lemma FrameworkClauseIffFramework(sel: Selection)
    ensures |SplitLines(Render(sel))| > 1
    ensures var line := SplitLines(Render(sel))[1];
            && (sel.framework == NoFramework ==> line == VersionHead + RuntimeLabel(sel.projectType) + VersionTail)
            && (sel.framework != NoFramework ==> ContainsInfix(line, " 和 " + FrameworkName(sel.framework)))
            && (ContainsInfix(line, " 和 ") <==> sel.framework != NoFramework)
  {
    var lines := SplitLines(Render(sel));
    assert lines == ExpectedLines(sel) && |lines| > 1 by {
      RenderedLines(sel);
    }
    assert lines[1] == VersionLine(sel);
    VersionLineClause(sel);
  }

  /** The opening sentence names the runtime, then the language, then "代码". */
  lemma OpeningLineNames(sel: Selection)
    ensures ContainsInfix(OpeningLine(sel), RuntimeLabel(sel.projectType) + " " + LanguageLabel(sel.language) + " 代码")
  {
    var named := RuntimeLabel(sel.projectType) + " " + LanguageLabel(sel.language);
    var line := OpeningLine(sel);
    OpeningLiterals();
    assert line == OpeningHead + named + OpeningTail;
    assert named + " 代码" == named + OpeningTail[..3];
    assert InfixAt(line, named + " 代码", |OpeningHead|);
  }

  /** The opening line names the runtime and the language: "Node.js JavaScript", "React TypeScript", ... */
  lemma OpeningNamesRuntimeAndLanguage(sel: Selection)
    ensures |SplitLines(Render(sel))| > 0
    ensures ContainsInfix(SplitLines(Render(sel))[0],
                          RuntimeLabel(sel.projectType) + " " + LanguageLabel(sel.language) + " 代码")
  {
    RenderedLines(sel);
    OpeningLineNames(sel);
  }

  /** The directive block ends the expected lines, and the expected text after a line feed. */
  lemma ExpectedEndsWithDirectives(sel: Selection, lines: seq<string>, t: string)
    requires lines == ExpectedLines(sel) && t == JoinLines(lines)
    ensures |lines| > |Directives| && lines[|lines| - |Directives|..] == Directives
    ensures var block := "\n" + JoinLines(Directives); |block| < |t| && t[|t| - |block|..] == block
  {
    var head := Header(sel) + ToolingLines(sel.projectType);
    assert lines == head + Directives;
    JoinLinesSuffix(head, Directives);
    assert |JoinLines(head)| > 0 by {
      OpeningLineIsLine(sel);
      JoinLinesEnds(head);
    }
  }

  /** The directive block ends every rendered text, verbatim and in order. */
  lemma DirectivesEndEveryText(sel: Selection)
    ensures var lines := SplitLines(Render(sel));
            |lines| > |Directives| && lines[|lines| - |Directives|..] == Directives
    ensures var block := "\n" + JoinLines(Directives);
            |block| < |Render(sel)| && Render(sel)[|Render(sel)| - |block|..] == block
  {
    RenderedLines(sel);
    RenderLines(sel);
    ExpectedEndsWithDirectives(sel, SplitLines(Render(sel)), Render(sel));
  }

  /**
   * The program end to end: the answers typed, then the text written to
   * `.cursorrules`, or nothing while a question is still unanswered.
   */
  function Run(answers: seq<string>): (r: Option<string>)
    ensures r.Some? <==> Session(answers).Some?
    ensures r.Some? ==> && ValidSelection(Session(answers).value)
                        && r.value == JoinLines(ExpectedLines(Session(answers).value))
                        && r.value != [] && NoDoubleNewline(r.value) && NoEdgeWhitespace(r.value)
  {
    match Session(answers)
    case None => None
    case Some(sel) =>
      RenderLines(sel);
      Some(Render(sel))
  }
}
