/**
 * The three questions the generator asks and the answers it accepts
 * (`askProjectType`, `askFramework`, `askLanguage` in index.js).
 * An accepted answer becomes a value of an enumerated type; a rejected one
 * makes the same question be asked again. The terminal itself is not
 * modelled: the answers the user types are given as a finite sequence.
 */
module Choices {

  datatype Option<T> = None | Some(value: T)

  datatype ProjectType = NodeJs | React

  datatype Framework = Express | NestJs | UmiJs | NextJs | NoFramework

  datatype Language = JavaScript | TypeScript

  /** The answers that reach `generateRules`. */
  datatype Selection = Selection(projectType: ProjectType, framework: Framework, language: Language)

  /** The answer text that selects each value. */
  function ProjectTypeName(pt: ProjectType): string
  {
    match pt
    case NodeJs => "nodejs"
    case React => "react"
  }

  function FrameworkName(fw: Framework): string
  {
    match fw
    case Express => "express"
    case NestJs => "nestjs"
    case UmiJs => "umijs"
    case NextJs => "nextjs"
    case NoFramework => "none"
  }

  function LanguageName(lang: Language): string
  {
    match lang
    case JavaScript => "javascript"
    case TypeScript => "typescript"
  }

  /** The accepted project types. */
  const ProjectTypeChoices: seq<string> := ["nodejs", "react"]

  /** The accepted frameworks: they depend on the project type. */
  function FrameworkChoices(pt: ProjectType): seq<string>
  {
    if pt == NodeJs then ["express", "nestjs", "none"] else ["umijs", "nextjs", "none"]
  }

  /** The accepted languages. */
  const LanguageChoices: seq<string> := ["javascript", "typescript"]

  /** `fw` is one of the frameworks offered for `pt`. */
  predicate FrameworkOffered(pt: ProjectType, fw: Framework)
  {
    FrameworkName(fw) in FrameworkChoices(pt)
  }

  /** A selection whose framework is one offered for its project type. */
  predicate ValidSelection(sel: Selection)
  {
    FrameworkOffered(sel.projectType, sel.framework)
  }

  /** The answer to the project type question is accepted exactly when it is a listed choice. */
  function ParseProjectType(answer: string): (r: Option<ProjectType>)
    ensures r.Some? <==> answer in ProjectTypeChoices
    ensures r.Some? ==> ProjectTypeName(r.value) == answer
  {
    if answer == "nodejs" then Some(NodeJs)
    else if answer == "react" then Some(React)
    else None
  }

  /** The answer to the framework question is accepted exactly when it is offered for `pt`. */
  function ParseFramework(pt: ProjectType, answer: string): (r: Option<Framework>)
    ensures r.Some? <==> answer in FrameworkChoices(pt)
    ensures r.Some? ==> FrameworkName(r.value) == answer
                        && FrameworkOffered(pt, r.value)
  {
    if answer == "none" then Some(NoFramework)
    else if pt == NodeJs && answer == "express" then Some(Express)
    else if pt == NodeJs && answer == "nestjs" then Some(NestJs)
    else if pt == React && answer == "umijs" then Some(UmiJs)
    else if pt == React && answer == "nextjs" then Some(NextJs)
    else None
  }

  /** The answer to the language question is accepted exactly when it is a listed choice. */
  function ParseLanguage(answer: string): (r: Option<Language>)
    ensures r.Some? <==> answer in LanguageChoices
    ensures r.Some? ==> LanguageName(r.value) == answer
  {
    if answer == "javascript" then Some(JavaScript)
    else if answer == "typescript" then Some(TypeScript)
    else None
  }

  /** Each value's own answer text is accepted and gives that value back. */
  lemma ParseNames(sel: Selection)
    requires ValidSelection(sel)
    ensures ParseProjectType(ProjectTypeName(sel.projectType)) == Some(sel.projectType)
    ensures ParseFramework(sel.projectType, FrameworkName(sel.framework)) == Some(sel.framework)
    ensures ParseLanguage(LanguageName(sel.language)) == Some(sel.language)
  {
  }

  /**
   * The framework offered for a project type, as a table: `none` always,
   * express and nestjs for Node.js, umijs and nextjs for React.
   */
  lemma ValidSelectionTable(sel: Selection)
    ensures ValidSelection(sel) <==>
              || sel.framework == NoFramework
              || (sel.projectType == NodeJs && (sel.framework == Express || sel.framework == NestJs))
              || (sel.projectType == React && (sel.framework == UmiJs || sel.framework == NextJs))
  {
  }

  /** The twelve selections the questions can produce. */
  const AllSelections: seq<Selection> :=
    [ Selection(NodeJs, Express, JavaScript), Selection(NodeJs, Express, TypeScript),
      Selection(NodeJs, NestJs, JavaScript), Selection(NodeJs, NestJs, TypeScript),
      Selection(NodeJs, NoFramework, JavaScript), Selection(NodeJs, NoFramework, TypeScript),
      Selection(React, UmiJs, JavaScript), Selection(React, UmiJs, TypeScript),
      Selection(React, NextJs, JavaScript), Selection(React, NextJs, TypeScript),
      Selection(React, NoFramework, JavaScript), Selection(React, NoFramework, TypeScript) ]

  /** Exactly twelve distinct selections are valid. */
  lemma TwelveValidSelections(sel: Selection)
    ensures |AllSelections| == 12
    ensures forall i, j :: 0 <= i < j < |AllSelections| ==> AllSelections[i] != AllSelections[j]
    ensures ValidSelection(sel) <==> sel in AllSelections
  {
    ValidSelectionTable(sel);
    if ValidSelection(sel) {
      var k := match (sel.projectType, sel.framework)
        case (NodeJs, Express) => 0
        case (NodeJs, NestJs) => 2
        case (NodeJs, _) => 4
        case (React, UmiJs) => 6
        case (React, NextJs) => 8
        case (React, _) => 10;
      var m := if sel.language == JavaScript then k else k + 1;
      assert AllSelections[m] == sel;
    }
  }

  /**
   * One question asked until an answer is accepted: the result is the value
   * of the first accepted answer and its position; every earlier answer was
   * rejected. With no accepted answer the question is still open.
   */
  function Ask<T>(accept: string -> Option<T>, answers: seq<string>): (r: Option<(T, nat)>)
    ensures r.Some? ==> && r.value.1 < |answers|
                        && accept(answers[r.value.1]) == Some(r.value.0)
                        && forall j :: 0 <= j < r.value.1 ==> accept(answers[j]).None?
    ensures r.None? ==> forall j :: 0 <= j < |answers| ==> accept(answers[j]).None?
  {
    if answers == [] then None
    else match accept(answers[0])
      case Some(v) => Some((v, 0))
      case None =>
        match Ask(accept, answers[1..])
        case None => None
        case Some((v, i)) => Some((v, i + 1))
  }

  /** The answer at `k` is the first one among `choices`. */
  predicate FirstListedAt(answers: seq<string>, choices: seq<string>, k: nat)
  {
    && k < |answers|
    && answers[k] in choices
    && forall j :: 0 <= j < k ==> answers[j] !in choices
  }

  /**
   * For a parser that accepts exactly `choices`, the question ends at the
   * first answer among `choices`, with that answer's value, and stays open
   * when no answer is among them.
   */
  lemma {:induction false} AskStopsAtFirstListed<T>(accept: string -> Option<T>, choices: seq<string>, answers: seq<string>)
    requires forall a :: accept(a).Some? <==> a in choices
    ensures Ask(accept, answers).None? <==> forall j :: 0 <= j < |answers| ==> answers[j] !in choices
    ensures forall k: nat :: FirstListedAt(answers, choices, k) ==>
              Ask(accept, answers) == Some((accept(answers[k]).value, k))
  {
    if answers != [] {
      AskStopsAtFirstListed(accept, choices, answers[1..]);
      forall k: nat | FirstListedAt(answers, choices, k)
        ensures Ask(accept, answers) == Some((accept(answers[k]).value, k))
      {
        if k > 0 {
          assert answers[0] !in choices;
          assert FirstListedAt(answers[1..], choices, k - 1);
        }
      }
    }
  }

  /**
   * `askLanguage(projectType, framework)`: the language question asked until
   * answered with a listed language; the first listed language typed
   * completes the selection.
   */
  function AskLanguage(pt: ProjectType, fw: Framework, answers: seq<string>): (r: Option<Selection>)
    ensures r.None? <==> forall j :: 0 <= j < |answers| ==> answers[j] !in LanguageChoices
    ensures forall k: nat :: FirstListedAt(answers, LanguageChoices, k) ==>
              r == Some(Selection(pt, fw, ParseLanguage(answers[k]).value))
  {
    AskStopsAtFirstListed(ParseLanguage, LanguageChoices, answers);
    match Ask(ParseLanguage, answers)
    case None => None
    case Some((lang, _)) => Some(Selection(pt, fw, lang))
  }

  /**
   * `askFramework(projectType)`: the framework question asked until answered
   * with a framework offered for `pt`; the first offered framework typed is
   * kept and the language question is asked on the answers after it.
   */
  function AskFramework(pt: ProjectType, answers: seq<string>): (r: Option<Selection>)
    ensures (forall j :: 0 <= j < |answers| ==> answers[j] !in FrameworkChoices(pt)) ==> r.None?
    ensures forall k: nat :: FirstListedAt(answers, FrameworkChoices(pt), k) ==>
              r == AskLanguage(pt, ParseFramework(pt, answers[k]).value, answers[k + 1..])
    ensures r.Some? ==> r.value.projectType == pt && ValidSelection(r.value)
  {
    AskStopsAtFirstListed(a => ParseFramework(pt, a), FrameworkChoices(pt), answers);
    match Ask(a => ParseFramework(pt, a), answers)
    case None => None
    case Some((fw, j)) =>
      assert ParseFramework(pt, answers[j]) == Some(fw);
      AskLanguage(pt, fw, answers[j + 1..])
  }

  /**
   * The whole dialogue, `askProjectType()` onwards: the first listed project
   * type typed is kept and the framework question is asked on the answers
   * after it; the result is always a valid selection.
   */
  function Session(answers: seq<string>): (r: Option<Selection>)
    ensures (forall j :: 0 <= j < |answers| ==> answers[j] !in ProjectTypeChoices) ==> r.None?
    ensures forall k: nat :: FirstListedAt(answers, ProjectTypeChoices, k) ==>
              r == AskFramework(ParseProjectType(answers[k]).value, answers[k + 1..])
    ensures r.Some? ==> ValidSelection(r.value)
  {
    assert forall a :: ParseProjectType(a).Some? <==> a in ProjectTypeChoices;
    AskStopsAtFirstListed(ParseProjectType, ProjectTypeChoices, answers);
    match Ask(ParseProjectType, answers)
    case None => None
    case Some((pt, i)) =>
      assert FirstListedAt(answers, ProjectTypeChoices, i);
      AskFramework(pt, answers[i + 1..])
  }

  /** Every valid selection is reached by answering each question with its value's text. */
  lemma SessionReachesEverySelection(sel: Selection)
    requires ValidSelection(sel)
    ensures Session([ProjectTypeName(sel.projectType), FrameworkName(sel.framework),
                     LanguageName(sel.language)]) == Some(sel)
  {
    var answers := [ProjectTypeName(sel.projectType), FrameworkName(sel.framework),
                    LanguageName(sel.language)];
    ParseNames(sel);
    assert answers[1..][1..] == [LanguageName(sel.language)];
  }

  /** A rejected answer only shifts the position of the answer finally accepted. */
  lemma AskSkipsRejected<T>(accept: string -> Option<T>, answer: string, rest: seq<string>)
    requires accept(answer).None?
    ensures Ask(accept, [answer] + rest)
            == match Ask(accept, rest) case None => None case Some((v, i)) => Some((v, i + 1))
  {
    assert ([answer] + rest)[1..] == rest;
  }

  /** A rejected project type is answered by asking again: the dialogue goes on as if it had not been typed. */
  lemma RejectedProjectTypeAsksAgain(answer: string, rest: seq<string>)
    requires answer !in ProjectTypeChoices
    ensures Session([answer] + rest) == Session(rest)
  {
    AskSkipsRejected(ParseProjectType, answer, rest);
    match Ask(ParseProjectType, rest)
    case None =>
    case Some((pt, i)) =>
      assert ([answer] + rest)[i + 2..] == rest[i + 1..];
  }

  /** Once the project type is accepted, the framework question follows. */
  lemma SessionAfterProjectType(pt: ProjectType, rest: seq<string>)
    ensures Session([ProjectTypeName(pt)] + rest) == AskFramework(pt, rest)
  {
    var answers := [ProjectTypeName(pt)] + rest;
    assert ParseProjectType(ProjectTypeName(pt)) == Some(pt);
    assert FirstListedAt(answers, ProjectTypeChoices, 0);
    assert answers[1..] == rest;
  }

  /** A rejected framework is asked again, and the framework question is never skipped. */
  lemma RejectedFrameworkAsksAgain(pt: ProjectType, answer: string, rest: seq<string>)
    requires answer !in FrameworkChoices(pt)
    ensures Session([ProjectTypeName(pt), answer] + rest)
            == Session([ProjectTypeName(pt)] + rest)
  {
    assert [ProjectTypeName(pt), answer] + rest == [ProjectTypeName(pt)] + ([answer] + rest);
    SessionAfterProjectType(pt, [answer] + rest);
    SessionAfterProjectType(pt, rest);
    AskSkipsRejected(a => ParseFramework(pt, a), answer, rest);
    match Ask(a => ParseFramework(pt, a), rest)
    case None =>
    case Some((fw, j)) =>
      assert ([answer] + rest)[j + 2..] == rest[j + 1..];
  }

  /** Once the framework is accepted too, only the language question is left. */
  lemma SessionAfterFramework(pt: ProjectType, fw: Framework, rest: seq<string>)
    requires FrameworkOffered(pt, fw)
    ensures Session([ProjectTypeName(pt), FrameworkName(fw)] + rest) == AskLanguage(pt, fw, rest)
  {
    var tail := [FrameworkName(fw)] + rest;
    assert [ProjectTypeName(pt), FrameworkName(fw)] + rest == [ProjectTypeName(pt)] + tail;
    SessionAfterProjectType(pt, tail);
    ParseNames(Selection(pt, fw, JavaScript));
    assert FirstListedAt(tail, FrameworkChoices(pt), 0);
    assert tail[1..] == rest;
  }

  /** A rejected language is asked again; the project type and framework already chosen stay. */
  lemma RejectedLanguageAsksAgain(pt: ProjectType, fw: Framework, answer: string, rest: seq<string>)
    requires FrameworkOffered(pt, fw)
    requires answer !in LanguageChoices
    ensures Session([ProjectTypeName(pt), FrameworkName(fw), answer] + rest)
            == Session([ProjectTypeName(pt), FrameworkName(fw)] + rest)
  {
    assert [ProjectTypeName(pt), FrameworkName(fw), answer] + rest
           == [ProjectTypeName(pt), FrameworkName(fw)] + ([answer] + rest);
    SessionAfterFramework(pt, fw, [answer] + rest);
    SessionAfterFramework(pt, fw, rest);
    AskSkipsRejected(ParseLanguage, answer, rest);
  }

  /** A listed language ends the dialogue: whatever is typed afterwards is never read. */
  lemma AcceptedLanguageEndsDialogue(pt: ProjectType, fw: Framework, lang: Language, rest: seq<string>)
    requires FrameworkOffered(pt, fw)
    ensures Session([ProjectTypeName(pt), FrameworkName(fw), LanguageName(lang)] + rest)
            == Some(Selection(pt, fw, lang))
  {
    assert [ProjectTypeName(pt), FrameworkName(fw), LanguageName(lang)] + rest
           == [ProjectTypeName(pt), FrameworkName(fw)] + ([LanguageName(lang)] + rest);
    SessionAfterFramework(pt, fw, [LanguageName(lang)] + rest);
    assert FirstListedAt([LanguageName(lang)] + rest, LanguageChoices, 0);
  }
}
