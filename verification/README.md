# cursor-rules-generator, modelled in Dafny

`index.js` of cursor-rules-generator asks three questions on the terminal:

- the project type (`nodejs` or `react`);
- a framework offered for that project type (`express`, `nestjs` or `none` for Node.js; `umijs`, `nextjs` or `none` for React);
- the language (`javascript` or `typescript`).

A question is asked again until its answer is one of the listed choices. The
answers then go to `generateRules`, which fills a fourteen-line template:

- an opening sentence naming the runtime and the language;
- a sentence naming the runtime and, unless `none`, the framework;
- a line holding the front-end tooling sentence for React, empty otherwise;
- a reasoning sentence and ten `- ` directives.

Finally `generateRules` collapses every run of line feeds into one and trims
white space from both ends. The result is what gets written to `.cursorrules`.

The model has four modules:

- `Normalization` (`normalize.dfy`) covers `replace(/\n+/g, '\n')` and `trim()`:
  - `CollapseNewlines` is the regular-expression replacement.
  - `Trim` strips the full ECMAScript white space and line terminator set.
  - `Normalize` is the two together.
- `Lines` (`lines.dfy`) covers the template literal as lines joined by `'\n'`. It proves that, when the first and last lines are not empty, collapsing the joined lines is the same as dropping the empty lines. `SplitLines` (what `split('\n')` would give; the program never splits) is the view used to state the lines of the rendered text.
- `Choices` (`choices.dfy`) covers the three questions:
  - Each validator becomes a parser into an enumerated type.
  - The re-prompting questions `askProjectType`, `askFramework` and `askLanguage` become functions over the finite sequence of answers the user types.
- `Rules` (`rules.dfy`) covers the template and `generateRules`:
  - `TemplateLines` takes raw strings, with every conditional of the source, including the `ruby` alternatives.
  - `ExpectedLines` is an independent description of the rendered lines for each valid selection.
  - Theorems tie the two together.

The directive block is one reasoning sentence followed by ten `- ` lines.
The opening sentence names `<Node.js|React> <JavaScript|TypeScript>`.

## Model

| member | source | states |
|---|---|---|
| Normalization.IsJsWhitespace | index.js:76 | the characters `trim` strips: the ECMAScript WhiteSpace and LineTerminator code points |
| Normalization.LeadingNewlines | index.js:76 | the length of the maximal run of line feeds at the start, as the greedy `\n+` matches it |
| Normalization.CollapseNewlines | index.js:76 | the replacement leaves no two adjacent line feeds, is no longer than its input, and keeps the first and last characters |
| Normalization.LeadingWhitespace | index.js:76 | the number of white space characters `trim` removes at the start: all of them are white space and the next is not |
| Normalization.TrailingWhitespace | index.js:76 | the number of white space characters `trim` removes at the end: all of them are white space and the one before is not |
| Normalization.Trim | index.js:76 | `trim()` returns a slice of its input with only white space around it, and the slice has no white space at either end |
| Normalization.Normalize | index.js:76 | the normalised text has no two adjacent line feeds and no white space at either end |
| Normalization.TrimKeepsNoDoubleNewline | index.js:76 | trimming a text without adjacent line feeds cannot create any |
| Normalization.CollapseKeepsOtherCharacters | index.js:76 | the replacement removes line feeds only: the other characters are kept, in order |
| Normalization.CollapseKeepsCharacters | index.js:76 | a character occurs in the collapsed text exactly when it occurs in the input |
| Normalization.CollapseFixedPoint | index.js:76 | the replacement leaves a text unchanged if and only if it has no two adjacent line feeds |
| Normalization.TrimFixedPoint | index.js:76 | `trim()` leaves a text unchanged if and only if neither end is white space |
| Normalization.NormalizeIdempotent | index.js:76 | normalising the result of `generateRules` again changes nothing |
| Normalization.NormalizeEmptyIff | index.js:76 | the normalised text is empty if and only if the input is all white space |
| Lines.JoinLines | index.js:61-74 | a multi-line template literal is its lines with one line feed between each pair (`SplitJoin`, `JoinSplit`) |
| Lines.SplitLines | index.js:61-74 | the lines of a text as `split('\n')` would give them (the view used to state the rendered lines): at least one piece, none holding a line feed |
| Lines.NonEmptyLines | index.js:76 | the kept lines are no more than the input lines, and none of them is empty |
| Lines.SplitJoin | index.js:61-74 | `join('\n')` then `split('\n')` gives the lines back |
| Lines.JoinSplit | index.js:61-74 | `split('\n')` then `join('\n')` gives the text back |
| Lines.CollapseAfterNewline | index.js:76 | after a line feed, joined lines that end in a non-empty line collapse to the non-empty lines joined |
| Lines.CollapseJoinedLines | index.js:61-76 | collapsing joined lines whose first and last lines are non-empty is the same as dropping the empty lines |
| Choices.ProjectTypeChoices | index.js:82 | the project types accepted: `nodejs` and `react` |
| Choices.FrameworkChoices | index.js:92 | the frameworks offered: express, nestjs, none for `nodejs`; umijs, nextjs, none otherwise |
| Choices.LanguageChoices | index.js:105 | the languages accepted: `javascript` and `typescript` |
| Choices.FrameworkOffered | index.js:92-94 | a framework is offered for a project type when its answer text is in that type's list |
| Choices.ValidSelection | index.js:92-94 | a selection can reach `generateRules` when its framework is offered for its project type (`ValidSelectionTable`, `TwelveValidSelections`) |
| Choices.ParseProjectType | index.js:82 | a project type answer is accepted if and only if it is `nodejs` or `react`, and the accepted value is named by the answer |
| Choices.ParseFramework | index.js:92-94 | a framework answer is accepted if and only if it is in the list for the project type; the accepted selection is valid |
| Choices.ParseLanguage | index.js:105 | a language answer is accepted if and only if it is `javascript` or `typescript`, and the accepted value is named by the answer |
| Choices.ParseNames | index.js:82-105 | every value's own name is accepted and gives that value back |
| Choices.ValidSelectionTable | index.js:92 | `none` is offered for both project types; express and nestjs only for Node.js; umijs and nextjs only for React |
| Choices.TwelveValidSelections | index.js:82-105 | exactly twelve distinct selections can reach `generateRules` |
| Choices.Ask | index.js:81-84 | a question re-asked until accepted returns the first accepted answer's value and position; every earlier answer was rejected; with none accepted, nothing |
| Choices.AskStopsAtFirstListed | index.js:81-84 | with a parser that accepts exactly a list of choices, a question ends at the first answer in the list, with that answer's value, and stays open if and only if no answer is in the list |
| Choices.AskLanguage | index.js:103-111 | `askLanguage` stays open if and only if no answer is a listed language; otherwise the first listed language typed completes the selection, keeping the project type and framework |
| Choices.AskFramework | index.js:91-101 | `askFramework` stays open when no offered framework is typed; otherwise the first offered framework typed is kept and the language question is asked on the answers after it; any result is valid for the project type |
| Choices.Session | index.js:80-89 | the dialogue stays open when no listed project type is typed; otherwise the first listed project type typed is kept and the framework question is asked on the answers after it; any result is a valid selection |
| Choices.SessionReachesEverySelection | index.js:80-113 | answering with a valid selection's three names produces exactly that selection |
| Choices.AskSkipsRejected | index.js:82-84 | a rejected answer only delays the question: the answer accepted later is the same |
| Choices.RejectedProjectTypeAsksAgain | index.js:82-84 | an invalid project type is ignored, and the dialogue continues as if it had not been typed |
| Choices.SessionAfterProjectType | index.js:85-86 | an accepted project type leads to the framework question for that type |
| Choices.RejectedFrameworkAsksAgain | index.js:94-96 | an invalid framework is ignored, and the framework question is asked again |
| Choices.SessionAfterFramework | index.js:97-98 | an accepted framework leads to the language question |
| Choices.RejectedLanguageAsksAgain | index.js:105-107 | an invalid language is ignored, and the language question is asked again |
| Choices.AcceptedLanguageEndsDialogue | index.js:108-110 | once the three answers are accepted the dialogue is over: whatever is typed afterwards is never read |
| Rules.TemplateLines | index.js:61-74 | the template has fourteen lines, and its last eleven are the fixed directive block |
| Rules.GenerateRules | index.js:60-77 | for any three strings the rules text is non-empty, has no adjacent line feeds and no white space at either end, and is a fixed point of its own normalisation |
| Rules.Template | index.js:61-74 | the template literal is its fourteen lines joined by line feeds (`TemplateLines`, `CollapseTemplate`) |
| Rules.Render | index.js:109 | `generateRules` called with the answer texts of a selection; `RenderLines` and `RenderedLines` state its result |
| Rules.DirectivesAreLines | index.js:64-74 | the directive lines are non-empty lines; all but the first begin with `-` |
| Rules.HeaderAreLines | index.js:61-62 | the two opening sentences are non-empty lines, told apart from the tooling sentence by their second character |
| Rules.TemplateOfSelection | index.js:61-63 | for a selection's answers no `ruby` alternative is taken: the lines are the header, then the tooling sentence or an empty line, then the directives |
| Rules.TemplateNonEmptyLines | index.js:61-76 | dropping the template's empty lines gives exactly the expected lines |
| Rules.CollapseTemplate | index.js:61-76 | replacing the template's line feed runs gives the expected lines joined by single line feeds |
| Rules.ExpectedTextHasNoEdgeWhitespace | index.js:76 | the expected text has no white space at either end, so `trim` removes nothing from it |
| Rules.RenderLines | index.js:60-77 | the rules text for a selection is its expected lines joined by `'\n'`; for Node.js only the empty tooling line disappears |
| Rules.RenderedLines | index.js:60-77 | `split('\n')` of the rules text gives exactly the expected lines: thirteen for Node.js, fourteen for React |
| Rules.ExpectedToolingIffReact | index.js:63 | the tooling sentence is among the expected lines if and only if the project is React |
| Rules.ToolingSentenceIffReact | index.js:63 | the Tailwind/Stimulus/Hotwire/Turbo sentence is a line of the rules text if and only if the project is React |
| Rules.VersionLineClause | index.js:62 | the version sentence holds `" 和 " + framework` when a framework is chosen; for `none` it holds no `" 和 "` at all |
| Rules.FrameworkClauseIffFramework | index.js:62 | the second line of the rules text contains `" 和 "` if and only if a framework is chosen, and then it contains `" 和 " + framework` |
| Rules.OpeningLineNames | index.js:61 | the opening sentence contains `<runtime> <language> 代码` |
| Rules.OpeningNamesRuntimeAndLanguage | index.js:61 | the first line of the rules text names the runtime, then the language, then `代码` |
| Rules.ExpectedEndsWithDirectives | index.js:64-74 | the directive block ends the expected lines, and follows a line feed at the end of the expected text |
| Rules.DirectivesEndEveryText | index.js:64-74 | every rules text ends with the eleven directive lines, verbatim and in order |
| Rules.Run | index.js:80-110 | the program gives text exactly when the dialogue finishes; the text is for a valid selection, is its expected lines joined, and is normalised |

## Left out

- The terminal. The `readline` prompts and the console messages are not modelled. Neither is the way `rl.question` callbacks chain. The typed answers are a finite sequence, so a dialogue the user never finishes shows up as `None`.
- Writing the file. `writeRules`, the `fs.writeFile` call, its error message and `rl.close()` are not modelled. `Run` returns the text that would be written.
- The `commonRules` and `frameworkRules` tables: nothing in the program reads them.
- Character width. JavaScript strings are UTF-16 and Dafny's `char` is a Unicode scalar value. Every character of the template lies in the Basic Multilingual Plane, so the two views agree.
- Nothing is left out of the template: its `ruby` alternatives are modelled as written, although the questions cannot reach them (`Rules.TemplateOfSelection`).

