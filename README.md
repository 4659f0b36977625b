# A verified model of the "7 habits" todo engine

The application is a Next.js chat bot. Its artifact panel shows a markdown
plan as a todo list. This project models the core of that panel in Dafny:

- **Parsing the todo list** (`TodoParser`, components/todo-list.tsx). The
  document is split on `\n`. `###` headings set the current section. Five
  list-item shapes each produce one item, whose id is
  `section-first50(text)`. Blank lines and lines starting with `#` or `---`
  are skipped. A non-blank line that matches no shape is glued onto the last
  item when there is one and the line does not start with `-`, `*`, `#`, a
  digit, 一 to 十, 步 or 骤. Any other line is dropped.
  `ParseTodos` is the loop itself. It is proved equal to the function
  `Todos`, and the lemmas state what that function promises, line by line.
- **Changing the document** (`TodoMutator`, artifacts/text/client.tsx).
  - Completing a todo deletes its bullet and the continuation lines after it
    (`CompleteTodo`). This loop recomputes its own ids,
    `habit-index-first50(text)`.
  - Editing rewrites the first bullet whose text matches (`EditTodo`). The
    method works in place on an array of lines.
  - Uncompleting changes only the metadata.
  - A streamed text delta extends the content.
- **The local chat history** (`ChatStore`, hooks/use-local-storage.ts). The
  class `ChatHistory` holds the two keys of the browser store, with upsert,
  delete, lookup and clear.
- **Version navigation** (`ArtifactVersions`, components/artifact.tsx). The
  class `VersionView` holds the version index and the edit/diff mode. The
  module also has the bounds-safe lookup of a version's content and the
  rule that turns the placeholder text into an empty document.
- **Prompt assembly** (`Prompts`, lib/ai/prompts.ts). This covers the system
  prompt, the request-origin block and the document-update prompt.

Shared modules:

- `Text` models the JavaScript string behaviour the code relies on:
  `trim()`, the classes `\s`, `\d` and `.`, `split("\n")`/`join("\n")`,
  `includes`, `slice(0, n)` and number rendering. `IsSpace` is JavaScript's
  WhiteSpace plus LineTerminator set, U+3000 included. It is used for every
  `trim()` and every `\s`.
- `Options` holds the `Option` type.

The two todo id schemes differ. The parser's id has no index. The deleter's
id has a running index that headings never reset. The model keeps each
scheme as written and states no round trip between them. It does prove that
completion is exact for the deleter's own ids when no heading name contains a
`-` (`TodoMutator.CompleteOwnId`). Without that condition two bullets can
share an id, and one completion then deletes both. For example, under
`### a` the bullet `- 1-c` and under `### a-0` the bullet `- c` both get the
id `a-0-1-c` (`TodoMutator.DashedHeadingCollision`).

Regular expressions are modelled as functions that compute the capture
directly. The comments next to each one explain why backtracking cannot
change the result. `Text.SpacesThenRestMatches` proves this for the shared
tail `\s*(.+)$`.

## Model

| member | source | states |
|---|---|---|
| TodoParser.ParseTodos | components/todo-list.tsx:24-92 | the parse loop returns exactly `Todos(content, completedItems)`, and `itemIndex` ends equal to the number of items |
| TodoParser.ParseOneLine | components/todo-list.tsx:40-88 | one iteration changes the section and the items exactly as `Advance` does for the line's kind: skip, set the section, push an item, glue onto the last item in place, or drop; it pushes at most one item |
| TodoParser.MatchListItem | components/todo-list.tsx:52-79 | the loop over the five patterns yields the capture of the first pattern that matches, or nothing |
| TodoParser.TodosOfEmptyContent | components/todo-list.tsx:25 | empty content yields no todos |
| TodoParser.TodosOfContent | components/todo-list.tsx:34-91 | there is one todo per item line, in line order; each has the id its line determines (section in force + "-" + first 50 characters), non-empty trimmed text that starts with the line's item text, and is completed exactly when its id is in the completed set |
| TodoParser.HeadingsAndBlanksMakeNoItem | components/todo-list.tsx:40-49 | blank lines and lines starting with `#` or `---` never produce an item; a line sets the section exactly when its trimmed form starts with `###`, and the section becomes the rest after `###` and its leading white space |
| TodoParser.ParseShape | components/todo-list.tsx:36-89 | after any prefix of the lines, the section is the last `###` heading's name (or ""), there is exactly one item per item line, and every item has non-empty trimmed text and is completed exactly when its id is in the set |
| TodoParser.ItemOfLine | components/todo-list.tsx:64-74 | an item line produces the item whose rank is the number of item lines before it; its id is the section then in force, "-", and the first 50 characters of its text, and the id, the completed flag and the start of the text survive to the end |
| TodoParser.ParseExtends | components/todo-list.tsx:68-87 | later lines never change the id or completed flag of an earlier item, and only ever extend its text |
| TodoParser.AdvanceExtends | components/todo-list.tsx:39-88 | one iteration of the loop never shortens the list and never changes an earlier item's id, flag or text prefix |
| TodoParser.ItemRankIncreases | components/todo-list.tsx:69 | an item line further down produces an item further down the list |
| TodoParser.NonItemLine | components/todo-list.tsx:81-88 | a line that is not an item line adds no item and changes no id or flag; only a continuation line changes the last item's text, by appending one space and the trimmed line; only a `###` heading changes the section |
| TodoParser.ContinuationLines | components/todo-list.tsx:82 | a line is glued on exactly when it is non-blank, matches none of the five patterns and does not start with `-`, `*`, `#`, a digit, 一 to 十, 步 or 骤 |
| TodoParser.ClassifiedText | components/todo-list.tsx:64-66 | the text an item line hands to the loop is non-empty and trimmed, and so is a continuation line |
| TodoParser.ListItemText | components/todo-list.tsx:52-66 | a pattern's capture is a non-empty proper suffix of the trimmed line |
| TodoParser.CjkNumeralRun | components/todo-list.tsx:54 | `[一二三四五六七八九十]+` takes the longest run of those numerals at the start of the line |
| TodoParser.FindById | components/todo-list.tsx:96 | `find` gives the first item with the id, and nothing exactly when no item has it |
| TodoParser.HandleToggle | components/todo-list.tsx:94-102 | a click calls the handler exactly when there is a handler and an item with the id, and the call carries that id and the negation of the first such item's completed flag |
| TodoMutator.CompleteTodo | artifacts/text/client.tsx:89-166 | the completing loop, with `currentHabit`, `itemIndex`, `found`, `skipNextLines` and `newLines`, returns exactly `Complete(content, id)` |
| TodoMutator.CompleteOneLine | artifacts/text/client.tsx:97-157 | one iteration updates the five loop variables exactly as `Visit` does for the line's role |
| TodoMutator.NewFormatLines | artifacts/text/client.tsx:104-116 | the lines that end a run of skipped lines (`isNewFormat`) are exactly the headings, bullets and blank lines |
| TodoMutator.WalkCounters | artifacts/text/client.tsx:119-146 | after any prefix, `currentHabit` is the last heading's trimmed name and `itemIndex` is the number of non-empty bullets so far, deleted or kept |
| TodoMutator.WalkSkip | artifacts/text/client.tsx:100-142 | after any prefix, `skipNextLines` holds exactly when the last line was removed |
| TodoMutator.WalkFound | artifacts/text/client.tsx:135-136 | after any prefix, `found` holds exactly when some non-empty bullet so far recomputes to the id |
| TodoMutator.WalkKept | artifacts/text/client.tsx:122-157 | after any prefix, `newLines` is exactly the lines that are not removed, in order |
| TodoMutator.WalkState | artifacts/text/client.tsx:96-158 | the loop's five variables after all lines, together |
| TodoMutator.CompleteFinds | artifacts/text/client.tsx:160-166 | completion saves exactly when some non-empty bullet recomputes to the id (otherwise it takes the "cannot find" error path), and what it saves is the kept lines joined by `\n` |
| TodoMutator.RemovedRun | artifacts/text/client.tsx:100-145 | a line is removed exactly when it is the target bullet or a line other than a heading, bullet or blank line right after a removed line |
| TodoMutator.Kept | artifacts/text/client.tsx:90-156 | completion never produces more lines than it reads |
| TodoMutator.KeptAllWithoutTarget | artifacts/text/client.tsx:160-166 | without a target bullet no line is removed |
| TodoMutator.OnlyTargetsAndContinuationsRemoved | artifacts/text/client.tsx:119-149 | headings, blank lines and bullets that are not the target are always kept |
| TodoMutator.KeptIndicesExact | artifacts/text/client.tsx:149-157 | the kept positions increase strictly and are exactly the positions of the lines not removed |
| TodoMutator.KeptIsSubsequence | artifacts/text/client.tsx:122-156 | the output is the input lines at the kept positions, line for line and unchanged |
| TodoMutator.IndexIncreases | artifacts/text/client.tsx:143-146 | every non-empty bullet, kept or deleted, raises `itemIndex` for all later lines |
| TodoMutator.BulletsBeforeMonotone | artifacts/text/client.tsx:119-146 | `itemIndex` never decreases, so headings never reset it |
| TodoMutator.HabitBeforeIsAHeading | artifacts/text/client.tsx:121 | `currentHabit` is "" or the trimmed name of one of the headings |
| TodoMutator.TodoIdInjective | artifacts/text/client.tsx:132 | for habit names without `-`, equal ids have equal indexes |
| TodoMutator.CompleteOwnId | artifacts/text/client.tsx:132-145 | when no heading name holds `-`, completing the id of a non-empty bullet removes that bullet and keeps every other bullet, heading and blank line |
| TodoMutator.DashedHeadingCollision | artifacts/text/client.tsx:119-145 | the id scheme is not injective when a heading name holds `-`: the bullet `- 1-c` under `### a` and the bullet `- c` under `### a-0` are both targets of the id `a-0-1-c`, and completing it removes both |
| TodoMutator.Uncomplete | artifacts/text/client.tsx:170-178 | the new metadata's completed set is the old one (empty when missing) without the id, and its suggestions are the old ones |
| TodoMutator.UncompleteRemovesOnlyId | artifacts/text/client.tsx:172-173 | after uncompleting, the id is not completed, every other id keeps its state, and uncompleting again changes nothing |
| TodoMutator.HandleToggleTodo | artifacts/text/client.tsx:84-181 | completing saves exactly when completion finds the todo and reports "cannot find" otherwise; uncompleting sets the metadata exactly when there is a setter and never touches the content |
| TodoMutator.AddSuggestion | artifacts/text/client.tsx:35-41 | a suggestion part appends the suggestion, and the new metadata has no completed set |
| TodoMutator.TextDelta | artifacts/text/client.tsx:43-56 | a text delta appends its data and sets the status to streaming; the artifact becomes visible when it was visible or was streaming with between 401 and 449 characters |
| TodoMutator.TextDeltasAccumulate | artifacts/text/client.tsx:43-56 | a run of text deltas appends their concatenation, never hides a visible artifact, and leaves the status streaming when there was at least one delta |
| TodoMutator.FirstEditTarget | artifacts/text/client.tsx:189-219 | the edit loop stops at the first line that is a non-blank bullet whose trimmed text equals, contains or is contained in the trimmed original text, and finds none exactly when no line matches |
| TodoMutator.EditLines | artifacts/text/client.tsx:189-221 | an edit keeps the number of lines, rewrites only the first matching line and leaves every other line unchanged; with no match nothing is saved |
| TodoMutator.EditTodo | artifacts/text/client.tsx:183-231 | the edit loop over the array of lines, assigned in place and stopped by `break`, returns exactly `Edit(content, id, originalText, newText)` |
| TodoMutator.EditAt | artifacts/text/client.tsx:206-226 | when line `i` is the first match, the saved document is the lines with line `i` rewritten, joined by `\n` |
| TodoMutator.EditNowhere | artifacts/text/client.tsx:224-230 | when no line matches, nothing is saved |
| TodoMutator.EditOneLine | artifacts/text/client.tsx:190-218 | one iteration decides the match exactly as `EditMatches` does and rewrites a matched line to its indentation, `> - ` or `- `, and the new text |
| TodoMutator.EditedLineRoundTrip | artifacts/text/client.tsx:208-216 | a rewritten line is again a bullet whose text is the new text, when that text is non-empty, trimmed and on one line |
| TodoMutator.BulletCapture | artifacts/text/client.tsx:195 | `- x` is a bullet whose captured text is `x` |
| TodoMutator.QuotedBulletCapture | artifacts/text/client.tsx:195 | `> - x` is a bullet whose captured text is `x` |
| TodoMutator.EditSplitsBack | artifacts/text/client.tsx:186-225 | when the new text has no newline, the saved document splits back into the edited lines |
| ChatStore.FindIndex | hooks/use-local-storage.ts:59 | `findIndex` gives the first chat with the id, and -1 (None) exactly when no chat has it |
| ChatStore.Without | hooks/use-local-storage.ts:90 | filtering never lengthens the list |
| ChatStore.ChatHistory.GetAllChats | hooks/use-local-storage.ts:18-26 | the stored list, or an empty list when the key is missing or its text does not parse |
| ChatStore.ChatHistory.SetCurrentChatId | hooks/use-local-storage.ts:39-46 | the current-chat key holds the id afterwards and the history key is unchanged |
| ChatStore.ChatHistory.GetChat | hooks/use-local-storage.ts:49-52 | a chat is found exactly when some stored chat has the id, and it is the first such chat |
| ChatStore.ChatHistory.SaveChat | hooks/use-local-storage.ts:55-83 | the history key holds the upserted list, with "New Chat" when no title is given; the current-chat key is unchanged |
| ChatStore.ChatHistory.DeleteChat | hooks/use-local-storage.ts:86-95 | the history key holds the list without the chats with that id; the current-chat key is unchanged |
| ChatStore.ChatHistory.ClearAll | hooks/use-local-storage.ts:98-106 | both keys are removed, so no chats and no current id are read back |
| ChatStore.UpsertExisting | hooks/use-local-storage.ts:59-68 | saving under a present id keeps the length and overwrites only the first chat with it, keeping its id and creation time and setting the messages, title and update time |
| ChatStore.UpsertAbsent | hooks/use-local-storage.ts:69-77 | saving under an absent id appends one chat whose creation and update times are `now` |
| ChatStore.UpsertKeepsOthers | hooks/use-local-storage.ts:58-79 | saving adds at most one chat and leaves every chat with another id at its position |
| ChatStore.SaveThenGet | hooks/use-local-storage.ts:49-83 | after saving, looking the id up finds the saved messages, title and update time |
| ChatStore.WithoutRemovesId | hooks/use-local-storage.ts:90 | deleting leaves exactly the chats with another id |
| ChatStore.WithoutKeepsOrder | hooks/use-local-storage.ts:90 | deleting distributes over concatenation, so the rest keep their relative order |
| ChatStore.WithoutAbsent | hooks/use-local-storage.ts:86-95 | deleting an id no chat has writes back the same list |
| ChatStore.SaveThenDeleteAbsent | hooks/use-local-storage.ts:55-95 | saving a new id and then deleting it restores the original list |
| ArtifactVersions.NormalisedContent | components/artifact.tsx:162-168 | the shown content is "" exactly when the fetched content is null, or blank or the placeholder once trimmed, and is the content unchanged otherwise |
| ArtifactVersions.NormalisedContentIdempotent | components/artifact.tsx:162-164 | normalising twice is normalising once |
| ArtifactVersions.NormalisedContentBlank | components/artifact.tsx:164 | a content is shown as "" exactly when it is all white space or trims to the placeholder |
| ArtifactVersions.VersionView.constructor | components/artifact.tsx:148-150 | the view starts in edit mode with index -1 |
| ArtifactVersions.VersionView.HandleVersionChange | components/artifact.tsx:306-327 | the new index and mode are `VersionStep` of the old ones, and the documents are unchanged |
| ArtifactVersions.VersionView.GetDocumentContentById | components/artifact.tsx:296-304 | the content of an in-range version, and "" for a missing list, an out-of-range index or a null content |
| ArtifactVersions.VersionView.IsCurrentVersion | components/artifact.tsx:337-340 | true exactly when there are no documents or the last version is selected |
| ArtifactVersions.StepKeepsInRange | components/artifact.tsx:306-327 | from an in-range index every action leaves an in-range index |
| ArtifactVersions.StepsKeepInRange | components/artifact.tsx:306-327 | from an in-range index any run of actions stays in range |
| ArtifactVersions.PrevNext | components/artifact.tsx:320-326 | `prev` moves back exactly when the index is above 0 and `next` moves forward exactly when it is below the last position; neither changes the mode |
| ArtifactVersions.NextThenPrev | components/artifact.tsx:320-326 | `next` then `prev` below the last position returns to the start |
| ArtifactVersions.LatestIsCurrent | components/artifact.tsx:311-314 | `latest` selects the last version in edit mode, and that position is in range whenever there is a version |
| ArtifactVersions.ToggleInvolution | components/artifact.tsx:316-318 | `toggle` flips the mode, keeps the index, and undoes itself |
| ArtifactVersions.NotLoadedNoOp | components/artifact.tsx:307-309 | without documents no run of actions changes anything |
| ArtifactVersions.CurrentVersionNextNoOp | components/artifact.tsx:311-326 | at the last version `next` changes nothing and `latest` changes only the mode |
| Prompts.RequestPrompt | lib/ai/prompts.ts:99-105 | the origin block starts with its header line and ends with a newline |
| Prompts.RequestPromptLines | lib/ai/prompts.ts:99-105 | split into lines, the origin block is the header and then the lat, lon, city and country lines in that order, with "undefined" for a missing hint |
| Prompts.RequestPromptInjective | lib/ai/prompts.ts:101-104 | for hints on one line, the origin block determines every rendered hint |
| Prompts.SystemPromptShape | lib/ai/prompts.ts:107-121 | the system prompt starts with the regular prompt; it is exactly regular + blank line + origin block for the reasoning model, and that text followed by a blank line and the artifacts prompt for every other model |
| Prompts.MediaTypeClasses | lib/ai/prompts.ts:157-163 | "code" and "sheet" get their own media types, and every other kind is a "document" |
| Prompts.UpdateDocumentPromptShape | lib/ai/prompts.ts:153-168 | the update prompt is the instruction naming the media type, a blank line, and then the current content verbatim ("null" when there is none) |
| Text.Trim | components/todo-list.tsx:40 | `trim()` returns a string with no white space at either end |
| Text.TrimEmpty | components/todo-list.tsx:41 | a line trims to "" exactly when it is all white space |
| Text.LeadingSpaces | artifacts/text/client.tsx:208 | `/^(\s*)/` captures a white-space prefix of the line that cannot be extended |
| Text.Take | components/todo-list.tsx:68 | `slice(0, 50)` is a prefix of length at most 50, the whole string when it is shorter |
| Text.SpacesThenRestMatches | artifacts/text/client.tsx:127 | `\s*(.+)$` matches exactly when some start of the group is possible, and captures from the latest such start |
| Text.JoinSplit | artifacts/text/client.tsx:161 | joining the split lines with `\n` gives back the content |
| Text.SplitJoin | artifacts/text/client.tsx:225 | splitting lines joined with `\n` gives back the lines, when no line holds `\n` |
| Text.NatToStringRoundTrip | artifacts/text/client.tsx:132 | the decimal rendering of `itemIndex` reads back as the same number |
| Text.NatToStringInjective | artifacts/text/client.tsx:132 | different indexes render differently |

## Left out

- Rendering, animation, toasts, the celebration and the clipboard are left out; they are UI. The error toasts are the `None`/`NotFound` results.
- SWR fetching, the `fetch` POSTs, the debounced save and the `useEffect` plumbing of components/artifact.tsx are left out; they are asynchronous and network code. `VersionView.documents` stands for the fetched list.
- Real `localStorage`, `JSON.stringify` and the `typeof window` guards are left out. The store is the two fields of `ChatHistory`. The history key holds a list of chats or text that is not JSON; a stored JSON value that is not a list, on which `saveChat` and `deleteChat` fail silently, is not modelled. `Date.now()` is the parameter `now`.
- ChatStore.ChatHistory.GetCurrentChatId: no contract; it returns the one field that `SetCurrentChatId` and `ClearAll` state.
- Chat messages are an opaque type, and so are suggestions: the code copies them and never looks inside.
- TodoMutator.AddSuggestion: requires that the metadata has a suggestions list; without one the spread in the source throws, which is not modelled.
- Strings are sequences of code points. `slice(0, 50)` in JavaScript counts UTF-16 code units, so for characters outside the Basic Multilingual Plane `Take(text, 50)` can keep more text than the source does.
- TodoMutator.TextDelta: the window `400 < length < 450` in which a streaming artifact becomes visible counts code points; the source's `content.length` counts UTF-16 code units, so content with characters outside the Basic Multilingual Plane enters and leaves the window at other points in the model than in the source.
- The long fixed texts `regularPrompt` and `artifactsPrompt` are parameters (`Prompts.Texts`); only how the prompts are put together is modelled. `codePrompt`, `sheetPrompt` and `titlePrompt` are constants with no logic.
- lib/ai/providers.ts and lib/ai/models.ts are a wrapper around the model gateway and a constant table.
- The extraction of plans from upvoted messages and their merging are not part of this model; their source is not among the files modelled.
- The ids of components/todo-list.tsx and of artifacts/text/client.tsx have different formats; no lemma relates them.
- `handleEditTodo` never uses its `id` argument; `TodoMutator.Edit` keeps the parameter and ignores it, as the code does.
- `handleVersionChange` with a loaded but empty list: `latest` sets the index to -1 and `toggle` flips the mode, as the code does; the range lemmas assume a non-empty list.
- `VersionView.mode` is local React state; the re-rendering it triggers is not modelled.
