# Redator AI — a verified model of the editorial core

Redator AI is a browser tool for newsrooms. An editor picks a section (Brasil,
Mundo, Política, …), pastes raw facts and optionally attaches images or PDFs from
a small file library. A generative-text service writes a structured article:
headline (`manchete`), subtitle, lead, body paragraphs, context and outlook. The
editor can ask the service for a punchier headline, save the article to a
history kept in browser local storage, reopen saved articles and delete them.

This project models the logic under the interface in Dafny:

- **`Types`** (`types.ts`): the seven categories and their labels, the generated
  and saved article, the uploaded file, the four views.
- **`StorageService`** (`services/storageService.ts`): the history kept under one
  local-storage key. The store is a class whose `entries` map each key to a
  parsable list (`News`) or to text that does not parse (`Corrupt`). A missing
  key was never written. Whether each `setItem` succeeds is a parameter.
- **`GeminiService`** (`services/geminiService.ts`):
  - the exact system instruction, prompt text and response schemas;
  - the parts list, built by a loop as the source's `forEach`/`push` does;
  - the reading of a reply: empty text rejected, then `JSON.parse`;
  - the catch that turns every failure into one fixed message.

  The service is a function parameter from request to reply.
- **`Application`** (`App.tsx`): the root component's state cells as the fields
  of class `App`, and every handler as a method on it. The service, the random
  id, the timestamp, each storage write's outcome and the `confirm` answer are
  parameters. The generation handler is split around its `await` into
  `BeginGenerate` and `CompleteGenerate`; `HandleGenerateNews` composes them.
  A group of lemmas states how the in-memory history relates to the stored one.
- **`FilesPage`** (`components/FilesPage.tsx`):
  - the MIME allow-list and the 5 MiB ceiling;
  - the mapping from MIME type to kind;
  - `processFiles`, a loop that hands each accepted file to `App.HandleAddFile`.
- **`NewsForm`** (`components/NewsForm.tsx`):
  - the form's cells;
  - the set toggle for file selection;
  - the submit rule: at least ten characters of trimmed facts, then the selected
    library files in library order;
  - the condition that disables the submit button.
- **`NewsDisplay`** (`components/NewsDisplay.tsx`):
  - the fallback picture and its credit;
  - the author's name and initials;
  - the guarded headline optimisation, which feeds `App.HandleHeadlineUpdate`.
- **`Text`**: the JavaScript string behaviour the components rely on, with
  lemmas. It covers `trim` (exact ECMAScript white space), `startsWith`,
  `split`/`join` on one character, `toUpperCase`, and decimal rendering of
  numbers.

## Model

| member | source | states |
|---|---|---|
| Types.CategoriesEnumerated | types.ts:1-9 | There are exactly seven distinct categories. Every category is among them, and its label reads back as that category. |
| Types.LabelRoundTrip | types.ts:1-9 | A text reads back as category `c` exactly when it is `c`'s label. |
| Types.CategoryOfLabel | components/NewsForm.tsx:58 | Reads the category `<select>` value back as a category; `Types.LabelRoundTrip` states that it inverts `Label`. |
| StorageService.LoadList | services/storageService.ts:7-11 | A missing key and unparsable text both give `[]`. A stored list is returned as stored. |
| StorageService.WithoutId | services/storageService.ts:30 | The filter never lengthens the list. An entry remains exactly when it was there and has a different id. |
| StorageService.SavedList | services/storageService.ts:19 | The saved item comes first. Behind it are exactly the previous entries with a different id. |
| StorageService.BrowserStorage.constructor | services/storageService.ts:3 | The store starts with exactly the given entries. |
| StorageService.BrowserStorage.Lookup | services/storageService.ts:7 | What `localStorage.getItem` finds under the key: the value, or nothing when the key is missing. `GetSavedNews`, `SetItem` and the handlers state their results through it. |
| StorageService.BrowserStorage.GetSavedNews | services/storageService.ts:5-13 | The read never fails. It returns the stored list, or `[]` when the key is absent or the data is corrupt. |
| StorageService.BrowserStorage.SetItem | services/storageService.ts:20 | A successful write replaces only the value under the storage key. A failed write leaves every key as it was. |
| StorageService.BrowserStorage.SaveNewsToStorage | services/storageService.ts:15-25 | On a successful write, only the storage key changes: it now holds the item followed by the previous entries with other ids. On a failed write the store is unchanged and the quota alert is raised. |
| StorageService.BrowserStorage.DeleteNewsFromStorage | services/storageService.ts:27-37 | On a successful write, the list without the id is both stored and returned. On a failed write the store is unchanged and `[]` is returned, whatever is stored. |
| StorageService.WithoutIdConcat | services/storageService.ts:30 | The filter distributes over concatenation, so kept entries stay in order. |
| StorageService.WithoutIdRemovesAll | services/storageService.ts:30 | After the filter, no entry carries the id. |
| StorageService.WithoutAbsentId | services/storageService.ts:30 | Deleting an id that no entry carries leaves the list unchanged. |
| StorageService.WithoutIdIdempotent | services/storageService.ts:29-32 | Deleting twice is the same as deleting once. |
| StorageService.WithoutIdCommutes | services/storageService.ts:30 | Deleting two ids gives the same list in either order. |
| StorageService.SaveHeadUnique | services/storageService.ts:19-20 | After a save, the item heads the list and is the only entry with its id. |
| StorageService.SaveKeepsOthers | services/storageService.ts:19 | Behind the head come exactly the previous entries with other ids, in their order. With a fresh id the item is simply prepended. |
| StorageService.SaveIdempotent | services/storageService.ts:19 | Saving the same item twice leaves the same list as saving it once. |
| StorageService.SaveOverUnreadable | services/storageService.ts:17 | Saving over corrupt or missing data stores the one-element list `[item]`. |
| StorageService.SaveThenLoad | services/storageService.ts:17-20 | Reading after a successful save finds the item at the head, as the only entry with its id. |
| StorageService.DeleteThenLoad | services/storageService.ts:29-32 | Reading after a delete finds no entry with the id. Deleting again changes nothing, and deleting an absent id changes nothing. |
| GeminiService.PropertyNames | services/geminiService.ts:9-35 | One name per schema property, in declaration order. |
| GeminiService.SchemasRequireAllFields | services/geminiService.ts:7-48 | The article schema requires all six of its fields, and `corpo` is its only list field. The headline schema requires `newHeadline`. |
| GeminiService.ReadReply | services/geminiService.ts:103-108 | A transport failure and an empty text are errors. The reply is read successfully exactly when it has non-empty text that parses, and the value is the parsed payload as it is. |
| GeminiService.Rewrap | services/geminiService.ts:110-113 | Success passes through unchanged. Every error, whatever its kind, becomes the one given message. |
| GeminiService.SystemInstruction | services/geminiService.ts:56-72 | The system instruction text with the category label in its hole; `GeminiService.PromptsEmbedInputs` states where the label sits. |
| GeminiService.FactsText | services/geminiService.ts:76 | The text part around the facts; `GeminiService.PromptsEmbedInputs` states that it carries the facts verbatim. |
| GeminiService.PromptsEmbedInputs | services/geminiService.ts:56-76 | The system instruction holds the category label right after its fixed head. The text part holds the facts verbatim. |
| GeminiService.InlineParts | services/geminiService.ts:80-87 | One inline part per file; `GeminiService.InlinePartsShape` states its length and contents. |
| GeminiService.Parts | services/geminiService.ts:75-87 | The facts text followed by the inline parts; `GeminiService.PartsShape` states its shape. |
| GeminiService.PartsShape | services/geminiService.ts:75-87 | The parts list has one more entry than there are files. The facts text comes first; file `i` is at position `i + 1` with its MIME type and data verbatim. |
| GeminiService.InlinePartsShape | services/geminiService.ts:80-87 | There is one inline part per file, in file order, carrying that file's MIME type and data. |
| GeminiService.InlinePartsSnoc | services/geminiService.ts:80-87 | Adding a file at the end adds its inline part at the end. |
| GeminiService.BuildParts | services/geminiService.ts:75-87 | The `push` loop builds exactly the parts list defined by `Parts`. |
| GeminiService.ArticleRequestFor | services/geminiService.ts:89-101 | The instruction, parts and schema sent for an article; `GeminiService.GenerateNewsArticle` states what the reply to it yields. |
| GeminiService.GenerateNewsArticle | services/geminiService.ts:50-114 | The request carries the category's instruction, the parts and the article schema. The result is the parsed payload exactly when the reply has non-empty, parsable text. Every other outcome is the single generation failure message. |
| GeminiService.HeadlinePromptEmbedsInputs | services/geminiService.ts:122-138 | The rewrite prompt contains the category, the current headline, the subtitle and the lead. |
| GeminiService.HeadlinePrompt | services/geminiService.ts:122-138 | The rewrite prompt with the category, headline, subtitle and lead in its holes; `GeminiService.HeadlinePromptEmbedsInputs` states that each one occurs. |
| GeminiService.TemplateEmbeds | services/geminiService.ts:122-138 | Every hole of a template filled in with strings occurs in the result. |
| GeminiService.OptimizeHeadline | services/geminiService.ts:116-163 | The result is the reply's `newHeadline` exactly when the reply has non-empty, parsable text. Every other outcome is the single optimisation failure message. |
| Application.FirstImage | App.tsx:42 | `None` means no attached file is an image. Otherwise the result is an image, and no earlier file is one. |
| Application.AuthorOrDefault | App.tsx:48 | The result is never empty. A non-empty author is kept as typed; an empty one becomes exactly "Redação Digital". |
| Application.Decorate | App.tsx:39-50 | The author is set. The picture is the first attached image as a `data:` URL, or the service's own when no file is an image. Every other field is as the service returned it. |
| Application.DataUrl | App.tsx:44 | The `data:<type>;base64,<data>` picture of a stored file. `FilesPage.StoredDataUrlRoundTrip` states that the upload split reads it back as the stored base64 text. |
| Application.ErrorText | App.tsx:52 | The result is never empty. A non-empty message is kept; an empty one becomes exactly "Ocorreu um erro desconhecido.". |
| Application.WithoutFile | App.tsx:78 | The list never grows. A file remains exactly when it was there and has a different id. |
| Application.WithoutFileConcat | App.tsx:78 | Removal distributes over concatenation, so the remaining files keep their order. |
| Application.WithoutAbsentFile | App.tsx:78 | Removing an id that no file carries leaves the library as it is. |
| Application.AddThenRemove | App.tsx:73-79 | Adding a file and then removing its id gives what removing the id from the library would give. |
| Application.App.constructor | App.tsx:13-29 | The initial state cells. The history is what storage reads back. |
| Application.App.IsSaved | App.tsx:201 | The `isSaved` flag that disables the save button: a saved id that is present and non-empty. `HandleSaveNews` and `HandleSelectHistoryItem` state when it holds. |
| Application.App.BeginGenerate | App.tsx:32-36 | Sets loading, clears the error, the article and the saved id, and records the category. |
| Application.App.CompleteGenerate | App.tsx:38-55 | On success, shows the decorated article. On failure, shows the error text and no article. Loading is off afterwards either way. |
| Application.App.HandleGenerateNews | App.tsx:31-56 | After generation, loading is off and the saved id is cleared. Either the decorated parsed article is shown with no error, or no article is shown with the generation failure message. |
| Application.App.HandleHeadlineUpdate | App.tsx:58-65 | The handler acts on the article its render closed over, not on the current state. With no such article nothing changes. Otherwise the shown article becomes that captured article with the new headline. Called on the current article, only its headline changes. |
| Application.App.HandleReset | App.tsx:67-71 | Clears exactly the article, the error and the saved id. |
| Application.App.DismissError | App.tsx:188 | The error is cleared. |
| Application.App.Navigate | App.tsx:112 | The view is the one chosen. |
| Application.App.HandleAddFile | App.tsx:73-75 | The file is appended at the end of the library. |
| Application.App.HandleRemoveFile | App.tsx:77-79 | Every file with the id is dropped; the rest keep their order. |
| Application.App.HandleSaveNews | App.tsx:81-94 | With no article, nothing changes. Otherwise the item takes the article and the selected category and is written through the storage save. It is prepended to the in-memory history even when the write fails. It becomes the saved id, so the save button is disabled unless the id is empty. When the write fails, the alert is the quota message, and a history that matched storage no longer does. |
| Application.App.HandleDeleteSavedNews | App.tsx:96-101 | Unconfirmed, nothing changes. Confirmed, the in-memory history becomes what the storage delete returns: the filtered list, or `[]` when the write fails. A successful delete leaves memory matching storage. A failed delete over a non-empty stored history leaves memory no longer matching storage. |
| Application.App.HandleSelectHistoryItem | App.tsx:103-108 | Shows the item on the dashboard with its category and its id as the saved id. It then reads as saved, unless its id is empty. |
| Application.SaveFreshKeepsSync | App.tsx:91-92 | A successful save of a fresh id keeps the in-memory and stored histories equal. |
| Application.FailedSaveDiverges | App.tsx:91-92 | When the write fails, the in-memory history gains the item and storage does not, so the two differ. |
| Application.DuplicateSaveDiverges | App.tsx:91-92 | Saving an id already in the history puts it twice in memory but once in storage, so the two differ. |
| FilesPage.Check | components/FilesPage.tsx:23-35 | A file passes exactly when its MIME type starts with `image/` or is `application/pdf` and it is at most 5 MiB. The type is judged before the size. The kind is `Image` exactly when the type starts with `image/`. |
| FilesPage.IsImageType | components/FilesPage.tsx:22 | `file.type.startsWith('image/')`; `FilesPage.Check` states how it decides acceptance and the kind. |
| FilesPage.IsPdfType | components/FilesPage.tsx:23 | `file.type === 'application/pdf'`; `FilesPage.Check` states how it decides acceptance. |
| FilesPage.CheckBoundaries | components/FilesPage.tsx:26-35 | A file of exactly 5 MiB passes and one byte more is too large. An oversized file of a refused type is reported for its type. |
| FilesPage.AlertText | components/FilesPage.tsx:27-33 | The alert for each kind of rejection, naming the file. |
| FilesPage.Base64Payload | components/FilesPage.tsx:39 | The piece after the first comma of the data URL; `FilesPage.PayloadAfterComma` states that this is the base64 text. |
| FilesPage.PayloadAfterComma | components/FilesPage.tsx:39 | The stored data is the text after the comma of a `data:` URL. |
| FilesPage.ToStoredFile | components/FilesPage.tsx:41-49 | Name, MIME type and size are copied unchanged. The kind, id and date are the given ones, and the data is the URL's payload. |
| FilesPage.StoredDataUrlRoundTrip | components/FilesPage.tsx:39 | The `data:` URL rebuilt from a stored file splits back to the stored base64 text, when neither the type nor the data holds a comma. |
| FilesPage.AcceptedOne | components/FilesPage.tsx:20-53 | One file adds at most one stored file, exactly when it passes the check, with its name and the URL's payload. |
| FilesPage.RejectedOne | components/FilesPage.tsx:20-53 | One file raises at most one alert, exactly when it fails the check. Each file is either added or alerted, never both. |
| FilesPage.Accepted | components/FilesPage.tsx:21-53 | The stored files of a batch, in batch order; `FilesPage.BatchSplits`, `FilesPage.EachFileOnce` and `FilesPage.AcceptedAreValid` state its properties. |
| FilesPage.Rejected | components/FilesPage.tsx:21-35 | The rejections of a batch, in batch order; `FilesPage.BatchSplits` and `FilesPage.EachFileOnce` state its properties. |
| FilesPage.BatchSplits | components/FilesPage.tsx:21-35 | Each part of a batch is judged on its own: a rejection does not stop the rest. |
| FilesPage.EachFileOnce | components/FilesPage.tsx:21-53 | Every file of a batch is added once or rejected once. |
| FilesPage.AcceptedAreValid | components/FilesPage.tsx:23-44 | Every added file has an allowed type, is within the ceiling, and has the kind that matches its MIME type. |
| FilesPage.FilesPageState.constructor | components/FilesPage.tsx:14 | The page starts with no batch being processed. |
| FilesPage.FilesPageState.ProcessFiles | components/FilesPage.tsx:16-57 | With no list, nothing happens. Otherwise the accepted files are appended to the library in order through `HandleAddFile`, every rejection yields its alert in order, and processing is off at the end. |
| NewsForm.SelectedFiles | components/NewsForm.tsx:26 | A library file is passed exactly when its id is selected. The result never outgrows the library. |
| NewsForm.SelectedFilesConcat | components/NewsForm.tsx:26 | Selection distributes over the library, so the files keep library order. |
| NewsForm.UnmatchedIdsIgnored | components/NewsForm.tsx:26 | Selected ids that name no library file make no difference. |
| NewsForm.SelectAll | components/NewsForm.tsx:26 | Selecting every id passes the whole library, in order. |
| NewsForm.Toggled | components/NewsForm.tsx:31-39 | The clicked id changes membership. Every other id keeps its membership. |
| NewsForm.ToggleTwice | components/NewsForm.tsx:31-39 | Clicking the same file twice restores the selection. |
| NewsForm.SufficientFactsEnableSubmit | components/NewsForm.tsx:20 | Facts that pass the length check are not all white space, so they never disable the button. |
| NewsForm.FactsSufficient | components/NewsForm.tsx:20 | The ten-character rule on the trimmed facts; `NewsForm.NewsFormState.HandleSubmit` and `NewsForm.SufficientFactsEnableSubmit` state what it decides. |
| NewsForm.NewsFormState.constructor | components/NewsForm.tsx:12-15 | The form starts on Brasil with empty facts, an empty author and no selected file. |
| NewsForm.NewsFormState.SetCategory | components/NewsForm.tsx:58 | The category becomes the chosen one. |
| NewsForm.NewsFormState.SetFacts | components/NewsForm.tsx:97 | The facts become the typed text. |
| NewsForm.NewsFormState.SetAuthor | components/NewsForm.tsx:81 | The author becomes the typed text. |
| NewsForm.NewsFormState.ToggleFile | components/NewsForm.tsx:31-39 | The selection becomes the toggled set. |
| NewsForm.NewsFormState.HandleSubmit | components/NewsForm.tsx:18-29 | Nothing is submitted, and the user is alerted, exactly when the trimmed facts are shorter than ten characters. Otherwise the category, the untrimmed facts, the author as typed and the selected library files in library order are submitted. |
| NewsForm.NewsFormState.SubmitDisabled | components/NewsForm.tsx:166 | The button is disabled exactly when loading or when every character of the facts is white space. |
| NewsDisplay.Truthy | components/NewsDisplay.tsx:35 | JavaScript truthiness of an optional text: present and non-empty. `NewsDisplay.ImageSource`, `NewsDisplay.CreditMatchesPicture` and `NewsDisplay.AuthorName` state the `||` and `?:` choices made on it. |
| NewsDisplay.ImageSource | components/NewsDisplay.tsx:35 | A non-empty article picture is shown. Otherwise the placeholder for the category is shown. |
| NewsDisplay.FallbackImageUrl | components/NewsDisplay.tsx:35 | The placeholder picture URL; `NewsDisplay.FallbackCarriesLength` states that it carries the label length plus 50. |
| NewsDisplay.ImageCredit | components/NewsDisplay.tsx:125 | The picture credit; `NewsDisplay.CreditMatchesPicture` states which credit goes with which picture. |
| NewsDisplay.CreditMatchesPicture | components/NewsDisplay.tsx:125 | The credit names the user exactly when the article has a non-empty picture. The placeholder credit goes with the placeholder picture. |
| NewsDisplay.FallbackCarriesLength | components/NewsDisplay.tsx:35 | The placeholder URL carries, between its fixed prefix and suffix, the decimal of the label's length plus 50, and that decimal reads back as the number. |
| NewsDisplay.AuthorName | components/NewsDisplay.tsx:52 | The name is never empty: a non-empty author, else "Redação Digital". |
| NewsDisplay.FirstChars | components/NewsDisplay.tsx:55-57 | The first characters of the segments are at most one per segment. |
| NewsDisplay.FirstChar | components/NewsDisplay.tsx:55 | `n => n[0]`, where the `undefined` of an empty segment joins as nothing; `NewsDisplay.FirstSegmentLead` states which character it gives. |
| NewsDisplay.TakeTwo | components/NewsDisplay.tsx:56 | The result is the first two segments, or all of them when there are fewer. |
| NewsDisplay.AuthorInitials | components/NewsDisplay.tsx:53-58 | The initials are at most two characters. |
| NewsDisplay.FirstSegmentLead | components/NewsDisplay.tsx:54-55 | The first segment yields the text's first character unless the text opens with a space, and then nothing. |
| NewsDisplay.InitialsWithoutSpace | components/NewsDisplay.tsx:53-58 | A name without spaces gives its first letter, upper-cased. |
| NewsDisplay.InitialsAtFirstSpace | components/NewsDisplay.tsx:53-58 | With its first space at `i`, a name gives its first letter and the letter after the space, upper-cased. An empty segment on either side contributes nothing but still counts toward the two. |
| NewsDisplay.InitialsOfTwoWords | components/NewsDisplay.tsx:53-58 | Two words joined by one space give the first letter of each, upper-cased. |
| NewsDisplay.DefaultAuthorInitials | components/NewsDisplay.tsx:52-58 | The default author shows as "RD". |
| NewsDisplay.NewsDisplayState.StartOptimize | components/NewsDisplay.tsx:38-39 | A request starts only when none is in flight. The flag is set afterwards either way. |
| NewsDisplay.NewsDisplayState.constructor | components/NewsDisplay.tsx:15 | No headline request is in flight at first. |
| NewsDisplay.NewsDisplayState.FinishOptimize | components/NewsDisplay.tsx:40-48 | On success there is no alert, and the shown article becomes the clicked article with the new headline, even if the state changed after the click. On failure, the user is alerted and the article is not touched. The flag is cleared either way. |
| NewsDisplay.NewsDisplayState.HandleOptimizeTitle | components/NewsDisplay.tsx:37-49 | A click while a request is in flight changes nothing. Otherwise, on success there is no alert and the shown article is the clicked one with the new headline; on failure the user is alerted and nothing changes. The flag ends cleared. |
| NewsDisplay.NewsDisplayState.ResetWhileOptimizing | components/NewsDisplay.tsx:40-42 | "Voltar" pressed during the request does not stick: a successful reply brings back the clicked article with the new headline and no saved id. On failure the article stays cleared and the user is alerted. |
| Text.IsSpace | components/NewsForm.tsx:20 | The ECMAScript white-space and line-terminator characters that `trim` removes; `Text.Trim` and `Text.TrimEmptyIff` state what trimming does with them. |
| Text.StartsWith | components/FilesPage.tsx:22 | `startsWith`: the text begins with the prefix; `FilesPage.Check` states the MIME test built on it. |
| Text.TrimStart | components/NewsForm.tsx:20 | Drops exactly the leading white space, leaving a suffix that does not start with white space. |
| Text.TrimEnd | components/NewsForm.tsx:20 | Drops exactly the trailing white space, leaving a prefix that does not end with white space. |
| Text.Trim | components/NewsForm.tsx:20 | The result is a slice of the input with no white space at either end, and everything before and after it is white space. |
| Text.TrimEmptyIff | components/NewsForm.tsx:166 | Trimming leaves nothing exactly when every character is white space. |
| Text.Split | components/NewsDisplay.tsx:54 | A split always has at least one piece, and no piece contains the separator. |
| Text.Join | components/NewsDisplay.tsx:57 | `join` with one separator; `Text.JoinSplit` and `Text.SplitJoin` state that it inverts `Split`. |
| Text.JoinSplit | components/NewsDisplay.tsx:54 | Joining a split with the same separator gives back the text. |
| Text.SplitJoin | components/NewsDisplay.tsx:54 | Splitting a join of separator-free pieces gives back the pieces. |
| Text.SplitFree | components/NewsDisplay.tsx:54 | A text without the separator splits into itself. |
| Text.SplitAfterPiece | components/FilesPage.tsx:39 | A text that starts with a separator-free piece and a separator splits into that piece followed by the split of the rest. |
| Text.SplitCount | components/NewsDisplay.tsx:54 | A split has one more piece than there are separators. |
| Text.UpperChar | components/NewsDisplay.tsx:58 | ASCII lower-case letters and the Latin-1 letters `à`–`þ` other than `÷` map 32 code points down, to their upper case. Characters outside the modelled range are unchanged. |
| Text.UpperCase | components/NewsDisplay.tsx:58 | Upper-casing preserves length and maps each character on its own. |
| Text.Decimal | components/NewsDisplay.tsx:35 | Decimal digits only, at least one, with no leading zero. |
| Text.DecimalRoundTrip | components/NewsDisplay.tsx:35 | The rendered digits read back as the number. |

## Left out

- Rendering is not modelled: JSX, CSS class strings, icons and layout. `components/Header.tsx` and `components/HistoryPage.tsx` are presentation only and are not part of this model.
- The generative-text SDK call is a function parameter. The model names, temperatures and the API key are not modelled, because they configure a foreign network call.
- The `description` strings of the two response schemas are left out. So is the fact that the SDK validates the reply against the schema, because that happens inside the service.
- The `JSON.parse`/`JSON.stringify` grammar is not modelled. Stored text is either a list of saved articles or corrupt. Text that parses to something other than a list is outside the model, and so is an empty stored string, which the source reads as `[]` just like corrupt data. A `getItem` that throws behaves as corrupt data does.
- GeminiService.ReadReply: no check of the parsed payload's fields, since the source performs none. A `response.text` that is `undefined` is modelled as empty text.
- GeminiService.OptimizeHeadline: a parsed payload without `newHeadline` would give `undefined` in the source. The model's payload always carries the field.
- `FileReader` is not modelled: its asynchronous completion order, the base64 encoding, and the fact that `isProcessing` is cleared before the reads finish. `ProcessFiles` takes the files in list order with each data URL as an input, so every accepted file is added before the loop ends.
- FilesPage.Base64Payload: a data URL without a comma gives `undefined` in the source and empty data in the model.
- `formatSize` is left out because it relies on floating-point `Math.log`, `Math.pow` and `toFixed`.
- `Math.random` ids, `new Date()` timestamps and `toLocaleDateString` are parameters or left out.
- Browser dialogs and timers are left out: `alert` (returned as a value instead), `confirm` (a boolean parameter), `window.print`, and the two-second "just saved" flash.
- NewsForm.NewsFormState.HandleSubmit: the ten-character rule counts code points, but the source's `facts.trim().length` counts UTF-16 units. Facts of five emoji have length 10 in the source and are submitted, while the model counts 5 and alerts.
- Application.App.HandleGenerateNews: a reply whose text parses to `null` is returned by `generateNewsArticle` without an error. Setting its `author` then throws a `TypeError` outside the service's `try`, so the handler shows that error's message, not the generation failure message. The reply type has no `null` payload, so the model does not capture this case.
- NewsDisplay.AuthorInitials, Text.UpperChar, Text.UpperCase: `toUpperCase` is modelled for ASCII and the one-to-one Latin-1 letters only. Characters whose full-Unicode upper case differs (for example `ÿ`, `µ`, `ß`) are left unchanged. `n[0]` takes one UTF-16 unit in the source, so a name that starts with an emoji gives a lone surrogate there and the whole emoji in the model. Strings are sequences of code points, not UTF-16 units, so the picture id uses the label's code-point length. For every category this equals the UTF-16 length.
- React state batching and re-render timing are not modelled: each handler is one atomic transition, except the two that `await` the service. Generation is split at App.tsx:39 into `BeginGenerate` and `CompleteGenerate`, and the headline request into `StartOptimize` and `FinishOptimize`, so other handlers may run between the halves. `HandleOptimizeTitle` is the case where nothing runs in between, and `ResetWhileOptimizing` is one where "Voltar" does. Because the update closes over the clicked article (App.tsx:58-63), a late reply replaces whatever is shown by that article with the new headline. A reset is undone that way, and so is a switch to another saved article, while the saved id stays that other article's.
- Saving de-duplicates by id only in storage (`StorageService.SaveHeadUnique`). The in-memory list in `App.tsx` prepends without filtering. The model follows the code, and `Application.DuplicateSaveDiverges` states the consequence.
