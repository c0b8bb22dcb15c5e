# Portfolio Generator form, modelled in Dafny

The Portfolio Generator's main page (`src/app/page.tsx`) is a React component.
A user types a profile into seven text inputs: name, age, occupation, contact
information, short bio, comma-separated skills, and project descriptions one
per line. The page can then:

- copy the form into a live preview card;
- send the profile to an AI service that rewrites the bio;
- send the project descriptions to an AI service that suggests better ones;
- download the previewed profile as a standalone HTML page named
  `portfolio-<slug>.html`.

This project models that component.

- `text.dfy` (module `Text`): the JavaScript string operations the page uses:
  - `trim()`;
  - `split(c)` with a one-character separator, together with its inverse `Join`;
  - `toLowerCase()`;
  - `replace(/\s+/g, '-')`.

  Whitespace and case are ASCII.
- `parsing.dfy` (module `Parsing`): `split(sep).map(x => x.trim())`. This is how
  both list fields become lists, for the AI requests, the download and the
  preview alike.
- `profile.dfy` (module `Profile`): the form record, its field names, and the
  update `{...formData, [name]: value}`.
- `export.dfy` (module `Export`):
  - the `<li>` markup of the lists;
  - the exact HTML template of the download;
  - the download file name;
  - what the preview card shows.
- `form.dfy` (module `Form`): the component as a class. Its fields are the
  six state cells plus a log of the toasts shown. Its methods are the event
  handlers. How an AI call ended is a parameter of its handler (`Outcome`: a
  value, or a failure with an optional message). The request the handler sends
  is its result.

Three behaviours of the code are worth noting; the model follows the code in
each:

- **Empty list entries.** Empty skills, for example after a trailing comma,
  are kept where they fall. They are not dropped (`Parsing.ParseListEmpty`,
  `Text.Split`).
- **Age in the download.** The downloaded page does not contain the age
  (`Export.DocumentIgnoresAge`).
- **Validation.** The page checks no required fields before a download or an
  AI call.

## Model

| member | source | states |
|---|---|---|
| Text.TrimStart | src/app/page.tsx:67 | the result is no longer than the input and does not start with whitespace; a leading whitespace character is always removed |
| Text.TrimStartCut | src/app/page.tsx:67 | the leading trim removes exactly a whitespace prefix and keeps the rest unchanged |
| Text.TrimEnd | src/app/page.tsx:67 | the result is no longer than the input and does not end with whitespace; a non-blank first character survives |
| Text.TrimEndCut | src/app/page.tsx:67 | the trailing trim removes exactly a whitespace suffix and keeps the prefix unchanged |
| Text.Trim | src/app/page.tsx:67 | `trim()` leaves no whitespace at either end |
| Text.TrimSlice | src/app/page.tsx:67 | the trimmed string is a contiguous slice of the input, and everything cut on either side is whitespace |
| Text.TrimUnique | src/app/page.tsx:67 | whitespace + core + whitespace trims to exactly the core, when the core has no outer whitespace; together with TrimSlice this characterises `trim()` completely |
| Text.TrimBlank | src/app/page.tsx:67 | an all-whitespace piece trims to the empty string |
| Text.TrimFixes | src/app/page.tsx:67 | a string with no outer whitespace is unchanged by trim |
| Text.TrimIdempotent | src/app/page.tsx:67 | trimming twice equals trimming once |
| Text.TrimKeepsCharacters | src/app/page.tsx:67 | trim introduces no character that was not in the input |
| Text.Split | src/app/page.tsx:67 | `split(c)` gives one more piece than there are separators (an empty string gives one empty piece), and no piece contains the separator |
| Text.JoinSplit | src/app/page.tsx:67 | joining the pieces of a split with the separator gives back the input |
| Text.SplitJoin | src/app/page.tsx:67 | a non-empty list of separator-free pieces, joined and then split, gives back exactly that list |
| Text.ToLower | src/app/page.tsx:140 | `toLowerCase()` keeps the length and maps each character on its own |
| Text.LowerCharFacts | src/app/page.tsx:140 | a lowered character is never upper case; lowering is idempotent, keeps whitespace status, changes only A-Z, and sends A-Z to a-z |
| Text.ToLowerFacts | src/app/page.tsx:140 | a lowered string has no upper-case letter, and has whitespace exactly when the input has |
| Text.ToLowerIdempotent | src/app/page.tsx:140 | lowering twice equals lowering once |
| Text.ToLowerAppend | src/app/page.tsx:140 | lowering distributes over concatenation |
| Text.CollapseWhitespace | src/app/page.tsx:140 | `replace(/\s+/g, '-')` leaves no whitespace and never lengthens the string |
| Text.CollapseNoWhitespace | src/app/page.tsx:140 | a string without whitespace is unchanged |
| Text.CollapseRun | src/app/page.tsx:140 | a maximal whitespace run between two non-blank neighbours becomes exactly one `-`, with the text on both sides rewritten independently |
| Text.CollapseNoDoubleDash | src/app/page.tsx:140 | for input without `-`, the result never has two dashes in a row, and a non-blank first character is kept |
| Parsing.ParseSkills | src/app/page.tsx:67 | the skills field gives commas+1 items, each trimmed and free of commas |
| Parsing.ParseProjectDescriptions | src/app/page.tsx:84 | the descriptions field gives line-feeds+1 items, each trimmed and free of line feeds |
| Parsing.TrimAll | src/app/page.tsx:67 | `.map(x => x.trim())` keeps the number of pieces, and item i is the trim of piece i |
| Parsing.ParseList | src/app/page.tsx:67-68 | split-and-trim gives separators+1 items, each free of outer whitespace and of the separator |
| Parsing.ParseListInOrder | src/app/page.tsx:84 | the items follow the input's order: item i is the trim of segment i, and the segments joined back make the input |
| Parsing.ParseListEmpty | src/app/page.tsx:259 | an empty field parses to a single empty item, not to an empty list |
| Parsing.ParseListSegments | src/app/page.tsx:68 | parsing separator-free segments joined by the separator gives their trims, one per segment |
| Parsing.ParseListJoin | src/app/page.tsx:123 | a list of trimmed, separator-free items survives writing out with the separator and parsing back |
| Parsing.SampleSkills | src/app/page.tsx:67 | the skills "C, Math, Logic" parse to ["C", "Math", "Logic"] |
| Parsing.CarriageReturnsTrimmed | src/app/page.tsx:68 | CRLF line endings leave no trailing carriage return on a description |
| Profile.FormData.With | src/app/page.tsx:37 | a change sets the named field to the value and leaves the other six fields as they were |
| Profile.FieldsDetermineRecord | src/app/page.tsx:15-23 | a record is determined by its seven fields |
| Profile.WithLaws | src/app/page.tsx:37 | writing back a field's own value changes nothing; of two writes to a field, the last wins |
| Export.ListItems | src/app/page.tsx:123 | `.map(x => `<li>${x}</li>`).join('')` is empty exactly for an empty list, starts with `<li>` otherwise, and spends at least nine characters of tags per item |
| Export.ListMarkup | src/app/page.tsx:129 | the markup of a list field is never empty: it starts with `<li>` and has tags for at least separators+1 items |
| Export.HtmlDocument | src/app/page.tsx:99-134 | the downloaded page is the source's template text with the record's values pasted in; it has no contract of its own, and its properties are stated by PageOrder and DocumentIgnoresAge |
| Export.PageOrder | src/app/page.tsx:99-134 | the page begins with the head and profile section immediately followed by the skills list, and ends with the projects list immediately followed by the closing tags |
| Export.ListItemsAppend | src/app/page.tsx:123 | the markup of a concatenated list is the concatenation of the two markups (`join('')` adds no separator) |
| Export.ListItemsRoundTrip | src/app/page.tsx:123 | when no item contains `<`, the `<li>` markup decodes back to exactly the item list |
| Export.MarkupNotEscaped | src/app/page.tsx:129 | item text is not escaped: an item holding `</li><li>` gives the same markup as two items |
| Export.ListMarkupItems | src/app/page.tsx:123 | for a field without `<`, the list markup holds exactly separators+1 `<li>` elements, and they decode to the parsed items in order |
| Export.DocumentIgnoresAge | src/app/page.tsx:99-134 | the downloaded page depends only on name, occupation, bio, contact, skills and projects; age is not part of it |
| Export.DownloadFilename | src/app/page.tsx:140 | the file name is exactly `portfolio-`, then the slug of the previewed name, then `.html` |
| Export.Slug | src/app/page.tsx:140 | the file-name slug has no whitespace and is no longer than the name |
| Export.FilenameShape | src/app/page.tsx:140 | the file name always starts with `portfolio-`, ends with `.html` and holds no whitespace, whatever the name |
| Export.SlugRun | src/app/page.tsx:140 | each maximal whitespace run in the name becomes a single `-` in the slug, and the text around it is only lower-cased |
| Export.SlugNoDoubleDash | src/app/page.tsx:140 | a name without dashes never yields `--` in its slug |
| Export.Preview | src/app/page.tsx:253-268 | an empty name, occupation, bio or contact shows "Your Name", "Your Occupation", "Your Bio" or "Your Contact Info"; a non-empty one is shown as typed; the two lists are exactly the parsed skills and descriptions, separators+1 entries each, so the lists the JSX builds hold the same items as the download (what React displays after a keyed update is not modelled) |
| Form.BioRequestOf | src/app/page.tsx:61-69 | the bio request carries the five scalar fields as typed and exactly the parsed skills and descriptions (separators+1 trimmed entries each); its descriptions are the very list the suggestions request sends |
| Form.ErrorText | src/app/page.tsx:75 | the error toast shows the error's message when it is non-empty, and the fallback text when the message is missing or empty |
| Form.ErrorToast | src/app/page.tsx:73-77 | a failed call's toast is titled "Error", is destructive, and shows the message when non-empty and the fallback otherwise |
| Form.PortfolioForm.constructor | src/app/page.tsx:26-31 | both records start empty, both dialogs start closed, there is no AI result, and no toast has been shown |
| Form.PortfolioForm.HandleChange | src/app/page.tsx:35-38 | the form record becomes the old record with the named field replaced; no other state changes |
| Form.PortfolioForm.HandleSkillsChange | src/app/page.tsx:40-43 | same effect as HandleChange |
| Form.PortfolioForm.HandleProjectDescriptionsChange | src/app/page.tsx:45-48 | same effect as HandleChange |
| Form.PortfolioForm.HandleLivePreview | src/app/page.tsx:50-56 | the preview becomes a copy of the form, the form itself is unchanged, and the "Live Preview Updated" toast is appended |
| Form.PortfolioForm.HandleEnhanceBio | src/app/page.tsx:58-79 | the dialog opens; the request is built from the form, not the preview; success stores the returned bio with no toast; failure keeps the old bio and appends a destructive "Error" toast with the message or the fallback |
| Form.PortfolioForm.HandleSuggestProjectDescriptions | src/app/page.tsx:81-95 | the dialog opens; the descriptions sent are the form's parsed descriptions; success stores the returned list as is; failure keeps the old list and appends the error toast |
| Form.PortfolioForm.HandleDownloadHtml | src/app/page.tsx:97-150 | the page and the file name are computed from the preview record, not the form; only the download toast is added to the state |
| Form.PortfolioForm.SetEnhanceBioOpen | src/app/page.tsx:205-215 | the open flag of the bio dialog takes the given value and nothing else changes |
| Form.PortfolioForm.SetSuggestProjectDescriptionsOpen | src/app/page.tsx:221-237 | the open flag of the suggestions dialog takes the given value and nothing else changes |
| Form.PortfolioForm.PreviewCard | src/app/page.tsx:253-268 | the card is the preview of the snapshot `previewData`, never of the form being edited |
| Form.FillForm | src/app/page.tsx:164-192 | one change event per input, starting from a new form, leaves the form holding exactly the typed record and the preview still empty |
| Form.ExportIgnoresUnsavedEdit | src/app/page.tsx:97-140 | after a preview, a later edit made without another preview does not reach the download: the page and file name are those of the previewed record |
| Form.FailedEnhanceKeepsState | src/app/page.tsx:58-79 | a failed bio call after a successful one keeps the earlier bio and the form's record, and shows a destructive "Error" toast whose text is the message or the fallback |

## Left out

- Export.HtmlDocument (src/app/page.tsx:99-134) carries the exact template
  text as `Export.Template` and has no contract of its own: any contract on
  it makes every proof that mentions the page reason about the long literal
  text. Its properties are proved about `Export.Page` for any fixed text
  (`Export.PageOrder`) and about the page itself (`Export.DocumentIgnoresAge`).
- The preview card renders its items as text, which React escapes, while the
  download pastes them raw. The model shows the items the card lists, not
  its markup, so the two agree on items but not necessarily on characters
  such as `<` and `&`.

- Whitespace and case are ASCII only. JavaScript's `trim()` and `\s` also
  remove the Unicode space separators, U+FEFF, U+2028 and U+2029.
  `toLowerCase()` also maps non-ASCII letters, and may change the length
  (U+0130 becomes two code units) or depend on neighbouring letters (final
  sigma). So the length facts of `Text.ToLower` and `Export.Slug` hold for
  the ASCII model only.
- The age is sent as `Number(formData.age)`. The model passes the raw text
  (`Form.BioRequestOf`), because JavaScript number parsing (NaN, exponents,
  blanks giving 0) is outside this model.
- The two AI services are not modelled. A handler receives the call's outcome
  as a parameter. Nothing is claimed about the length or content of the
  suggestions: `HandleSuggestProjectDescriptions` stores whatever list comes
  back. `src/ai/flows/suggest-project-descriptions.ts` is not part of this
  model.
- A handler runs as one atomic step. The await between opening a dialog and
  storing the result is not modelled. So overlapping AI calls that resolve
  out of order, and edits made while a call is pending, are not modelled
  either.
- The download's Blob, object URL, anchor element and click are browser I/O.
  The model returns the page text and the file name instead.
- `console.error` logging is left out.
- Toasts are modelled as an append-only log of (title, description,
  destructive). Their timing and dismissal are not modelled.
- Markup and layout are not modelled: the input labels, the button styles,
  the dialog contents and the "Project n:" numbering of suggestions. Only the
  state each element reads or writes is modelled.
- React's `key` props on the preview lists and React's reconciliation are
  left out. The skills list is keyed by the trimmed skill, so two equal
  trimmed skills (including two empty entries, as in `a,,`) share a key.
  React may then duplicate or omit items on a later preview, and the card
  on screen can differ from the list the JSX builds. The model describes
  only that list (`Export.Preview`).
- A change event whose target name is not one of the seven inputs is left
  out. Every input on the page carries one of the seven names (`Field`).
- The results page `src/app/portfolio/page.tsx` is not part of this model.
  Neither are photo upload, PDF export, name/description project pairs, or
  saving to storage. None of these exists in the main page.
- Export.ListItemsRoundTrip: holds only when no item contains `<`. The
  markup is not escaped, so for other items the element count cannot be
  recovered (`Export.MarkupNotEscaped`).
- Export.ListMarkupItems: holds only for fields without `<`, for the same
  reason.
