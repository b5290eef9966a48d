# Note app: a verified model of its note list, creator form and note card

The app keeps an in-memory list of notes. Each note has an id, a title, a content, a type
(text or audio), a creation date, a favourite flag and an optional image URL. Three
parts change that list or feed it:

- **The page** (`src/pages/Index.tsx`) owns the list. It creates a note by prepending
  it, deletes by filtering on the id, and updates by mapping an object-spread merge over
  the note with the matching id. It shows the notes whose title or content contains the
  search query, ignoring case.
- **The creator form** (`src/components/NoteCreator.tsx`) holds a title, a content and a
  recording flag, plus two capability refs: the microphone recorder and the speech
  recognizer. Submitting validates the trimmed fields and emits a note typed audio or
  text. Dictation replaces the content with the transcript so far.
- **The note card** (`src/components/NoteCard.tsx`) holds an edit toggle, a fullscreen
  toggle and two drafts. It sends update and delete requests for its note.

The model follows that structure. The list operations are pure functions on `seq<Note>`,
with lemmas about them (module `NoteStore`). The form and the card are classes whose
methods update their fields and return what they emit (modules `NoteCreator` and
`NoteCard`). Module `Page` composes one user interaction on a card or the form with the
list operations. Module `Scenarios` states and proves a create, search and delete session on two
notes with symbolic ids and dates. `Strings` (ASCII lower-casing, `trim`, `includes`, `join(" ")`), `Sequences` (the
filter and what determines it) and `Notes` (the record, `Partial<Note>` and the spread
merge) are the building blocks.

Browser capabilities become inputs:
- `crypto.randomUUID()` and `new Date()` are parameters.
- How far microphone and recognizer acquisition gets is an `Acquisition` value, with one
  failure per step that can throw.
- A speech event is the list of results received so far.
- A chosen image file is the object URL the browser would make for it.
- The clipboard write is the text that would be written.

## Model

| member | source | states |
|---|---|---|
| `Strings.Lower` | src/pages/Index.tsx:42-43 | `toLowerCase` keeps the length and lower-cases exactly the ASCII capitals, character by character |
| `Strings.LowerIdempotent` | src/pages/Index.tsx:42-43 | lower-casing an already lower-cased string changes nothing |
| `Strings.TrimStart` | src/components/NoteCreator.tsx:66 | the result is a suffix of the input, everything dropped is white space, and the result does not start with white space |
| `Strings.TrimEnd` | src/components/NoteCreator.tsx:66 | the result is a prefix of the input, everything dropped is white space, and the result does not end with white space |
| `Strings.Trim` | src/components/NoteCreator.tsx:66 | `trim()` is the trailing trim of the leading trim; its meaning is stated by `Strings.TrimEmptyIffBlank` and `Strings.TrimEnds` |
| `Strings.TrimEmptyIffBlank` | src/components/NoteCreator.tsx:66 | `trim()` gives the empty string exactly when the input is empty or all white space (both directions) |
| `Strings.TrimEnds` | src/components/NoteCreator.tsx:66 | a trimmed string that is not empty neither starts nor ends with white space |
| `Strings.Includes` | src/pages/Index.tsx:42-43 | the left-to-right scan answers true exactly when the needle occurs at some position of the haystack |
| `Strings.IncludesEmpty` | src/pages/Index.tsx:42-43 | every string includes the empty string |
| `Strings.MissingCharExcludes` | src/pages/Index.tsx:42-43 | a haystack lacking one of the needle's characters does not include the needle |
| `Strings.JoinSpace` | src/components/NoteCreator.tsx:33 | `join(" ")`: a single part joins to itself; its length and growth are stated by `Strings.JoinSpaceLength` and `Strings.JoinSpaceSnoc` |
| `Strings.JoinSpaceLength` | src/components/NoteCreator.tsx:31-33 | `join(" ")` adds exactly one separator between consecutive parts |
| `Strings.JoinSpaceSnoc` | src/components/NoteCreator.tsx:31-33 | joining one more part extends the previous join by a space and that part |
| `Sequences.Filter` | src/pages/Index.tsx:32 | `filter` never lengthens the list, keeps only elements that pass, and keeps every element that passes |
| `Sequences.FilterIsSubsequence` | src/pages/Index.tsx:32 | the filter's result is an order-preserving subsequence of its input |
| `Sequences.FilterCount` | src/pages/Index.tsx:32 | each passing element is kept as often as it occurs, and no failing element is kept |
| `Sequences.FilterUnique` | src/pages/Index.tsx:32 | any order-preserving subsequence with those element counts is the filter: the two facts determine it |
| `Sequences.FilterAll` | src/pages/Index.tsx:41-44 | when every element passes, the filter returns the list unchanged |
| `Sequences.FilterIdempotent` | src/pages/Index.tsx:32 | filtering twice with one predicate is filtering once |
| `Notes.Merge` | src/pages/Index.tsx:37 | `{ ...note, ...updates }`, one field at a time; its meaning is stated by `Notes.MergeFields`, `Notes.MergeEmpty`, `Notes.MergeIdempotent` and `Notes.MergeCombine` |
| `Notes.Combine` | src/pages/Index.tsx:37 | two updates spread one over the other, the later fields winning; related to the merge by `Notes.MergeCombine` |
| `Notes.MergeFields` | src/pages/Index.tsx:37 | in `{ ...note, ...updates }` a field present in the update takes its value and every absent field keeps the note's |
| `Notes.MergeEmpty` | src/pages/Index.tsx:37 | spreading `{}` copies the note |
| `Notes.MergeIdempotent` | src/pages/Index.tsx:37 | spreading the same update twice is spreading it once |
| `Notes.MergeCombine` | src/pages/Index.tsx:37 | two successive spreads are one spread of the combined update, the later fields winning |
| `NoteStore.NewNote` | src/pages/Index.tsx:22-27 | the new note: a generated id, the form's fields, the current date, not a favourite, no image; its fields are stated by `NoteStore.Create` |
| `NoteStore.Create` | src/pages/Index.tsx:21-29 | the list grows by one; the new note is first, carries the generated id, the given time, the form's title, content and type verbatim, is not a favourite and has no image; the old list follows unchanged; no input is rejected |
| `NoteStore.CreatePreservesUnique` | src/pages/Index.tsx:23-28 | creating with an id not in the list keeps ids unique, and the new id is then present |
| `NoteStore.Delete` | src/pages/Index.tsx:31-33 | no note with the id survives, every surviving note comes from the list, and every note with another id survives |
| `NoteStore.DeleteKeepsOthersInOrder` | src/pages/Index.tsx:31-33 | the result is an order-preserving subsequence holding each other-id note exactly as often as before and no note with the id |
| `NoteStore.DeleteAbsent` | src/pages/Index.tsx:31-33 | deleting an id no note carries returns the identical list |
| `NoteStore.DeleteIdempotent` | src/pages/Index.tsx:31-33 | deleting twice is deleting once |
| `NoteStore.FilterPreservesUnique` | src/pages/Index.tsx:32 | filtering a list with unique ids leaves the ids unique |
| `NoteStore.DeletePreservesUnique` | src/pages/Index.tsx:32 | deleting keeps ids unique |
| `NoteStore.Update` | src/pages/Index.tsx:35-39 | length and positions are kept; a note with another id is unchanged; the note with the id becomes the note merged with the update |
| `NoteStore.UpdateAbsent` | src/pages/Index.tsx:35-39 | updating an id no note carries returns the identical list |
| `NoteStore.UpdateIdempotent` | src/pages/Index.tsx:35-39 | applying one update twice is applying it once, whatever the update |
| `NoteStore.UpdateKeepsIds` | src/pages/Index.tsx:36-38 | an update without an `id` field leaves every note's id in place |
| `NoteStore.UpdatePreservesUnique` | src/pages/Index.tsx:36-38 | an update without an `id` field keeps ids unique |
| `NoteStore.FavoriteRoundTrip` | src/pages/Index.tsx:35-39 | with unique ids, setting a note's flag to its negation and then back gives the identical list |
| `NoteStore.Matches` | src/pages/Index.tsx:42-43 | the lower-cased query occurs in the lower-cased title or in the lower-cased content; stated through the occurrence spec by `NoteStore.SearchKeepsMatchesInOrder` |
| `NoteStore.MatchesQuery` | src/pages/Index.tsx:41-44 | the predicate passed to `filter`, the same term wherever the search is used |
| `NoteStore.Search` | src/pages/Index.tsx:41-44 | every result note is from the list and matches the query; every matching note of the list is in the result |
| `NoteStore.SearchKeepsMatchesInOrder` | src/pages/Index.tsx:41-44 | the result is the order-preserving subsequence of matching notes, each as often as in the list; a note matches iff the lower-cased query occurs in the lower-cased title or in the lower-cased content |
| `NoteStore.SearchEmptyQuery` | src/pages/Index.tsx:41-44 | the empty query returns the whole list in its order |
| `NoteStore.SearchIgnoresQueryCase` | src/pages/Index.tsx:41-44 | a query and its lower-cased form find the same notes |
| `NoteStore.SearchIdempotent` | src/pages/Index.tsx:41-44 | searching a search result with the same query changes nothing |
| `NoteStore.Apply` | src/pages/Index.tsx:66-67 | a card's request as the page handles it: a delete request is `NoteStore.Delete`, an update request `NoteStore.Update`; ids kept unique by `NoteStore.ApplyPreservesUnique` |
| `NoteStore.ApplyPreservesUnique` | src/pages/Index.tsx:66-67 | every update request without an `id` field, and every delete request, keeps ids unique |
| `NoteStore.AfterDeleteNoOp` | src/pages/Index.tsx:31-39 | after a delete, a further update or delete of the same id leaves the list unchanged |
| `NoteCreator.BestAlternatives` | src/components/NoteCreator.tsx:31-32 | the best alternative of every result, in order |
| `NoteCreator.Transcript` | src/components/NoteCreator.tsx:31-33 | the best alternatives joined by single spaces; stated by `NoteCreator.TranscriptSingle` and `NoteCreator.TranscriptExtends` |
| `NoteCreator.TranscriptExtends` | src/components/NoteCreator.tsx:30-35 | when one more result arrives, the transcript grows by a space and that result's best alternative |
| `NoteCreator.TranscriptSingle` | src/components/NoteCreator.tsx:31-33 | the transcript of one result is its best alternative |
| `NoteCreator.Creator.constructor` | src/components/NoteCreator.tsx:13-17 | a fresh form has empty fields, is not recording, and has both refs `null` |
| `NoteCreator.Creator.EditTitle` | src/components/NoteCreator.tsx:85 | typing replaces the title and changes nothing else; `Valid()` is kept |
| `NoteCreator.Creator.EditContent` | src/components/NoteCreator.tsx:91 | typing replaces the content and changes nothing else; `Valid()` is kept |
| `NoteCreator.Creator.StartRecording` | src/components/NoteCreator.tsx:19-51 | the flag is set only when every step succeeds; each ref holds what its steps assigned before the first throw (after a recognizer failure the recorder ref holds a live microphone; after `RecorderFailed` the live stream is in no ref); `Valid()` is kept; title and content are untouched |
| `NoteCreator.Creator.StopRecording` | src/components/NoteCreator.tsx:53-62 | from any state the flag ends false; whatever the refs hold is stopped; the refs are not cleared; title and content are untouched |
| `NoteCreator.Creator.ToggleRecording` | src/components/NoteCreator.tsx:99 | the button stops when recording and starts otherwise; while recording, both refs hold an object (invariant kept); the recognizer may have ended on its own |
| `NoteCreator.Creator.OnResult` | src/components/NoteCreator.tsx:30-35 | the content becomes the transcript of the results so far, replacing what it held; nothing else changes; `Valid()` is kept |
| `NoteCreator.Creator.RecognitionEnded` | src/components/NoteCreator.tsx:26-37 | the recognizer ending by itself stops only the recognizer: no handler resets the flag, so recording stays set and the microphone stays live |
| `NoteCreator.Creator.Submit` | src/components/NoteCreator.tsx:64-78 | nothing is emitted iff the title or content is blank, and then nothing changes; otherwise the untrimmed title and content are emitted, typed audio iff recording, and both fields are cleared; recording is never stopped; `Valid()` is kept |
| `NoteCreator.DictationReplacesContent` | src/components/NoteCreator.tsx:30-35 | after typed content and two speech events, the content is the latest transcript "hello world"; stopping leaves the form idle and the microphone stopped |
| `NoteCreator.RecognitionEndsWhileRecording` | src/components/NoteCreator.tsx:19-62 | after the recognizer ends during a recording, the form still records with the microphone running; one press of the button then stops it |
| `NoteCard.Card.constructor` | src/components/NoteCard.tsx:27-31 | a mounted card is not editing, not fullscreen, and seeds its drafts from the note's title and content |
| `NoteCard.Card.Receive` | src/components/NoteCard.tsx:26-31 | a re-render with the current version of the same note keeps toggles and drafts |
| `NoteCard.Card.Copy` | src/components/NoteCard.tsx:33-36 | the clipboard text is the note's content; no request is sent and no field changes |
| `NoteCard.Card.Delete` | src/components/NoteCard.tsx:38-41 | the one request sent is the delete of this note's id |
| `NoteCard.Card.Save` | src/components/NoteCard.tsx:43-50 | the one request is an update of this note's id carrying only the two drafts as title and content; edit mode ends |
| `NoteCard.Card.ToggleFavorite` | src/components/NoteCard.tsx:52-56 | the one request is an update of this note's id carrying only the negated favourite flag |
| `NoteCard.Card.UploadImage` | src/components/NoteCard.tsx:58-67 | no file, no request; a file gives one update carrying only the image URL |
| `NoteCard.Card.ToggleEditing` | src/components/NoteCard.tsx:115 | Edit/Cancel flips edit mode only: no request, drafts kept |
| `NoteCard.Card.ToggleFullscreen` | src/components/NoteCard.tsx:125 | flips fullscreen only |
| `NoteCard.Card.EditTitle` | src/components/NoteCard.tsx:91 | typing replaces the title draft only |
| `NoteCard.Card.EditContent` | src/components/NoteCard.tsx:103 | typing replaces the content draft only |
| `Page.SubmitForm` | src/pages/Index.tsx:59 | a blank submit leaves the list as it was; a valid one prepends the new note built from the untrimmed fields, typed by the recording flag; a fresh id keeps ids unique |
| `Page.FavoriteOnce` | src/components/NoteCard.tsx:52-56 | one star press flips that note's flag and changes no other field and no other note |
| `Page.FavoriteTwice` | src/components/NoteCard.tsx:52-56 | two star presses, with the card re-rendered in between, give back the identical list |
| `Page.SaveEdits` | src/components/NoteCard.tsx:43-50 | edit, type and save change exactly that note's title and content |
| `Page.CancelEdits` | src/components/NoteCard.tsx:115-117 | edit, type and cancel leave edit mode with the note shown as it was and the typed drafts kept in the card; no request reaches the list because none of the handlers has a result |
| `Page.DeleteFromCard` | src/components/NoteCard.tsx:38-41 | the trash button removes that note and keeps every other note, in order, with unique ids |
| `Page.UploadFromCard` | src/components/NoteCard.tsx:58-67 | no file leaves the list unchanged; a file changes only that note's image URL and keeps ids unique |
| `Scenarios.CreateSearchDelete` | src/pages/Index.tsx:21-44 | create "Groceries" then "Work": the list is [Work, Groceries]; "report" finds Work, "MILK" finds Groceries; after deleting Groceries the empty search shows Work alone |

## Left out

- Rendering: JSX, the card, dialog, input and button components, icons and the `sonner`
  toasts carry no state the model needs.
- Dialog visibility (`isOpen`, src/components/NoteCard.tsx:27, 71, 84) is presentation state only.
- The 60-second `setTimeout` auto-stop (src/components/NoteCreator.tsx:41-46) is asynchronous
  and not modelled. As written, its callback tests the `isRecording` value captured when
  `startRecording` began, which was false, so it never calls `stopRecording`.
- The browser APIs `getUserMedia`, `MediaRecorder`, `SpeechRecognition`,
  `navigator.clipboard`, `URL.createObjectURL`, `crypto.randomUUID` and `Date` are not
  modelled. Their results are inputs, as listed above. The `MediaRecorder` is constructed
  but never started in the source, so `Creator.recorder` tracks only its microphone
  stream. Streams orphaned when a ref is overwritten are not tracked.
- `NoteCreator.Creator.StartRecording`: after `RecorderFailed`, `getUserMedia` has
  already handed over a live microphone stream, but `new MediaRecorder(stream)` threw
  before any ref held it. The stream stays live with nothing able to stop it; the model
  keeps the recorder ref as it was and does not track that stream.
- `Strings.Lower`: lower-cases ASCII letters only, where `toLowerCase` covers all of
  Unicode. The search properties are stated relative to this lower-casing.
- Strings are sequences of Unicode scalar values, where JavaScript strings are UTF-16 code
  units. For well-formed text `trim`, `includes`, ASCII lower-casing and `join` agree
  between the two views; a lone surrogate, which a text input can hold, cannot be
  represented.
- `NoteCard.Card.Copy`: the asynchronous clipboard write and its possible rejection are not
  modelled.
- React state batching and stale closures: each handler is one atomic step on the latest
  state.
- `Partial<Note>` fields explicitly set to `undefined`: TypeScript admits one for any
  field, and the spread would then write `undefined` into the note. No caller passes one,
  and `Patch` can express it only for `imageUrl` (`Some(None)`, "no image").
- `NoteCreator.Creator.OnResult` does not require a recognizer to be running, since a
  recognizer may still deliver a final result after `stop()`.
- The model follows the code in these places, where a reader might expect otherwise:
  - Validation of blank titles and contents happens only in the form; the page's create
    accepts anything.
  - Submitting while recording does not stop the recording.
  - The drafts are seeded once, when the card mounts, and Cancel does not reset them.
  - `stopRecording` never clears the refs.
  - A recognizer failure after the recorder ref was set leaves the microphone running.
  - A recognizer that ends by itself leaves the form in recording mode.
