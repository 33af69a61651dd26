# Notes client store — a Dafny model

This project models the synchronisation core of a single-page notes client. It covers:

- the notes store's reducer: a snapshot of `notes`, `loading`, `error` and `selectedNote`, changed only through eight named transitions;
- the provider operations that call the REST API and dispatch transitions on the result (`loadNotes`, `createNote`, `updateNote`, `deleteNote`, `getNoteById`, `getSharedNote`, `clearError`);
- the transport client's error normaliser `getErrorMessage`, its response interceptor, its endpoint table and its configuration constants.

Files and modules:

- `js.dfy` (`Js`): the JavaScript semantics the client relies on. This covers truthiness, `a || b`, `String(v)` for the value kinds used, and nullable properties (`Option`). `String()` of an integer is decimal notation, and the model proves that notation injective.
- `notes.dfy` (`Notes`): the note entity and its id. An id is `NumId(int)` or `StrId(string)`. Every comparison goes through `Canon(id)`, which is `String(id)`.
- `api.dfy` (`Api`): the error shape, `GetErrorMessage`, the interceptor (`Annotate`, `Settle`), the endpoint table (`RequestFor`) and the configuration (`DefaultBaseUrl`, `TimeoutMs` = 15000, `ContentType`, `BaseUrl`).
- `notes_context.dfy` (`NotesContext`): the snapshot, `Initial` (`initialState`, src/context/NotesContext.jsx:8, a constant: the `NotesStore` constructor row states its value), the actions, the reducer `Reduce` and its fold `ReduceAll`, plus the lemmas about them.
- `notes_provider.dfy` (`NotesProvider`): the class `NotesStore`.
  - Its fields are the snapshot and three logs: the dispatched transitions, the notifications (toasts) raised and the requests issued.
  - Its invariant `Valid()` says the snapshot is always the reducer's fold of the dispatched transitions, starting from `initialState`.
  - Each operation is a method that takes the settled transport outcome as a parameter. It returns a `Completion`: either `Returned(value)` or `Threw(error)`, the latter meaning the promise rejects with that error.

Behaviour of the code worth knowing, which the model follows:

- **`getErrorMessage` can return a value that is not a non-empty string.** It returns `''` for an error whose own `message` is `''`. It also passes a truthy non-string `response.data.message` (a number, an object) back unchanged. So `GetErrorMessage` returns a `Js.Value`, and the store's `error` field holds one too. The `|| fallback` in each operation (`StoredMessage`) is what guarantees a truthy stored message.
- **`getNoteById` and `getSharedNote` never dispatch `SET_LOADING`.** On success they leave `loading` as it was. On failure they reset it to `false` through `SET_ERROR`.
- **`DELETE_NOTE` and `UPDATE_NOTE` act on every note whose canonical id matches**, not on just one. They are a `filter` and a `map`.
- **Deleting with an absent selection compares against `"undefined"`.** The selection test is `String(selectedNote?.id) === String(id)`, so with no selection the left side is `String(undefined)`, which is `"undefined"`. `DeleteNoteSelection` proves this equals the plain rule: the selection is cleared exactly when it is present and its id matches.
- **The reducer has eight named transitions and a default branch**, modelled as `Unrecognised`, that returns the state unchanged.

## Model

| member | source | states |
|---|---|---|
| `Js.Or` | src/context/NotesContext.jsx:35 | JavaScript's logical or yields one of its two operands; a truthy left operand is the result, otherwise the right operand is; the result is truthy iff either operand is |
| `Notes.Canon` | src/context/NotesContext.jsx:16-17 | `String(id)`: a numeric id reads as its decimal form `IntToString(n)`, a non-empty numeral of digits after an optional leading `-`; a textual id is itself; only the textual id `"undefined"` reads as `"undefined"` |
| `Notes.NumMatchesStr` | src/context/NotesContext.jsx:16-17 | a numeric id and a textual id match exactly when the text is the number's `String()` form |
| `Notes.NumIdsMatchIffEqual` | src/context/NotesContext.jsx:16-17 | comparing by `String(id)` never merges two different numeric ids: they match iff the numbers are equal |
| `Notes.FortyTwoMatches` | src/context/NotesContext.jsx:17 | id `42` matches `"42"` and does not match `"042"` |
| `Api.BaseUrl` | src/services/api.js:3 | the base URL is never empty; a non-empty environment value wins; a missing or empty one gives `http://localhost:8080/api` |
| `Api.DataMessage` | src/services/api.js:7 | `error.response?.data?.message` is `undefined` when the response or its body is missing; with both present it is the server's message, whatever value it is |
| `Api.GetErrorMessage` | src/services/api.js:5-10 | total; the result is a string unless it is the truthy `response.data.message` passed through; it is falsy only as `''` |
| `Api.GetErrorMessagePriority` | src/services/api.js:6-9 | first applicable branch wins: missing error → `Unexpected error`; truthy `response.data.message`; string `message`; generic fallback |
| `Api.EmptyMessageNormalisesToEmpty` | src/services/api.js:8 | an error whose `message` is `''` (and no server message) yields the falsy `''` |
| `Api.NonStringServerMessagePassesThrough` | src/services/api.js:7 | a truthy non-string server message (404) is returned as is, not as a string |
| `Api.NotFoundMessageWins` | src/services/api.js:7 | a server body `{message: "Note not found"}` gives exactly that text, whatever the error's own message |
| `Api.Annotate` | src/services/api.js:22 | the interceptor's write sets `normalizedMessage` to the normalised message and keeps `response` and `message` |
| `Api.Settle` | src/services/api.js:18-25 | successes pass through unchanged; every failure is re-rejected as the annotated error object |
| `Api.AnnotateIsStable` | src/services/api.js:22 | annotating does not change what the normaliser computes, and annotating twice equals annotating once |
| `Api.SettledFailureCarriesNormalisedMessage` | src/services/api.js:20-24 | after the interceptor, a rejection's `normalizedMessage` equals `getErrorMessage` of the rejection itself |
| `Api.RequestFor` | src/services/api.js:27-56 | every path starts with `/notes`; only create and update send a body; exactly the three readers use GET |
| `Api.EndpointTable` | src/services/api.js:28-55 | the seven (method, path, body) entries: GET `/notes`, GET `/notes/`+id, GET `/notes/share/`+id, POST `/notes`, PUT and DELETE `/notes/`+id, POST `/notes/`+id+`/share` |
| `Api.SharePathsOfOneId` | src/services/api.js:32-54 | for one id, the share-read path differs from the fetch path, and the fetch path is a proper prefix of the share-mint path |
| `Api.RoutesDistinguishEndpoints` | src/services/api.js:28-55 | for ids without `/`, equal method and path imply the same `notesAPI` method on the same canonical id |
| `Api.NumericIdsAreSlashFree` | src/services/api.js:33-37 | the canonical form of a numeric id never contains `/`, so the routing result above covers every numeric id |
| `Api.SlashedIdReachesShareRoute` | src/services/api.js:33-37 | ids are interpolated unescaped: `getNoteById("share/7")` issues the same request as `getSharedNote("7")` |
| `NotesContext.Replace` | src/context/NotesContext.jsx:16 | the `map` keeps the length; each position holds the payload or the note that was there |
| `NotesContext.Remove` | src/context/NotesContext.jsx:17 | the `filter` never lengthens the list, and no surviving note's canonical id matches the payload |
| `NotesContext.SelectionKey` | src/context/NotesContext.jsx:17 | with a selection, the key equals `String(id)` exactly when the selected note's id matches `id`; with none it is `"undefined"`, which only the textual id `"undefined"` produces |
| `NotesContext.Reduce` | src/context/NotesContext.jsx:10-22 | only SET_NOTES can grow `notes` by more than one; `loading` changes only through SET_LOADING or is cleared by a settling transition; `selectedNote` changes only through SET_SELECTED_NOTE or is cleared by DELETE_NOTE |
| `NotesContext.ReduceAll` | src/context/NotesContext.jsx:10-25 | the store's fold over dispatched actions: a sequence none of whose actions writes `notes` (or `selectedNote`) leaves that field unchanged |
| `NotesContext.ReduceAllSnoc` | src/context/NotesContext.jsx:10-22 | folding one more dispatched action is applying the reducer once more to the folded snapshot |
| `NotesContext.ReduceFrame` | src/context/NotesContext.jsx:10-22 | nothing outside an action's write set changes (SET_LOADING: loading; SET_ERROR: error, loading; …; CLEAR_ERROR: error; default: nothing) |
| `NotesContext.SettlingResetsStatus` | src/context/NotesContext.jsx:13-17 | the five transitions SET_ERROR, SET_NOTES, ADD_NOTE, UPDATE_NOTE and DELETE_NOTE set `loading` false; all but SET_ERROR clear `error`, SET_ERROR stores its payload. SET_SELECTED_NOTE, which `getNoteById` dispatches on success, is not among them and leaves `loading` as it is |
| `NotesContext.NarrowTransitions` | src/context/NotesContext.jsx:12-20 | SET_LOADING, SET_SELECTED_NOTE, CLEAR_ERROR change one field each; SET_ERROR changes `error` and forces `loading` false; the default branch changes nothing |
| `NotesContext.SetNotesReplaces` | src/context/NotesContext.jsx:14 | SET_NOTES replaces `notes` by the payload whatever was there before (no merge), clears `error`, sets `loading` false |
| `NotesContext.AddNotePrepends` | src/context/NotesContext.jsx:15 | ADD_NOTE puts the note at index 0, the old list follows unchanged, length grows by one, the selection is kept |
| `NotesContext.UpdateNoteInPlace` | src/context/NotesContext.jsx:16 | UPDATE_NOTE keeps length and positions; matching notes become the payload, others are unchanged; no match leaves `notes` unchanged |
| `NotesContext.UpdateKeepsIdsInPlace` | src/context/NotesContext.jsx:16 | after UPDATE_NOTE every position holds a note with the same canonical id as before |
| `NotesContext.RemoveSubset` | src/context/NotesContext.jsx:17 | the filtered list is no longer and holds only notes of the original whose id does not match |
| `NotesContext.RemoveSingleton` | src/context/NotesContext.jsx:17 | on a single note, the filter keeps it exactly when its canonical id differs |
| `NotesContext.RemoveAppend` | src/context/NotesContext.jsx:17 | the filter distributes over concatenation, so the survivors keep their relative order |
| `NotesContext.RemoveCounts` | src/context/NotesContext.jsx:17 | the filter removes every matching note and keeps each other note with its multiplicity |
| `NotesContext.RemoveIdempotent` | src/context/NotesContext.jsx:17 | filtering twice by the same id equals filtering once |
| `NotesContext.DeleteNoteRemovesMatches` | src/context/NotesContext.jsx:17 | after DELETE_NOTE a note is present iff it was present and its canonical id differs; multiplicities as above |
| `NotesContext.DeleteNoteSelection` | src/context/NotesContext.jsx:17 | DELETE_NOTE clears `selectedNote` iff the selected note's canonical id equals the payload, else leaves it untouched |
| `NotesContext.DeleteNoteIdempotent` | src/context/NotesContext.jsx:17 | applying DELETE_NOTE twice with one id gives the same snapshot as once |
| `NotesContext.DeleteNumericByText` | src/context/NotesContext.jsx:17 | a note with numeric id 42 is removed, and deselected, by payload `"42"` |
| `NotesContext.RemoveKeepsUniqueIds` | src/context/NotesContext.jsx:17 | filtering a list with unique canonical ids leaves them unique |
| `NotesContext.ReduceKeepsUniqueIds` | src/context/NotesContext.jsx:14-17 | one transition keeps canonical ids unique, provided an added id is fresh and a loaded list is duplicate-free |
| `NotesContext.ReduceAllKeepsUniqueIds` | src/context/NotesContext.jsx:10-22 | any sequence of such admissible transitions keeps canonical ids unique |
| `NotesContext.DuplicateAddBreaksUniqueness` | src/context/NotesContext.jsx:15 | ADD_NOTE does not check freshness: in any snapshot, adding a note whose canonical id is already present leaves two notes with matching ids |
| `NotesProvider.StoredMessage` | src/context/NotesContext.jsx:35 | the normalised message, or the fallback when that is falsy, is truthy, a non-empty string when the normaliser gave a string, and the fallback exactly when the normaliser gave `''` (or the fallback text itself) |
| `NotesProvider.NotesStore.constructor` | src/context/NotesContext.jsx:8 | a new store holds `initialState` and has dispatched, shown and sent nothing |
| `NotesProvider.NotesStore.UniqueIdsInvariant` | src/context/NotesContext.jsx:25 | in a valid store whose dispatched transitions were all admissible (fresh added ids, duplicate-free loaded lists), the notes' canonical ids are unique |
| `NotesProvider.NotesStore.Dispatch` | src/context/NotesContext.jsx:25 | `dispatch` applies the reducer and logs the action; the snapshot stays the fold of the log |
| `NotesProvider.NotesStore.Send` | src/services/api.js:27-56 | a `notesAPI` call issues exactly the request of the endpoint table |
| `NotesProvider.NotesStore.Fail` | src/context/NotesContext.jsx:34-37 | the catch block dispatches SET_ERROR with the stored message and raises one error notification with it |
| `NotesProvider.NotesStore.LoadNotes` | src/context/NotesContext.jsx:29-39 | sets loading, issues GET `/notes`; success is SET_NOTES; failure keeps `notes`, stores the normalised message or, when that is falsy, `Failed to load notes`, notifies, and does not re-throw |
| `NotesProvider.NotesStore.CreateNote` | src/context/NotesContext.jsx:41-54 | sets loading, issues POST `/notes`; success prepends the note, notifies success, returns it; failure is SET_ERROR, an error notification and a re-throw, `notes` unchanged |
| `NotesProvider.NotesStore.UpdateNote` | src/context/NotesContext.jsx:56-69 | sets loading, issues PUT `/notes/`+id; success replaces in place by the returned note's id; failure as for create, with its own fallback |
| `NotesProvider.NotesStore.DeleteNote` | src/context/NotesContext.jsx:71-83 | sets loading, issues DELETE `/notes/`+id; success removes the id and a matching selection; failure as for create |
| `NotesProvider.NotesStore.GetNoteById` | src/context/NotesContext.jsx:85-96 | never dispatches SET_LOADING; success only sets `selectedNote` and returns the note; failure as for create |
| `NotesProvider.NotesStore.GetSharedNote` | src/context/NotesContext.jsx:98-108 | never dispatches SET_LOADING; success changes nothing in the store and returns the note; failure as for create |
| `NotesProvider.NotesStore.ClearError` | src/context/NotesContext.jsx:110 | sends no request and changes only `error`, to null |
| `NotesProvider.SessionScenario` | src/context/NotesContext.jsx:27-96 | load, create, a rejected update ("Note not found", re-thrown, `notes` unchanged), open and delete note 1: the selection is cleared with the note |

## Left out

- Rendering, hooks, context plumbing, `useMemo`, routing and lazy loading are left out: they are presentation. This includes the `useNotes` guard (src/context/NotesContext.jsx:126-130). The mount effect that calls `loadNotes` once (line 27) is shown only as the first step of `SessionScenario`.
- The HTTP library and the network are left out. Each operation receives the settled outcome as a parameter. The `timeout` and `Content-Type` settings are constants with no modelled effect.
- The environment lookup for the base URL is left out: `BaseUrl` takes the environment value as a parameter.
- Asynchrony is left out. Each operation runs as one uninterrupted step, so the race in which the last operation to settle wins `loading` and `error` is not modelled.
- Toast rendering is left out; notifications are only a log of `(kind, message)` values. `console.error` calls in the callers are left out too.
- `Js.IntToString`: numbers are integers. Three things are not modelled: JavaScript's exponent notation for magnitudes of 10^21 and above; the loss of digits for integers beyond 2^53, which print as the shortest decimal that round-trips as a double (`String(2**69)` is "590295810358705700000"); and non-integer numbers.
- Ids are numbers or strings only. Other JSON values as ids are not modelled.
- `Api.Settle`: the interceptor is modelled on error objects only. The HTTP library always rejects with an object. A falsy rejection value would make the handler itself throw, and that case is not modelled.
- The editor's "title or content non-blank" check, the card preview, clipboard access and share-URL building are left out. They live in the presentation components.
- `shareNote` is modelled as an endpoint only. No provider operation calls it.
