/**
 * The provider's operations. Each is one uninterrupted step: the transport call
 * is replaced by its settled outcome, passed in as a parameter. The store keeps
 * the snapshot, the transitions it dispatched, the notifications it raised and
 * the requests it issued, so that contracts can say exactly what each operation did.
 */
module NotesProvider {
  import Js
  import opened Notes
  import Api
  import opened NotesContext

  /** A notification: `toast.success(text)` or `toast.error(message)`. */
  datatype Toast = SuccessToast(text: string) | ErrorToast(message: Js.Value)

  /** How an async operation settles: its promise resolves, or it re-throws. */
  datatype Completion<T> = Returned(value: T) | Threw(error: Api.Thrown)

  const LoadNotesFailed: string := "Failed to load notes"
  const CreateNoteFailed: string := "Failed to create note"
  const UpdateNoteFailed: string := "Failed to update note"
  const DeleteNoteFailed: string := "Failed to delete note"
  const LoadNoteFailed: string := "Failed to load note"
  const LoadSharedNoteFailed: string := "Failed to load shared note"

  const NoteCreated: string := "Note created successfully!"
  const NoteUpdated: string := "Note updated successfully!"
  const NoteDeleted: string := "Note deleted successfully!"

  /**
   * `getErrorMessage(error) || fallback`: the message a failed operation stores and
   * shows. It is never falsy, and it is a non-empty string whenever the normaliser
   * produced a string; the fallback is used exactly when the normaliser gave `''`.
   */
  function StoredMessage(e: Api.Thrown, fallback: string): (m: Js.Value)
    requires fallback != ""
    ensures Js.Truthy(m)
    ensures Api.GetErrorMessage(e).Str? ==> m.Str? && m.s != ""
    ensures m == Js.Str(fallback) <==> Api.GetErrorMessage(e) == Js.Str("") || Api.GetErrorMessage(e) == Js.Str(fallback)
    ensures m != Js.Str(fallback) ==> m == Api.GetErrorMessage(e)
  {
    Js.Or(Api.GetErrorMessage(e), Js.Str(fallback))
  }

  class NotesStore {
    var state: Snapshot
    var dispatched: seq<Action>
    var toasts: seq<Toast>
    var requests: seq<Api.Request>

    /** The snapshot is only ever what the reducer made of the dispatched transitions. */
    ghost predicate Valid()
      reads this
    {
      state == ReduceAll(Initial, dispatched)
    }

    /**
     * As long as the server hands out fresh ids, every reachable store keeps its
     * notes' canonical ids unique.
     */
    lemma UniqueIdsInvariant()
      requires Valid() && AdmissibleLog(Initial, dispatched)
      ensures UniqueIds(state.notes)
    {
      ReduceAllKeepsUniqueIds(Initial, dispatched);
    }

    /** A store at session start holds `initialState`. */
    constructor ()
      ensures Valid()
      ensures state == Initial && dispatched == [] && toasts == [] && requests == []
    {
      state := Initial;
      dispatched := [];
      toasts := [];
      requests := [];
    }

    /** `dispatch(action)`. */
    method Dispatch(a: Action)
      requires Valid()
      modifies this
      ensures Valid()
      ensures state == Reduce(old(state), a)
      ensures dispatched == old(dispatched) + [a]
      ensures toasts == old(toasts) && requests == old(requests)
    {
      ReduceAllSnoc(Initial, dispatched, a);
      state := Reduce(state, a);
      dispatched := dispatched + [a];
    }

    /** Issuing the request of one `notesAPI` method. */
    method Send(e: Api.Endpoint)
      modifies this`requests
      ensures requests == old(requests) + [Api.RequestFor(e)]
    {
      requests := requests + [Api.RequestFor(e)];
    }

    /** The shared `catch` block: store and show the message. */
    method Fail(e: Api.Thrown, fallback: string)
      requires Valid() && fallback != ""
      modifies this
      ensures Valid()
      ensures state == old(state).(error := StoredMessage(e, fallback), loading := false)
      ensures dispatched == old(dispatched) + [SetError(StoredMessage(e, fallback))]
      ensures toasts == old(toasts) + [ErrorToast(StoredMessage(e, fallback))]
      ensures requests == old(requests)
    {
      var msg := StoredMessage(e, fallback);
      Dispatch(SetError(msg));
      toasts := toasts + [ErrorToast(msg)];
    }

    /** `loadNotes()`: a failure is recorded and shown but never re-thrown;
        the notes already held survive it. */
    method LoadNotes(res: Api.Outcome<seq<Note>>) returns (c: Completion<()>)
      requires Valid()
      modifies this
      ensures Valid()
      ensures c == Returned(())
      ensures requests == old(requests) + [Api.RequestFor(Api.GetAllNotes)]
      ensures !state.loading
      ensures res.Ok? ==>
        && dispatched == old(dispatched) + [SetLoading(true), SetNotes(res.data)]
        && toasts == old(toasts)
        && state == old(state).(notes := res.data, loading := false, error := Js.Null)
      ensures res.Err? ==>
        && dispatched == old(dispatched) + [SetLoading(true), SetError(StoredMessage(res.error, LoadNotesFailed))]
        && toasts == old(toasts) + [ErrorToast(StoredMessage(res.error, LoadNotesFailed))]
        && state == old(state).(loading := false, error := StoredMessage(res.error, LoadNotesFailed))
    {
      Dispatch(SetLoading(true));
      Send(Api.GetAllNotes);
      match res {
        case Ok(list) =>
          Dispatch(SetNotes(list));
        case Err(e) =>
          Fail(e, LoadNotesFailed);
      }
      c := Returned(());
    }

    /** `createNote(data)`: the created note goes in front; a failure is re-thrown. */
    method CreateNote(data: NoteData, res: Api.Outcome<Note>) returns (c: Completion<Note>)
      requires Valid()
      modifies this
      ensures Valid()
      ensures requests == old(requests) + [Api.RequestFor(Api.CreateNote(data))]
      ensures !state.loading
      ensures res.Ok? ==>
        && c == Returned(res.data)
        && dispatched == old(dispatched) + [SetLoading(true), AddNote(res.data)]
        && toasts == old(toasts) + [SuccessToast(NoteCreated)]
        && state == old(state).(notes := [res.data] + old(state).notes, loading := false, error := Js.Null)
      ensures res.Err? ==>
        && c == Threw(res.error)
        && dispatched == old(dispatched) + [SetLoading(true), SetError(StoredMessage(res.error, CreateNoteFailed))]
        && toasts == old(toasts) + [ErrorToast(StoredMessage(res.error, CreateNoteFailed))]
        && state == old(state).(loading := false, error := StoredMessage(res.error, CreateNoteFailed))
    {
      Dispatch(SetLoading(true));
      Send(Api.CreateNote(data));
      match res
      case Ok(note) =>
        Dispatch(AddNote(note));
        toasts := toasts + [SuccessToast(NoteCreated)];
        c := Returned(note);
      case Err(e) =>
        Fail(e, CreateNoteFailed);
        c := Threw(e);
    }

    /** `updateNote(id, data)`: the note the server returns replaces every note with its id. */
    method UpdateNote(id: Id, data: NoteData, res: Api.Outcome<Note>) returns (c: Completion<Note>)
      requires Valid()
      modifies this
      ensures Valid()
      ensures requests == old(requests) + [Api.RequestFor(Api.UpdateNote(id, data))]
      ensures !state.loading
      ensures res.Ok? ==>
        && c == Returned(res.data)
        && dispatched == old(dispatched) + [SetLoading(true), NotesContext.UpdateNote(res.data)]
        && toasts == old(toasts) + [SuccessToast(NoteUpdated)]
        && state == old(state).(notes := Replace(old(state).notes, res.data), loading := false, error := Js.Null)
      ensures res.Err? ==>
        && c == Threw(res.error)
        && dispatched == old(dispatched) + [SetLoading(true), SetError(StoredMessage(res.error, UpdateNoteFailed))]
        && toasts == old(toasts) + [ErrorToast(StoredMessage(res.error, UpdateNoteFailed))]
        && state == old(state).(loading := false, error := StoredMessage(res.error, UpdateNoteFailed))
    {
      Dispatch(SetLoading(true));
      Send(Api.UpdateNote(id, data));
      match res
      case Ok(note) =>
        Dispatch(NotesContext.UpdateNote(note));
        toasts := toasts + [SuccessToast(NoteUpdated)];
        c := Returned(note);
      case Err(e) =>
        Fail(e, UpdateNoteFailed);
        c := Threw(e);
    }

    /** `deleteNote(id)`: on success the id is removed, and so is a matching selection. */
    method DeleteNote(id: Id, res: Api.Outcome<()>) returns (c: Completion<()>)
      requires Valid()
      modifies this
      ensures Valid()
      ensures requests == old(requests) + [Api.RequestFor(Api.DeleteNote(id))]
      ensures !state.loading
      ensures res.Ok? ==>
        && c == Returned(())
        && dispatched == old(dispatched) + [SetLoading(true), NotesContext.DeleteNote(id)]
        && toasts == old(toasts) + [SuccessToast(NoteDeleted)]
        && state.notes == Remove(old(state).notes, id)
        && state.selectedNote ==
           (if old(state).selectedNote.Some? && SameId(old(state).selectedNote.value.id, id) then Js.None
            else old(state).selectedNote)
        && state.error == Js.Null
      ensures res.Err? ==>
        && c == Threw(res.error)
        && dispatched == old(dispatched) + [SetLoading(true), SetError(StoredMessage(res.error, DeleteNoteFailed))]
        && toasts == old(toasts) + [ErrorToast(StoredMessage(res.error, DeleteNoteFailed))]
        && state == old(state).(loading := false, error := StoredMessage(res.error, DeleteNoteFailed))
    {
      Dispatch(SetLoading(true));
      Send(Api.DeleteNote(id));
      match res
      case Ok(_) =>
        DeleteNoteSelection(state, id);
        Dispatch(NotesContext.DeleteNote(id));
        toasts := toasts + [SuccessToast(NoteDeleted)];
        c := Returned(());
      case Err(e) =>
        Fail(e, DeleteNoteFailed);
        c := Threw(e);
    }

    /** `getNoteById(id)`: never raises `loading`; a success selects the fetched note
        and leaves every other field as it was. */
    method GetNoteById(id: Id, res: Api.Outcome<Note>) returns (c: Completion<Note>)
      requires Valid()
      modifies this
      ensures Valid()
      ensures requests == old(requests) + [Api.RequestFor(Api.GetNoteById(id))]
      ensures res.Ok? ==>
        && c == Returned(res.data)
        && dispatched == old(dispatched) + [SetSelectedNote(Js.Some(res.data))]
        && toasts == old(toasts)
        && state == old(state).(selectedNote := Js.Some(res.data))
      ensures res.Err? ==>
        && c == Threw(res.error)
        && dispatched == old(dispatched) + [SetError(StoredMessage(res.error, LoadNoteFailed))]
        && toasts == old(toasts) + [ErrorToast(StoredMessage(res.error, LoadNoteFailed))]
        && state == old(state).(loading := false, error := StoredMessage(res.error, LoadNoteFailed))
      ensures SetLoading(true) !in dispatched[|old(dispatched)|..]
    {
      Send(Api.GetNoteById(id));
      match res
      case Ok(note) =>
        Dispatch(SetSelectedNote(Js.Some(note)));
        c := Returned(note);
      case Err(e) =>
        Fail(e, LoadNoteFailed);
        c := Threw(e);
    }

    /** `getSharedNote(id)`: a success returns the note and dispatches nothing. */
    method GetSharedNote(id: Id, res: Api.Outcome<Note>) returns (c: Completion<Note>)
      requires Valid()
      modifies this
      ensures Valid()
      ensures requests == old(requests) + [Api.RequestFor(Api.GetSharedNote(id))]
      ensures res.Ok? ==>
        && c == Returned(res.data)
        && dispatched == old(dispatched)
        && toasts == old(toasts)
        && state == old(state)
      ensures res.Err? ==>
        && c == Threw(res.error)
        && dispatched == old(dispatched) + [SetError(StoredMessage(res.error, LoadSharedNoteFailed))]
        && toasts == old(toasts) + [ErrorToast(StoredMessage(res.error, LoadSharedNoteFailed))]
        && state == old(state).(loading := false, error := StoredMessage(res.error, LoadSharedNoteFailed))
    {
      Send(Api.GetSharedNote(id));
      match res
      case Ok(note) =>
        c := Returned(note);
      case Err(e) =>
        Fail(e, LoadSharedNoteFailed);
        c := Threw(e);
    }

    /** `clearError()`: synchronous, no request, only `error` changes. */
    method ClearError()
      requires Valid()
      modifies this
      ensures Valid()
      ensures dispatched == old(dispatched) + [NotesContext.ClearError]
      ensures toasts == old(toasts) && requests == old(requests)
      ensures state == old(state).(error := Js.Null)
    {
      Dispatch(NotesContext.ClearError);
    }
  }

  /** The two notes of `SessionScenario`, as the server returns them. */
  const FirstNote := Note(NumId(1), "A", "", "T0", "T0")
  const SecondNote := Note(NumId(2), "B", "x", "T1", "T1")

  /**
   * A session: the mount-time load, a create, an update the server rejects with
   * "Note not found", opening note 1 and deleting it.
   */
  method SessionScenario() returns (loaded: Snapshot, created: Snapshot, failed: Snapshot, deleted: Snapshot, rethrown: bool, shown: seq<Toast>)
    ensures loaded == Snapshot([FirstNote], false, Js.Null, Js.None)
    ensures created.notes == [SecondNote, FirstNote]
    ensures failed == created.(error := Js.Str("Note not found"))
    ensures rethrown
    ensures deleted == Snapshot([SecondNote], false, Js.Null, Js.None)
    ensures shown == [SuccessToast(NoteCreated), ErrorToast(Js.Str("Note not found")), SuccessToast(NoteDeleted)]
  {
    var notFound := Api.ErrorObject(Js.Some(Api.ErrorResponse(Js.Some(Api.ErrorBody(Js.Str("Note not found"))))),
                                    Js.Str("Request failed with status code 404"), Js.Undefined);
    var store := new NotesStore();

    var _ := store.LoadNotes(Api.Ok([FirstNote]));
    loaded := store.state;

    var _ := store.CreateNote(NoteData("B", "x"), Api.Ok(SecondNote));
    created := store.state;

    var c := store.UpdateNote(NumId(1), NoteData("A2", ""), Api.Err(Api.Raised(notFound)));
    failed := store.state;
    rethrown := c.Threw?;

    OpenAndDeleteFirst(store);
    deleted := store.state;
    shown := store.toasts;
  }

  /** The last two steps of `SessionScenario`: open note 1 by its route text, then delete it. */
  method OpenAndDeleteFirst(store: NotesStore)
    requires store.Valid() && store.state.notes == [SecondNote, FirstNote] && !store.state.loading
    modifies store
    ensures store.state == Snapshot([SecondNote], false, Js.Null, Js.None)
    ensures store.toasts == old(store.toasts) + [SuccessToast(NoteDeleted)]
  {
    var _ := store.GetNoteById(StrId("1"), Api.Ok(FirstNote));
    assert store.state.selectedNote == Js.Some(FirstNote);
    assert !SameId(SecondNote.id, NumId(1)) by {
      NumIdsMatchIffEqual(2, 1);
    }
    RemoveSingleton(SecondNote, NumId(1));
    RemoveSingleton(FirstNote, NumId(1));
    RemoveAppend([SecondNote], [FirstNote], NumId(1));
    assert [SecondNote, FirstNote] == [SecondNote] + [FirstNote];
    var _ := store.DeleteNote(NumId(1), Api.Ok(()));
  }
}
