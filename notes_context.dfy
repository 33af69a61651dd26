/**
 * The notes store: its snapshot, its initial value and the reducer, a closed set
 * of pure transitions. Every id comparison goes through `Notes.SameId`.
 */
module NotesContext {
  import Js
  import opened Notes

  /**
   * `{ notes, loading, error, selectedNote }`. `error` is `Js.Null` when there is
   * none; it holds whatever message was dispatched (a string in practice).
   */
  datatype Snapshot = Snapshot(notes: seq<Note>, loading: bool, error: Js.Value, selectedNote: Js.Option<Note>)

  /** `initialState`. */
  const Initial: Snapshot := Snapshot([], false, Js.Null, Js.None)

  /** The action types of the reducer; `Unrecognised` stands for any other `type`. */
  datatype Action =
    | SetLoading(flag: bool)
    | SetError(message: Js.Value)
    | SetNotes(list: seq<Note>)
    | AddNote(added: Note)
    | UpdateNote(updated: Note)
    | DeleteNote(removed: Id)
    | SetSelectedNote(selection: Js.Option<Note>)
    | ClearError
    | Unrecognised

  /** `notes.map(n => String(n.id) === String(u.id) ? u : n)`. */
  function Replace(notes: seq<Note>, u: Note): (r: seq<Note>)
    ensures |r| == |notes|
    ensures forall i :: 0 <= i < |notes| ==> r[i] == u || r[i] == notes[i]
  {
    seq(|notes|, i requires 0 <= i < |notes| => if SameId(notes[i].id, u.id) then u else notes[i])
  }

  /** `notes.filter(n => String(n.id) !== String(id))`. */
  function Remove(notes: seq<Note>, id: Id): (r: seq<Note>)
    ensures |r| <= |notes|
    ensures forall k :: 0 <= k < |r| ==> !SameId(r[k].id, id)
    decreases |notes|
  {
    if notes == [] then []
    else (if SameId(notes[0].id, id) then [] else [notes[0]]) + Remove(notes[1..], id)
  }

  /** `String(selectedNote?.id)`: an absent selection reads as `"undefined"`. */
  function SelectionKey(selected: Js.Option<Note>): (r: string)
    ensures selected.Some? ==> forall id :: r == Canon(id) <==> SameId(selected.value.id, id)
    ensures selected.None? ==> forall id :: r == Canon(id) <==> id == StrId("undefined")
  {
    match selected
    case None => Js.ToString(Js.Undefined)
    case Some(n) => Canon(n.id)
  }

  /**
   * `notesReducer(state, action)`. Only a server list can grow `notes` by more
   * than one; `loading` changes only through `SetLoading` or is cleared by a
   * settling action; the selection changes only through `SetSelectedNote` or is
   * cleared by a delete.
   */
  function Reduce(s: Snapshot, a: Action): (r: Snapshot)
    ensures |r.notes| <= |s.notes| + 1 || a.SetNotes?
    ensures r.loading == s.loading || a.SetLoading? || (Settles(a) && !r.loading)
    ensures r.selectedNote == s.selectedNote || a.SetSelectedNote? || (a.DeleteNote? && r.selectedNote.None?)
  {
    match a
    case SetLoading(flag) => s.(loading := flag)
    case SetError(m) => s.(error := m, loading := false)
    case SetNotes(list) => s.(notes := list, loading := false, error := Js.Null)
    case AddNote(n) => s.(notes := [n] + s.notes, loading := false, error := Js.Null)
    case UpdateNote(u) => s.(notes := Replace(s.notes, u), loading := false, error := Js.Null)
    case DeleteNote(id) =>
      s.(notes := Remove(s.notes, id),
         selectedNote := if SelectionKey(s.selectedNote) == Canon(id) then Js.None else s.selectedNote,
         loading := false, error := Js.Null)
    case SetSelectedNote(sel) => s.(selectedNote := sel)
    case ClearError => s.(error := Js.Null)
    case Unrecognised => s
  }

  /**
   * The snapshot after dispatching `log` in order, starting from `s`. A log none
   * of whose actions writes the list (or the selection) leaves it as it was.
   */
  function ReduceAll(s: Snapshot, log: seq<Action>): (r: Snapshot)
    ensures (forall k :: 0 <= k < |log| ==> NotesField !in Writes(log[k])) ==> r.notes == s.notes
    ensures (forall k :: 0 <= k < |log| ==> SelectedField !in Writes(log[k])) ==> r.selectedNote == s.selectedNote
    decreases |log|
  {
    if log == [] then s else Reduce(ReduceAll(s, log[..|log| - 1]), log[|log| - 1])
  }

  lemma ReduceAllSnoc(s: Snapshot, log: seq<Action>, a: Action)
    ensures ReduceAll(s, log + [a]) == Reduce(ReduceAll(s, log), a)
  {
    assert (log + [a])[..|log|] == log;
  }

  // ---------------------------------------------------------------- which fields change

  datatype Field = NotesField | LoadingField | ErrorField | SelectedField

  /** The fields each action may write. */
  function Writes(a: Action): set<Field> {
    match a
    case SetLoading(_) => {LoadingField}
    case SetError(_) => {ErrorField, LoadingField}
    case SetNotes(_) => {NotesField, LoadingField, ErrorField}
    case AddNote(_) => {NotesField, LoadingField, ErrorField}
    case UpdateNote(_) => {NotesField, LoadingField, ErrorField}
    case DeleteNote(_) => {NotesField, SelectedField, LoadingField, ErrorField}
    case SetSelectedNote(_) => {SelectedField}
    case ClearError => {ErrorField}
    case Unrecognised => {}
  }

  /** Nothing outside an action's write set changes. */
  lemma ReduceFrame(s: Snapshot, a: Action)
    ensures NotesField !in Writes(a) ==> Reduce(s, a).notes == s.notes
    ensures LoadingField !in Writes(a) ==> Reduce(s, a).loading == s.loading
    ensures ErrorField !in Writes(a) ==> Reduce(s, a).error == s.error
    ensures SelectedField !in Writes(a) ==> Reduce(s, a).selectedNote == s.selectedNote
  {
  }

  /**
   * The five transitions that end a request's loading window (SET_ERROR,
   * SET_NOTES, ADD_NOTE, UPDATE_NOTE, DELETE_NOTE). `SetSelectedNote`, which
   * `getNoteById` dispatches after its request settles, is not one of them: it
   * leaves `loading` as it is.
   */
  predicate Settles(a: Action) {
    a.SetError? || a.SetNotes? || a.AddNote? || a.UpdateNote? || a.DeleteNote?
  }

  /** Settling actions end the loading window; all but `SetError` also clear the error. */
  lemma SettlingResetsStatus(s: Snapshot, a: Action)
    requires Settles(a)
    ensures !Reduce(s, a).loading
    ensures !a.SetError? ==> Reduce(s, a).error == Js.Null
    ensures a.SetError? ==> Reduce(s, a).error == a.message
  {
  }

  /** The narrow transitions each set exactly their payload's field. */
  lemma NarrowTransitions(s: Snapshot, flag: bool, m: Js.Value, sel: Js.Option<Note>)
    ensures Reduce(s, SetLoading(flag)) == s.(loading := flag)
    ensures Reduce(s, SetSelectedNote(sel)) == s.(selectedNote := sel)
    ensures Reduce(s, ClearError) == s.(error := Js.Null)
    ensures Reduce(s, SetError(m)) == s.(error := m, loading := false)
    ensures Reduce(s, Unrecognised) == s
  {
  }

  /** `SetNotes` replaces the list wholesale: the prior list has no influence. */
  lemma SetNotesReplaces(s: Snapshot, t: Snapshot, list: seq<Note>)
    ensures Reduce(s, SetNotes(list)).notes == list
    ensures Reduce(s, SetNotes(list)).notes == Reduce(t, SetNotes(list)).notes
    ensures Reduce(s, SetNotes(list)) == s.(notes := list, loading := false, error := Js.Null)
  {
  }

  // ---------------------------------------------------------------- AddNote

  /** A created note goes in front; the old list follows unchanged. */
  lemma AddNotePrepends(s: Snapshot, n: Note)
    ensures |Reduce(s, AddNote(n)).notes| == |s.notes| + 1
    ensures Reduce(s, AddNote(n)).notes[0] == n
    ensures Reduce(s, AddNote(n)).notes[1..] == s.notes
    ensures Reduce(s, AddNote(n)).selectedNote == s.selectedNote
  {
  }

  // ---------------------------------------------------------------- UpdateNote

  /** Update keeps length and positions: matches become the payload, everything else stays. */
  lemma UpdateNoteInPlace(s: Snapshot, u: Note)
    ensures |Reduce(s, UpdateNote(u)).notes| == |s.notes|
    ensures forall i :: 0 <= i < |s.notes| && SameId(s.notes[i].id, u.id) ==> Reduce(s, UpdateNote(u)).notes[i] == u
    ensures forall i :: 0 <= i < |s.notes| && !SameId(s.notes[i].id, u.id) ==> Reduce(s, UpdateNote(u)).notes[i] == s.notes[i]
    ensures (forall i :: 0 <= i < |s.notes| ==> !SameId(s.notes[i].id, u.id)) ==> Reduce(s, UpdateNote(u)).notes == s.notes
    ensures Reduce(s, UpdateNote(u)).selectedNote == s.selectedNote
  {
  }

  /** Update never changes which canonical id sits at which position. */
  lemma UpdateKeepsIdsInPlace(notes: seq<Note>, u: Note)
    ensures |Replace(notes, u)| == |notes|
    ensures forall i :: 0 <= i < |notes| ==> SameId(Replace(notes, u)[i].id, notes[i].id)
  {
  }

  // ---------------------------------------------------------------- DeleteNote

  lemma {:induction false} RemoveSubset(notes: seq<Note>, id: Id)
    ensures |Remove(notes, id)| <= |notes|
    ensures forall x :: x in Remove(notes, id) ==> x in notes && !SameId(x.id, id)
    decreases |notes|
  {
    if notes != [] {
      RemoveSubset(notes[1..], id);
    }
  }

  /** On one note, `Remove` keeps it exactly when its id does not match. */
  lemma RemoveSingleton(n: Note, id: Id)
    ensures Remove([n], id) == if SameId(n.id, id) then [] else [n]
  {
    assert [n][1..] == [];
  }

  /** `Remove` distributes over concatenation, so the survivors keep their relative order. */
  lemma {:induction false} RemoveAppend(a: seq<Note>, b: seq<Note>, id: Id)
    ensures Remove(a + b, id) == Remove(a, id) + Remove(b, id)
    decreases |a|
  {
    if a == [] {
      assert a + b == b;
    } else {
      assert (a + b)[0] == a[0];
      assert (a + b)[1..] == a[1..] + b;
      RemoveAppend(a[1..], b, id);
    }
  }

  /** Delete removes exactly the matching notes: every other note keeps its multiplicity. */
  lemma {:induction false} RemoveCounts(notes: seq<Note>, id: Id, x: Note)
    ensures multiset(Remove(notes, id))[x] == if SameId(x.id, id) then 0 else multiset(notes)[x]
    decreases |notes|
  {
    if notes != [] {
      RemoveCounts(notes[1..], id, x);
      assert notes == [notes[0]] + notes[1..];
    }
  }

  /** A second delete of the same id finds nothing more to remove. */
  lemma {:induction false} RemoveIdempotent(notes: seq<Note>, id: Id)
    ensures Remove(Remove(notes, id), id) == Remove(notes, id)
    decreases |notes|
  {
    if notes != [] {
      var rest := Remove(notes[1..], id);
      RemoveIdempotent(notes[1..], id);
      if SameId(notes[0].id, id) {
        assert Remove(notes, id) == rest;
      } else {
        assert Remove(notes, id) == [notes[0]] + rest;
        RemoveAppend([notes[0]], rest, id);
        RemoveSingleton(notes[0], id);
      }
    }
  }

  /** Delete removes every note with the given canonical id and keeps the others. */
  lemma DeleteNoteRemovesMatches(s: Snapshot, id: Id)
    ensures forall x :: x in Reduce(s, DeleteNote(id)).notes <==> x in s.notes && !SameId(x.id, id)
    ensures forall x :: multiset(Reduce(s, DeleteNote(id)).notes)[x] == if SameId(x.id, id) then 0 else multiset(s.notes)[x]
  {
    var r := Remove(s.notes, id);
    assert Reduce(s, DeleteNote(id)).notes == r;
    forall x: Note
      ensures multiset(r)[x] == if SameId(x.id, id) then 0 else multiset(s.notes)[x]
      ensures x in r <==> x in s.notes && !SameId(x.id, id)
    {
      RemoveCounts(s.notes, id, x);
      assert x in r <==> x in multiset(r);
      assert x in s.notes <==> x in multiset(s.notes);
    }
  }

  /** `String(selectedNote?.id) === String(id)` clears the selection exactly when the selected note matches. */
  lemma DeleteNoteSelection(s: Snapshot, id: Id)
    ensures Reduce(s, DeleteNote(id)).selectedNote ==
            if s.selectedNote.Some? && SameId(s.selectedNote.value.id, id) then Js.None else s.selectedNote
  {
  }

  /** Deleting twice is deleting once, for the whole snapshot. */
  lemma DeleteNoteIdempotent(s: Snapshot, id: Id)
    ensures Reduce(Reduce(s, DeleteNote(id)), DeleteNote(id)) == Reduce(s, DeleteNote(id))
  {
    RemoveIdempotent(s.notes, id);
  }

  /** A note whose id arrived as the number 42 is deleted by the route parameter "42". */
  lemma DeleteNumericByText(s: Snapshot, n: Note)
    requires n.id == NumId(42) && s.notes == [n] && s.selectedNote == Js.Some(n)
    ensures Reduce(s, DeleteNote(StrId("42"))).notes == []
    ensures Reduce(s, DeleteNote(StrId("42"))).selectedNote == Js.None
  {
    FortyTwoMatches();
    RemoveSingleton(n, StrId("42"));
  }

  // ---------------------------------------------------------------- unique ids

  /** No two notes share a canonical id. */
  predicate UniqueIds(notes: seq<Note>) {
    forall i, j :: 0 <= i < j < |notes| ==> !SameId(notes[i].id, notes[j].id)
  }

  predicate FreshId(notes: seq<Note>, id: Id) {
    forall i :: 0 <= i < |notes| ==> !SameId(notes[i].id, id)
  }

  /** What the server must guarantee for an action to keep ids unique: created ids are new,
      loaded lists are duplicate-free. */
  predicate Admissible(s: Snapshot, a: Action) {
    (a.AddNote? ==> FreshId(s.notes, a.added.id)) && (a.SetNotes? ==> UniqueIds(a.list))
  }

  lemma {:induction false} RemoveKeepsUniqueIds(notes: seq<Note>, id: Id)
    requires UniqueIds(notes)
    ensures UniqueIds(Remove(notes, id))
    decreases |notes|
  {
    if notes != [] {
      var rest := Remove(notes[1..], id);
      assert UniqueIds(notes[1..]) by {
        forall i, j | 0 <= i < j < |notes[1..]| ensures !SameId(notes[1..][i].id, notes[1..][j].id) {
          assert notes[1..][i] == notes[i + 1] && notes[1..][j] == notes[j + 1];
        }
      }
      RemoveKeepsUniqueIds(notes[1..], id);
      RemoveSubset(notes[1..], id);
      if !SameId(notes[0].id, id) {
        forall j | 0 <= j < |rest| ensures !SameId(notes[0].id, rest[j].id) {
          assert rest[j] in notes[1..];
          var k :| 0 <= k < |notes[1..]| && notes[1..][k] == rest[j];
          assert notes[k + 1] == rest[j];
        }
      }
    }
  }

  /** One admissible step keeps ids unique. */
  lemma ReduceKeepsUniqueIds(s: Snapshot, a: Action)
    requires UniqueIds(s.notes) && Admissible(s, a)
    ensures UniqueIds(Reduce(s, a).notes)
  {
    match a
    case AddNote(n) =>
      var r := [n] + s.notes;
      forall i, j | 0 <= i < j < |r| ensures !SameId(r[i].id, r[j].id) {
        assert r[j] == s.notes[j - 1];
        if i > 0 {
          assert r[i] == s.notes[i - 1];
        }
      }
    case UpdateNote(u) =>
      UpdateKeepsIdsInPlace(s.notes, u);
    case DeleteNote(id) =>
      RemoveKeepsUniqueIds(s.notes, id);
    case _ =>
  }

  /** Every action in `log` is admissible in the snapshot it is dispatched to. */
  predicate AdmissibleLog(s: Snapshot, log: seq<Action>) {
    forall k :: 0 <= k < |log| ==> Admissible(ReduceAll(s, log[..k]), log[k])
  }

  /** Any sequence of admissible transitions keeps the canonical ids of `notes` unique. */
  lemma {:induction false} ReduceAllKeepsUniqueIds(s: Snapshot, log: seq<Action>)
    requires UniqueIds(s.notes) && AdmissibleLog(s, log)
    ensures UniqueIds(ReduceAll(s, log).notes)
    decreases |log|
  {
    if log != [] {
      var init := log[..|log| - 1];
      assert AdmissibleLog(s, init) by {
        forall k | 0 <= k < |init| ensures Admissible(ReduceAll(s, init[..k]), init[k]) {
          assert init[..k] == log[..k];
          assert init[k] == log[k];
        }
      }
      ReduceAllKeepsUniqueIds(s, init);
      assert log[..|log| - 1] == init;
      ReduceKeepsUniqueIds(ReduceAll(s, init), log[|log| - 1]);
    }
  }

  /** Without fresh ids the invariant fails: adding a note whose id matches one already there. */
  lemma DuplicateAddBreaksUniqueness(s: Snapshot, n: Note)
    requires !FreshId(s.notes, n.id)
    ensures !UniqueIds(Reduce(s, AddNote(n)).notes)
  {
    var r := Reduce(s, AddNote(n)).notes;
    var i :| 0 <= i < |s.notes| && SameId(s.notes[i].id, n.id);
    assert r[0] == n && r[i + 1] == s.notes[i];
  }
}
