/** The note dialog: its two form fields, how opening it fills them, the patch
    its Save button builds (trimmed title, "Untitled Note" default), and its
    Save and Delete buttons. Save has no enabling condition. */
module NoteDialogs {
  import opened Wrappers
  import opened Types
  import opened Text
  import opened Collections
  import opened NotesListView
  import opened IndexPage

  datatype NoteFields = NoteFields(title: string, content: string)

  const InitialNoteFields := NoteFields("", "")

  /** The effect run when `note` changes: copy the edited note, or reset. */
  function Synced(note: Option<Note>): (r: NoteFields)
    ensures note.Some? ==> r.title == note.value.title && r.content == note.value.content
    ensures note.None? ==> r.title == "" && r.content == ""
  {
    if note.Some? then NoteFields(note.value.title, note.value.content) else InitialNoteFields
  }

  /** `title.trim() || 'Untitled Note'`: never empty and never starting or
      ending with whitespace; a title with text is kept, trimmed. */
  function SavedTitle(title: string): (r: string)
    ensures r != "" && NoOuterWhitespace(r)
    ensures HasText(title) ==> r == Trim(title)
    ensures !HasText(title) ==> r == UntitledNote
  {
    if HasText(title) then Trim(title) else UntitledNoteIsTrimmed(); UntitledNote
  }

  lemma UntitledNoteIsTrimmed()
    ensures UntitledNote != "" && NoOuterWhitespace(UntitledNote)
  {
    assert UntitledNote[0] == 'U' && UntitledNote[|UntitledNote| - 1] == 'e';
  }

  /** `handleSave`'s `noteData`: the saved title, the content unchanged (it may
      be empty), and the id exactly when a note is being edited. */
  function SavePatch(f: NoteFields, note: Option<Note>): (p: NotePatch)
    ensures p.id.Some? <==> note.Some?
    ensures note.Some? ==> p.id == Some(note.value.id)
    ensures CanCreateNote(p) && p.createdAt.None? && p.updatedAt.None?
    ensures p.title == Some(SavedTitle(f.title)) && p.content == Some(f.content)
  {
    NotePatch(if note.Some? then Some(note.value.id) else None,
              Some(SavedTitle(f.title)), Some(f.content), None, None)
  }

  /** Opening a note and saving it untouched keeps it, except that the title is
      trimmed (or defaulted) and the update time is now. */
  lemma EditUntouchedRoundTrip(n: Note, now: Timestamp)
    ensures MergeNote(n, SavePatch(Synced(Some(n)), Some(n)), now) ==
      n.(title := SavedTitle(n.title), updatedAt := now)
  {
  }

  /** Creating a note with an empty title and content "draft" stores the title
      "Untitled Note". */
  lemma UntitledDraftScenario(notes: seq<Note>, newId: string, now: Timestamp)
    ensures var r := SaveNote(notes, SavePatch(NoteFields("", "draft"), None), newId, now);
      r[|notes|].title == UntitledNote && r[|notes|].content == "draft" &&
      r[|notes|].createdAt == now && r[|notes|].updatedAt == now
  {
    assert !HasText("");
  }

  class NoteDialog {
    var title: string
    var content: string

    function Fields(): NoteFields
      reads this
    {
      NoteFields(title, content)
    }

    constructor ()
      ensures Fields() == InitialNoteFields
    {
      title, content := "", "";
    }

    /** The `useEffect` on `[note]`. */
    method Sync(note: Option<Note>)
      modifies this
      ensures Fields() == Synced(note)
    {
      if note.Some? {
        title := note.value.title;
        content := note.value.content;
      } else {
        title := "";
        content := "";
      }
    }

    /** `handleSave`: `onSave(noteData)`, then `onClose()`; always possible. */
    method Save(app: App, newId: string, now: Timestamp)
      modifies app`notes, app`noteDialog
      ensures app.notes == SaveNote(old(app.notes), SavePatch(Fields(), old(app.noteDialog.note)), newId, now)
      ensures app.noteDialog == ClosedNoteDialog
    {
      var p := SavePatch(Fields(), app.noteDialog.note);
      app.NoteSave(p, newId, now);
      assert app.notes == SaveNote(old(app.notes), p, newId, now);
      app.CloseNoteDialog();
    }

    /** `handleDelete`: only when a note is being edited, delete it and close. */
    method Delete(app: App)
      modifies app`notes, app`noteDialog
      ensures old(app.noteDialog.note).Some? ==>
        app.notes == DeleteNote(old(app.notes), old(app.noteDialog.note).value.id) &&
        app.noteDialog == ClosedNoteDialog
      ensures old(app.noteDialog.note).None? ==>
        app.notes == old(app.notes) && app.noteDialog == old(app.noteDialog)
    {
      if app.noteDialog.note.Some? {
        app.NoteDelete(app.noteDialog.note.value.id);
        app.CloseNoteDialog();
      }
    }
  }
}
