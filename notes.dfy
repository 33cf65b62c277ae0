/**
 * The notes board (app/notes.tsx): a list of coloured notes and one modal
 * editor that either adds a note or rewrites the note being edited.
 */
module Notes {
  import opened Optional
  import opened JsText

  datatype Note = Note(id: string, text: string, color: string)

  /** The colour the editor starts with and returns to. */
  const DefaultColor: string := "#00fff9"

  /** The five colour swatches of the editor. */
  const Palette: seq<string> := ["#00fff9", "#ff9e00", "#ef4444", "#10b981", "#6366f1"]

  /** The screen's state hooks. */
  datatype Board = Board(notes: seq<Note>, showModal: bool, noteInput: string, noteColor: string,
                         editingNote: Option<Note>)

  function Initial(): Board {
    Board([], false, "", DefaultColor, None)
  }

  /** The edit map: every note with the given id takes the new text and colour and keeps its id. */
  function EditedNotes(notes: seq<Note>, id: string, text: string, color: string): (r: seq<Note>)
    ensures |r| == |notes|
    ensures forall i :: 0 <= i < |notes| && notes[i].id == id ==> r[i] == Note(id, text, color)
    ensures forall i :: 0 <= i < |notes| && notes[i].id != id ==> r[i] == notes[i]
  {
    if notes == [] then []
    else
      var n := notes[0];
      [if n.id == id then Note(n.id, text, color) else n] + EditedNotes(notes[1..], id, text, color)
  }

  /** The delete filter: the notes whose id differs, in their order. */
  function RemovedNotes(notes: seq<Note>, id: string): (r: seq<Note>)
    ensures |r| <= |notes|
    ensures forall j :: 0 <= j < |r| ==> r[j].id != id
  {
    if notes == [] then []
    else if notes[0].id == id then RemovedNotes(notes[1..], id)
    else [notes[0]] + RemovedNotes(notes[1..], id)
  }

  /** `handleSaveNote`; `freshId` stands for `Date.now().toString()`. */
  function AfterSave(b: Board, freshId: string): Board {
    if Trim(b.noteInput) == [] then b
    else
      var notes := if b.editingNote.Some?
                   then EditedNotes(b.notes, b.editingNote.value.id, b.noteInput, b.noteColor)
                   else b.notes + [Note(freshId, b.noteInput, b.noteColor)];
      Board(notes, false, "", DefaultColor, None)
  }

  /** `handleEditNote`: load the note into the editor and open it. */
  function AfterEditStart(b: Board, note: Note): Board {
    b.(editingNote := Some(note), noteInput := note.text, noteColor := note.color, showModal := true)
  }

  /** `handleDeleteNote` */
  function AfterDelete(b: Board, id: string): Board {
    b.(notes := RemovedNotes(b.notes, id))
  }

  /** The "+" button: an empty editor in add mode. */
  function AfterAddPressed(b: Board): Board {
    b.(editingNote := None, noteInput := "", noteColor := DefaultColor, showModal := true)
  }

  /** The editor's Cancel button only hides the modal. */
  function AfterCancel(b: Board): Board {
    b.(showModal := false)
  }

  /** Saving a blank input changes nothing, not even the storage. */
  lemma SaveBlankIsNoop(b: Board, freshId: string)
    requires IsBlank(b.noteInput)
    ensures AfterSave(b, freshId) == b
  {
    TrimEmptyIffBlank(b.noteInput);
  }

  /** A non-blank save closes the editor and resets it to an empty add form. */
  lemma SaveResetsEditor(b: Board, freshId: string)
    requires !IsBlank(b.noteInput)
    ensures var a := AfterSave(b, freshId);
      !a.showModal && a.noteInput == "" && a.noteColor == DefaultColor && a.editingNote.None?
  {
    TrimEmptyIffBlank(b.noteInput);
  }

  /** In add mode a non-blank save appends one note holding the input as typed (not trimmed) and the chosen colour. */
  lemma SaveAddsNote(b: Board, freshId: string)
    requires !IsBlank(b.noteInput) && b.editingNote.None?
    ensures AfterSave(b, freshId).notes == b.notes + [Note(freshId, b.noteInput, b.noteColor)]
  {
    TrimEmptyIffBlank(b.noteInput);
  }

  /** In edit mode a non-blank save rewrites the notes with the edited id in place and keeps the others. */
  lemma SaveEditsNote(b: Board, freshId: string)
    requires !IsBlank(b.noteInput) && b.editingNote.Some?
    ensures var r := AfterSave(b, freshId).notes; var id := b.editingNote.value.id;
      |r| == |b.notes|
      && (forall i :: 0 <= i < |r| && b.notes[i].id == id ==> r[i] == Note(id, b.noteInput, b.noteColor))
      && (forall i :: 0 <= i < |r| && b.notes[i].id != id ==> r[i] == b.notes[i])
  {
    TrimEmptyIffBlank(b.noteInput);
  }

  /** Opening a note and saving it untouched gives back the same list, when the note is the only one with its id. */
  lemma EditThenSaveKeepsNotes(b: Board, note: Note, freshId: string)
    requires !IsBlank(note.text)
    requires forall i :: 0 <= i < |b.notes| && b.notes[i].id == note.id ==> b.notes[i] == note
    ensures AfterSave(AfterEditStart(b, note), freshId).notes == b.notes
  {
    var e := AfterEditStart(b, note);
    TrimEmptyIffBlank(e.noteInput);
    var r := AfterSave(e, freshId).notes;
    assert |r| == |b.notes|;
    forall i | 0 <= i < |r|
      ensures r[i] == b.notes[i]
    {
      if b.notes[i].id == note.id {
        assert r[i] == Note(note.id, note.text, note.color);
      }
    }
  }

  /** The "+" button always opens an empty add form, whatever a cancelled edit left behind. */
  lemma AddAfterCancelIsFresh(b: Board, note: Note)
    ensures AfterAddPressed(AfterCancel(AfterEditStart(b, note)))
         == b.(showModal := true, noteInput := "", noteColor := DefaultColor, editingNote := None)
  {
  }

  /** A note survives the delete filter exactly when it was there and has another id. */
  lemma {:induction false} RemovedNotesMembers(notes: seq<Note>, id: string, n: Note)
    ensures n in RemovedNotes(notes, id) <==> n in notes && n.id != id
  {
    if notes != [] {
      RemovedNotesMembers(notes[1..], id, n);
      assert notes == [notes[0]] + notes[1..];
    }
  }

  /** Deleting an id no note has changes nothing. */
  lemma {:induction false} RemovedNotesAbsent(notes: seq<Note>, id: string)
    requires forall i :: 0 <= i < |notes| ==> notes[i].id != id
    ensures RemovedNotes(notes, id) == notes
  {
    if notes != [] {
      RemovedNotesAbsent(notes[1..], id);
    }
  }

  /** The filter distributes over concatenation. */
  lemma {:induction false} RemovedNotesConcat(a: seq<Note>, b: seq<Note>, id: string)
    ensures RemovedNotes(a + b, id) == RemovedNotes(a, id) + RemovedNotes(b, id)
  {
    if a == [] {
      assert a + b == b;
    } else {
      assert (a + b)[1..] == a[1..] + b;
      RemovedNotesConcat(a[1..], b, id);
    }
  }

  /** Adding a note under an unused id and deleting it gives back the list before. */
  lemma AddThenDeleteRestores(b: Board, freshId: string)
    requires !IsBlank(b.noteInput) && b.editingNote.None?
    requires forall i :: 0 <= i < |b.notes| ==> b.notes[i].id != freshId
    ensures AfterDelete(AfterSave(b, freshId), freshId).notes == b.notes
  {
    SaveAddsNote(b, freshId);
    var added := Note(freshId, b.noteInput, b.noteColor);
    RemovedNotesConcat(b.notes, [added], freshId);
    RemovedNotesAbsent(b.notes, freshId);
  }

  /** The notes screen's state; `stored` is the JSON last written under `focusflow_notes` (None before any write). */
  class NotesScreen {
    var notes: seq<Note>
    var showModal: bool
    var noteInput: string
    var noteColor: string
    var editingNote: Option<Note>
    ghost var stored: Option<seq<Note>>

    function State(): Board
      reads this
    {
      Board(notes, showModal, noteInput, noteColor, editingNote)
    }

    /** Mounting the screen; `persisted` is what the storage already holds. */
    constructor (ghost persisted: Option<seq<Note>>)
      ensures State() == Initial() && stored == persisted
    {
      notes := [];
      showModal := false;
      noteInput := "";
      noteColor := DefaultColor;
      editingNote := None;
      stored := persisted;
    }

    /** `saveNotes`: set the list and write it to storage. */
    method SaveNotes(notesArr: seq<Note>)
      modifies this
      ensures State() == old(State()).(notes := notesArr) && stored == Some(notesArr)
    {
      notes := notesArr;
      stored := Some(notesArr);
    }

    method HandleSaveNote(freshId: string)
      modifies this
      ensures State() == AfterSave(old(State()), freshId)
      ensures stored == if Trim(old(noteInput)) == [] then old(stored) else Some(notes)
    {
      if Trim(noteInput) == [] {
        return;
      }
      if editingNote.Some? {
        SaveNotes(EditedNotes(notes, editingNote.value.id, noteInput, noteColor));
      } else {
        SaveNotes(notes + [Note(freshId, noteInput, noteColor)]);
      }
      showModal := false;
      noteInput := "";
      noteColor := DefaultColor;
      editingNote := None;
    }

    method HandleEditNote(note: Note)
      modifies this
      ensures State() == AfterEditStart(old(State()), note) && stored == old(stored)
    {
      editingNote := Some(note);
      noteInput := note.text;
      noteColor := note.color;
      showModal := true;
    }

    method HandleDeleteNote(id: string)
      modifies this
      ensures State() == AfterDelete(old(State()), id) && stored == Some(notes)
    {
      SaveNotes(RemovedNotes(notes, id));
    }

    /** The "+" button. */
    method PressAdd()
      modifies this
      ensures State() == AfterAddPressed(old(State())) && stored == old(stored)
    {
      editingNote := None;
      noteInput := "";
      noteColor := DefaultColor;
      showModal := true;
    }

    /** The text input's `onChangeText`. */
    method SetNoteInput(text: string)
      modifies this
      ensures State() == old(State()).(noteInput := text) && stored == old(stored)
    {
      noteInput := text;
    }

    /** Pressing one of the colour swatches. */
    method PickColor(color: string)
      requires color in Palette
      modifies this
      ensures State() == old(State()).(noteColor := color) && stored == old(stored)
    {
      noteColor := color;
    }

    /** The editor's Cancel button. */
    method Cancel()
      modifies this
      ensures State() == AfterCancel(old(State())) && stored == old(stored)
    {
      showModal := false;
    }
  }
}
