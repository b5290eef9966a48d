/**
 * The page wires the parts together: the creator's submit feeds the page's
 * create, and every card's requests feed the page's update and delete. The
 * methods below run one user interaction end to end, with the page's list as
 * input and output, and state what it does to the list.
 */
module Page {
  import opened Notes
  import opened Strings
  import opened Sequences
  import opened NoteStore
  import opened NoteCreator
  import opened NoteCard

  /**
   * Pressing "Create Note": a blank title or content leaves the list as it
   * was; otherwise the new note, typed by the recording flag, is put first.
   * A fresh id keeps the ids unique.
   */
  method SubmitForm(form: Creator, notes: seq<Note>, id: string, now: Date) returns (after: seq<Note>)
    requires form.Valid()
    modifies form
    ensures form.Valid()
    ensures IsBlank(old(form.title)) || IsBlank(old(form.content)) ==> after == notes
    ensures !IsBlank(old(form.title)) && !IsBlank(old(form.content)) ==>
      && |after| == |notes| + 1 && after[1..] == notes
      && after[0] == NewNote(id, now, NoteData(old(form.title), old(form.content), if old(form.isRecording) then Audio else Text))
    ensures UniqueIds(notes) && !HasId(notes, id) ==> UniqueIds(after)
    ensures form.isRecording == old(form.isRecording)
  {
    var emitted := form.Submit();
    match emitted
    case None =>
      after := notes;
    case Some(data) =>
      after := Create(notes, id, now, data);
      if UniqueIds(notes) && !HasId(notes, id) {
        CreatePreservesUnique(notes, id, now, data);
      }
  }

  /** One press of the star on the card of `notes[k]` flips that note's flag and changes nothing else. */
  method FavoriteOnce(notes: seq<Note>, k: nat) returns (after: seq<Note>)
    requires UniqueIds(notes) && k < |notes|
    ensures |after| == |notes|
    ensures after[k] == notes[k].(isFavorite := !notes[k].isFavorite)
    ensures forall i :: 0 <= i < |notes| && i != k ==> after[i] == notes[i]
    ensures UniqueIds(after)
  {
    var card := new Card(notes[k]);
    var request := card.ToggleFavorite();
    after := Apply(notes, request);
    ApplyPreservesUnique(notes, request);
  }

  /**
   * Two presses of the star, the card receiving the updated note in between,
   * give back the list exactly as it was.
   */
  method FavoriteTwice(notes: seq<Note>, k: nat) returns (after: seq<Note>)
    requires UniqueIds(notes) && k < |notes|
    ensures after == notes
  {
    var card := new Card(notes[k]);
    var first := card.ToggleFavorite();
    var middle := Apply(notes, first);
    card.Receive(middle[k]);
    var second := card.ToggleFavorite();
    after := Apply(middle, second);
    FavoriteRoundTrip(notes, k);
  }

  /**
   * Edit, type a new title and content, save: exactly the title and content
   * of `notes[k]` change.
   */
  method SaveEdits(notes: seq<Note>, k: nat, title: string, content: string) returns (after: seq<Note>)
    requires UniqueIds(notes) && k < |notes|
    ensures |after| == |notes|
    ensures after[k] == notes[k].(title := title, content := content)
    ensures forall i :: 0 <= i < |notes| && i != k ==> after[i] == notes[i]
    ensures UniqueIds(after)
  {
    var card := new Card(notes[k]);
    card.ToggleEditing();
    card.EditTitle(title);
    card.EditContent(content);
    var request := card.Save();
    after := Apply(notes, request);
    ApplyPreservesUnique(notes, request);
  }

  /**
   * Edit, type, then Cancel. None of the three handlers has a result, so no
   * request reaches the page and its list is untouched; the card leaves edit
   * mode and the typed drafts stay in it for the next edit.
   */
  method CancelEdits(note: Note, title: string, content: string)
    returns (editing: bool, draftTitle: string, draftContent: string, shown: Note)
    ensures !editing && shown == note
    ensures draftTitle == title && draftContent == content
  {
    var card := new Card(note);
    card.ToggleEditing();
    card.EditTitle(title);
    card.EditContent(content);
    card.ToggleEditing();
    editing, draftTitle, draftContent, shown := card.isEditing, card.editedTitle, card.editedContent, card.note;
  }

  /** The trash button on the card of `notes[k]` removes that note and keeps every other note, in order. */
  method DeleteFromCard(notes: seq<Note>, k: nat) returns (after: seq<Note>)
    requires UniqueIds(notes) && k < |notes|
    ensures !HasId(after, notes[k].id)
    ensures forall i :: 0 <= i < |notes| && i != k ==> notes[i] in after
    ensures IsSubsequence(after, notes)
    ensures UniqueIds(after)
  {
    var card := new Card(notes[k]);
    var request := card.Delete();
    after := Apply(notes, request);
    DeleteKeepsOthersInOrder(notes, notes[k].id);
    DeletePreservesUnique(notes, notes[k].id);
  }

  /** Choosing an image: with no file the list is unchanged; with one, only `imageUrl` of `notes[k]` changes. */
  method UploadFromCard(notes: seq<Note>, k: nat, upload: Option<string>) returns (after: seq<Note>)
    requires UniqueIds(notes) && k < |notes|
    ensures upload.None? ==> after == notes
    ensures upload.Some? ==> |after| == |notes| && after[k] == notes[k].(imageUrl := Some(upload.value))
    ensures upload.Some? ==> forall i :: 0 <= i < |notes| && i != k ==> after[i] == notes[i]
    ensures UniqueIds(after)
  {
    var card := new Card(notes[k]);
    var request := card.UploadImage(upload);
    match request
    case None =>
      after := notes;
    case Some(r) =>
      after := Apply(notes, r);
      ApplyPreservesUnique(notes, r);
  }
}
