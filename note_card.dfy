/**
 * One rendered note: the note it was given, its local toggles (edit mode,
 * fullscreen) and the edit drafts. Each handler changes the local state and
 * sends at most one request to the page, which the handler returns.
 */
module NoteCard {
  import opened Notes

  class Card {
    /** The `note` prop: the page's current version of this card's note. */
    var note: Note
    var isEditing: bool
    var isFullscreen: bool
    var editedTitle: string
    var editedContent: string

    /** Mounting: both toggles off, the drafts seeded from the note. */
    constructor (note: Note)
      ensures this.note == note
      ensures !isEditing && !isFullscreen
      ensures editedTitle == note.title && editedContent == note.content
    {
      this.note := note;
      isEditing, isFullscreen := false, false;
      editedTitle, editedContent := note.title, note.content;
    }

    /**
     * The page renders the card again with the current version of its note.
     * The card is keyed by the note's id, so the new note has the same id;
     * the local state, drafts included, survives (they are seeded only at mount).
     */
    method Receive(current: Note)
      requires current.id == note.id
      modifies this
      ensures note == current
      ensures isEditing == old(isEditing) && isFullscreen == old(isFullscreen)
      ensures editedTitle == old(editedTitle) && editedContent == old(editedContent)
    {
      note := current;
    }

    /** `handleCopy`: the text placed on the clipboard is the note's content; no request is sent. */
    method Copy() returns (clipboard: string)
      ensures clipboard == note.content
    {
      clipboard := note.content;
    }

    /** `handleDelete`: asks the page to delete this card's note. */
    method Delete() returns (request: Request)
      ensures request.DeleteRequest? && request.id == note.id
    {
      request := DeleteRequest(note.id);
    }

    /** `handleSave`: sends the drafts as the new title and content, and leaves edit mode. */
    method Save() returns (request: Request)
      modifies this
      ensures request == UpdateRequest(note.id, TitleContentPatch(old(editedTitle), old(editedContent)))
      ensures !isEditing
      ensures note == old(note) && isFullscreen == old(isFullscreen)
      ensures editedTitle == old(editedTitle) && editedContent == old(editedContent)
    {
      request := UpdateRequest(note.id, TitleContentPatch(editedTitle, editedContent));
      isEditing := false;
    }

    /** `toggleFavorite`: asks for the negation of the note's current favourite flag, and nothing else. */
    method ToggleFavorite() returns (request: Request)
      ensures request == UpdateRequest(note.id, FavoritePatch(!note.isFavorite))
    {
      request := UpdateRequest(note.id, FavoritePatch(!note.isFavorite));
    }

    /**
     * `handleImageUpload`. `upload` is the object URL the browser makes for the
     * chosen file, or `None` when no file was chosen; in that case nothing is sent.
     */
    method UploadImage(upload: Option<string>) returns (request: Option<Request>)
      ensures upload.None? ==> request.None?
      ensures upload.Some? ==> request == Some(UpdateRequest(note.id, ImagePatch(upload.value)))
    {
      match upload
      case None =>
        request := None;
      case Some(url) =>
        request := Some(UpdateRequest(note.id, ImagePatch(url)));
    }

    /** The Edit/Cancel button: flips edit mode only; no request, and the drafts are kept. */
    method ToggleEditing()
      modifies this
      ensures isEditing == !old(isEditing)
      ensures note == old(note) && isFullscreen == old(isFullscreen)
      ensures editedTitle == old(editedTitle) && editedContent == old(editedContent)
    {
      isEditing := !isEditing;
    }

    /** The fullscreen button: flips fullscreen only. */
    method ToggleFullscreen()
      modifies this
      ensures isFullscreen == !old(isFullscreen)
      ensures note == old(note) && isEditing == old(isEditing)
      ensures editedTitle == old(editedTitle) && editedContent == old(editedContent)
    {
      isFullscreen := !isFullscreen;
    }

    /** The title input's `onChange` in edit mode. */
    method EditTitle(value: string)
      modifies this
      ensures editedTitle == value
      ensures note == old(note) && isEditing == old(isEditing) && isFullscreen == old(isFullscreen)
      ensures editedContent == old(editedContent)
    {
      editedTitle := value;
    }

    /** The content text area's `onChange` in edit mode. */
    method EditContent(value: string)
      modifies this
      ensures editedContent == value
      ensures note == old(note) && isEditing == old(isEditing) && isFullscreen == old(isFullscreen)
      ensures editedTitle == old(editedTitle)
    {
      editedContent := value;
    }
  }
}
