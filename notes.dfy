/**
 * The one entity of the app, the `Note` record, together with `Partial<Note>`
 * (the payload of an update), the object-spread merge `{ ...note, ...updates }`
 * and the two requests a note card sends to the page.
 */
module Notes {

  datatype Option<T> = None | Some(value: T)

  /** `type: 'text' | 'audio'`. */
  datatype NoteType = Text | Audio

  /** `createdAt: Date`. The clock is a parameter of the model and the value is never inspected. */
  datatype Date = Date(epochMillis: int)

  /**
   * `id` is the string produced by `crypto.randomUUID()`, `imageUrl` the
   * string produced by `URL.createObjectURL` (or absent). `kind` stands for
   * the field `type`, a reserved word in Dafny.
   */
  datatype Note = Note(
    id: string,
    title: string,
    content: string,
    kind: NoteType,
    createdAt: Date,
    isFavorite: bool,
    imageUrl: Option<string>)

  /** What the creator form hands to the page: `{ title, content, type }`. */
  datatype NoteData = NoteData(title: string, content: string, kind: NoteType)

  /**
   * `Partial<Note>`: every field is absent (`None`) or present with a value.
   * TypeScript would also let any field be present with the value `undefined`;
   * no caller passes one, and only `imageUrl`, whose `undefined` means "no
   * image", can express it here (`Some(None)`).
   */
  datatype Patch = Patch(
    id: Option<string>,
    title: Option<string>,
    content: Option<string>,
    kind: Option<NoteType>,
    createdAt: Option<Date>,
    isFavorite: Option<bool>,
    imageUrl: Option<Option<string>>)

  /** `{}`. */
  const EmptyPatch := Patch(None, None, None, None, None, None, None)

  /** `{ title, content }`, the payload of the card's save. */
  function TitleContentPatch(title: string, content: string): Patch {
    EmptyPatch.(title := Some(title), content := Some(content))
  }

  /** `{ isFavorite }`, the payload of the card's favourite toggle. */
  function FavoritePatch(isFavorite: bool): Patch {
    EmptyPatch.(isFavorite := Some(isFavorite))
  }

  /** `{ imageUrl }`, the payload of the card's image upload. */
  function ImagePatch(url: string): Patch {
    EmptyPatch.(imageUrl := Some(Some(url)))
  }

  /** The value of one field after a spread: the update's value when present, else the note's. */
  function Override<T>(update: Option<T>, current: T): T {
    match update
    case Some(v) => v
    case None => current
  }

  /** `{ ...n, ...p }`. */
  function Merge(n: Note, p: Patch): Note {
    Note(
      Override(p.id, n.id),
      Override(p.title, n.title),
      Override(p.content, n.content),
      Override(p.kind, n.kind),
      Override(p.createdAt, n.createdAt),
      Override(p.isFavorite, n.isFavorite),
      Override(p.imageUrl, n.imageUrl))
  }

  /** `{ ...p, ...q }`: the fields of `q` win over those of `p`. */
  function Combine(p: Patch, q: Patch): Patch {
    Patch(
      if q.id.Some? then q.id else p.id,
      if q.title.Some? then q.title else p.title,
      if q.content.Some? then q.content else p.content,
      if q.kind.Some? then q.kind else p.kind,
      if q.createdAt.Some? then q.createdAt else p.createdAt,
      if q.isFavorite.Some? then q.isFavorite else p.isFavorite,
      if q.imageUrl.Some? then q.imageUrl else p.imageUrl)
  }

  /** A field present in the update takes its value; every absent field keeps the note's value. */
  lemma MergeFields(n: Note, p: Patch)
    ensures var r := Merge(n, p);
      && (p.id.None? ==> r.id == n.id) && (p.id.Some? ==> r.id == p.id.value)
      && (p.title.None? ==> r.title == n.title) && (p.title.Some? ==> r.title == p.title.value)
      && (p.content.None? ==> r.content == n.content) && (p.content.Some? ==> r.content == p.content.value)
      && (p.kind.None? ==> r.kind == n.kind) && (p.kind.Some? ==> r.kind == p.kind.value)
      && (p.createdAt.None? ==> r.createdAt == n.createdAt) && (p.createdAt.Some? ==> r.createdAt == p.createdAt.value)
      && (p.isFavorite.None? ==> r.isFavorite == n.isFavorite) && (p.isFavorite.Some? ==> r.isFavorite == p.isFavorite.value)
      && (p.imageUrl.None? ==> r.imageUrl == n.imageUrl) && (p.imageUrl.Some? ==> r.imageUrl == p.imageUrl.value)
  {
  }

  /** Spreading `{}` copies the note. */
  lemma MergeEmpty(n: Note)
    ensures Merge(n, EmptyPatch) == n
  {
  }

  /** Spreading the same update twice is spreading it once. */
  lemma MergeIdempotent(n: Note, p: Patch)
    ensures Merge(Merge(n, p), p) == Merge(n, p)
  {
  }

  /** Two successive spreads are one spread of the combined update. */
  lemma MergeCombine(n: Note, p: Patch, q: Patch)
    ensures Merge(Merge(n, p), q) == Merge(n, Combine(p, q))
  {
  }

  /** The two callbacks a note card is given: `onUpdate(id, updates)` and `onDelete(id)`. */
  datatype Request = UpdateRequest(id: string, updates: Patch) | DeleteRequest(id: string)
}
