/**
 * The page's note list and the four things the page does with it: create
 * (prepend), delete (filter by id), update (map with a spread merge) and the
 * search filter. Each operation computes a fresh list from the previous one,
 * so each is a function on `seq<Note>`.
 */
module NoteStore {
  import opened Notes
  import opened Strings
  import opened Sequences

  // ---------------------------------------------------------------------------
  // Identity
  // ---------------------------------------------------------------------------

  /** Some note of the list carries `id`. */
  predicate HasId(notes: seq<Note>, id: string) {
    exists i :: 0 <= i < |notes| && notes[i].id == id
  }

  /** No two notes of the list share an id. */
  predicate UniqueIds(notes: seq<Note>) {
    forall i, j :: 0 <= i < j < |notes| ==> notes[i].id != notes[j].id
  }

  // ---------------------------------------------------------------------------
  // Create
  // ---------------------------------------------------------------------------

  /**
   * The note built by `handleCreateNote`: a generated id, the form's data,
   * the current time, not a favourite and no image. `id` and `now` stand for
   * `crypto.randomUUID()` and `new Date()`.
   */
  function NewNote(id: string, now: Date, data: NoteData): Note {
    Note(id, data.title, data.content, data.kind, now, false, None)
  }

  /**
   * `[newNote, ...prev]`. There is no validation here: blank titles and
   * contents are accepted as they come.
   */
  function Create(notes: seq<Note>, id: string, now: Date, data: NoteData): (r: seq<Note>)
    ensures |r| == |notes| + 1
    ensures r[0].id == id && r[0].createdAt == now
    ensures r[0].title == data.title && r[0].content == data.content && r[0].kind == data.kind
    ensures !r[0].isFavorite && r[0].imageUrl == None
    ensures r[1..] == notes
  {
    [NewNote(id, now, data)] + notes
  }

  /** A fresh id keeps the ids of the list unique. */
  lemma CreatePreservesUnique(notes: seq<Note>, id: string, now: Date, data: NoteData)
    requires UniqueIds(notes) && !HasId(notes, id)
    ensures UniqueIds(Create(notes, id, now, data))
    ensures HasId(Create(notes, id, now, data), id)
  {
    UniqueCons(NewNote(id, now, data), notes);
  }

  // ---------------------------------------------------------------------------
  // Delete
  // ---------------------------------------------------------------------------

  /** The filter predicate of `handleDeleteNote`: `note => note.id !== id`. */
  function IdDiffers(id: string): Note -> bool {
    (n: Note) => n.id != id
  }

  /** `prev.filter(note => note.id !== id)`. */
  function Delete(notes: seq<Note>, id: string): (r: seq<Note>)
    ensures forall i :: 0 <= i < |r| ==> r[i].id != id && r[i] in notes
    ensures forall i :: 0 <= i < |notes| && notes[i].id != id ==> notes[i] in r
    ensures !HasId(r, id)
  {
    Filter(notes, IdDiffers(id))
  }

  /**
   * Delete keeps exactly the notes whose id differs, each as often as it
   * occurred, in their original relative order.
   */
  lemma DeleteKeepsOthersInOrder(notes: seq<Note>, id: string)
    ensures IsSubsequence(Delete(notes, id), notes)
    ensures forall n :: multiset(Delete(notes, id))[n] == if n.id != id then multiset(notes)[n] else 0
  {
    FilterIsSubsequence(notes, IdDiffers(id));
    forall n ensures multiset(Delete(notes, id))[n] == if n.id != id then multiset(notes)[n] else 0 {
      FilterCount(notes, IdDiffers(id), n);
    }
  }

  /** Deleting an id no note carries leaves the list as it was. */
  lemma DeleteAbsent(notes: seq<Note>, id: string)
    requires !HasId(notes, id)
    ensures Delete(notes, id) == notes
  {
    FilterAll(notes, IdDiffers(id));
  }

  /** Deleting twice is deleting once. */
  lemma DeleteIdempotent(notes: seq<Note>, id: string)
    ensures Delete(Delete(notes, id), id) == Delete(notes, id)
  {
    FilterIdempotent(notes, IdDiffers(id));
  }

  /** Dropping the first note keeps the ids unique. */
  lemma UniqueTail(notes: seq<Note>)
    requires UniqueIds(notes) && notes != []
    ensures UniqueIds(notes[1..])
  {
    var tail := notes[1..];
    forall i, j | 0 <= i < j < |tail| ensures tail[i].id != tail[j].id {
      assert tail[i] == notes[i + 1] && tail[j] == notes[j + 1];
    }
  }

  /** Putting a note whose id is new in front keeps the ids unique. */
  lemma UniqueCons(n: Note, rest: seq<Note>)
    requires UniqueIds(rest) && !HasId(rest, n.id)
    ensures UniqueIds([n] + rest)
  {
    var r := [n] + rest;
    forall i, j | 0 <= i < j < |r| ensures r[i].id != r[j].id {
      assert r[j] == rest[j - 1];
      if i > 0 {
        assert r[i] == rest[i - 1];
      }
    }
  }

  /** Filtering a list with unique ids leaves the ids unique. */
  lemma {:induction false} FilterPreservesUnique(notes: seq<Note>, p: Note -> bool)
    requires UniqueIds(notes)
    ensures UniqueIds(Filter(notes, p))
  {
    if notes != [] {
      var tail := notes[1..];
      UniqueTail(notes);
      FilterPreservesUnique(tail, p);
      if p(notes[0]) {
        var rest := Filter(tail, p);
        assert !HasId(rest, notes[0].id) by {
          forall i | 0 <= i < |rest| ensures rest[i].id != notes[0].id {
            var k :| 0 <= k < |tail| && tail[k] == rest[i];
            assert notes[k + 1] == tail[k];
          }
        }
        UniqueCons(notes[0], rest);
      }
    }
  }

  /** Deleting keeps the ids unique. */
  lemma DeletePreservesUnique(notes: seq<Note>, id: string)
    requires UniqueIds(notes)
    ensures UniqueIds(Delete(notes, id))
  {
    FilterPreservesUnique(notes, IdDiffers(id));
  }

  // ---------------------------------------------------------------------------
  // Update
  // ---------------------------------------------------------------------------

  /** `prev.map(note => note.id === id ? { ...note, ...updates } : note)`. */
  function Update(notes: seq<Note>, id: string, updates: Patch): (r: seq<Note>)
    ensures |r| == |notes|
    ensures forall i :: 0 <= i < |notes| && notes[i].id != id ==> r[i] == notes[i]
    ensures forall i :: 0 <= i < |notes| && notes[i].id == id ==> r[i] == Merge(notes[i], updates)
  {
    if notes == [] then []
    else [if notes[0].id == id then Merge(notes[0], updates) else notes[0]] + Update(notes[1..], id, updates)
  }

  /** Updating an id no note carries leaves the list as it was. */
  lemma UpdateAbsent(notes: seq<Note>, id: string, updates: Patch)
    requires !HasId(notes, id)
    ensures Update(notes, id, updates) == notes
  {
  }

  /** Applying the same update twice is applying it once. */
  lemma UpdateIdempotent(notes: seq<Note>, id: string, updates: Patch)
    ensures Update(Update(notes, id, updates), id, updates) == Update(notes, id, updates)
  {
    var once := Update(notes, id, updates);
    var twice := Update(once, id, updates);
    forall i | 0 <= i < |notes| ensures twice[i] == once[i] {
      if notes[i].id == id {
        MergeIdempotent(notes[i], updates);
      }
    }
  }

  /** An update without an `id` field leaves every id where it was. */
  lemma UpdateKeepsIds(notes: seq<Note>, id: string, updates: Patch)
    requires updates.id.None?
    ensures forall i :: 0 <= i < |notes| ==> Update(notes, id, updates)[i].id == notes[i].id
  {
  }

  /** An update without an `id` field keeps the ids unique. */
  lemma UpdatePreservesUnique(notes: seq<Note>, id: string, updates: Patch)
    requires UniqueIds(notes) && updates.id.None?
    ensures UniqueIds(Update(notes, id, updates))
  {
    UpdateKeepsIds(notes, id, updates);
  }

  /**
   * The favourite round trip: setting `isFavorite` to the negation of the
   * note's flag and then back to the flag restores the list exactly, when the
   * ids are unique.
   */
  lemma FavoriteRoundTrip(notes: seq<Note>, k: nat)
    requires UniqueIds(notes) && k < |notes|
    ensures var n := notes[k];
      Update(Update(notes, n.id, FavoritePatch(!n.isFavorite)), n.id, FavoritePatch(n.isFavorite)) == notes
  {
    var n := notes[k];
    var once := Update(notes, n.id, FavoritePatch(!n.isFavorite));
    var twice := Update(once, n.id, FavoritePatch(n.isFavorite));
    forall i | 0 <= i < |notes| ensures twice[i] == notes[i] {
      if i != k {
        assert notes[i].id != n.id;
      }
    }
  }

  // ---------------------------------------------------------------------------
  // Search
  // ---------------------------------------------------------------------------

  /** The search test: the lower-cased query occurs in the lower-cased title or content. */
  predicate Matches(n: Note, query: string) {
    Includes(Lower(n.title), Lower(query)) || Includes(Lower(n.content), Lower(query))
  }

  /** The filter predicate of `filteredNotes`. */
  function MatchesQuery(query: string): Note -> bool {
    (n: Note) => Matches(n, query)
  }

  /** `notes.filter(note => title or content includes the query, ignoring case)`. */
  function Search(notes: seq<Note>, query: string): (r: seq<Note>)
    ensures forall i :: 0 <= i < |r| ==> r[i] in notes && Matches(r[i], query)
    ensures forall i :: 0 <= i < |notes| && Matches(notes[i], query) ==> notes[i] in r
  {
    Filter(notes, MatchesQuery(query))
  }

  /**
   * The search result is the order-preserving subsequence of the notes whose
   * lower-cased title or content contains the lower-cased query, each note as
   * often as it occurs in the list.
   */
  lemma SearchKeepsMatchesInOrder(notes: seq<Note>, query: string)
    ensures IsSubsequence(Search(notes, query), notes)
    ensures forall n :: multiset(Search(notes, query))[n] == if Matches(n, query) then multiset(notes)[n] else 0
    ensures forall n :: Matches(n, query) <==>
      (exists i :: OccursAt(Lower(query), Lower(n.title), i)) || (exists i :: OccursAt(Lower(query), Lower(n.content), i))
  {
    FilterIsSubsequence(notes, MatchesQuery(query));
    forall n ensures multiset(Search(notes, query))[n] == if Matches(n, query) then multiset(notes)[n] else 0 {
      FilterCount(notes, MatchesQuery(query), n);
    }
  }

  /** The empty query keeps every note, in the current order. */
  lemma SearchEmptyQuery(notes: seq<Note>)
    ensures Search(notes, "") == notes
  {
    forall i | 0 <= i < |notes| ensures Matches(notes[i], "") {
      IncludesEmpty(Lower(notes[i].title));
    }
    FilterAll(notes, MatchesQuery(""));
  }

  /** Searching is blind to the case of the query's ASCII letters. */
  lemma SearchIgnoresQueryCase(notes: seq<Note>, query: string)
    ensures Search(notes, Lower(query)) == Search(notes, query)
  {
    LowerIdempotent(query);
    FilterCongruent(notes, MatchesQuery(Lower(query)), MatchesQuery(query));
  }

  /** A search result searched again with the same query is unchanged. */
  lemma SearchIdempotent(notes: seq<Note>, query: string)
    ensures Search(Search(notes, query), query) == Search(notes, query)
  {
    FilterIdempotent(notes, MatchesQuery(query));
  }

  // ---------------------------------------------------------------------------
  // Requests from the note cards
  // ---------------------------------------------------------------------------

  /** The page's handling of a card's request: `handleUpdateNote` or `handleDeleteNote`. */
  function Apply(notes: seq<Note>, request: Request): seq<Note> {
    match request
    case UpdateRequest(id, updates) => Update(notes, id, updates)
    case DeleteRequest(id) => Delete(notes, id)
  }

  /** Every request a card can send keeps the ids unique, provided it carries no `id` field. */
  lemma ApplyPreservesUnique(notes: seq<Note>, request: Request)
    requires UniqueIds(notes)
    requires request.UpdateRequest? ==> request.updates.id.None?
    ensures UniqueIds(Apply(notes, request))
  {
    match request
    case UpdateRequest(id, updates) => UpdatePreservesUnique(notes, id, updates);
    case DeleteRequest(id) => DeletePreservesUnique(notes, id);
  }

  /** Once a note is deleted, a later update or delete of its id changes nothing. */
  lemma AfterDeleteNoOp(notes: seq<Note>, id: string, request: Request)
    requires request.id == id
    ensures Apply(Delete(notes, id), request) == Delete(notes, id)
  {
    match request
    case UpdateRequest(_, updates) => UpdateAbsent(Delete(notes, id), id, updates);
    case DeleteRequest(_) => DeleteIdempotent(notes, id);
  }
}
