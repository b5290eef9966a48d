/**
 * A worked session on the page's list: two notes created, searched by a word
 * of one content and by an upper-cased word of the other, then one deleted.
 * Ids and timestamps are left symbolic.
 */
module Scenarios {
  import opened Notes
  import opened Strings
  import opened Sequences
  import opened NoteStore

  /** The first note created: "Groceries" / "milk,eggs". */
  function Groceries(id: string, at: Date): Note {
    NewNote(id, at, NoteData("Groceries", "milk,eggs", Text))
  }

  /** The second note created: "Work" / "finish report". */
  function Work(id: string, at: Date): Note {
    NewNote(id, at, NoteData("Work", "finish report", Text))
  }

  /** The later note comes first. */
  lemma CreateOrder(idA: string, idB: string, t1: Date, t2: Date)
    ensures Create(Create([], idA, t1, NoteData("Groceries", "milk,eggs", Text)), idB, t2, NoteData("Work", "finish report", Text))
      == [Work(idB, t2), Groceries(idA, t1)]
  {
  }

  /** The ASCII lower-casing of the words involved. */
  lemma LowerLiterals()
    ensures Lower("report") == "report"
    ensures Lower("MILK") == "milk"
    ensures Lower("Work") == "work"
    ensures Lower("Groceries") == "groceries"
  {
  }

  lemma LowerLiteralsLong()
    ensures Lower("finish report") == "finish report"
    ensures Lower("milk,eggs") == "milk,eggs"
  {
  }

  /** "report" occurs in the work note's content and in neither field of the groceries note. */
  lemma ReportMatches(idA: string, idB: string, t1: Date, t2: Date)
    ensures Matches(Work(idB, t2), "report")
    ensures !Matches(Groceries(idA, t1), "report")
  {
    LowerLiterals();
    LowerLiteralsLong();
    assert OccursAt("report", "finish report", 7);
    MissingCharExcludes("groceries", "report", 2);
    MissingCharExcludes("milk,eggs", "report", 2);
  }

  /** "MILK", case aside, occurs in the groceries note's content and in neither field of the work note. */
  lemma MilkMatches(idA: string, idB: string, t1: Date, t2: Date)
    ensures Matches(Groceries(idA, t1), "MILK")
    ensures !Matches(Work(idB, t2), "MILK")
  {
    LowerLiterals();
    LowerLiteralsLong();
    assert OccursAt("milk", "milk,eggs", 0);
    MissingCharExcludes("work", "milk", 0);
    MissingCharExcludes("finish report", "milk", 0);
  }

  /** Filtering a two-note list. */
  lemma FilterPair(b: Note, a: Note, p: Note -> bool)
    ensures Filter([b, a], p) == (if p(b) then [b] else []) + (if p(a) then [a] else [])
  {
    assert [b, a][1..] == [a];
    assert [a][1..] == [];
  }

  lemma SearchReport(idA: string, idB: string, t1: Date, t2: Date)
    ensures Search([Work(idB, t2), Groceries(idA, t1)], "report") == [Work(idB, t2)]
  {
    ReportMatches(idA, idB, t1, t2);
    FilterPair(Work(idB, t2), Groceries(idA, t1), MatchesQuery("report"));
  }

  lemma SearchMilk(idA: string, idB: string, t1: Date, t2: Date)
    ensures Search([Work(idB, t2), Groceries(idA, t1)], "MILK") == [Groceries(idA, t1)]
  {
    MilkMatches(idA, idB, t1, t2);
    FilterPair(Work(idB, t2), Groceries(idA, t1), MatchesQuery("MILK"));
  }

  lemma DeleteThenSearchAll(idA: string, idB: string, t1: Date, t2: Date)
    requires idA != idB
    ensures Search(Delete([Work(idB, t2), Groceries(idA, t1)], idA), "") == [Work(idB, t2)]
  {
    FilterPair(Work(idB, t2), Groceries(idA, t1), IdDiffers(idA));
    SearchEmptyQuery([Work(idB, t2)]);
  }

  /**
   * Create "Groceries" then "Work": the list is [Work, Groceries]; searching
   * "report" finds only Work, searching "MILK" only Groceries; after deleting
   * Groceries the empty search shows Work alone.
   */
  lemma CreateSearchDelete(idA: string, idB: string, t1: Date, t2: Date)
    requires idA != idB
    ensures var notes := Create(Create([], idA, t1, NoteData("Groceries", "milk,eggs", Text)), idB, t2,
                                NoteData("Work", "finish report", Text));
      && notes == [Work(idB, t2), Groceries(idA, t1)]
      && Search(notes, "report") == [Work(idB, t2)]
      && Search(notes, "MILK") == [Groceries(idA, t1)]
      && Search(Delete(notes, idA), "") == [Work(idB, t2)]
  {
    CreateOrder(idA, idB, t1, t2);
    SearchReport(idA, idB, t1, t2);
    SearchMilk(idA, idB, t1, t2);
    DeleteThenSearchAll(idA, idB, t1, t2);
  }
}
