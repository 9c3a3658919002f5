/** The notes list view: the case-insensitive search over titles and contents,
    the title fallback, the 150-character preview and the empty-list message.
    The search box's text is the `term` parameter. */
module NotesListView {
  import opened Wrappers
  import opened Sequences
  import opened Text
  import opened Types

  /** The search predicate: the lowered title or the lowered content includes
      the lowered term. */
  predicate Matches(n: Note, term: string)
    ensures Matches(n, term) <==>
      (exists i: nat :: OccursAt(Lower(n.title), Lower(term), i)) ||
      (exists i: nat :: OccursAt(Lower(n.content), Lower(term), i))
    ensures term == "" ==> Matches(n, term)
  {
    Contains(Lower(n.title), Lower(term)) || Contains(Lower(n.content), Lower(term))
  }

  function MatchesTerm(term: string): Note -> bool {
    n => Matches(n, term)
  }

  /** `filteredNotes`: the matching notes, in list order. */
  function FilteredNotes(notes: seq<Note>, term: string): (r: seq<Note>)
    ensures forall n :: n in r <==> n in notes && Matches(n, term)
    ensures forall n :: multiset(r)[n] == if Matches(n, term) then multiset(notes)[n] else 0
    ensures IsSubsequence(r, notes) && |r| <= |notes|
  {
    FilterCounts(notes, MatchesTerm(term));
    FilterIsSubsequence(notes, MatchesTerm(term));
    Filter(notes, MatchesTerm(term))
  }

  /** An empty search keeps every note. */
  lemma EmptySearchKeepsAll(notes: seq<Note>)
    ensures FilteredNotes(notes, "") == notes
  {
    forall n | n in notes
      ensures MatchesTerm("")(n)
    {
      ContainsEmpty(Lower(n.title));
    }
    FilterKeepsAll(notes, MatchesTerm(""));
  }

  /** The search does not depend on the case of the term's letters. */
  lemma SearchIgnoresTermCase(notes: seq<Note>, term: string)
    ensures FilteredNotes(notes, Lower(term)) == FilteredNotes(notes, term)
  {
    LowerIdempotent(term);
    FilterCongruent(notes, MatchesTerm(Lower(term)), MatchesTerm(term));
  }

  /** Terms that differ only in the case of their letters select the same notes. */
  lemma SearchIgnoresCase(notes: seq<Note>, term: string, term': string)
    requires SameUpToAsciiCase(term, term')
    ensures FilteredNotes(notes, term) == FilteredNotes(notes, term')
  {
    LowerEqualIffSameUpToCase(term, term');
    FilterCongruent(notes, MatchesTerm(term), MatchesTerm(term'));
  }

  /** Changing the case of letters in a note's title or content changes no match. */
  lemma MatchIgnoresNoteCase(n: Note, m: Note, term: string)
    requires SameUpToAsciiCase(n.title, m.title) && SameUpToAsciiCase(n.content, m.content)
    ensures Matches(n, term) <==> Matches(m, term)
  {
    LowerEqualIffSameUpToCase(n.title, m.title);
    LowerEqualIffSameUpToCase(n.content, m.content);
  }

  /** Searching "GROC" finds the note titled "groceries". */
  lemma CapitalTermFindsSmallTitle(now: Timestamp)
    ensures Matches(Note("1", "groceries", "", now, now), "GROC")
  {
    assert Lower("GROC") == "groc";
    assert Lower("groceries")[0..4] == "groc";
    assert OccursAt(Lower("groceries"), Lower("GROC"), 0);
  }

  const UntitledNote := "Untitled Note"

  /** `note.title || 'Untitled Note'`. */
  function DisplayTitle(n: Note): (r: string)
    ensures r != ""
    ensures n.title != "" ==> r == n.title
    ensures n.title == "" ==> r == UntitledNote
  {
    if n.title != "" then n.title else UntitledNote
  }

  const PreviewLength := 150

  /** The card text: content of up to 150 characters is shown whole; longer
      content is cut to its first 150 characters followed by "...". */
  function Preview(content: string): (r: string)
    ensures |content| <= PreviewLength ==> r == content
    ensures |content| > PreviewLength ==> |r| == PreviewLength + 3 && r[..PreviewLength] == content[..PreviewLength] && r[PreviewLength..] == "..."
  {
    Take(content, PreviewLength) + (if |content| > PreviewLength then "..." else "")
  }

  const NoMatchesMessage := "No notes found matching your search."
  const NoNotesMessage := "No notes yet. Create your first one!"

  /** The placeholder shown instead of the list: the no-match message exactly
      when a non-empty search matched nothing, the first-note prompt exactly
      when there are no notes and no search. */
  function EmptyMessage(notes: seq<Note>, term: string): (r: Option<string>)
    ensures r.Some? <==> FilteredNotes(notes, term) == []
    ensures r == Some(NoMatchesMessage) <==> FilteredNotes(notes, term) == [] && term != ""
    ensures r == Some(NoNotesMessage) <==> notes == [] && term == ""
  {
    EmptySearchKeepsAll(notes);
    if |FilteredNotes(notes, term)| != 0 then None
    else if term != "" then Some(NoMatchesMessage)
    else Some(NoNotesMessage)
  }
}
