/** The study list's search box and status menu (frontend/src/pages/StudyManagement.jsx):
    a session is shown when its title or subject contains the search term, ignoring
    case, and its status is the one picked (or any status). */
module StudyFilter {
  import opened Seqs
  import opened StudyModel
  import opened Identifiers

  /** The status menu: `'All'` or one status. */
  datatype StatusFilter = AllStatuses | Only(status: Status)

  /** `needle` sits in `hay` from position `i` on. */
  predicate OccursAt(hay: string, needle: string, i: int)
  {
    0 <= i && i + |needle| <= |hay| && hay[i..i + |needle|] == needle
  }

  /** `hay.includes(needle)` */
  predicate Contains(hay: string, needle: string)
  {
    exists i | 0 <= i <= |hay| :: OccursAt(hay, needle, i)
  }

  predicate MatchesSearch(s: Study, term: string)
  {
    Contains(LowerCase(s.title), LowerCase(term)) || Contains(LowerCase(s.subject), LowerCase(term))
  }

  predicate MatchesStatus(s: Study, filter: StatusFilter)
  {
    filter == AllStatuses || s.status == filter.status
  }

  function Shown(term: string, filter: StatusFilter): Study -> bool
  {
    (s: Study) => MatchesSearch(s, term) && MatchesStatus(s, filter)
  }

  /** `filteredStudies`: nothing when the list is not an array (`None`). */
  function FilteredStudies(studies: Option<seq<Study>>, term: string, filter: StatusFilter): seq<Study>
  {
    if studies.None? then [] else Filter(studies.value, Shown(term, filter))
  }

  /** The list shows exactly the sessions that match both controls, in list order. */
  lemma FilteredStudiesMeaning(studies: seq<Study>, term: string, filter: StatusFilter)
    ensures var shown := FilteredStudies(Some(studies), term, filter);
      IsSubsequence(shown, studies)
      && forall s :: s in shown <==> s in studies && MatchesSearch(s, term) && MatchesStatus(s, filter)
  {
    FilterIsSubsequence(studies, Shown(term, filter));
    FilterMembership(studies, Shown(term, filter));
  }

  /** Upper and lower case in the search term find the same sessions. */
  lemma SearchIgnoresCase(studies: Option<seq<Study>>, term: string, filter: StatusFilter)
    ensures FilteredStudies(studies, term, filter) == FilteredStudies(studies, LowerCase(term), filter)
  {
    assert LowerCase(LowerCase(term)) == LowerCase(term);
    if studies.Some? {
      FilterSameTest(studies.value, Shown(term, filter), Shown(LowerCase(term), filter));
    }
  }

  /** An empty search term hides nothing; with 'All' as well, the whole list shows. */
  lemma EmptySearchShowsAll(studies: seq<Study>, filter: StatusFilter)
    ensures FilteredStudies(Some(studies), "", filter) == Filter(studies, (s: Study) => MatchesStatus(s, filter))
    ensures FilteredStudies(Some(studies), "", AllStatuses) == studies
  {
    forall s: Study ensures MatchesSearch(s, "") {
      assert OccursAt(LowerCase(s.title), LowerCase(""), 0);
    }
    FilterSameTest(studies, Shown("", filter), (s: Study) => MatchesStatus(s, filter));
    FilterKeepsAll(studies, Shown("", AllStatuses));
  }
}
