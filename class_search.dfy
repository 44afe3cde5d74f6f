/**
 * The list screen's search: `matchesSearchQuery` picks the fields a filter
 * label consults and tests each for the query ignoring case; the screen keeps
 * the records that match, in their order.
 */
module ClassSearch {
  import opened Wrappers
  import opened Decimal
  import opened IgnoreCase
  import opened YogaData

  const FILTER_ALL: string := "All"
  const FILTER_TIME: string := "Time"
  const FILTER_DAY: string := "Day of Week"
  const FILTER_TEACHER: string := "Teacher"

  /** A label that narrows the search to a single field. */
  predicate IsFieldFilter(filter: string) {
    filter == FILTER_TIME || filter == FILTER_DAY || filter == FILTER_TEACHER
  }

  /** `YogaClass.matchesSearchQuery(query, filter)`; any unknown label searches every field. */
  predicate MatchesSearchQuery(c: YogaClass, query: string, filter: string) {
    if filter == FILTER_TIME then ContainsIgnoringCase(c.time, query)
    else if filter == FILTER_DAY then ContainsIgnoringCase(c.dayOfWeek, query)
    else if filter == FILTER_TEACHER then ContainsIgnoringCase(c.teacher, query)
    else
      ContainsIgnoringCase(c.time, query) ||
      ContainsIgnoringCase(c.dayOfWeek, query) ||
      ContainsIgnoringCase(c.teacher, query) ||
      ContainsIgnoringCase(IntToString(c.id), query) ||
      ContainsIgnoringCase(c.price, query) ||
      ContainsIgnoringCase(IntToString(c.duration), query) ||
      ContainsIgnoringCase(c.classType, query) ||
      (c.description.Some? && ContainsIgnoringCase(c.description.value, query))
  }

  /** The texts an "All" search looks in; an absent description adds none. */
  function SearchedTexts(c: YogaClass): seq<string> {
    [c.time, c.dayOfWeek, c.teacher, IntToString(c.id), c.price, IntToString(c.duration), c.classType]
      + (if c.description.Some? then [c.description.value] else [])
  }

  /** "Time" looks at the time text and at nothing else. */
  lemma TimeFilterReadsOnlyTime(c: YogaClass, query: string)
    ensures MatchesSearchQuery(c, query, FILTER_TIME) <==> exists i :: OccursAt(c.time, query, i)
  {
    ContainsMeansOccurs(c.time, query);
  }

  /** "Day of Week" looks at the day text and at nothing else. */
  lemma DayFilterReadsOnlyDay(c: YogaClass, query: string)
    ensures MatchesSearchQuery(c, query, FILTER_DAY) <==> exists i :: OccursAt(c.dayOfWeek, query, i)
  {
    ContainsMeansOccurs(c.dayOfWeek, query);
  }

  /** "Teacher" looks at the teacher text and at nothing else. */
  lemma TeacherFilterReadsOnlyTeacher(c: YogaClass, query: string)
    ensures MatchesSearchQuery(c, query, FILTER_TEACHER) <==> exists i :: OccursAt(c.teacher, query, i)
  {
    ContainsMeansOccurs(c.teacher, query);
  }

  /** Any other label, "All" included, matches when some searched text holds the query. */
  lemma OtherFilterSearchesAllTexts(c: YogaClass, query: string, filter: string)
    requires !IsFieldFilter(filter)
    ensures MatchesSearchQuery(c, query, filter) <==>
      exists k, i :: 0 <= k < |SearchedTexts(c)| && OccursAt(SearchedTexts(c)[k], query, i)
  {
    var texts := SearchedTexts(c);
    assert texts[0] == c.time && texts[1] == c.dayOfWeek && texts[2] == c.teacher &&
           texts[3] == IntToString(c.id) && texts[4] == c.price &&
           texts[5] == IntToString(c.duration) && texts[6] == c.classType;
    assert c.description.Some? ==> |texts| == 8 && texts[7] == c.description.value;
    forall k | 0 <= k < |texts| {
      ContainsMeansOccurs(texts[k], query);
    }
    if MatchesSearchQuery(c, query, filter) {
      var k: int :|
        (k == 0 || k == 1 || k == 2 || k == 3 || k == 4 || k == 5 || k == 6 || (k == 7 && c.description.Some?)) &&
        ContainsIgnoringCase(texts[k], query);
      assert exists i :: OccursAt(texts[k], query, i);
    }
    if exists k, i :: 0 <= k < |texts| && OccursAt(texts[k], query, i) {
      var k, i :| 0 <= k < |texts| && OccursAt(texts[k], query, i);
      assert ContainsIgnoringCase(texts[k], query);
    }
  }

  /** A match under a single-field label is also a match under "All". */
  lemma FieldFilterImpliesAll(c: YogaClass, query: string, filter: string)
    requires IsFieldFilter(filter)
    ensures MatchesSearchQuery(c, query, filter) ==> MatchesSearchQuery(c, query, FILTER_ALL)
  {
  }

  /** The description counts only when present and holding the query. */
  lemma DescriptionCountsOnlyWhenPresent(c: YogaClass, query: string)
    ensures MatchesSearchQuery(c, query, FILTER_ALL) <==>
      MatchesSearchQuery(c.(description := None), query, FILTER_ALL) ||
      (c.description.Some? && ContainsIgnoringCase(c.description.value, query))
  {
  }

  /** The empty query matches every record under every label. */
  lemma EmptyQueryMatches(c: YogaClass, filter: string)
    ensures MatchesSearchQuery(c, "", filter)
  {
  }

  /** Changing the letter case of the query does not change the outcome. */
  lemma MatchIgnoresQueryCase(c: YogaClass, q1: string, q2: string, filter: string)
    requires LowerString(q1) == LowerString(q2)
    ensures MatchesSearchQuery(c, q1, filter) == MatchesSearchQuery(c, q2, filter)
  {
    ContainsIgnoresQueryCase(c.time, q1, q2);
    ContainsIgnoresQueryCase(c.dayOfWeek, q1, q2);
    ContainsIgnoresQueryCase(c.teacher, q1, q2);
    ContainsIgnoresQueryCase(IntToString(c.id), q1, q2);
    ContainsIgnoresQueryCase(c.price, q1, q2);
    ContainsIgnoresQueryCase(IntToString(c.duration), q1, q2);
    ContainsIgnoresQueryCase(c.classType, q1, q2);
    if c.description.Some? {
      ContainsIgnoresQueryCase(c.description.value, q1, q2);
    }
  }

  /** The list the screen shows: the matching records, in their original order. */
  function FilterClasses(cs: seq<YogaClass>, query: string, filter: string): seq<YogaClass> {
    if cs == [] then []
    else
      FilterClasses(cs[..|cs| - 1], query, filter)
        + (if MatchesSearchQuery(cs[|cs| - 1], query, filter) then [cs[|cs| - 1]] else [])
  }

  /** Positions of the matching records, in increasing order. */
  function MatchingPositions(cs: seq<YogaClass>, query: string, filter: string): seq<int> {
    if cs == [] then []
    else
      MatchingPositions(cs[..|cs| - 1], query, filter)
        + (if MatchesSearchQuery(cs[|cs| - 1], query, filter) then [|cs| - 1] else [])
  }

  /** The matching positions lie in `cs` and increase strictly. */
  lemma {:induction false} MatchingPositionsIncrease(cs: seq<YogaClass>, query: string, filter: string)
    ensures forall k :: 0 <= k < |MatchingPositions(cs, query, filter)| ==>
      0 <= MatchingPositions(cs, query, filter)[k] < |cs|
    ensures forall k, l :: 0 <= k < l < |MatchingPositions(cs, query, filter)| ==>
      MatchingPositions(cs, query, filter)[k] < MatchingPositions(cs, query, filter)[l]
  {
    if cs != [] {
      MatchingPositionsIncrease(cs[..|cs| - 1], query, filter);
    }
  }

  /** A position is listed exactly when its record matches. */
  lemma {:induction false} MatchingPositionsComplete(cs: seq<YogaClass>, query: string, filter: string)
    ensures forall i :: 0 <= i < |cs| ==>
      (i in MatchingPositions(cs, query, filter) <==> MatchesSearchQuery(cs[i], query, filter))
  {
    if cs != [] {
      var init := cs[..|cs| - 1];
      MatchingPositionsComplete(init, query, filter);
      MatchingPositionsIncrease(init, query, filter);
      var pos0 := MatchingPositions(init, query, filter);
      forall i | 0 <= i < |cs| - 1
        ensures i in MatchingPositions(cs, query, filter) <==> MatchesSearchQuery(cs[i], query, filter)
      {
        assert cs[i] == init[i];
        assert forall k :: 0 <= k < |pos0| ==> pos0[k] < |cs| - 1;
      }
    }
  }

  /** The shown list holds the records at the matching positions, one for one. */
  lemma {:induction false} FilterTakesMatchingPositions(cs: seq<YogaClass>, query: string, filter: string)
    ensures |FilterClasses(cs, query, filter)| == |MatchingPositions(cs, query, filter)|
    ensures forall k :: 0 <= k < |MatchingPositions(cs, query, filter)| ==>
      0 <= MatchingPositions(cs, query, filter)[k] < |cs| &&
      FilterClasses(cs, query, filter)[k] == cs[MatchingPositions(cs, query, filter)[k]]
  {
    if cs != [] {
      var init := cs[..|cs| - 1];
      FilterTakesMatchingPositions(init, query, filter);
      var r0, pos0 := FilterClasses(init, query, filter), MatchingPositions(init, query, filter);
      forall k | 0 <= k < |pos0| ensures cs[pos0[k]] == init[pos0[k]] { }
    }
  }

  /**
   * The shown list is exactly the order-preserving selection of the matching
   * records: it lists `cs` at strictly increasing positions, and a position is
   * listed exactly when its record matches.
   */
  lemma {:induction false} FilterIsOrderedSelection(cs: seq<YogaClass>, query: string, filter: string)
    ensures var r, pos := FilterClasses(cs, query, filter), MatchingPositions(cs, query, filter);
      |r| == |pos| &&
      (forall k :: 0 <= k < |pos| ==> 0 <= pos[k] < |cs| && r[k] == cs[pos[k]]) &&
      (forall k, l :: 0 <= k < l < |pos| ==> pos[k] < pos[l]) &&
      (forall i :: 0 <= i < |cs| ==> (i in pos <==> MatchesSearchQuery(cs[i], query, filter)))
  {
    MatchingPositionsIncrease(cs, query, filter);
    MatchingPositionsComplete(cs, query, filter);
    FilterTakesMatchingPositions(cs, query, filter);
  }

  /** A record is shown exactly when it is in the list and matches. */
  lemma {:induction false} FilterMembership(cs: seq<YogaClass>, query: string, filter: string, c: YogaClass)
    ensures c in FilterClasses(cs, query, filter) <==> c in cs && MatchesSearchQuery(c, query, filter)
  {
    if cs != [] {
      var init := cs[..|cs| - 1];
      FilterMembership(init, query, filter, c);
      assert cs == init + [cs[|cs| - 1]];
    }
  }

  /** With an empty query every record is shown, in order. */
  lemma {:induction false} FilterEmptyQueryKeepsAll(cs: seq<YogaClass>, filter: string)
    ensures FilterClasses(cs, "", filter) == cs
  {
    if cs != [] {
      FilterEmptyQueryKeepsAll(cs[..|cs| - 1], filter);
      EmptyQueryMatches(cs[|cs| - 1], filter);
    }
  }

  /**
   * Narrowing to one field shows a sub-list of the "All" results: filtering
   * the "All" results by the field gives the same list as filtering directly.
   */
  lemma {:induction false} FieldFilterRefinesAll(cs: seq<YogaClass>, query: string, filter: string)
    requires IsFieldFilter(filter)
    ensures FilterClasses(FilterClasses(cs, query, FILTER_ALL), query, filter) == FilterClasses(cs, query, filter)
  {
    if cs != [] {
      var init, last := cs[..|cs| - 1], cs[|cs| - 1];
      FieldFilterRefinesAll(init, query, filter);
      var all0 := FilterClasses(init, query, FILTER_ALL);
      if MatchesSearchQuery(last, query, FILTER_ALL) {
        var all := all0 + [last];
        assert all[..|all| - 1] == all0;
      } else {
        FieldFilterImpliesAll(last, query, filter);
        assert FilterClasses(cs, query, FILTER_ALL) == all0;
        assert FilterClasses(cs, query, filter) == FilterClasses(init, query, filter);
      }
    }
  }

  /** The shown list does not depend on the letter case of the query. */
  lemma {:induction false} FilterIgnoresQueryCase(cs: seq<YogaClass>, q1: string, q2: string, filter: string)
    requires LowerString(q1) == LowerString(q2)
    ensures FilterClasses(cs, q1, filter) == FilterClasses(cs, q2, filter)
  {
    if cs != [] {
      FilterIgnoresQueryCase(cs[..|cs| - 1], q1, q2, filter);
      MatchIgnoresQueryCase(cs[|cs| - 1], q1, q2, filter);
    }
  }
}
