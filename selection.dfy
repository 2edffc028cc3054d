/**
 * Splitting the published timetable entries into today's and tomorrow's
 * groups by a marker word in their title.
 */
module Selection {
  import opened Sequences

  /** A published timetable entry: its title and the address of its image. */
  datatype MenuItem = MenuItem(title: string, url: string)

  const TodayMarker: string := "heute"
  const TomorrowMarker: string := "morgen"

  /** `sub` occurs in `s` starting at index i. */
  ghost predicate OccursAt(s: string, sub: string, i: int)
  {
    0 <= i && i + |sub| <= |s| && s[i..i + |sub|] == sub
  }

  /** Substring search: true when `sub` occurs somewhere in `s` (the empty string occurs everywhere). */
  function Contains(s: string, sub: string): (found: bool)
    ensures found <==> exists i :: OccursAt(s, sub, i)
  {
    if |sub| > |s| then false
    else if s[..|sub|] == sub then
      assert OccursAt(s, sub, 0);
      true
    else
      var rest := Contains(s[1..], sub);
      assert rest ==> exists i :: OccursAt(s, sub, i) by {
        if rest {
          var j :| OccursAt(s[1..], sub, j);
          assert s[1..][j..j + |sub|] == s[j + 1..j + 1 + |sub|];
          assert OccursAt(s, sub, j + 1);
        }
      }
      assert (exists i :: OccursAt(s, sub, i)) ==> rest by {
        if i :| OccursAt(s, sub, i) {
          assert i != 0;
          assert s[1..][i - 1..i - 1 + |sub|] == s[i..i + |sub|];
          assert OccursAt(s[1..], sub, i - 1);
        }
      }
      rest
  }

  /** An entry belongs to today's group when its title mentions "heute". */
  predicate IsToday(item: MenuItem)
    ensures IsToday(item) <==> exists i :: OccursAt(item.title, "heute", i)
  {
    Contains(item.title, TodayMarker)
  }

  /** An entry belongs to tomorrow's group when its title mentions "morgen". */
  predicate IsTomorrow(item: MenuItem)
    ensures IsTomorrow(item) <==> exists i :: OccursAt(item.title, "morgen", i)
  {
    Contains(item.title, TomorrowMarker)
  }

  /** The two filters applied to the fetched entries, each keeping the fetched order. */
  method SelectTimetables(timetables: seq<MenuItem>) returns (todays: seq<MenuItem>, tomorrows: seq<MenuItem>)
    ensures todays == Filtered(timetables, IsToday)
    ensures tomorrows == Filtered(timetables, IsTomorrow)
    ensures forall item :: item in todays <==> item in timetables && Contains(item.title, "heute")
    ensures forall item :: item in tomorrows <==> item in timetables && Contains(item.title, "morgen")
  {
    todays := Filter(timetables, IsToday);
    tomorrows := Filter(timetables, IsTomorrow);
  }

  /**
   * The groups are not disjoint: a fetched entry whose title carries both
   * markers is selected for today and for tomorrow.
   */
  lemma GroupsMayOverlap(timetables: seq<MenuItem>, item: MenuItem)
    requires item in timetables
    requires Contains(item.title, TodayMarker) && Contains(item.title, TomorrowMarker)
    ensures item in Filtered(timetables, IsToday) && item in Filtered(timetables, IsTomorrow)
  {
    FilteredMembers(timetables, IsToday, item);
    FilteredMembers(timetables, IsTomorrow, item);
  }

  /** Such an entry exists: the title "heute und morgen" carries both markers. */
  lemma BothMarkersPossible()
    ensures exists item :: IsToday(item) && IsTomorrow(item)
  {
    var item := MenuItem("heute und morgen", "");
    assert OccursAt(item.title, TodayMarker, 0);
    assert OccursAt(item.title, TomorrowMarker, 10);
    assert IsToday(item) && IsTomorrow(item);
  }
}
