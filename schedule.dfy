/**
 * The event schedule of the festival site: a list of event records, three
 * facet selectors (venue, club, day) and the filter that decides which
 * events are listed.  Events whose club is "General" are never listed.
 */
module Schedule {

  datatype Option<T> = None | Some(value: T)

  /** The wildcard selector value, and the club value the list always hides. */
  const All: string := "All"
  const General: string := "General"

  /** The options offered by the three rows of filter buttons. */
  const Venues: seq<string> := ["All", "Seminar Hall", "SDPK", "Placement Auditorium"]
  const Clubs: seq<string> := ["All", "Club 1", "Club 2", "Club 3", "Club 4", "Club 5"]
  const Dates: seq<string> := ["All", "14", "15"]

  datatype EventDate = EventDate(day: string, month: string, year: string)

  /** One scheduled activity; only the fields the schedule view reads. */
  datatype Event = Event(
    id: string,
    title: string,
    date: EventDate,
    time: string,
    venue: string,
    club: string,
    status: string)

  /** The values of the three selectors. */
  datatype Selection = Selection(venue: string, club: string, day: string)

  /** The selection the view starts with and that "Clear Filters" restores. */
  const Cleared: Selection := Selection(All, All, All)

  /** A selector accepts a field value when it is the wildcard or equal to it. */
  predicate Matches(selected: string, value: string) {
    selected == All || value == selected
  }

  /** The filter callback: drop "General" events first, then test the facets. */
  predicate Keep(e: Event, s: Selection) {
    if e.club == General then false
    else Matches(s.venue, e.venue) && Matches(s.club, e.club) && Matches(s.day, e.date.day)
  }

  /**
   * `events.filter(Keep)`: the listed events, in their original order.  No
   * listed event is a "General" one, whatever the selectors.
   */
  function FilterEvents(es: seq<Event>, s: Selection): (r: seq<Event>)
    ensures |r| <= |es|
    ensures forall e :: e in r ==> e in es && e.club != General
  {
    if es == [] then []
    else if Keep(es[0], s) then [es[0]] + FilterEvents(es[1..], s)
    else FilterEvents(es[1..], s)
  }

  /** Reference view for the cleared selection: every event of a real club. */
  function ClubEvents(es: seq<Event>): seq<Event> {
    if es == [] then []
    else if es[0].club != General then [es[0]] + ClubEvents(es[1..])
    else ClubEvents(es[1..])
  }

  /** `xs` is obtained from `ys` by deleting elements, without reordering. */
  predicate IsSubsequence<T(==)>(xs: seq<T>, ys: seq<T>)
    decreases |ys|
  {
    xs == [] ||
    (ys != [] &&
      ((xs[0] == ys[0] && IsSubsequence(xs[1..], ys[1..])) || IsSubsequence(xs, ys[1..])))
  }

  /** `narrow` agrees with every concrete selector of `wide`. */
  predicate Narrows(narrow: Selection, wide: Selection) {
    && Matches(wide.venue, narrow.venue)
    && Matches(wide.club, narrow.club)
    && Matches(wide.day, narrow.day)
  }

  /** An event is listed iff it is not a "General" event and every selector accepts it. */
  lemma {:induction false} FilterMembership(es: seq<Event>, s: Selection, e: Event)
    ensures e in FilterEvents(es, s) <==>
      && e in es
      && e.club != General
      && (s.venue == All || e.venue == s.venue)
      && (s.club == All || e.club == s.club)
      && (s.day == All || e.date.day == s.day)
  {
    if es != [] {
      FilterMembership(es[1..], s, e);
      assert es == [es[0]] + es[1..];
    }
  }

  /** Each kept event is listed exactly as often as it occurs; dropped ones never. */
  lemma {:induction false} FilterMultiplicity(es: seq<Event>, s: Selection, e: Event)
    ensures multiset(FilterEvents(es, s))[e] == if Keep(e, s) then multiset(es)[e] else 0
  {
    if es != [] {
      FilterMultiplicity(es[1..], s, e);
      assert es == [es[0]] + es[1..];
    }
  }

  /** The listed events are an order-preserving subsequence of the input. */
  lemma {:induction false} FilterIsSubsequence(es: seq<Event>, s: Selection)
    ensures IsSubsequence(FilterEvents(es, s), es)
  {
    if es != [] {
      FilterIsSubsequence(es[1..], s);
    }
  }

  /** Filtering the listed events again changes nothing. */
  lemma {:induction false} FilterIdempotent(es: seq<Event>, s: Selection)
    ensures FilterEvents(FilterEvents(es, s), s) == FilterEvents(es, s)
  {
    if es != [] {
      FilterIdempotent(es[1..], s);
      if Keep(es[0], s) {
        var r := FilterEvents(es[1..], s);
        assert ([es[0]] + r)[1..] == r;
      }
    }
  }

  /** With every selector at "All" the list shows exactly the club events. */
  lemma {:induction false} ClearedShowsClubEvents(es: seq<Event>)
    ensures FilterEvents(es, Cleared) == ClubEvents(es)
  {
    if es != [] {
      ClearedShowsClubEvents(es[1..]);
    }
  }

  /**
   * Making selectors more specific (for instance one of them from "All" to a
   * concrete value) filters the old list further: the new list is the old
   * list filtered again, and so a subsequence of it.
   */
  lemma {:induction false} NarrowingFiltersFurther(es: seq<Event>, wide: Selection, narrow: Selection)
    requires Narrows(narrow, wide)
    ensures FilterEvents(es, narrow) == FilterEvents(FilterEvents(es, wide), narrow)
    ensures IsSubsequence(FilterEvents(es, narrow), FilterEvents(es, wide))
  {
    if es != [] {
      NarrowingFiltersFurther(es[1..], wide, narrow);
      if Keep(es[0], wide) {
        var r := FilterEvents(es[1..], wide);
        assert ([es[0]] + r)[1..] == r;
      }
    }
    FilterIsSubsequence(FilterEvents(es, wide), narrow);
  }

  /** The text of an event's action button. */
  function ActionLabel(status: string): (caption: string)
    ensures caption == "Break" <==> status == "Rest"
    ensures caption == "Break" || caption == "View Event"
    ensures caption == "Break" ==> IsUnavailable(status)
    ensures IsUnavailable(status) && caption == "View Event" <==> status == "Sold Out"
  {
    if status == "Rest" then "Break" else "View Event"
  }

  /** Whether the action button gets the greyed-out, not-allowed styling. */
  predicate IsUnavailable(status: string) {
    status == "Rest" || status == "Sold Out"
  }

  /** The caption of a date filter button. */
  function DateLabel(day: string): (caption: string)
    ensures day == All <==> caption == "All Dates"
    ensures day != All ==> |caption| == |day| + 4 && caption[..4] == "Feb " && caption[4..] == day
  {
    if day == All then "All Dates"
    else
      var c := "Feb " + day;
      assert c[0] == 'F';
      c
  }

  /** Reads a date button caption back to the selector value it stands for. */
  function DayOfLabel(caption: string): Option<string> {
    if caption == "All Dates" then Some(All)
    else if |caption| >= 4 && caption[..4] == "Feb " then Some(caption[4..])
    else None
  }

  /** Every day value is recovered from its button caption. */
  lemma DateLabelRoundTrip(day: string)
    ensures DayOfLabel(DateLabel(day)) == Some(day)
  {
  }

  /** Distinct day values get distinct captions. */
  lemma DateLabelInjective(d1: string, d2: string)
    requires DateLabel(d1) == DateLabel(d2)
    ensures d1 == d2
  {
    DateLabelRoundTrip(d1);
    DateLabelRoundTrip(d2);
  }

  /**
   * The schedule view's state: the (immutable) event list and the three
   * selectors set by the filter buttons.
   */
  class ScheduleView {
    const events: seq<Event>
    var venue: string
    var club: string
    var day: string

    /**
     * Each selector holds one of the options its buttons offer.  This only
     * records the button option lists; the filter's properties hold for any
     * selection.
     */
    predicate Valid()
      reads this
    {
      venue in Venues && club in Clubs && day in Dates
    }

    function Selected(): Selection
      reads this
    {
      Selection(venue, club, day)
    }

    /** The events listed for the current selectors. */
    function Shown(): seq<Event>
      reads this
    {
      FilterEvents(events, Selected())
    }

    constructor (events: seq<Event>)
      ensures this.events == events
      ensures Valid() && Selected() == Cleared
      ensures Shown() == ClubEvents(events)
    {
      this.events := events;
      venue, club, day := All, All, All;
      new;
      ClearedShowsClubEvents(events);
    }

    /** A click on a venue button. */
    method SelectVenue(v: string)
      requires Valid() && v in Venues
      modifies this
      ensures Valid()
      ensures Selected() == old(Selected()).(venue := v)
    {
      venue := v;
    }

    /** A click on a club button. */
    method SelectClub(c: string)
      requires Valid() && c in Clubs
      modifies this
      ensures Valid()
      ensures Selected() == old(Selected()).(club := c)
    {
      club := c;
    }

    /** A click on a date button. */
    method SelectDate(d: string)
      requires Valid() && d in Dates
      modifies this
      ensures Valid()
      ensures Selected() == old(Selected()).(day := d)
    {
      day := d;
    }

    /** "Clear Filters": all selectors back to "All", so every club event is listed. */
    method ClearFilters()
      modifies this
      ensures Valid() && Selected() == Cleared
      ensures Shown() == ClubEvents(events)
      ensures IsSubsequence(old(Shown()), Shown())
    {
      ghost var before := Selected();
      venue, club, day := All, All, All;
      ClearedShowsClubEvents(events);
      NarrowingFiltersFurther(events, Cleared, before);
    }
  }
}
