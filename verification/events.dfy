/**
 * The events calendar: every event of every listing in ascending date
 * order, narrowed by city and a case-insensitive substring of the event's
 * title or the listing's name.
 */
module EventsCalendar {
  import opened Seqs
  import opened Sorting
  import opened Text
  import opened Directory

  /** An event together with the listing that hosts it. */
  datatype Listed = Listed(event: Event, business: Business)

  function ListedOf(b: Business): (r: seq<Listed>)
    ensures |r| == |b.events| && forall i :: 0 <= i < |r| ==> r[i] == Listed(b.events[i], b)
  {
    seq(|b.events|, i requires 0 <= i < |b.events| => Listed(b.events[i], b))
  }

  function Events(catalog: seq<Business>): seq<Listed>
  {
    if catalog == [] then [] else ListedOf(catalog[0]) + Events(catalog[1..])
  }

  /** An event is listed exactly when its host is in the catalog and lists it. */
  lemma {:induction false} EventsComplete(catalog: seq<Business>)
    ensures forall e :: e in Events(catalog) <==> e.business in catalog && e.event in e.business.events
  {
    if catalog != [] {
      EventsComplete(catalog[1..]);
      var b := catalog[0];
      forall e
        ensures e in Events(catalog) <==> e.business in catalog && e.event in e.business.events
      {
        if e in ListedOf(b) {
          var i :| 0 <= i < |b.events| && ListedOf(b)[i] == e;
        }
        if e.business == b && e.event in b.events {
          var i :| 0 <= i < |b.events| && b.events[i] == e.event;
          assert ListedOf(b)[i] == e;
        }
      }
    }
  }

  function DateKey(e: Listed): Key
  {
    Key(e.event.date, 0)
  }

  /** `allEvents`: soonest first, events on the same date in catalog order. */
  function AllEvents(catalog: seq<Business>): (r: seq<Listed>)
    ensures multiset(r) == multiset(Events(catalog)) && SortedBy(r, DateKey)
  {
    SortBy(Events(catalog), DateKey)
  }

  /** The calendar holds every event once, in non-decreasing date order. */
  lemma {:induction false} AllEventsOrdered(catalog: seq<Business>)
    ensures multiset(AllEvents(catalog)) == multiset(Events(catalog))
    ensures forall i, j :: 0 <= i < j < |AllEvents(catalog)| ==>
              AllEvents(catalog)[i].event.date <= AllEvents(catalog)[j].event.date
  {
    var all := AllEvents(catalog);
    forall i, j | 0 <= i < j < |all|
      ensures all[i].event.date <= all[j].event.date
    {
      assert KeyLe(DateKey(all[i]), DateKey(all[j]));
    }
  }

  /** Two events on the same date stay in catalog order. */
  lemma {:induction false} AllEventsStable(catalog: seq<Business>, i: nat, j: nat)
    requires i < j < |AllEvents(catalog)|
    requires AllEvents(catalog)[i].event.date == AllEvents(catalog)[j].event.date
    ensures exists a, b :: 0 <= a < b < |Events(catalog)| &&
              Events(catalog)[a] == AllEvents(catalog)[i] && Events(catalog)[b] == AllEvents(catalog)[j]
  {
    SortedTiesKeepOrder(Events(catalog), DateKey, i, j);
  }

  /** The calendar's filters; `""` means unset. */
  datatype EventFilter = EventFilter(city: string, query: string)

  predicate EventMatches(e: Listed, f: EventFilter)
  {
    && (f.city == "" || e.business.city == f.city)
    && (f.query == "" || Contains(Lower(e.event.title), Lower(f.query)) || Contains(Lower(e.business.name), Lower(f.query)))
  }

  function Matching(f: EventFilter): Listed -> bool
  {
    e => EventMatches(e, f)
  }

  /** `filteredEvents`. */
  function FilteredEvents(catalog: seq<Business>, f: EventFilter): (r: seq<Listed>)
    ensures forall e :: e in r <==> e in AllEvents(catalog) && EventMatches(e, f)
  {
    Filter(AllEvents(catalog), Matching(f))
  }

  /**
   * The filtered calendar holds exactly the events that pass every set
   * filter, still in date order.
   */
  lemma {:induction false} FilteredEventsCorrect(catalog: seq<Business>, f: EventFilter)
    ensures forall e :: e in FilteredEvents(catalog, f) <==>
              e.business in catalog && e.event in e.business.events && EventMatches(e, f)
    ensures IsSubseq(FilteredEvents(catalog, f), AllEvents(catalog))
    ensures SortedBy(FilteredEvents(catalog, f), DateKey)
  {
    var all := AllEvents(catalog);
    EventsComplete(catalog);
    assert forall e :: e in all <==> e in Events(catalog) by {
      assert forall e :: e in all <==> e in multiset(all);
      assert forall e :: e in Events(catalog) <==> e in multiset(Events(catalog));
    }
    FilterIsSubseq(all, Matching(f));
    SubseqSorted(FilteredEvents(catalog, f), all, DateKey);
  }

  /** With no filter set the whole calendar is shown. */
  lemma {:induction false} NoFilterShowsAll(catalog: seq<Business>)
    ensures FilteredEvents(catalog, EventFilter("", "")) == AllEvents(catalog)
  {
    FilterKeepsAll(AllEvents(catalog), Matching(EventFilter("", "")));
  }
}
