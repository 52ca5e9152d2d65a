/**
 * The retirement calendar (`create_retirement_calendar`): age milestones
 * still ahead, the retirement date, and a yearly review from next year until
 * four years after retirement, ordered by year. The current year is a
 * parameter rather than read from the clock.
 */
module RetirementCalendar {

  datatype EventType = MilestoneEvent | RetirementEvent | ReviewEvent

  datatype Importance = High | Medium | Critical

  /** Titles and descriptions are display text and are not modelled. */
  datatype CalendarEvent = CalendarEvent(age: real, year: real, eventType: EventType, importance: Importance)

  /** The milestone ages, in the source's order; 59.5 is the penalty-free withdrawal age. */
  const MilestoneAges: seq<real> := [50.0, 55.0, 59.5, 62.0, 65.0, 67.0, 70.0, 72.0]

  function MilestoneImportance(age: real): Importance {
    if age == 59.5 || age == 65.0 || age == 67.0 then High else Medium
  }

  function MilestoneAt(currentAge: int, currentYear: int, age: real): CalendarEvent {
    CalendarEvent(age, currentYear as real + (age - currentAge as real), MilestoneEvent, MilestoneImportance(age))
  }

  /** The milestones at or after the current age, in list order. */
  function MilestoneEvents(currentAge: int, currentYear: int, ages: seq<real>): seq<CalendarEvent> {
    if ages == [] then []
    else
      var earlier := MilestoneEvents(currentAge, currentYear, ages[..|ages| - 1]);
      var age := ages[|ages| - 1];
      if currentAge as real <= age then earlier + [MilestoneAt(currentAge, currentYear, age)] else earlier
  }

  function RetirementAt(currentAge: int, retirementAge: int, currentYear: int): CalendarEvent {
    CalendarEvent(retirementAge as real, (currentYear + (retirementAge - currentAge)) as real, RetirementEvent, Critical)
  }

  function ReviewAt(currentAge: int, currentYear: int, i: int): CalendarEvent {
    CalendarEvent((currentAge + i) as real, (currentYear + i) as real, ReviewEvent, Medium)
  }

  /** Reviews for years 1 to `last` from now. */
  function Reviews(currentAge: int, currentYear: int, last: int): seq<CalendarEvent>
    decreases if last < 0 then 0 else last
  {
    if last <= 0 then [] else Reviews(currentAge, currentYear, last - 1) + [ReviewAt(currentAge, currentYear, last)]
  }

  /** The events in the order they are collected, before sorting. */
  function CollectedEvents(currentAge: int, retirementAge: int, currentYear: int): seq<CalendarEvent> {
    MilestoneEvents(currentAge, currentYear, MilestoneAges) + [RetirementAt(currentAge, retirementAge, currentYear)] +
    Reviews(currentAge, currentYear, retirementAge - currentAge + 4)
  }

  /** Places an event after every event of the same or an earlier year. */
  function InsertByYear(e: CalendarEvent, events: seq<CalendarEvent>): seq<CalendarEvent> {
    if events == [] then [e]
    else if events[0].year <= e.year then [events[0]] + InsertByYear(e, events[1..])
    else [e] + events
  }

  /** A stable sort by year, as Python's `sorted` with a key is. */
  function SortByYear(events: seq<CalendarEvent>): seq<CalendarEvent> {
    if events == [] then []
    else InsertByYear(events[|events| - 1], SortByYear(events[..|events| - 1]))
  }

  /**
   * Collects milestones, the retirement date and the reviews with the
   * source's two loops, then sorts by year.
   */
  method CreateRetirementCalendar(currentAge: int, retirementAge: int, currentYear: int)
    returns (events: seq<CalendarEvent>)
    ensures events == SortByYear(CollectedEvents(currentAge, retirementAge, currentYear))
  {
    var collected: seq<CalendarEvent> := [];
    for k := 0 to |MilestoneAges|
      invariant collected == MilestoneEvents(currentAge, currentYear, MilestoneAges[..k])
    {
      assert MilestoneAges[..k + 1][..k] == MilestoneAges[..k];
      var age := MilestoneAges[k];
      if currentAge as real <= age {
        var year := currentYear as real + (age - currentAge as real);
        collected := collected + [CalendarEvent(age, year, MilestoneEvent, MilestoneImportance(age))];
      }
    }
    assert MilestoneAges[..|MilestoneAges|] == MilestoneAges;

    var retirementYear := currentYear + (retirementAge - currentAge);
    collected := collected + [CalendarEvent(retirementAge as real, retirementYear as real, RetirementEvent, Critical)];

    ghost var beforeReviews := collected;
    var bound := retirementAge - currentAge + 5;
    var i := 0;
    while i < bound
      invariant bound <= 0 ==> i == 0
      invariant bound > 0 ==> 0 <= i <= bound
      invariant collected == beforeReviews + Reviews(currentAge, currentYear, i - 1)
    {
      if i > 0 {
        collected := collected + [CalendarEvent((currentAge + i) as real, (currentYear + i) as real, ReviewEvent, Medium)];
      }
      i := i + 1;
    }
    events := SortByYear(collected);
  }

  predicate SortedByYear(events: seq<CalendarEvent>) {
    forall i, j :: 0 <= i < j < |events| ==> events[i].year <= events[j].year
  }

  /** The events of one year, in order. */
  function OfYear(events: seq<CalendarEvent>, year: real): seq<CalendarEvent> {
    if events == [] then []
    else
      var rest := OfYear(events[..|events| - 1], year);
      if events[|events| - 1].year == year then rest + [events[|events| - 1]] else rest
  }

  lemma {:induction false} OfYearAppend(a: seq<CalendarEvent>, b: seq<CalendarEvent>, year: real)
    ensures OfYear(a + b, year) == OfYear(a, year) + OfYear(b, year)
    decreases |b|
  {
    if b == [] {
      assert a + b == a;
    } else {
      var c := b[..|b| - 1];
      OfYearAppend(a, c, year);
      assert (a + b)[..|a + b| - 1] == a + c;
    }
  }

  lemma OfYearSingle(e: CalendarEvent, year: real)
    ensures OfYear([e], year) == if e.year == year then [e] else []
  {
    assert [e][..0] == [];
  }

  /** Inserting adds exactly the event. */
  lemma {:induction false} InsertPermutes(e: CalendarEvent, events: seq<CalendarEvent>)
    ensures multiset(InsertByYear(e, events)) == multiset(events) + multiset{e}
    decreases |events|
  {
    if events != [] && events[0].year <= e.year {
      InsertPermutes(e, events[1..]);
      assert events == [events[0]] + events[1..];
    }
  }

  /** Inserting into a sorted list keeps it sorted. */
  lemma {:induction false} InsertSorted(e: CalendarEvent, events: seq<CalendarEvent>)
    requires SortedByYear(events)
    ensures SortedByYear(InsertByYear(e, events))
    decreases |events|
  {
    var r := InsertByYear(e, events);
    if events == [] {
    } else if events[0].year <= e.year {
      var tail := events[1..];
      InsertSorted(e, tail);
      InsertAbove(e, tail, events[0].year);
      var inserted := InsertByYear(e, tail);
      assert r == [events[0]] + inserted;
      forall i, j | 0 <= i < j < |r| ensures r[i].year <= r[j].year {
        assert r[j] == inserted[j - 1];
        if i > 0 {
          assert r[i] == inserted[i - 1];
        }
      }
    } else {
      assert r == [e] + events;
      forall i, j | 0 <= i < j < |r| ensures r[i].year <= r[j].year {
        if i > 0 {
          assert r[i] == events[i - 1] && r[j] == events[j - 1];
        } else {
          assert r[j] == events[j - 1];
        }
      }
    }
  }

  /** Inserting an event no earlier than a bound keeps every event no earlier than it. */
  lemma {:induction false} InsertAbove(e: CalendarEvent, events: seq<CalendarEvent>, bound: real)
    requires bound <= e.year
    requires forall i :: 0 <= i < |events| ==> bound <= events[i].year
    ensures forall i :: 0 <= i < |InsertByYear(e, events)| ==> bound <= InsertByYear(e, events)[i].year
    decreases |events|
  {
    var r := InsertByYear(e, events);
    if events == [] {
      assert r == [e];
    } else if events[0].year <= e.year {
      InsertAbove(e, events[1..], bound);
      assert r == [events[0]] + InsertByYear(e, events[1..]);
    } else {
      assert r == [e] + events;
    }
  }

  /** Inserting into a sorted list puts the event last among the events of its year. */
  lemma {:induction false} InsertStable(e: CalendarEvent, events: seq<CalendarEvent>, y: real)
    requires SortedByYear(events)
    ensures OfYear(InsertByYear(e, events), y) == OfYear(events + [e], y)
    decreases |events|
  {
    var r := InsertByYear(e, events);
    if events == [] {
    } else if events[0].year <= e.year {
      var tail := events[1..];
      InsertStable(e, tail, y);
      var inserted := InsertByYear(e, tail);
      assert r == [events[0]] + inserted;
      OfYearAppend([events[0]], inserted, y);
      OfYearAppend(tail, [e], y);
      OfYearAppend([events[0]], tail + [e], y);
      assert events + [e] == [events[0]] + (tail + [e]);
    } else {
      assert r == [e] + events;
      OfYearAppend([e], events, y);
      OfYearAppend(events, [e], y);
      OfYearSingle(e, y);
      if e.year == y {
        NoneOfYear(events, y);
      }
    }
  }

  /** A sorted list whose first event is later than `year` has no event of that year. */
  lemma {:induction false} NoneOfYear(events: seq<CalendarEvent>, year: real)
    requires SortedByYear(events) && events != [] && events[0].year > year
    ensures OfYear(events, year) == []
    decreases |events|
  {
    var init := events[..|events| - 1];
    if init != [] {
      NoneOfYear(init, year);
    }
    assert events[|events| - 1].year >= events[0].year;
  }

  /**
   * The calendar sort orders by year, loses and adds nothing, and keeps the
   * collection order among the events of each year.
   */
  lemma {:induction false} SortByYearCorrect(events: seq<CalendarEvent>)
    ensures SortedByYear(SortByYear(events))
    ensures multiset(SortByYear(events)) == multiset(events)
    ensures forall y :: OfYear(SortByYear(events), y) == OfYear(events, y)
    decreases |events|
  {
    if events != [] {
      var init := events[..|events| - 1];
      var last := events[|events| - 1];
      SortByYearCorrect(init);
      var sortedInit := SortByYear(init);
      InsertSorted(last, sortedInit);
      InsertPermutes(last, sortedInit);
      assert events == init + [last];
      forall y ensures OfYear(SortByYear(events), y) == OfYear(events, y) {
        InsertStable(last, sortedInit, y);
        OfYearAppend(sortedInit, [last], y);
        OfYearAppend(init, [last], y);
      }
    }
  }

  /** The milestones kept are exactly the listed ages from today on, each dated by the years to it. */
  lemma {:induction false} MilestoneEventsFacts(currentAge: int, currentYear: int, ages: seq<real>)
    ensures var ms := MilestoneEvents(currentAge, currentYear, ages);
      && |ms| <= |ages|
      && (forall e :: e in ms <==> (e.age in ages && currentAge as real <= e.age && e == MilestoneAt(currentAge, currentYear, e.age)))
    decreases |ages|
  {
    if ages != [] {
      var init := ages[..|ages| - 1];
      MilestoneEventsFacts(currentAge, currentYear, init);
      assert ages == init + [ages[|ages| - 1]];
    }
  }

  /** The reviews are one per year, from next year to `last` years ahead. */
  lemma {:induction false} ReviewsFacts(currentAge: int, currentYear: int, last: int)
    ensures var rs := Reviews(currentAge, currentYear, last);
      && |rs| == (if last < 0 then 0 else last)
      && forall i :: 0 <= i < |rs| ==> rs[i] == ReviewAt(currentAge, currentYear, i + 1)
    decreases if last < 0 then 0 else last
  {
    if last > 0 {
      ReviewsFacts(currentAge, currentYear, last - 1);
    }
  }

  /** Sorting keeps the length and the members. */
  lemma SortKeepsEvents(events: seq<CalendarEvent>)
    ensures |SortByYear(events)| == |events|
    ensures forall e :: e in SortByYear(events) <==> e in events
  {
    var sorted := SortByYear(events);
    SortByYearCorrect(events);
    assert |sorted| == |multiset(sorted)| == |multiset(events)| == |events|;
    forall e ensures e in sorted <==> e in events {
      assert e in sorted <==> e in multiset(sorted);
      assert e in events <==> e in multiset(events);
    }
  }

  /** Every collected event is dated so that its year minus its age is the current year minus the current age. */
  lemma CollectedDating(currentAge: int, retirementAge: int, currentYear: int)
    ensures forall e :: e in CollectedEvents(currentAge, retirementAge, currentYear) ==>
      e.year - e.age == (currentYear - currentAge) as real
  {
    var ms := MilestoneEvents(currentAge, currentYear, MilestoneAges);
    var rs := Reviews(currentAge, currentYear, retirementAge - currentAge + 4);
    MilestoneEventsFacts(currentAge, currentYear, MilestoneAges);
    ReviewsFacts(currentAge, currentYear, retirementAge - currentAge + 4);
    forall e | e in CollectedEvents(currentAge, retirementAge, currentYear)
      ensures e.year - e.age == (currentYear - currentAge) as real
    {
      if e in rs {
        var k :| 0 <= k < |rs| && rs[k] == e;
      }
    }
  }

  /** The collected reviews, one for each year from next year to four years after retirement. */
  lemma CollectedReviews(currentAge: int, retirementAge: int, currentYear: int)
    ensures forall i :: 1 <= i <= retirementAge - currentAge + 4 ==>
      ReviewAt(currentAge, currentYear, i) in CollectedEvents(currentAge, retirementAge, currentYear)
  {
    var collected := CollectedEvents(currentAge, retirementAge, currentYear);
    var ms := MilestoneEvents(currentAge, currentYear, MilestoneAges);
    var rs := Reviews(currentAge, currentYear, retirementAge - currentAge + 4);
    ReviewsFacts(currentAge, currentYear, retirementAge - currentAge + 4);
    forall i | 1 <= i <= retirementAge - currentAge + 4 ensures ReviewAt(currentAge, currentYear, i) in collected {
      assert rs[i - 1] == ReviewAt(currentAge, currentYear, i);
      assert collected[|ms| + 1 + (i - 1)] == rs[i - 1];
    }
  }

  /**
   * The calendar holds every milestone still ahead, the planned retirement
   * date as its only retirement event, and a review for each of the years up to four after retirement;
   * every event is dated so that its year minus its age is the current year
   * minus the current age.
   */
  lemma CalendarContents(currentAge: int, retirementAge: int, currentYear: int)
    ensures var events := SortByYear(CollectedEvents(currentAge, retirementAge, currentYear));
      && SortedByYear(events)
      && (forall e :: e in events && e.eventType == MilestoneEvent <==>
            e.age in MilestoneAges && currentAge as real <= e.age && e == MilestoneAt(currentAge, currentYear, e.age))
      && (forall e :: e in events && e.eventType == RetirementEvent <==> e == RetirementAt(currentAge, retirementAge, currentYear))
      && (forall e :: e in events ==> e.year - e.age == (currentYear - currentAge) as real)
      && (forall i :: 1 <= i <= retirementAge - currentAge + 4 ==> ReviewAt(currentAge, currentYear, i) in events)
      && |events| == |MilestoneEvents(currentAge, currentYear, MilestoneAges)| + 1 +
           (if retirementAge - currentAge + 4 < 0 then 0 else retirementAge - currentAge + 4)
  {
    var collected := CollectedEvents(currentAge, retirementAge, currentYear);
    SortByYearCorrect(collected);
    SortKeepsEvents(collected);
    CollectedKinds(currentAge, retirementAge, currentYear);
    CollectedDating(currentAge, retirementAge, currentYear);
    CollectedReviews(currentAge, retirementAge, currentYear);
  }

  /** Before sorting: the milestones ahead, one retirement event, and the count of all events. */
  lemma CollectedKinds(currentAge: int, retirementAge: int, currentYear: int)
    ensures var collected := CollectedEvents(currentAge, retirementAge, currentYear);
      && (forall e :: e in collected && e.eventType == MilestoneEvent <==>
            e.age in MilestoneAges && currentAge as real <= e.age && e == MilestoneAt(currentAge, currentYear, e.age))
      && (forall e :: e in collected && e.eventType == RetirementEvent <==> e == RetirementAt(currentAge, retirementAge, currentYear))
      && |collected| == |MilestoneEvents(currentAge, currentYear, MilestoneAges)| + 1 +
           (if retirementAge - currentAge + 4 < 0 then 0 else retirementAge - currentAge + 4)
  {
    var collected := CollectedEvents(currentAge, retirementAge, currentYear);
    var ms := MilestoneEvents(currentAge, currentYear, MilestoneAges);
    var rs := Reviews(currentAge, currentYear, retirementAge - currentAge + 4);
    MilestoneEventsFacts(currentAge, currentYear, MilestoneAges);
    ReviewsFacts(currentAge, currentYear, retirementAge - currentAge + 4);
    assert collected[|ms|] == RetirementAt(currentAge, retirementAge, currentYear);
    forall e ensures (e in collected && e.eventType == MilestoneEvent <==> e in ms) &&
                     (e in collected && e.eventType == RetirementEvent <==> e == collected[|ms|]) {
      if e in rs {
        var k :| 0 <= k < |rs| && rs[k] == e;
      }
    }
  }
}
