/**
 RawBybitReplayHarness: which raw events a cutoff lets through. A message is its canonical
 JSON text, which is also its fingerprint.
 */
module Replay {
  import opened Optional
  import opened Sorting

  datatype Event = Event(eventTime: real, receivedTime: real, message: string)

  /** An event with its position in the input. */
  datatype Item = Item(index: nat, event: Event)

  datatype Diagnostic = OutOfOrder(index: nat, eventTime: real) | Duplicate(index: nat, eventTime: real)

  predicate Within(e: Event, asOf: Option<real>) { asOf.Some? ==> e.eventTime <= asOf.value }

  /** The sort key without the position: positions only break ties, which is what a stable sort does. */
  predicate Sooner(a: Event, b: Event) {
    a.eventTime < b.eventTime || (a.eventTime == b.eventTime && a.receivedTime < b.receivedTime)
  }

  // ---------------------------------------------------------------- the order

  function Items(events: seq<Event>): (items: seq<Item>)
    ensures |items| == |events|
  {
    seq(|events|, i requires 0 <= i < |events| => Item(i, events[i]))
  }

  /** The key with the position. */
  predicate KeyBefore(a: Item, b: Item) {
    || a.event.eventTime < b.event.eventTime
    || (a.event.eventTime == b.event.eventTime && a.event.receivedTime < b.event.receivedTime)
    || (a.event.eventTime == b.event.eventTime && a.event.receivedTime == b.event.receivedTime && a.index < b.index)
  }

  /** sorted(enumerate(events), key=(event_time, received_time, index)) */
  function Ordered(events: seq<Event>): seq<Item> { Sorted(Items(events), KeyBefore) }

  /** The arrangement is the input sorted by (event time, received time, position). */
  lemma OrderedIsSorted(events: seq<Event>)
    ensures Increasing(Ordered(events), KeyBefore) && multiset(Ordered(events)) == multiset(Items(events))
    ensures |Ordered(events)| == |events|
    ensures forall i, j | 0 <= i < j < |events| ::
              var (a, b) := (Ordered(events)[i], Ordered(events)[j]);
              || a.event.eventTime < b.event.eventTime
              || (a.event.eventTime == b.event.eventTime && a.event.receivedTime < b.event.receivedTime)
              || (a.event.eventTime == b.event.eventTime && a.event.receivedTime == b.event.receivedTime
                  && a.index < b.index)
  {
    var items := Items(events);
    assert Strict(KeyBefore);
    forall i, j | 0 <= i < j < |items| ensures KeyBefore(items[i], items[j]) || KeyBefore(items[j], items[i]) {
      assert items[i].index < items[j].index;
    }
    SortedIsIncreasing(items, KeyBefore);
    SortedKeepsAll(items, KeyBefore);
  }

  // ---------------------------------------------------------------- the selection

  /** The ordered events, without their positions. */
  function Events(items: seq<Item>): seq<Event> {
    if items == [] then [] else Events(items[..|items| - 1]) + [items[|items| - 1].event]
  }

  function Kept(events: seq<Event>, asOf: Option<real>): seq<Event> {
    if events == [] then []
    else
      var before, last := Kept(events[..|events| - 1], asOf), events[|events| - 1];
      if Within(last, asOf) then before + [last] else before
  }

  function Messages(events: seq<Event>): set<string> { set e | e in events :: e.message }

  /** The first event of every fingerprint. */
  function FirstOfEach(events: seq<Event>): seq<Event> {
    if events == [] then []
    else
      var before, last := FirstOfEach(events[..|events| - 1]), events[|events| - 1];
      if last.message in Messages(before) then before else before + [last]
  }

  /** What _events_for_cutoff returns. */
  function Selected(events: seq<Event>, asOf: Option<real>): seq<Event> {
    FirstOfEach(Kept(Events(Ordered(events)), asOf))
  }

  lemma EventsAppend(items: seq<Item>, item: Item)
    ensures Events(items + [item]) == Events(items) + [item.event]
  {
    assert (items + [item])[..|items|] == items;
  }

  lemma {:induction false} EventsOfInsert(sorted: seq<Item>, item: Item)
    requires forall other | other in sorted :: other.index < item.index
    ensures Events(Insert(sorted, item, KeyBefore)) == Insert(Events(sorted), item.event, Sooner)
  {
    if sorted == [] {
      EventsAppend([], item);
    } else {
      var before, last := sorted[..|sorted| - 1], sorted[|sorted| - 1];
      assert sorted == before + [last] && last in sorted;
      EventsAppend(before, last);
      assert (Events(before) + [last.event])[..|Events(before)|] == Events(before);
      if Sooner(item.event, last.event) {
        EventsOfInsert(before, item);
        EventsAppend(Insert(before, item, KeyBefore), last);
      } else {
        EventsAppend(sorted, item);
      }
    }
  }

  /** The positions play no part: the order is a stable sort of the events themselves. */
  lemma {:induction false} EventsOfOrdered(events: seq<Event>)
    ensures Events(Ordered(events)) == Sorted(events, Sooner)
  {
    if events != [] {
      var before := events[..|events| - 1];
      EventsOfOrdered(before);
      assert Items(events)[..|events| - 1] == Items(before);
      var item := Items(events)[|events| - 1];
      SortedKeepsAll(Items(before), KeyBefore);
      forall other | other in Ordered(before) ensures other.index < item.index {
        assert other in multiset(Items(before));
      }
      EventsOfInsert(Ordered(before), item);
    }
  }

  ghost predicate Rising(s: seq<Event>) { forall i, j | 0 <= i < j < |s| :: !Sooner(s[j], s[i]) }

  lemma {:induction false} EventsAt(items: seq<Item>)
    ensures |Events(items)| == |items| && forall i | 0 <= i < |items| :: Events(items)[i] == items[i].event
  {
    if items != [] { EventsAt(items[..|items| - 1]); }
  }

  lemma SortedIsRising(events: seq<Event>)
    ensures Rising(Sorted(events, Sooner)) && multiset(Sorted(events, Sooner)) == multiset(events)
  {
    OrderedIsSorted(events);
    EventsAt(Ordered(events));
    EventsOfOrdered(events);
    var sorted := Sorted(events, Sooner);
    forall i, j | 0 <= i < j < |sorted| ensures !Sooner(sorted[j], sorted[i]) {
      assert KeyBefore(Ordered(events)[i], Ordered(events)[j]);
    }
    SortedKeepsAll(events, Sooner);
  }

  // ---------------------------------------------------------------- cutting and sorting commute

  lemma KeptAppend(events: seq<Event>, e: Event, asOf: Option<real>)
    ensures Kept(events + [e], asOf) == Kept(events, asOf) + (if Within(e, asOf) then [e] else [])
  {
    assert (events + [e])[..|events|] == events;
  }

  lemma {:induction false} KeptOfInsert(sorted: seq<Event>, e: Event, asOf: Option<real>)
    requires Rising(sorted)
    ensures Kept(Insert(sorted, e, Sooner), asOf) == if Within(e, asOf) then Insert(Kept(sorted, asOf), e, Sooner)
            else Kept(sorted, asOf)
  {
    hide Kept, Rising, Within;
    if sorted == [] {
      KeptAppend([], e, asOf);
      NothingIsKept(asOf);
    } else {
      var before, last := sorted[..|sorted| - 1], sorted[|sorted| - 1];
      assert sorted == before + [last];
      KeptAppend(before, last, asOf);
      if Sooner(e, last) {
        RisingBefore(sorted);
        KeptOfInsert(before, e, asOf);
        KeptAppend(Insert(before, e, Sooner), last, asOf);
        InsertAtEnd(Kept(before, asOf), last, e, Sooner);
        if !Within(last, asOf) { assert Kept(before, asOf) + [] == Kept(before, asOf); }
      } else {
        KeptAppend(sorted, e, asOf);
        if Within(e, asOf) { LastKept(sorted, e, asOf); }
      }
    }
  }

  lemma NothingIsKept(asOf: Option<real>)
    ensures Kept([], asOf) == []
  {}

  lemma RisingBefore(sorted: seq<Event>)
    requires sorted != [] && Rising(sorted)
    ensures Rising(sorted[..|sorted| - 1])
  {}

  /** If nothing in a rising sequence is later than e, nothing kept is either. */
  lemma {:induction false} LastKept(sorted: seq<Event>, e: Event, asOf: Option<real>)
    requires sorted != [] && Rising(sorted) && !Sooner(e, sorted[|sorted| - 1])
    ensures var kept := Kept(sorted, asOf); kept == [] || !Sooner(e, kept[|kept| - 1])
  {
    if !Within(sorted[|sorted| - 1], asOf) && |sorted| > 1 {
      assert !Sooner(sorted[|sorted| - 1], sorted[|sorted| - 2]);
      LastKept(sorted[..|sorted| - 1], e, asOf);
    }
  }

  lemma {:induction false} CutThenSort(events: seq<Event>, asOf: Option<real>)
    ensures Kept(Sorted(events, Sooner), asOf) == Sorted(Kept(events, asOf), Sooner)
  {
    if events != [] {
      var before, last := events[..|events| - 1], events[|events| - 1];
      CutThenSort(before, asOf);
      SortedIsRising(before);
      KeptOfInsert(Sorted(before, Sooner), last, asOf);
      if Within(last, asOf) {
        assert (Kept(before, asOf) + [last])[..|Kept(before, asOf)|] == Kept(before, asOf);
      }
    }
  }

  /** The selection at a cutoff depends on nothing but the events up to it, in their input order. */
  lemma OnlyThePastCounts(events: seq<Event>, others: seq<Event>, a: real)
    requires Kept(events, Some(a)) == Kept(others, Some(a))
    ensures Selected(events, Some(a)) == Selected(others, Some(a))
  {
    EventsOfOrdered(events);
    EventsOfOrdered(others);
    CutThenSort(events, Some(a));
    CutThenSort(others, Some(a));
  }

  lemma {:induction false} KeptOfConcat(a: seq<Event>, b: seq<Event>, asOf: Option<real>)
    ensures Kept(a + b, asOf) == Kept(a, asOf) + Kept(b, asOf)
  {
    if b == [] {
      assert a + b == a;
    } else {
      KeptOfConcat(a, b[..|b| - 1], asOf);
      assert (a + b)[..|a + b| - 1] == a + b[..|b| - 1];
    }
  }

  lemma {:induction false} NothingKept(events: seq<Event>, a: real)
    requires forall e | e in events :: e.eventTime > a
    ensures Kept(events, Some(a)) == []
  {
    if events != [] {
      assert events[|events| - 1] in events;
      NothingKept(events[..|events| - 1], a);
    }
  }

  /** Events later than the cutoff can be put anywhere in the input without changing the selection. */
  lemma FutureEventsDoNotMatter(before: seq<Event>, future: seq<Event>, after: seq<Event>, a: real)
    requires forall e | e in future :: e.eventTime > a
    ensures Selected(before + future + after, Some(a)) == Selected(before + after, Some(a))
  {
    NothingKept(future, a);
    KeptOfConcat(before + future, after, Some(a));
    KeptOfConcat(before, future, Some(a));
    KeptOfConcat(before, after, Some(a));
    assert Kept(before, Some(a)) + [] == Kept(before, Some(a));
    OnlyThePastCounts(before + future + after, before + after, a);
  }

  // ---------------------------------------------------------------- prefixes

  lemma {:induction false} KeptPrefix(sorted: seq<Event>, a: real, later: Option<real>)
    requires Rising(sorted) && (later.Some? ==> a <= later.value)
    ensures Kept(sorted, Some(a)) <= Kept(sorted, later)
    ensures sorted != [] && sorted[|sorted| - 1].eventTime <= a ==> Kept(sorted, Some(a)) == Kept(sorted, later)
  {
    if sorted != [] {
      KeptPrefix(sorted[..|sorted| - 1], a, later);
      if |sorted| > 1 { assert !Sooner(sorted[|sorted| - 1], sorted[|sorted| - 2]); }
    }
  }

  lemma {:induction false} FirstOfEachPrefix(events: seq<Event>, longer: seq<Event>)
    requires events <= longer
    ensures FirstOfEach(events) <= FirstOfEach(longer)
    decreases |longer|
  {
    if events != longer { FirstOfEachPrefix(events, longer[..|longer| - 1]); }
  }

  /** The selection at an earlier cutoff is a prefix of the selection at a later one, or at none. */
  lemma EarlierCutoffIsAPrefix(events: seq<Event>, a: real, later: Option<real>)
    requires later.Some? ==> a <= later.value
    ensures Selected(events, Some(a)) <= Selected(events, later)
  {
    EventsOfOrdered(events);
    SortedIsRising(events);
    KeptPrefix(Sorted(events, Sooner), a, later);
    FirstOfEachPrefix(Kept(Sorted(events, Sooner), Some(a)), Kept(Sorted(events, Sooner), later));
  }

  // ---------------------------------------------------------------- what is selected

  lemma {:induction false} FirstOfEachIsExact(events: seq<Event>)
    ensures forall i, j | 0 <= i < j < |FirstOfEach(events)| ::
              FirstOfEach(events)[i].message != FirstOfEach(events)[j].message
    ensures Messages(FirstOfEach(events)) == Messages(events)
    ensures forall e | e in FirstOfEach(events) :: e in events
  {
    if events != [] {
      var before, last := events[..|events| - 1], events[|events| - 1];
      FirstOfEachIsExact(before);
      var first := FirstOfEach(before);
      assert events == before + [last];
      assert Messages(events) == Messages(before) + {last.message};
      assert Messages(first + [last]) == Messages(first) + {last.message};
      if last.message !in Messages(first) {
        assert forall e | e in first :: e.message in Messages(first);
      } else {
        assert Messages(before) + {last.message} == Messages(before);
      }
    }
  }

  lemma {:induction false} InKept(events: seq<Event>, asOf: Option<real>, e: Event)
    ensures e in Kept(events, asOf) <==> e in events && Within(e, asOf)
  {
    if events != [] {
      InKept(events[..|events| - 1], asOf, e);
      assert events == events[..|events| - 1] + [events[|events| - 1]];
    }
  }

  lemma SelectedMessages(events: seq<Event>, asOf: Option<real>)
    ensures var s := Selected(events, asOf);
            && (forall i, j | 0 <= i < j < |s| :: s[i].message != s[j].message)
            && (forall e | e in s :: e in events && Within(e, asOf))
            && (forall e | e in events && Within(e, asOf) :: e.message in Messages(s))
  {
    EventsOfOrdered(events);
    SortedIsRising(events);
    var kept := Kept(Sorted(events, Sooner), asOf);
    FirstOfEachIsExact(kept);
    forall e ensures e in kept <==> e in events && Within(e, asOf) {
      InKept(Sorted(events, Sooner), asOf, e);
      assert e in multiset(Sorted(events, Sooner)) <==> e in multiset(events);
    }
  }

  /** Fingerprints in the selection are distinct, and every message that arrived in time is there once. */
  lemma SelectionIsExact(events: seq<Event>, asOf: Option<real>)
    ensures var s := Selected(events, asOf);
            && (forall i, j | 0 <= i < j < |s| :: s[i].message != s[j].message)
            && (forall e | e in s :: e in events && (asOf.None? || e.eventTime <= asOf.value))
            && (forall e | e in events && (asOf.None? || e.eventTime <= asOf.value) ::
                  exists chosen :: chosen in s && chosen.message == e.message)
  {
    hide Selected;
    SelectedMessages(events, asOf);
    var s := Selected(events, asOf);
    forall e | e in events && (asOf.None? || e.eventTime <= asOf.value)
      ensures exists chosen :: chosen in s && chosen.message == e.message
    {
      assert Within(e, asOf) && e.message in Messages(s);
    }
  }

  // ---------------------------------------------------------------- diagnostics

  /** Neighbours in the input whose times run backwards. */
  function Disorder(events: seq<Event>, asOf: Option<real>): seq<Diagnostic> {
    if |events| < 2 then []
    else
      var n := |events| - 1;
      Disorder(events[..n], asOf) +
      (if events[n].eventTime < events[n - 1].eventTime && Within(events[n], asOf)
       then [OutOfOrder(n, events[n].eventTime)] else [])
  }

  /** The events left out because their fingerprint was there already. */
  function Repeats(items: seq<Item>, asOf: Option<real>): seq<Diagnostic> {
    if items == [] then []
    else
      var before, last := items[..|items| - 1], items[|items| - 1];
      Repeats(before, asOf) +
      (if Within(last.event, asOf) && last.event.message in Messages(FirstOfEach(Kept(Events(before), asOf)))
       then [Duplicate(last.index, last.event.eventTime)] else [])
  }

  lemma {:induction false} SelectedOrReported(items: seq<Item>, asOf: Option<real>)
    ensures |FirstOfEach(Kept(Events(items), asOf))| + |Repeats(items, asOf)| == |Kept(Events(items), asOf)|
  {
    hide FirstOfEach, Kept, Events, Repeats;
    if items == [] {
      NothingChosen(asOf);
    } else {
      var before, last := items[..|items| - 1], items[|items| - 1];
      SelectedOrReported(before, asOf);
      TakeItem(before, last, asOf);
      assert items == before + [last];
    }
  }

  /** What one more ordered item does to the selection. */
  lemma TakeItem(before: seq<Item>, item: Item, asOf: Option<real>)
    ensures var chosen := FirstOfEach(Kept(Events(before), asOf));
            && Kept(Events(before + [item]), asOf) ==
                 Kept(Events(before), asOf) + (if Within(item.event, asOf) then [item.event] else [])
            && FirstOfEach(Kept(Events(before + [item]), asOf)) ==
                 if !Within(item.event, asOf) || item.event.message in Messages(chosen) then chosen
                 else chosen + [item.event]
    ensures Repeats(before + [item], asOf) == Repeats(before, asOf) +
              if Within(item.event, asOf) && item.event.message in Messages(FirstOfEach(Kept(Events(before), asOf)))
              then [Duplicate(item.index, item.event.eventTime)] else []
  {
    assert (before + [item])[..|before|] == before;
    EventsAppend(before, item);
    KeptAppend(Events(before), item.event, asOf);
    var kept := Kept(Events(before), asOf);
    assert (kept + [item.event])[..|kept|] == kept;
    assert kept + [] == kept;
  }

  /** The out-of-order report: every input position whose time is below that of the one before, within the cutoff. */
  lemma {:induction false} DisorderExactly(events: seq<Event>, asOf: Option<real>, d: Diagnostic)
    ensures d in Disorder(events, asOf) <==>
            && d.OutOfOrder? && 1 <= d.index < |events| && d.eventTime == events[d.index].eventTime
            && d.eventTime < events[d.index - 1].eventTime && (asOf.None? || d.eventTime <= asOf.value)
  {
    if |events| >= 2 { DisorderExactly(events[..|events| - 1], asOf, d); }
  }

  /** Place p of the ordered events repeats the message of an earlier place, both within the cutoff. */
  predicate Repeated(items: seq<Item>, asOf: Option<real>, p: int) {
    && 0 <= p < |items| && (asOf.None? || items[p].event.eventTime <= asOf.value)
    && exists q :: 0 <= q < p && items[q].event.message == items[p].event.message
                   && (asOf.None? || items[q].event.eventTime <= asOf.value)
  }

  lemma {:induction false} KeptMessages(items: seq<Item>, asOf: Option<real>, message: string)
    ensures message in Messages(FirstOfEach(Kept(Events(items), asOf))) <==>
            exists q :: 0 <= q < |items| && items[q].event.message == message
                        && (asOf.None? || items[q].event.eventTime <= asOf.value)
  {
    hide FirstOfEach, Kept, Events, Messages;
    if items == [] {
      NothingChosen(asOf);
    } else {
      var before, last := items[..|items| - 1], items[|items| - 1];
      KeptMessages(before, asOf, message);
      TakeItem(before, last, asOf);
      assert items == before + [last];
      MessagesAppend(FirstOfEach(Kept(Events(before), asOf)), last.event);
      if Within(last.event, asOf) && last.event.message == message {
        assert items[|before|].event.message == message;
      }
    }
  }

  lemma RepeatedStays(items: seq<Item>, asOf: Option<real>, p: int)
    requires items != [] && 0 <= p < |items| - 1
    ensures Repeated(items, asOf, p) <==> Repeated(items[..|items| - 1], asOf, p)
  {
    var before := items[..|items| - 1];
    assert forall q | 0 <= q <= p :: before[q] == items[q];
  }

  /** The duplicate report: every ordered event whose message an earlier one in time has already brought. */
  lemma {:induction false} RepeatsExactly(items: seq<Item>, asOf: Option<real>, d: Diagnostic)
    ensures d in Repeats(items, asOf) <==>
            exists p :: Repeated(items, asOf, p) && d == Duplicate(items[p].index, items[p].event.eventTime)
  {
    hide FirstOfEach, Kept, Events, Repeats, Messages;
    if items == [] {
      NothingChosen(asOf);
    } else {
      var before, last := items[..|items| - 1], items[|items| - 1];
      RepeatsExactly(before, asOf, d);
      TakeItem(before, last, asOf);
      assert items == before + [last];
      LastRepeats(items, asOf);
      hide Repeated;
      forall p | 0 <= p < |before| ensures before[p] == items[p]
                 && (Repeated(items, asOf, p) <==> Repeated(before, asOf, p)) {
        RepeatedStays(items, asOf, p);
      }
      RepeatedInside(items, asOf);
      RepeatedInside(before, asOf);
    }
  }

  lemma RepeatedInside(items: seq<Item>, asOf: Option<real>)
    ensures forall p | Repeated(items, asOf, p) :: 0 <= p < |items|
  {}

  lemma LastRepeats(items: seq<Item>, asOf: Option<real>)
    requires items != []
    ensures var (before, last) := (items[..|items| - 1], items[|items| - 1]);
            Repeated(items, asOf, |items| - 1) <==>
            Within(last.event, asOf) && last.event.message in Messages(FirstOfEach(Kept(Events(before), asOf)))
  {
    var before := items[..|items| - 1];
    assert forall q | 0 <= q < |before| :: before[q] == items[q];
    KeptMessages(before, asOf, items[|items| - 1].event.message);
    hide FirstOfEach, Kept, Events, Messages;
  }

  lemma {:induction false} SameKept(events: seq<Event>, asOf: Option<real>)
    ensures |Kept(Sorted(events, Sooner), asOf)| == |Kept(events, asOf)|
  {
    CutThenSort(events, asOf);
    SortedIsRising(Kept(events, asOf));
    assert |multiset(Sorted(Kept(events, asOf), Sooner))| == |multiset(Kept(events, asOf))|;
  }

  /** Every event up to the cutoff is either selected or reported as a duplicate. */
  lemma NothingVanishes(events: seq<Event>, asOf: Option<real>)
    ensures |Selected(events, asOf)| + |Repeats(Ordered(events), asOf)| == |Kept(events, asOf)|
  {
    SelectedOrReported(Ordered(events), asOf);
    EventsOfOrdered(events);
    SameKept(events, asOf);
  }

  class RawBybitReplayHarness {
    const events: seq<Event>
    var diagnostics: seq<Diagnostic>

    constructor (events: seq<Event>)
      ensures this.events == events && diagnostics == []
    {
      this.events := events;
      diagnostics := [];
    }

    method EventsForCutoff(asOf: Option<real>) returns (selected: seq<Event>)
      modifies this
      ensures selected == Selected(events, asOf)
      ensures diagnostics == Disorder(events, asOf) + Repeats(Ordered(events), asOf)
    {
      hide Disorder, Repeats, Ordered, FirstOfEach, Kept, Events;
      var disorder := FindDisorder(asOf);
      var chosen, repeats := Choose(Ordered(events), asOf);
      diagnostics := disorder + repeats;
      selected := chosen;
    }

    method FindDisorder(asOf: Option<real>) returns (found: seq<Diagnostic>)
      ensures found == Disorder(events, asOf)
    {
      found := [];
      var index := 1;
      while index < |events|
        invariant 1 <= index
        invariant if index <= |events| then found == Disorder(events[..index], asOf) else events == [] && found == []
      {
        assert events[..index + 1][..index] == events[..index];
        if events[index].eventTime < events[index - 1].eventTime
        && (asOf.None? || events[index].eventTime <= asOf.value) {
          found := found + [OutOfOrder(index, events[index].eventTime)];
        }
        index := index + 1;
      }
      if events != [] { assert events[..|events|] == events; }
    }

    method Choose(ordered: seq<Item>, asOf: Option<real>) returns (selected: seq<Event>, found: seq<Diagnostic>)
      ensures selected == FirstOfEach(Kept(Events(ordered), asOf)) && found == Repeats(ordered, asOf)
    {
      hide FirstOfEach, Kept, Events, Repeats, Messages;
      var seen: set<string> := {};
      selected, found := [], [];
      NothingChosen(asOf);
      for k := 0 to |ordered|
        invariant selected == FirstOfEach(Kept(Events(ordered[..k]), asOf)) && seen == Messages(selected)
        invariant found == Repeats(ordered[..k], asOf)
      {
        var item := ordered[k];
        assert ordered[..k + 1] == ordered[..k] + [item];
        TakeItem(ordered[..k], item, asOf);
        MessagesAppend(selected, item.event);
        if asOf.Some? && item.event.eventTime > asOf.value {
          continue;
        }
        if item.event.message in seen {
          found := found + [Duplicate(item.index, item.event.eventTime)];
          continue;
        }
        seen := seen + {item.event.message};
        selected := selected + [item.event];
      }
      assert ordered[..|ordered|] == ordered;
    }
  }

  lemma NothingChosen(asOf: Option<real>)
    ensures Kept(Events([]), asOf) == [] && FirstOfEach(Kept(Events([]), asOf)) == [] && Messages([]) == {}
            && Repeats([], asOf) == []
  {}

  lemma MessagesAppend(events: seq<Event>, e: Event)
    ensures Messages(events + [e]) == Messages(events) + {e.message}
  {}
}
