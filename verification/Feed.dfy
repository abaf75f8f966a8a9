/** The feed object: one field per observation, updated message by message. */
module BybitPublicFeed {
  import opened Optional
  import opened Extremes
  import opened FeedModel
  import opened Sorting

  class BybitFeed {
    var book: BookState
    var tape: TradeState
    var market: Market

    ghost function State(): Feed
      reads this
    {
      Feed(book, tape, market)
    }

    /** _clean_book leaves no price with an empty quantity. */
    ghost predicate Valid()
      reads this
    {
      && (forall price | price in book.bids :: book.bids[price] > 0.0)
      && (forall price | price in book.asks :: book.asks[price] > 0.0)
    }

    constructor ()
      ensures Valid() && State() == FRESH_FEED
    {
      book := FRESH_BOOK;
      tape := TradeState([], {}, None, 0, None);
      market := Market(None, map[], map[], None, None, map[], None, None, map[]);
    }

    /** Only the book is dropped on a reconnect. */
    method ResetState()
      modifies this
      ensures Valid() && State() == Step(old(State()), Connected)
    {
      book := BookState(map[], map[], None, false, false, Pending, Waiting, Reconnecting, None);
    }

    method MarkDisconnected()
      modifies this
      ensures Valid() && State() == Step(old(State()), Disconnected)
    {
      book := book.(bids := map[], asks := map[], sequence := None);
      book := book.(ready := false, invalid := true);
      book := book.(quality := Pending, reason := StreamEnded, continuity := Lost);
    }

    method Invalidate(reason: Reason)
      modifies `book
      ensures State() == old(State()).(book := Invalid(old(book), reason))
    {
      book := book.(quality := Spoiled, reason := reason, invalid := true, ready := false);
      if reason == Gap || reason == GapAfterReconnect {
        book := book.(continuity := SequenceGap);
      } else if reason == StaleUpdate || reason == LateTrade {
        book := book.(continuity := OutOfOrder);
      } else {
        book := book.(continuity := Degraded);
      }
    }

    /** The checks in front of the book; a refused message has already been reported. */
    method Admits(m: BookMessage) returns (ok: bool)
      modifies `book
      ensures ok <==> Refusal(old(book), m).None?
      ensures State() == if ok then old(State())
              else old(State()).(book := Invalid(old(book), Refusal(old(book), m).value))
    {
      if m.u.Garbled? {
        Invalidate(BadSequence);
        return false;
      }
      if m.u.Num? && book.sequence.Some? && m.u.value <= book.sequence.value {
        Invalidate(StaleUpdate);
        return false;
      }
      if m.u.Num? && book.sequence.Some? && m.u.value > book.sequence.value + 1 {
        Invalidate(Gap);
        return false;
      }
      if !m.snapshot && !book.ready {
        Invalidate(GapAfterReconnect);
        return false;
      }
      if book.sequence.Some? && m.pu.Garbled? {
        Invalidate(BadPrevious);
        return false;
      }
      if book.sequence.Some? && m.pu.Num? && m.pu.value != book.sequence.value {
        Invalidate(Gap);
        return false;
      }
      var usable := AllUsable(m.bids);
      var asksUsable := AllUsable(m.asks);
      if !usable || !asksUsable {
        Invalidate(BadLevel);
        return false;
      }
      if m.snapshot && (m.bids == [] || m.asks == []) {
        Invalidate(OneSided);
        return false;
      }
      return true;
    }

    /** Both sides after an admitted message. */
    method TakeLevels(m: BookMessage)
      requires Valid() && Refusal(book, m).None?
      modifies `book
      ensures Valid() && book == old(book).(bids := Sides(old(book), m).0, asks := Sides(old(book), m).1)
    {
      hide SnapshotSide, DeltaSide;
      assert forall level | level in m.bids + m.asks :: Usable(level);
      assert forall level | level in m.bids :: Usable(level);
      assert forall level | level in m.asks :: Usable(level);
      if m.snapshot {
        var bids := ReadSnapshot(m.bids);
        var asks := ReadSnapshot(m.asks);
        book := book.(bids := bids, asks := asks);
      } else {
        var bids := ReadDelta(book.bids, m.bids);
        var asks := ReadDelta(book.asks, m.asks);
        book := book.(bids := bids, asks := asks);
      }
    }

    /** _apply_orderbook. */
    method ApplyOrderbook(m: BookMessage, at: real)
      requires Valid()
      modifies this
      ensures Valid() && State() == Process(old(State()), Book(m), at)
    {
      hide Refusal, Sides, Crossed, MaxKey, MinKey, ApplyTrades, ApplyKlines, ApplyTicker;
      var admitted := Admits(m);
      if !admitted {
        return;
      }
      TakeLevels(m);
      CrossedByExtremes(book.bids, book.asks);
      if book.bids != map[] && book.asks != map[] && MaxKey(book.bids) >= MinKey(book.asks) {
        Invalidate(CrossedBook);
        return;
      }
      Publish(m, at);
    }

    /** The book is in step: remember its number and time, and take its best bid as the price. */
    method Publish(m: BookMessage, at: real)
      requires Valid()
      modifies this
      ensures Valid() && tape == old(tape)
      ensures book == BookState(old(book.bids), old(book.asks), if m.u.Num? then Some(m.u.value)
                                else old(book.sequence), true, false,
                                Okay, NoReason, Healthy, Some(if m.ts.Some? then m.ts.value / 1000.0 else at))
      ensures market == if book.bids != map[] then old(market).(price := Some(MaxKey(book.bids))) else old(market)
    {
      hide MaxKey;
      if m.u.Num? {
        book := book.(sequence := Some(m.u.value));
      }
      book := book.(ready := true, invalid := false, continuity := Healthy);
      if book.bids != map[] {
        market := market.(price := Some(MaxKey(book.bids)));
      }
      book := book.(time := Some(if m.ts.Some? then m.ts.value / 1000.0 else at));
      book := book.(quality := Okay, reason := NoReason);
    }

    method ProcessTrade(m: TradeMessage)
      requires Valid()
      modifies this
      ensures Valid() && State() == ApplyTrade(old(State()), m)
    {
      var id := IdOf(m, tape.count);
      tape := tape.(count := tape.count + 1);
      if id in tape.ids {
        return;
      }
      if m.ms.None? {
        Invalidate(MalformedTrade);
        return;
      }
      if tape.latest.Some? && m.ms.value < tape.latest.value {
        Invalidate(LateTrade);
        return;
      }
      if m.price.None? || m.quantity.None? || m.side.None? {
        Invalidate(MalformedTrade);
        return;
      }
      if m.price.value <= 0.0 || m.quantity.value <= 0.0 || m.side.value == OtherSide {
        Invalidate(BadTrade);
        return;
      }
      market := market.(price := m.price);
      if m.ms.value < 0 {
        // the price history raises
        Invalidate(MalformedTrade);
        return;
      }
      tape := tape.(ids := tape.ids + {id}, latest := m.ms);
      tape := tape.(trades := Sorted(tape.trades + [Trade(id, m.ms.value, m.price.value, m.quantity.value,
                                                          m.side.value)], Before));
      tape := tape.(trades := Last(tape.trades, WINDOW));
      tape := tape.(time := Some(m.ms.value as real / 1000.0));
    }

    method ProcessKline(item: KlineItem)
      requires Valid()
      modifies this
      ensures Valid() && State() == ApplyKline(old(State()), item)
    {
      if item.BadKline? {
        Invalidate(MalformedKline);
        return;
      }
      market := market.(candleTimes := market.candleTimes[item.interval := item.time]);
      if item.confirmed {
        market := market.(confirmedTimes := market.confirmedTimes[item.interval := item.time]);
      }
    }

    method ProcessTicker(m: TickerMessage)
      requires Valid()
      modifies this
      ensures Valid() && State() == ApplyTicker(old(State()), m)
    {
      if m.broken {
        Invalidate(MalformedTicker);
        return;
      }
      if m.openInterest.Some? && m.ts.Some? {
        if m.ts.value < 0.0 || m.openInterest.value < 0.0 {
          Invalidate(MalformedTicker);
          return;
        }
        var time := m.ts.value / 1000.0;
        market := market.(openInterestSeen := Observe(market.openInterestSeen, time, m.openInterest.value));
        market := market.(openInterest := Some(market.openInterestSeen[time]), openInterestTime := Some(time));
      }
      if m.fundingRate.Some? {
        if m.ts.None? {
          market := market.(funding := m.fundingRate, fundingTime := None);
        } else if m.ts.value < 0.0 {
          Invalidate(MalformedTicker);
          return;
        } else {
          var time := m.ts.value / 1000.0;
          market := market.(fundingSeen := Observe(market.fundingSeen, time, m.fundingRate.value));
          market := market.(funding := Some(market.fundingSeen[time]), fundingTime := Some(time));
        }
      }
      if m.lastPrice.Some? {
        market := market.(price := m.lastPrice);
        if m.ts.Some? && (m.ts.value < 0.0 || m.lastPrice.value <= 0.0) {
          Invalidate(MalformedTicker);
        }
      }
    }

    /** _process_message. */
    method ProcessMessage(message: Message, at: real)
      requires Valid()
      modifies this
      ensures Valid() && State() == Process(old(State()), message, at)
    {
      match message {
        case WrongSymbol => Invalidate(SymbolMismatch);
        case NoData => Invalidate(MissingPayload);
        case OtherTopic =>
        case Book(m) => ApplyOrderbook(m, at);
        case Trades(items) =>
          for i := 0 to |items|
            invariant Valid() && State() == ApplyTrades(old(State()), items[..i])
          {
            ProcessTrade(items[i]);
            assert items[..i + 1][..i] == items[..i];
          }
          assert items[..|items|] == items;
        case Klines(items) =>
          for i := 0 to |items|
            invariant Valid() && State() == ApplyKlines(old(State()), items[..i])
          {
            ProcessKline(items[i]);
            assert items[..i + 1][..i] == items[..i];
          }
          assert items[..|items|] == items;
        case KlinesNotAList => Invalidate(MalformedKline);
        case Ticker(m) => ProcessTicker(m);
        case TickerNotAnObject => Invalidate(MalformedTicker);
      }
    }

    /** quality(); the reason strings are not modelled. */
    method Quality(limits: Limits, now: real) returns (grade: Grade)
      ensures grade == Graded(State(), limits, now)
    {
      if book.quality == Spoiled || book.invalid {
        return DataInvalid;
      }
      if book.ready && Old(book.time, now, limits.book) {
        return DataStale;
      }
      if Old(tape.time, now, limits.trade) {
        return DataStale;
      }
      var newest := Newest(market.candleTimes);
      if Old(newest, now, limits.kline) {
        return DataStale;
      }
      if Old(market.openInterestTime, now, limits.openInterest) || Old(market.fundingTime, now, limits.funding) {
        return DataStale;
      }
      if book.continuity == Lost || book.continuity == Reconnecting || book.continuity == SequenceGap
      || book.continuity == OutOfOrder {
        return DataIncomplete;
      }
      if market.candleTimes != map[] && market.confirmedTimes == map[] {
        return DataIncomplete;
      }
      if !book.ready || market.price == None || market.openInterest == None || market.funding == None {
        return DataIncomplete;
      }
      return DataValid;
    }
  }

  lemma CrossedByExtremes(bids: map<real, real>, asks: map<real, real>)
    ensures Crossed(bids, asks) <==> bids != map[] && asks != map[] && MaxKey(bids) >= MinKey(asks)
  {}

  /** max(candle_event_times.values(), default=None) */
  method Newest(times: map<string, real>) returns (newest: Option<real>)
    ensures newest.None? <==> times == map[]
    ensures newest.Some? ==> (exists interval :: interval in times && times[interval] == newest.value)
    ensures newest.Some? ==> forall interval | interval in times :: times[interval] <= newest.value
  {
    newest := None;
    var rest := times.Keys;
    while rest != {}
      invariant rest <= times.Keys
      invariant newest.None? <==> rest == times.Keys
      invariant newest.Some? ==> exists interval :: interval in times && times[interval] == newest.value
      invariant newest.Some? ==> forall interval | interval in times.Keys - rest :: times[interval] <= newest.value
      decreases rest
    {
      var interval :| interval in rest;
      if newest.None? || times[interval] > newest.value {
        newest := Some(times[interval]);
      }
      rest := rest - {interval};
    }
  }

  method AllUsable(levels: seq<Level>) returns (usable: bool)
    ensures usable <==> forall level | level in levels :: Usable(level)
  {
    for i := 0 to |levels|
      invariant forall j | 0 <= j < i :: Usable(levels[j])
    {
      if levels[i].Malformed? || levels[i].price <= 0.0 || levels[i].quantity < 0.0 {
        assert levels[i] in levels && !Usable(levels[i]);
        return false;
      }
    }
    return true;
  }

  method ReadSnapshot(levels: seq<Level>) returns (side: map<real, real>)
    requires forall level | level in levels :: Usable(level)
    ensures side == SnapshotSide(levels)
  {
    side := map[];
    for i := 0 to |levels|
      invariant forall level | level in levels[..i] :: Usable(level)
      invariant side == SnapshotSide(levels[..i])
    {
      assert Usable(levels[i]);
      if levels[i].quantity > 0.0 {
        side := side[levels[i].price := levels[i].quantity];
      }
      assert levels[..i + 1][..i] == levels[..i];
    }
    assert levels[..|levels|] == levels;
    side := Clean(side);
  }

  method ReadDelta(current: map<real, real>, levels: seq<Level>) returns (side: map<real, real>)
    requires forall level | level in levels :: Usable(level)
    requires forall price | price in current :: current[price] > 0.0
    ensures side == DeltaSide(current, levels)
  {
    side := current;
    for i := 0 to |levels|
      invariant forall level | level in levels[..i] :: Usable(level)
      invariant side == DeltaSide(current, levels[..i])
    {
      assert Usable(levels[i]);
      if levels[i].quantity == 0.0 {
        side := side - {levels[i].price};
      } else {
        side := side[levels[i].price := levels[i].quantity];
      }
      assert levels[..i + 1][..i] == levels[..i];
    }
    assert levels[..|levels|] == levels;
    side := Clean(side);
  }

  /** _clean_book */
  method Clean(side: map<real, real>) returns (clean: map<real, real>)
    ensures clean == map price | price in side && side[price] > 0.0 :: side[price]
  {
    clean := map price | price in side && side[price] > 0.0 :: side[price];
  }
}
