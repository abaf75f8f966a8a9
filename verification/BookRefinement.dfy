/** The order book is the last accepted snapshot with every later book message applied. */
module BookRefinement {
  import opened Optional
  import opened FeedModel

  predicate IsBook(event: Event) { event.Received? && event.message.Book? }

  /** The book messages of a run, in order, whether they were accepted or not. */
  function BookMessages(events: seq<Event>): seq<BookMessage> {
    if events == [] then []
    else
      var before, last := BookMessages(events[..|events| - 1]), events[|events| - 1];
      if IsBook(last) then before + [last.message.book] else before
  }

  function Levels(m: BookMessage, bids: bool): seq<Level> { if bids then m.bids else m.asks }

  /** What a message says last about a price. */
  function LastQuote(levels: seq<Level>, price: real): Option<real> {
    if levels == [] then None
    else
      var last := levels[|levels| - 1];
      if last.Level? && last.price == price then Some(last.quantity) else LastQuote(levels[..|levels| - 1], price)
  }

  /** What a snapshot says last about a price, empty levels not counting. */
  function LastPositiveQuote(levels: seq<Level>, price: real): real {
    if levels == [] then 0.0
    else
      var last := levels[|levels| - 1];
      if last.Level? && last.price == price && last.quantity > 0.0 then last.quantity
      else LastPositiveQuote(levels[..|levels| - 1], price)
  }

  /**
   The quantity standing at a price after a snapshot and the deltas behind it: the newest message that names it
   decides.
   */
  function Standing(messages: seq<BookMessage>, bids: bool, price: real): real
    requires messages != []
  {
    var levels := Levels(messages[|messages| - 1], bids);
    if |messages| == 1 then LastPositiveQuote(levels, price)
    else
      match LastQuote(levels, price)
      case Some(quantity) => quantity
      case None => Standing(messages[..|messages| - 1], bids, price)
  }

  function Quantity(side: map<real, real>, price: real): real { if price in side then side[price] else 0.0 }

  ghost predicate Shows(side: map<real, real>, messages: seq<BookMessage>, bids: bool)
    requires messages != []
  {
    && (forall price | price in side :: side[price] > 0.0)
    && (forall price :: Quantity(side, price) == Standing(messages, bids, price))
  }

  /** The update ids that the messages carry. */
  function Numbers(messages: seq<BookMessage>): seq<int> {
    if messages == [] then []
    else
      var before, last := Numbers(messages[..|messages| - 1]), messages[|messages| - 1];
      if last.u.Num? then before + [last.u.value] else before
  }

  ghost predicate Consecutive(numbers: seq<int>, sequence: Option<int>) {
    && (forall i | 0 <= i < |numbers| :: numbers[i] == numbers[0] + i)
    && (numbers != [] ==> sequence == Some(numbers[|numbers| - 1]))
  }

  ghost predicate ReadySince(events: seq<Event>, k: nat) {
    forall j | k < j <= |events| :: Run(events[..j]).book.ready
  }

  /** events[k] is the snapshot that book `b` is built on, and nothing after it was skipped. */
  ghost predicate BuiltFrom(events: seq<Event>, k: nat, b: BookState) {
    && k < |events| && IsBook(events[k]) && events[k].message.book.snapshot
    && (forall j | k < j < |events| :: IsBook(events[j]) ==> !events[j].message.book.snapshot)
    && ReadySince(events, k)
    && Tail(events, k) != [] && Tail(events, k)[0] == events[k].message.book
    && Shows(b.bids, Tail(events, k), true) && Shows(b.asks, Tail(events, k), false)
    && Consecutive(Numbers(Tail(events, k)), b.sequence)
  }

  function Tail(events: seq<Event>, k: nat): seq<BookMessage>
    requires k <= |events|
  {
    BookMessages(events[k..])
  }

  // ---------------------------------------------------------------- one message

  lemma {:induction false} SnapshotQuotes(levels: seq<Level>, price: real)
    requires forall level | level in levels :: Usable(level)
    ensures Quantity(SnapshotSide(levels), price) == LastPositiveQuote(levels, price)
  {
    if levels != [] {
      assert Usable(levels[|levels| - 1]);
      SnapshotQuotes(levels[..|levels| - 1], price);
    }
  }

  lemma {:induction false} DeltaQuotes(side: map<real, real>, levels: seq<Level>, price: real)
    requires forall level | level in levels :: Usable(level)
    ensures Quantity(DeltaSide(side, levels), price) ==
            match LastQuote(levels, price) case Some(quantity) => quantity case None => Quantity(side, price)
  {
    if levels != [] {
      assert Usable(levels[|levels| - 1]);
      DeltaQuotes(side, levels[..|levels| - 1], price);
    }
  }

  lemma SnapshotShows(m: BookMessage, bids: bool)
    requires forall level | level in Levels(m, bids) :: Usable(level)
    ensures Shows(SnapshotSide(Levels(m, bids)), [m], bids)
  {
    forall price ensures Quantity(SnapshotSide(Levels(m, bids)), price) == Standing([m], bids, price) {
      SnapshotQuotes(Levels(m, bids), price);
    }
  }

  lemma DeltaShows(side: map<real, real>, messages: seq<BookMessage>, m: BookMessage, bids: bool)
    requires messages != [] && Shows(side, messages, bids)
    requires forall level | level in Levels(m, bids) :: Usable(level)
    ensures Shows(DeltaSide(side, Levels(m, bids)), messages + [m], bids)
  {
    assert (messages + [m])[..|messages|] == messages;
    forall price ensures Quantity(DeltaSide(side, Levels(m, bids)), price) == Standing(messages + [m], bids, price) {
      DeltaQuotes(side, Levels(m, bids), price);
    }
  }

  lemma AcceptedLevelsAreUsable(b: BookState, m: BookMessage)
    requires Refusal(b, m).None?
    ensures forall level | level in m.bids :: Usable(level)
    ensures forall level | level in m.asks :: Usable(level)
  {
    assert forall level | level in m.bids + m.asks :: Usable(level);
  }

  lemma NumbersAppend(messages: seq<BookMessage>, m: BookMessage)
    ensures Numbers(messages + [m]) == Numbers(messages) + (if m.u.Num? then [m.u.value] else [])
  {
    assert (messages + [m])[..|messages|] == messages;
  }

  /** _invalid: nothing but the five status fields changes, and the reason decides the continuity. */
  lemma InvalidExactly(b: BookState, reason: Reason)
    ensures Invalid(b, reason) ==
            BookState(b.bids, b.asks, b.sequence, false, true, Spoiled, reason,
                      match reason
                      case Gap => SequenceGap
                      case GapAfterReconnect => SequenceGap
                      case StaleUpdate => OutOfOrder
                      case LateTrade => OutOfOrder
                      case _ => Degraded,
                      b.time)
  {}

  /** A price and a quantity that can stand in the book. */
  predicate Sensible(level: Level) { level.Level? && level.price > 0.0 && level.quantity >= 0.0 }

  /**
   A book message is taken exactly when its number, if any, is the successor of the last one, and its previous
   number, if any, the last one itself; it is a snapshot with both sides, or a delta on a ready book; all its levels
   are sensible; and the book it leads to is not crossed.
   */
  lemma TakenExactly(b: BookState, m: BookMessage, at: real)
    ensures ApplyBook(b, m, at).ready <==>
            && !m.u.Garbled? && (m.u.Num? && b.sequence.Some? ==> m.u.value == b.sequence.value + 1)
            && (b.sequence.Some? ==> !m.pu.Garbled? && (m.pu.Num? ==> m.pu.value == b.sequence.value))
            && (if m.snapshot then m.bids != [] && m.asks != [] else b.ready)
            && (forall level | level in m.bids :: Sensible(level))
            && (forall level | level in m.asks :: Sensible(level))
            && var (bids, asks) := if m.snapshot then (SnapshotSide(m.bids), SnapshotSide(m.asks))
                                   else (DeltaSide(b.bids, m.bids), DeltaSide(b.asks, m.asks));
              forall bid, ask | bid in bids && ask in asks :: bid < ask
  {
    hide SnapshotSide, DeltaSide;
    assert forall level :: Usable(level) <==> Sensible(level);
    assert forall level | level in m.bids :: level in m.bids + m.asks;
    assert forall level | level in m.asks :: level in m.bids + m.asks;
  }

  /**
   What a taken message leaves: its number as the last one, its time or the time of arrival, a healthy ready book.
   A message that is not taken leaves number and time, gives a reason that is true of it, and the reason decides the
   continuity; only a crossed book has its levels replaced.
   */
  lemma BookAfterExactly(b: BookState, m: BookMessage, at: real)
    ensures var c := ApplyBook(b, m, at);
      && (c.ready ==>
          && c.sequence == (if m.u.Num? then Some(m.u.value) else b.sequence)
          && c.time == Some(if m.ts.Some? then m.ts.value / 1000.0 else at)
          && !c.invalid && c.quality == Okay && c.continuity == Healthy && c.reason == NoReason)
      && (!c.ready ==>
          && c.sequence == b.sequence && c.time == b.time && c.invalid && c.quality == Spoiled
          && c.continuity == (match c.reason
                              case Gap => SequenceGap
                              case GapAfterReconnect => SequenceGap
                              case StaleUpdate => OutOfOrder
                              case _ => Degraded)
          && (c.reason != CrossedBook ==> c.bids == b.bids && c.asks == b.asks)
          && match c.reason
             case BadSequence => m.u.Garbled?
             case StaleUpdate => m.u.Num? && b.sequence.Some? && m.u.value <= b.sequence.value
             case Gap => b.sequence.Some? && ((m.u.Num? && m.u.value > b.sequence.value + 1)
                                              || (m.pu.Num? && m.pu.value != b.sequence.value))
             case GapAfterReconnect => !m.snapshot && !b.ready
             case BadPrevious => m.pu.Garbled? && b.sequence.Some?
             case BadLevel => exists level :: level in m.bids + m.asks && !Sensible(level)
             case OneSided => m.snapshot && (m.bids == [] || m.asks == [])
             case CrossedBook => exists bid, ask :: bid in c.bids && ask in c.asks && bid >= ask
             case _ => false)
  {
    hide SnapshotSide, DeltaSide;
    assert forall level :: Usable(level) <==> Sensible(level);
  }

  // ---------------------------------------------------------------- other events

  /** The book is left alone or put out of service. */
  ghost predicate Kept(before: BookState, after: BookState) {
    after == before || (!after.ready && after.sequence == before.sequence)
  }

  lemma {:induction false} TradesKeepBook(f: Feed, trades: seq<TradeMessage>)
    ensures Kept(f.book, ApplyTrades(f, trades).book)
  {
    if trades != [] { TradesKeepBook(f, trades[..|trades| - 1]); }
  }

  lemma {:induction false} KlinesKeepBook(f: Feed, items: seq<KlineItem>)
    ensures Kept(f.book, ApplyKlines(f, items).book)
  {
    if items != [] { KlinesKeepBook(f, items[..|items| - 1]); }
  }

  lemma OthersKeepBook(f: Feed, event: Event)
    requires !IsBook(event)
    ensures if event.Received? then Kept(f.book, Step(f, event).book) else !Step(f, event).book.ready
  {
    match event
    case Received(Trades(trades), _) => TradesKeepBook(f, trades);
    case Received(Klines(items), _) => KlinesKeepBook(f, items);
    case _ =>
  }

  // ---------------------------------------------------------------- runs

  lemma RunAppend(events: seq<Event>, event: Event)
    ensures Run(events + [event]) == Step(Run(events), event)
  {
    assert (events + [event])[..|events|] == events;
  }

  lemma TailAppend(events: seq<Event>, event: Event, k: nat)
    requires k <= |events|
    ensures Tail(events + [event], k) == Tail(events, k) + (if IsBook(event) then [event.message.book] else [])
  {
    assert (events + [event])[k..] == events[k..] + [event];
    assert (events[k..] + [event])[..|events[k..]|] == events[k..];
  }

  lemma ReadySinceAppend(events: seq<Event>, event: Event, k: nat)
    requires k <= |events| && ReadySince(events, k) && Run(events + [event]).book.ready
    ensures ReadySince(events + [event], k)
  {
    forall j | k < j <= |events| + 1 ensures Run((events + [event])[..j]).book.ready {
      if j <= |events| {
        assert (events + [event])[..j] == events[..j];
      } else {
        assert (events + [event])[..j] == events + [event];
      }
    }
  }

  lemma SnapshotIsShown(b: BookState, m: BookMessage, at: real)
    requires m.snapshot && ApplyBook(b, m, at).ready
    ensures var c := ApplyBook(b, m, at);
      Shows(c.bids, [m], true) && Shows(c.asks, [m], false) && Consecutive(Numbers([m]), c.sequence)
  {
    AcceptedLevelsAreUsable(b, m);
    SnapshotShows(m, true);
    SnapshotShows(m, false);
    NumbersAppend([], m);
    assert [] + [m] == [m];
    hide Shows, SnapshotSide;
  }

  lemma BookStep(f: Feed, event: Event)
    requires IsBook(event)
    ensures Step(f, event).book == ApplyBook(f.book, event.message.book, event.at)
  {
    hide ApplyBook;
  }

  lemma SnapshotBuilds(events: seq<Event>, event: Event)
    requires IsBook(event) && event.message.book.snapshot && Run(events + [event]).book.ready
    ensures BuiltFrom(events + [event], |events|, Run(events + [event]).book)
  {
    hide Run, ApplyBook, SnapshotSide, Shows, Step, Consecutive, Numbers;
    var k, m := |events|, event.message.book;
    RunAppend(events, event);
    BookStep(Run(events), event);
    SnapshotIsShown(Run(events).book, m, event.at);
    TailAppend(events, event, k);
    assert events[k..] == [];
    assert Tail(events + [event], k) == [m];
    assert ReadySince(events + [event], k) by {
      assert (events + [event])[..k + 1] == events + [event];
    }
  }

  lemma DeltaBuilds(events: seq<Event>, event: Event, k: nat)
    requires IsBook(event) && !event.message.book.snapshot && Run(events + [event]).book.ready
    requires BuiltFrom(events, k, Run(events).book)
    ensures BuiltFrom(events + [event], k, Run(events + [event]).book)
  {
    hide Run;
    var b, m := Run(events).book, event.message.book;
    RunAppend(events, event);
    AcceptedLevelsAreUsable(b, m);
    TailAppend(events, event, k);
    DeltaShows(b.bids, Tail(events, k), m, true);
    DeltaShows(b.asks, Tail(events, k), m, false);
    NumbersAppend(Tail(events, k), m);
    ReadySinceAppend(events, event, k);
  }

  lemma OtherBuilds(events: seq<Event>, event: Event, k: nat)
    requires !IsBook(event) && Run(events + [event]).book.ready
    requires BuiltFrom(events, k, Run(events).book)
    ensures BuiltFrom(events + [event], k, Run(events + [event]).book)
  {
    hide Run;
    RunAppend(events, event);
    OthersKeepBook(Run(events), event);
    TailAppend(events, event, k);
    assert Tail(events, k) + [] == Tail(events, k);
    ReadySinceAppend(events, event, k);
  }

  /** A ready book is a refinement of "the last accepted snapshot plus every later delta". */
  lemma {:induction false} ReadyBookIsBuilt(events: seq<Event>)
    requires Run(events).book.ready
    ensures exists k :: BuiltFrom(events, k, Run(events).book)
  {
    var before, event := events[..|events| - 1], events[|events| - 1];
    assert events == before + [event];
    RunAppend(before, event);
    if IsBook(event) && event.message.book.snapshot {
      SnapshotBuilds(before, event);
    } else {
      ReadyBefore(Run(before), event);
      ReadyBookIsBuilt(before);
      var k :| BuiltFrom(before, k, Run(before).book);
      if IsBook(event) { DeltaBuilds(before, event, k); } else { OtherBuilds(before, event, k); }
    }
  }

  lemma ReadyBefore(f: Feed, event: Event)
    requires Step(f, event).book.ready && !(IsBook(event) && event.message.book.snapshot)
    ensures f.book.ready
  {
    if !IsBook(event) { OthersKeepBook(f, event); }
  }

  // ---------------------------------------------------------------- what readiness means

  ghost predicate Orderly(b: BookState) {
    && (forall price | price in b.bids :: b.bids[price] > 0.0)
    && (forall price | price in b.asks :: b.asks[price] > 0.0)
    && (forall bid, ask | bid in b.bids && ask in b.asks :: bid < ask)
    && !b.invalid && b.quality.Okay? && b.continuity.Healthy? && b.time.Some?
  }

  lemma {:induction false} ReadyBookIsOrderly(events: seq<Event>)
    requires Run(events).book.ready
    ensures Orderly(Run(events).book)
  {
    ReadyBookIsBuilt(events);
    var before, event := events[..|events| - 1], events[|events| - 1];
    if IsBook(event) {
      AcceptedIsOrderly(Run(before).book, event.message.book, event.at);
      var k :| BuiltFrom(events, k, Run(events).book);
    } else {
      OthersKeepBook(Run(before), event);
      ReadyBookIsOrderly(before);
    }
  }

  lemma AcceptedIsOrderly(b: BookState, m: BookMessage, at: real)
    requires ApplyBook(b, m, at).ready
    ensures var next := ApplyBook(b, m, at);
            !Crossed(next.bids, next.asks) && !next.invalid && next.quality.Okay? && next.continuity.Healthy?
            && next.time.Some?
  {}

  /**
   quality() answers DATA_VALID only while the book is in step, orderly and fresh and every observation is present.
   */
  lemma ValidMeansInStep(events: seq<Event>, limits: Limits, now: real)
    requires Graded(Run(events), limits, now) == DataValid
    ensures var f := Run(events);
            && f.book.ready && Orderly(f.book) && now - f.book.time.value <= limits.book
            && f.market.price.Some? && f.market.openInterest.Some? && f.market.funding.Some?
            && exists k :: BuiltFrom(events, k, f.book)
  {
    ReadyBookIsBuilt(events);
    ReadyBookIsOrderly(events);
  }

  /**
   The grade: invalid while the book is spoiled; stale when any observation that is there is older than its limit, the
   candles when all of them are; valid when the book is ready on a healthy or degraded stream, price, open interest and
   funding are there, and candles, if any, include confirmed ones; incomplete otherwise.
   */
  lemma GradedExactly(f: Feed, limits: Limits, now: real)
    ensures var (b, k) := (f.book, f.market);
      var stale :=
        || (b.ready && b.time.Some? && now - b.time.value > limits.book)
        || (f.tape.time.Some? && now - f.tape.time.value > limits.trade)
        || (k.candleTimes != map[]
            && forall interval | interval in k.candleTimes :: now - k.candleTimes[interval] > limits.kline)
        || (k.openInterestTime.Some? && now - k.openInterestTime.value > limits.openInterest)
        || (k.fundingTime.Some? && now - k.fundingTime.value > limits.funding);
      Graded(f, limits, now) ==
        if b.quality == Spoiled || b.invalid then DataInvalid
        else if stale then DataStale
        else if b.ready && (b.continuity == Healthy || b.continuity == Degraded) && k.price.Some?
                && k.openInterest.Some? && k.funding.Some? && (k.candleTimes == map[] || k.confirmedTimes != map[])
        then DataValid else DataIncomplete
  {}

  /**
   The other events: a new connection starts an empty book, the end of one empties and invalidates it, and neither
   touches anything else; a book message makes its best bid the price if the book is ready; a message that cannot be
   read spoils the book.
   */
  lemma EventsExactly(f: Feed, m: BookMessage, at: real)
    ensures Step(f, Connected) ==
            f.(book := BookState(map[], map[], None, false, false, Pending, Waiting, Reconnecting, None))
    ensures Step(f, Disconnected) ==
            f.(book := BookState(map[], map[], None, false, true, Pending, StreamEnded, Lost, f.book.time))
    ensures Step(f, Received(OtherTopic, at)) == f
    ensures var g := Step(f, Received(Book(m), at));
      && g.book == ApplyBook(f.book, m, at) && g.tape == f.tape
      && (if g.book.ready && g.book.bids != map[]
          then g.market.price.Some? && g.market.price.value in g.book.bids
               && (forall bid | bid in g.book.bids :: bid <= g.market.price.value)
               && g.market == f.market.(price := g.market.price)
          else g.market == f.market)
    ensures forall message | message in [WrongSymbol, NoData, KlinesNotAList, TickerNotAnObject] ::
              var g := Step(f, Received(message, at));
              && g == f.(book := g.book) && !g.book.ready && g.book.invalid && g.book.quality == Spoiled
              && g.book.reason == (if message == WrongSymbol then SymbolMismatch
                                   else if message == NoData then MissingPayload
                                   else if message == KlinesNotAList then MalformedKline else MalformedTicker)
  {
    hide ApplyBook;
  }

  // ---------------------------------------------------------------- klines and tickers

  /** The first value observed at a time stands. */
  lemma KlineExactly(f: Feed, interval: string, time: real, confirmed: bool)
    ensures var k := ApplyKline(f, Kline(interval, time, confirmed)).market;
      && k.candleTimes == f.market.candleTimes[interval := time]
      && k.confirmedTimes == (if confirmed then f.market.confirmedTimes[interval := time] else f.market.confirmedTimes)
      && k.price == f.market.price
      && ApplyKline(f, Kline(interval, time, confirmed)).book == f.book
  {}

  /** Open interest needs a time, and the first value observed at a time stands; a negative one spoils the book. */
  lemma OpenInterestExactly(f: Feed, m: TickerMessage)
    requires !m.broken && m.fundingRate.None? && m.lastPrice.None?
    ensures var (g, k) := (ApplyTicker(f, m), f.market);
      if m.openInterest.None? || m.ts.None? then g == f
      else if m.ts.value < 0.0 || m.openInterest.value < 0.0 then
        g.market == k && !g.book.ready && g.book.invalid && g.book.reason == MalformedTicker
      else
        var time := m.ts.value / 1000.0;
        var first := if time in k.openInterestSeen then k.openInterestSeen[time] else m.openInterest.value;
        g == f.(market := k.(openInterestSeen := k.openInterestSeen[time := first], openInterest := Some(first),
                             openInterestTime := Some(time)))
  {
    assert forall time | time in f.market.openInterestSeen ::
             f.market.openInterestSeen[time := f.market.openInterestSeen[time]] == f.market.openInterestSeen;
  }

  /** Funding without a time is taken as it is and has none; with one, the first value observed at it stands. */
  lemma FundingExactly(f: Feed, m: TickerMessage)
    requires !m.broken && m.openInterest.None? && m.lastPrice.None? && m.fundingRate.Some?
    ensures var (g, k) := (ApplyTicker(f, m), f.market);
      if m.ts.None? then g == f.(market := k.(funding := m.fundingRate, fundingTime := None))
      else if m.ts.value < 0.0 then
        g.market == k && !g.book.ready && g.book.invalid && g.book.reason == MalformedTicker
      else
        var time := m.ts.value / 1000.0;
        var first := if time in k.fundingSeen then k.fundingSeen[time] else m.fundingRate.value;
        g == f.(market := k.(fundingSeen := k.fundingSeen[time := first], funding := Some(first),
                             fundingTime := Some(time)))
  {
    assert forall time | time in f.market.fundingSeen ::
             f.market.fundingSeen[time := f.market.fundingSeen[time]] == f.market.fundingSeen;
  }

  /** The fields of one ticker are taken in the order open interest, funding, price, up to the first that raises. */
  lemma TickerInOrder(f: Feed, m: TickerMessage)
    requires !m.broken
    ensures var first := ApplyTicker(f, m.(fundingRate := None, lastPrice := None));
      var second := ApplyTicker(f.(market := first.market), m.(openInterest := None, lastPrice := None));
      var g := ApplyTicker(f, m);
      var interest := m.openInterest.Some? && m.ts.Some? && (m.ts.value < 0.0 || m.openInterest.value < 0.0);
      var rate := m.fundingRate.Some? && m.ts.Some? && m.ts.value < 0.0;
      if interest then g == first
      else if rate then g == second
      else if m.lastPrice.None? then g == f.(market := second.market)
      else
        && g.market == second.market.(price := m.lastPrice)
        && (if m.ts.Some? && (m.ts.value < 0.0 || m.lastPrice.value <= 0.0)
            then !g.book.ready && g.book.invalid && g.book.reason == MalformedTicker else g.book == f.book)
  {}

  // ---------------------------------------------------------------- after a gap

  /**
   A snapshot that an out-of-step book with last sequence `s` takes: unnumbered, or numbered with the very next id.
   */
  predicate Heals(m: BookMessage, s: int) {
    && m.snapshot && (m.u.Absent? || m.u == Num(s + 1)) && (m.pu.Absent? || m.pu == Num(s))
    && m.bids != [] && m.asks != [] && (forall level | level in m.bids + m.asks :: Usable(level))
    && Uncrossed(m)
  }

  predicate Uncrossed(m: BookMessage) {
    && (forall level | level in m.bids :: Usable(level)) && (forall level | level in m.asks :: Usable(level))
    && !Crossed(SnapshotSide(m.bids), SnapshotSide(m.asks))
  }

  /** Out of step, with the last sequence kept. */
  predicate Stuck(b: BookState, s: int) { !b.ready && b.sequence == Some(s) }

  lemma HealsExactly(b: BookState, m: BookMessage, at: real, s: int)
    requires Stuck(b, s)
    ensures ApplyBook(b, m, at).ready <==> Heals(m, s)
    ensures !Heals(m, s) ==> Stuck(ApplyBook(b, m, at), s)
  {}

  lemma {:induction false} StuckUntilHealed(f: Feed, s: int, later: seq<Event>)
    requires Stuck(f.book, s)
    requires forall event | event in later :: event.Received? && (IsBook(event) ==> !Heals(event.message.book, s))
    ensures Stuck(RunFrom(f, later).book, s)
  {
    if later != [] {
      var event := later[|later| - 1];
      assert event in later;
      StuckUntilHealed(f, s, later[..|later| - 1]);
      var g := RunFrom(f, later[..|later| - 1]);
      if IsBook(event) { HealsExactly(g.book, event.message.book, event.at, s); } else { OthersKeepBook(g, event); }
    }
  }

  lemma {:induction false} FirstHealing(s: int, later: seq<Event>) returns (i: nat)
    requires exists event :: event in later && IsBook(event) && Heals(event.message.book, s)
    ensures i < |later| && IsBook(later[i]) && Heals(later[i].message.book, s)
    ensures forall event | event in later[..i] :: IsBook(event) ==> !Heals(event.message.book, s)
  {
    hide Heals;
    var shorter := later[..|later| - 1];
    if exists event :: event in shorter && IsBook(event) && Heals(event.message.book, s) {
      i := FirstHealing(s, shorter);
      assert shorter[..i] == later[..i];
    } else {
      i := |later| - 1;
      assert later == shorter + [later[i]];
    }
  }

  /**
   Once a message has been missed, the book comes back on the same connection exactly when a
   healing snapshot arrives: a delta never does it, nor does a snapshot whose number or previous
   number is anything but the missed ones.
   */
  lemma ComesBackExactly(f: Feed, s: int, later: seq<Event>)
    requires Stuck(f.book, s) && forall event | event in later :: event.Received?
    ensures (exists k: nat :: k <= |later| && RunFrom(f, later[..k]).book.ready)
       <==> (exists event :: event in later && IsBook(event) && Heals(event.message.book, s))
  {
    hide Heals;
    if exists event :: event in later && IsBook(event) && Heals(event.message.book, s) {
      var i := FirstHealing(s, later);
      StuckUntilHealed(f, s, later[..i]);
      assert later[..i + 1][..i] == later[..i];
      HealsExactly(RunFrom(f, later[..i]).book, later[i].message.book, later[i].at, s);
      assert RunFrom(f, later[..i + 1]).book.ready;
    } else {
      forall k: nat | k <= |later| ensures !RunFrom(f, later[..k]).book.ready {
        StuckUntilHealed(f, s, later[..k]);
      }
    }
  }

  /** A run that gets there: a snapshot numbered `s`, and then a message numbered past its successor. */
  lemma GapIsReached(m: BookMessage, d: BookMessage, s: int, at: real)
    requires m.snapshot && m.u == Num(s) && m.bids != [] && m.asks != [] && Uncrossed(m)
    requires d.u.Num? && d.u.value > s + 1
    ensures var b := Run([Connected, Received(Book(m), at), Received(Book(d), at)]).book;
            Stuck(b, s) && b.continuity.SequenceGap?
  {
    var events := [Connected, Received(Book(m), at), Received(Book(d), at)];
    assert events[..2] == [Connected, Received(Book(m), at)] && events[..2][..1] == [Connected]
           && events[..1][..0] == [];
    assert Run([Connected]).book == FRESH_BOOK;
    assert forall level | level in m.bids + m.asks :: Usable(level);
    assert ApplyBook(FRESH_BOOK, m, at).ready && ApplyBook(FRESH_BOOK, m, at).sequence == Some(s);
    RunAppend([Connected], Received(Book(m), at));
    RunAppend(events[..2], Received(Book(d), at));
    assert [Connected] + [Received(Book(m), at)] == events[..2] && events[..2] + [Received(Book(d), at)] == events;
    hide Run, SnapshotSide;
  }

  function RunFrom(f: Feed, events: seq<Event>): Feed {
    if events == [] then f else Step(RunFrom(f, events[..|events| - 1]), events[|events| - 1])
  }
}
