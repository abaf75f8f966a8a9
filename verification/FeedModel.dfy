/**
 BybitPublicFeed as functions on its state: the order book, the trade window and the
 observations that quality() looks at. Times are in seconds, trade times in milliseconds.
 */
module FeedModel {
  import opened Optional
  import opened Sorting
  import opened Extremes

  // ---------------------------------------------------------------- messages

  /** A sequence field: absent, not an integer, or a number. */
  datatype Field = Absent | Garbled | Num(value: int)

  /** A raw [price, quantity] entry; anything that is not two finite floats is Malformed. */
  datatype Level = Malformed | Level(price: real, quantity: real)

  datatype BookMessage = BookMessage(snapshot: bool, u: Field, pu: Field, bids: seq<Level>, asks: seq<Level>,
                                     ts: Option<real>)

  datatype Side = Buy | Sell | OtherSide

  /** Fields that are None are missing or do not convert, which raises. */
  datatype TradeMessage = TradeMessage(id: Option<string>, ms: Option<int>, price: Option<real>,
                                       quantity: Option<real>, side: Option<Side>)

  datatype KlineItem = BadKline | Kline(interval: string, time: real, confirmed: bool)

  /** `broken` marks a field that does not convert. */
  datatype TickerMessage = TickerMessage(ts: Option<real>, openInterest: Option<real>, fundingRate: Option<real>,
                                         lastPrice: Option<real>, broken: bool)

  datatype Message =
    | WrongSymbol | NoData | OtherTopic
    | Book(book: BookMessage)
    | Trades(trades: seq<TradeMessage>)
    | Klines(items: seq<KlineItem>) | KlinesNotAList
    | Ticker(ticker: TickerMessage) | TickerNotAnObject

  /** What reaches the feed: a message, a (re)connection, or the end of a connection. */
  datatype Event = Received(message: Message, at: real) | Connected | Disconnected

  // ---------------------------------------------------------------- state

  datatype Quality = Pending | Spoiled | Okay
  datatype Continuity = Reconnecting | Lost | SequenceGap | OutOfOrder | Degraded | Healthy

  datatype Reason =
    | NoReason | Waiting | StreamEnded | MissingPayload | BadSequence | StaleUpdate | Gap | GapAfterReconnect
    | BadPrevious | BadLevel | OneSided | CrossedBook
    | LateTrade | BadTrade | MalformedTrade | MalformedKline | MalformedTicker | SymbolMismatch

  datatype Trade = Trade(id: string, ms: int, price: real, quantity: real, side: Side)

  datatype BookState = BookState(
    bids: map<real, real>, asks: map<real, real>, sequence: Option<int>, ready: bool, invalid: bool,
    quality: Quality, reason: Reason, continuity: Continuity, time: Option<real>)

  datatype TradeState = TradeState(trades: seq<Trade>, ids: set<string>, latest: Option<int>, count: nat,
                                   time: Option<real>)

  datatype Market = Market(
    price: Option<real>, candleTimes: map<string, real>, confirmedTimes: map<string, real>,
    openInterest: Option<real>, openInterestTime: Option<real>, openInterestSeen: map<real, real>,
    funding: Option<real>, fundingTime: Option<real>, fundingSeen: map<real, real>)

  datatype Feed = Feed(book: BookState, tape: TradeState, market: Market)

  const FRESH_BOOK: BookState := BookState(map[], map[], None, false, false, Pending, Waiting, Reconnecting, None)
  const FRESH_FEED: Feed := Feed(FRESH_BOOK, TradeState([], {}, None, 0, None),
                                 Market(None, map[], map[], None, None, map[], None, None, map[]))

  /** _invalid: the continuity status depends on the words of the reason. */
  function Invalid(b: BookState, reason: Reason): BookState {
    b.(quality := Spoiled, reason := reason, invalid := true, ready := false,
       continuity := if reason.Gap? || reason.GapAfterReconnect? then SequenceGap
                     else if reason.StaleUpdate? || reason.LateTrade? then OutOfOrder else Degraded)
  }

  // ---------------------------------------------------------------- the order book

  predicate Usable(level: Level) { level.Level? && level.price > 0.0 && level.quantity >= 0.0 }

  /** The side of a snapshot: positive levels, later ones overwriting earlier ones. */
  function SnapshotSide(levels: seq<Level>): (side: map<real, real>)
    requires forall level | level in levels :: Usable(level)
    ensures forall price | price in side :: side[price] > 0.0
  {
    if levels == [] then map[]
    else
      assert Usable(levels[|levels| - 1]);
      var before, last := SnapshotSide(levels[..|levels| - 1]), levels[|levels| - 1];
      if last.quantity > 0.0 then before[last.price := last.quantity] else before
  }

  /** A side after a delta: zero removes a price, anything else sets it. */
  function DeltaSide(side: map<real, real>, levels: seq<Level>): (next: map<real, real>)
    requires forall level | level in levels :: Usable(level)
    ensures (forall price | price in side :: side[price] > 0.0) ==> forall price | price in next :: next[price] > 0.0
  {
    if levels == [] then side
    else
      assert Usable(levels[|levels| - 1]);
      var before, last := DeltaSide(side, levels[..|levels| - 1]), levels[|levels| - 1];
      if last.quantity == 0.0 then before - {last.price} else before[last.price := last.quantity]
  }

  predicate Crossed(bids: map<real, real>, asks: map<real, real>) {
    exists bid, ask :: bid in bids && ask in asks && bid >= ask
  }

  /** The checks made before the book is touched, in order. */
  function Refusal(b: BookState, m: BookMessage): Option<Reason> {
    if m.u.Garbled? then Some(BadSequence)
    else if m.u.Num? && b.sequence.Some? && m.u.value <= b.sequence.value then Some(StaleUpdate)
    else if m.u.Num? && b.sequence.Some? && m.u.value > b.sequence.value + 1 then Some(Gap)
    else if !m.snapshot && !b.ready then Some(GapAfterReconnect)
    else if b.sequence.Some? && m.pu.Garbled? then Some(BadPrevious)
    else if b.sequence.Some? && m.pu.Num? && m.pu.value != b.sequence.value then Some(Gap)
    else if exists level | level in m.bids + m.asks :: !Usable(level) then Some(BadLevel)
    else if m.snapshot && (m.bids == [] || m.asks == []) then Some(OneSided)
    else None
  }

  function Sides(b: BookState, m: BookMessage): (map<real, real>, map<real, real>)
    requires Refusal(b, m).None?
  {
    assert forall level | level in m.bids + m.asks :: Usable(level);
    if m.snapshot then (SnapshotSide(m.bids), SnapshotSide(m.asks))
    else (DeltaSide(b.bids, m.bids), DeltaSide(b.asks, m.asks))
  }

  /** _apply_orderbook. A crossed book keeps its levels but is not ready. */
  function ApplyBook(b: BookState, m: BookMessage, at: real): BookState {
    var refusal := Refusal(b, m);
    if refusal.Some? then Invalid(b, refusal.value)
    else
      var (bids, asks) := Sides(b, m);
      if Crossed(bids, asks) then Invalid(b.(bids := bids, asks := asks), CrossedBook)
      else
        BookState(bids, asks, if m.u.Num? then Some(m.u.value) else b.sequence, true, false, Okay, NoReason, Healthy,
                  Some(if m.ts.Some? then m.ts.value / 1000.0 else at))
  }

  function BestBid(bids: map<real, real>): Option<real> {
    if bids == map[] then None else Some(MaxKey(bids))
  }

  // ---------------------------------------------------------------- trades

  /** Python's order on strings: the first differing character decides, then the length. */
  predicate Less(a: string, b: string) {
    b != "" && (a == "" || a[0] < b[0] || (a[0] == b[0] && Less(a[1..], b[1..])))
  }

  /** The sort key of the trade list. */
  predicate Before(a: Trade, b: Trade) { a.ms < b.ms || (a.ms == b.ms && Less(a.id, b.id)) }

  const WINDOW: nat := 5000

  /** trades[-n:] */
  function Last(trades: seq<Trade>, n: nat): seq<Trade> {
    if |trades| <= n then trades else trades[|trades| - n..]
  }

  function Decimal(n: nat): string {
    var digit := [("0123456789")[n % 10]];
    if n < 10 then digit else Decimal(n / 10) + digit
  }

  function Printed(ms: Option<int>): string {
    if ms.None? then "None" else if ms.value < 0 then "-" + Decimal(-ms.value) else Decimal(ms.value)
  }

  function IdOf(m: TradeMessage, count: nat): string {
    if m.id.Some? then m.id.value else Printed(m.ms) + "-" + Decimal(count)
  }

  datatype Verdict = Duplicate | Refused(reason: Reason) | Unrecorded(price: real) | Accepted(trade: Trade)

  /**
   What _process_trade decides. `Unrecorded` is a negative timestamp: the price history
   raises after the price was taken over and before the trade is recorded.
   */
  function Judge(t: TradeState, m: TradeMessage): Verdict {
    var id := IdOf(m, t.count);
    if id in t.ids then Duplicate
    else if m.ms.None? then Refused(MalformedTrade)
    else if t.latest.Some? && m.ms.value < t.latest.value then Refused(LateTrade)
    else if m.price.None? || m.quantity.None? || m.side.None? then Refused(MalformedTrade)
    else if m.price.value <= 0.0 || m.quantity.value <= 0.0 || m.side.value.OtherSide? then Refused(BadTrade)
    else if m.ms.value < 0 then Unrecorded(m.price.value)
    else Accepted(Trade(id, m.ms.value, m.price.value, m.quantity.value, m.side.value))
  }

  function ApplyTrade(f: Feed, m: TradeMessage): Feed {
    var counted := f.tape.(count := f.tape.count + 1);
    match Judge(f.tape, m)
    case Duplicate => f.(tape := counted)
    case Refused(reason) => f.(tape := counted, book := Invalid(f.book, reason))
    case Unrecorded(price) => f.(tape := counted, book := Invalid(f.book, MalformedTrade),
                                 market := f.market.(price := Some(price)))
    case Accepted(trade) =>
      f.(tape := TradeState(Last(Sorted(f.tape.trades + [trade], Before), WINDOW), f.tape.ids + {trade.id},
                            Some(trade.ms),
                            f.tape.count + 1, Some(trade.ms as real / 1000.0)),
         market := f.market.(price := Some(trade.price)))
  }

  function ApplyTrades(f: Feed, trades: seq<TradeMessage>): Feed {
    if trades == [] then f else ApplyTrade(ApplyTrades(f, trades[..|trades| - 1]), trades[|trades| - 1])
  }

  // ---------------------------------------------------------------- klines and tickers

  function ApplyKline(f: Feed, item: KlineItem): Feed {
    match item
    case BadKline => f.(book := Invalid(f.book, MalformedKline))
    case Kline(interval, time, confirmed) =>
      f.(market := f.market.(candleTimes := f.market.candleTimes[interval := time],
                             confirmedTimes := if confirmed then f.market.confirmedTimes[interval := time]
                             else f.market.confirmedTimes))
  }

  function ApplyKlines(f: Feed, items: seq<KlineItem>): Feed {
    if items == [] then f else ApplyKline(ApplyKlines(f, items[..|items| - 1]), items[|items| - 1])
  }

  /** setdefault: the first observation of a time stands. */
  function Observe(seen: map<real, real>, time: real, value: real): map<real, real> {
    if time in seen then seen else seen[time := value]
  }

  /** Open interest, then funding, then the last price; a step that raises leaves the earlier ones in place. */
  function ApplyTicker(f: Feed, m: TickerMessage): Feed {
    var bad := f.(book := Invalid(f.book, MalformedTicker));
    if m.broken then bad
    else
      var (first, fine) := TakeOpenInterest(f.market, m);
      if !fine then bad.(market := first)
      else
        var (second, fine) := TakeFunding(first, m);
        if !fine then bad.(market := second)
        else
          var (third, fine) := TakeLastPrice(second, m);
          if fine then f.(market := third) else bad.(market := third)
  }

  function TakeOpenInterest(k: Market, m: TickerMessage): (Market, bool) {
    if m.openInterest.None? || m.ts.None? then (k, true)
    else if m.ts.value < 0.0 || m.openInterest.value < 0.0 then (k, false)
    else
      var time := m.ts.value / 1000.0;
      var seen := Observe(k.openInterestSeen, time, m.openInterest.value);
      (k.(openInterestSeen := seen, openInterest := Some(seen[time]), openInterestTime := Some(time)), true)
  }

  function TakeFunding(k: Market, m: TickerMessage): (Market, bool) {
    if m.fundingRate.None? then (k, true)
    else if m.ts.None? then (k.(funding := m.fundingRate, fundingTime := None), true)
    else if m.ts.value < 0.0 then (k, false)
    else
      var time := m.ts.value / 1000.0;
      var seen := Observe(k.fundingSeen, time, m.fundingRate.value);
      (k.(fundingSeen := seen, funding := Some(seen[time]), fundingTime := Some(time)), true)
  }

  function TakeLastPrice(k: Market, m: TickerMessage): (Market, bool) {
    if m.lastPrice.None? then (k, true)
    else (k.(price := m.lastPrice), m.ts.None? || (m.ts.value >= 0.0 && m.lastPrice.value > 0.0))
  }

  // ---------------------------------------------------------------- one event

  function Process(f: Feed, message: Message, at: real): Feed {
    match message
    case WrongSymbol => f.(book := Invalid(f.book, SymbolMismatch))
    case NoData => f.(book := Invalid(f.book, MissingPayload))
    case OtherTopic => f
    case Book(m) =>
      var book := ApplyBook(f.book, m, at);
      f.(book := book, market := if book.ready && BestBid(book.bids).Some? then f.market.(price := BestBid(book.bids))
         else f.market)
    case Trades(trades) => ApplyTrades(f, trades)
    case Klines(items) => ApplyKlines(f, items)
    case KlinesNotAList => f.(book := Invalid(f.book, MalformedKline))
    case Ticker(m) => ApplyTicker(f, m)
    case TickerNotAnObject => f.(book := Invalid(f.book, MalformedTicker))
  }

  function Step(f: Feed, event: Event): Feed {
    match event
    case Received(message, at) => Process(f, message, at)
    case Connected => f.(book := FRESH_BOOK)
    case Disconnected =>
      f.(book := f.book.(bids := map[], asks := map[], sequence := None, ready := false, invalid := true,
                         quality := Pending, reason := StreamEnded, continuity := Lost))
  }

  function Run(events: seq<Event>): Feed {
    if events == [] then FRESH_FEED else Step(Run(events[..|events| - 1]), events[|events| - 1])
  }

  // ---------------------------------------------------------------- quality

  datatype Limits = Limits(book: real, trade: real, kline: real, openInterest: real, funding: real)
  datatype Grade = DataValid | DataStale | DataIncomplete | DataInvalid

  predicate Old(time: Option<real>, now: real, limit: real) { time.Some? && now - time.value > limit }

  /** The newest candle time is what the kline limit applies to. */
  ghost predicate KlineOld(times: map<string, real>, now: real, limit: real) {
    times != map[] && forall interval | interval in times :: now - times[interval] > limit
  }

  ghost predicate AnyOld(f: Feed, limits: Limits, now: real) {
    || (f.book.ready && Old(f.book.time, now, limits.book))
    || Old(f.tape.time, now, limits.trade)
    || KlineOld(f.market.candleTimes, now, limits.kline)
    || Old(f.market.openInterestTime, now, limits.openInterest)
    || Old(f.market.fundingTime, now, limits.funding)
  }

  predicate Complete(f: Feed) {
    && (f.book.continuity.Degraded? || f.book.continuity.Healthy?)
    && (f.market.candleTimes != map[] ==> f.market.confirmedTimes != map[])
    && f.book.ready && f.market.price.Some? && f.market.openInterest.Some? && f.market.funding.Some?
  }

  ghost function Graded(f: Feed, limits: Limits, now: real): Grade {
    if f.book.quality.Spoiled? || f.book.invalid then DataInvalid
    else if AnyOld(f, limits, now) then DataStale
    else if Complete(f) then DataValid else DataIncomplete
  }
}
