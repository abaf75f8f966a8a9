/** The bounded trade window: sorting and truncating at every trade agrees with sorting everything once. */
module TradeWindow {
  import opened Optional
  import opened FeedModel
  import opened Sorting

  /** Every trade that _process_trade ever recorded, in the order of recording. */
  function AcceptedOf(t: TradeState, m: TradeMessage): seq<Trade> {
    var verdict := Judge(t, m);
    if verdict.Accepted? then [verdict.trade] else []
  }

  function AcceptedIn(f: Feed, trades: seq<TradeMessage>): seq<Trade> {
    if trades == [] then []
    else
      var before := trades[..|trades| - 1];
      AcceptedIn(f, before) + AcceptedOf(ApplyTrades(f, before).tape, trades[|trades| - 1])
  }

  function AcceptedTrades(events: seq<Event>): seq<Trade> {
    if events == [] then []
    else
      var before, last := events[..|events| - 1], events[|events| - 1];
      AcceptedTrades(before) +
      (if last.Received? && last.message.Trades? then AcceptedIn(Run(before), last.message.trades) else [])
  }

  /** What a text of decimal digits denotes. */
  function Denotes(digits: string): int {
    if digits == "" then 0
    else 10 * Denotes(digits[..|digits| - 1]) + (digits[|digits| - 1] as int - '0' as int)
  }

  lemma DigitExactly(n: nat)
    ensures var digit := ("0123456789")[n % 10]; '0' <= digit <= '9' && digit as int - '0' as int == n % 10
    ensures 0 < n < 10 ==> ("0123456789")[n % 10] != '0'
  {
    assert ("0123456789")[n % 10] == (n % 10 + 48) as char;
  }

  /** The running number of an id is printed in decimal, without leading zeros. */
  lemma {:induction false} DecimalExactly(n: nat)
    ensures Decimal(n) != "" && Denotes(Decimal(n)) == n
    ensures forall c | c in Decimal(n) :: '0' <= c <= '9'
    ensures n > 0 ==> Decimal(n)[0] != '0'
  {
    var digit := ("0123456789")[n % 10];
    DigitExactly(n);
    if n >= 10 {
      DecimalExactly(n / 10);
      var before := Decimal(n / 10);
      assert Decimal(n) == before + [digit];
      assert (before + [digit])[..|before|] == before;
    } else {
      assert Decimal(n) == [digit] && [digit][..0] == "";
    }
  }

  /**
   A trade is recorded, with its own id, time, price, quantity and side, exactly when its id is new, its time is not
   negative and not before the latest recorded one, its price and quantity are positive and its side is known. An id is
   the one given, else the printed time and the number of trades so far.
   */
  lemma JudgedExactly(t: TradeState, m: TradeMessage, trade: Trade)
    ensures Judge(t, m) == Accepted(trade) <==>
            && trade.id !in t.ids && trade.ms >= 0 && (t.latest.None? || trade.ms >= t.latest.value)
            && m.ms == Some(trade.ms) && m.price == Some(trade.price) && m.quantity == Some(trade.quantity)
            && m.side == Some(trade.side) && trade.price > 0.0 && trade.quantity > 0.0
            && (trade.side == Buy || trade.side == Sell)
            && trade.id == if m.id.Some? then m.id.value else Decimal(trade.ms) + "-" + Decimal(t.count)
    ensures Judge(t, m) == Verdict.Duplicate <==>
            (if m.id.Some? then m.id.value
             else (if m.ms.None? then "None" else if m.ms.value < 0 then "-" + Decimal(-m.ms.value)
                   else Decimal(m.ms.value)) + "-" + Decimal(t.count)) in t.ids
    ensures Judge(t, m) == Refused(LateTrade) ==> m.ms.Some? && t.latest.Some? && m.ms.value < t.latest.value
    ensures Judge(t, m) == Refused(BadTrade) ==>
            m.price.Some? && m.quantity.Some?
            && (m.price.value <= 0.0 || m.quantity.value <= 0.0 || m.side == Some(OtherSide))
    ensures Judge(t, m) == Refused(MalformedTrade) ==> m.ms.None? || m.price.None? || m.quantity.None? || m.side.None?
    ensures Judge(t, m).Refused? ==> Judge(t, m).reason in [LateTrade, BadTrade, MalformedTrade]
    ensures Judge(t, m).Unrecorded? ==> m.ms.Some? && m.ms.value < 0 && m.price == Some(Judge(t, m).price)
  {
    hide Decimal;
  }

  /**
   A recorded trade enters the window and becomes the price; any other only counts, and unless repeated spoils the
   book.
   */
  lemma TradedExactly(f: Feed, m: TradeMessage)
    ensures var (g, verdict) := (ApplyTrade(f, m), Judge(f.tape, m));
      && g.tape.count == f.tape.count + 1
      && (verdict.Accepted? ==>
          && g.tape.ids == f.tape.ids + {verdict.trade.id} && g.tape.latest == Some(verdict.trade.ms)
          && g.tape.time == Some(verdict.trade.ms as real / 1000.0) && g.book == f.book
          && g.market == f.market.(price := Some(verdict.trade.price)))
      && (!verdict.Accepted? ==> g.tape == f.tape.(count := f.tape.count + 1))
      && (verdict.Duplicate? ==> g.book == f.book && g.market == f.market)
      && (verdict.Refused? ==>
          !g.book.ready && g.book.invalid && g.book.reason == verdict.reason && g.market == f.market)
      && (verdict.Unrecorded? ==>
          !g.book.ready && g.book.invalid && g.book.reason == MalformedTrade
          && g.market == f.market.(price := Some(verdict.price)))
  {
    hide Judge;
  }

  // ---------------------------------------------------------------- the order on trades

  lemma {:induction false} LessIsStrict(a: string, b: string)
    ensures !(Less(a, b) && Less(b, a))
    ensures !Less(a, a)
  {
    if a != "" && b != "" { LessIsStrict(a[1..], b[1..]); }
    if a != "" { LessIsStrict(a[1..], a[1..]); }
  }

  lemma {:induction false} LessIsTransitive(a: string, b: string, c: string)
    requires Less(a, b) && Less(b, c)
    ensures Less(a, c)
  {
    if a != "" && a[0] == b[0] && b[0] == c[0] { LessIsTransitive(a[1..], b[1..], c[1..]); }
  }

  lemma {:induction false} LessIsTotal(a: string, b: string)
    ensures Less(a, b) || a == b || Less(b, a)
  {
    if a != "" && b != "" && a[0] == b[0] {
      LessIsTotal(a[1..], b[1..]);
      assert a == [a[0]] + a[1..] && b == [b[0]] + b[1..];
    }
  }

  /** The texts agree up to k, where the first one ends or has the smaller character. */
  predicate Differs(a: string, b: string, k: int) {
    0 <= k <= |a| && k < |b| && a[..k] == b[..k] && (k == |a| || a[k] < b[k])
  }

  lemma {:induction false} LessExactly(a: string, b: string)
    ensures Less(a, b) <==> exists k :: Differs(a, b, k)
  {
    if b != "" && (a == "" || a[0] < b[0]) { assert Differs(a, b, 0); }
    if a != "" && b != "" && a[0] == b[0] {
      LessExactly(a[1..], b[1..]);
      forall k | 1 <= k <= |a| && k < |b| ensures Differs(a, b, k) <==> Differs(a[1..], b[1..], k - 1) {
        assert a[..k] == [a[0]] + a[1..][..k - 1] && b[..k] == [b[0]] + b[1..][..k - 1];
        assert a[1..][..k - 1] == a[..k][1..] && b[1..][..k - 1] == b[..k][1..];
      }
      if k :| Differs(a[1..], b[1..], k) { assert Differs(a, b, k + 1); }
    }
  }

  lemma BeforeIsStrict(a: Trade, b: Trade)
    ensures !(Before(a, b) && Before(b, a)) && !Before(a, a)
  {
    LessIsStrict(a.id, b.id);
  }

  lemma BeforeIsTransitive(a: Trade, b: Trade, c: Trade)
    requires Before(a, b) && Before(b, c)
    ensures Before(a, c)
  {
    if a.ms == b.ms == c.ms { LessIsTransitive(a.id, b.id, c.id); }
  }

  lemma BeforeIsTotal(a: Trade, b: Trade)
    requires a.id != b.id
    ensures Before(a, b) || Before(b, a)
  {
    LessIsTotal(a.id, b.id);
  }

  // ---------------------------------------------------------------- sorting

  ghost predicate DistinctIds(s: seq<Trade>) { forall i, j | 0 <= i < j < |s| :: s[i].id != s[j].id }

  lemma BeforeIsAnOrder()
    ensures Strict(Before)
  {
    forall a, b | Before(a, b) ensures !Before(b, a) { BeforeIsStrict(a, b); }
    forall a, b, c | Before(a, b) && Before(b, c) ensures Before(a, c) { BeforeIsTransitive(a, b, c); }
  }

  lemma TradesInOrder(s: seq<Trade>)
    requires DistinctIds(s)
    ensures Increasing(Sorted(s, Before), Before)
  {
    BeforeIsAnOrder();
    forall i, j | 0 <= i < j < |s| ensures Before(s[i], s[j]) || Before(s[j], s[i]) { BeforeIsTotal(s[i], s[j]); }
    SortedIsIncreasing(s, Before);
  }

  // ---------------------------------------------------------------- truncation

  /** What was dropped earlier would be dropped now: truncating before an insertion changes nothing. */
  lemma {:induction false} TruncateEarly(s: seq<Trade>, t: Trade, n: nat)
    ensures Last(Insert(Last(s, n), t, Before), n) == Last(Insert(s, t, Before), n)
  {
    hide Insert, Before;
    if n == 0 {
    } else if |s| > n {
      var init, last := s[..|s| - 1], s[|s| - 1];
      assert s == init + [last];
      LastAppend(init, last, n);
      InsertAtEnd(init, last, t, Before);
      InsertAtEnd(Last(init, n - 1), last, t, Before);
      if Before(t, last) {
        TruncateEarly(init, t, n - 1);
        LastAppend(Insert(Last(init, n - 1), t, Before), last, n);
        LastAppend(Insert(init, t, Before), last, n);
      } else {
        LastAppend(Last(s, n), t, n);
        LastAppend(s, t, n);
        LastLast(s, n - 1, n);
      }
    }
  }

  lemma LastAppend(s: seq<Trade>, t: Trade, n: nat)
    requires n > 0
    ensures Last(s + [t], n) == Last(s, n - 1) + [t]
  {}

  lemma LastLast(s: seq<Trade>, m: nat, n: nat)
    requires m <= n
    ensures Last(Last(s, n), m) == Last(s, m)
  {}

  // ---------------------------------------------------------------- runs

  /** The tape holds the window of everything accepted so far. */
  ghost predicate Windowed(tape: TradeState, accepted: seq<Trade>) {
    && DistinctIds(accepted)
    && tape.ids == (set t | t in accepted :: t.id)
    && tape.trades == Last(Sorted(accepted, Before), WINDOW)
    && (if accepted == [] then tape.latest.None? else tape.latest == Some(accepted[|accepted| - 1].ms))
    && (forall i, j | 0 <= i < j < |accepted| :: accepted[i].ms <= accepted[j].ms)
  }

  lemma TradeKeepsWindow(f: Feed, m: TradeMessage, accepted: seq<Trade>)
    requires Windowed(f.tape, accepted)
    ensures Windowed(ApplyTrade(f, m).tape, accepted + AcceptedOf(f.tape, m))
  {
    hide Sorted, Last;
    var verdict := Judge(f.tape, m);
    if verdict.Accepted? {
      assert verdict.trade.id !in f.tape.ids;
      assert f.tape.latest.Some? ==> verdict.trade.ms >= f.tape.latest.value;
      WindowStep(accepted, verdict.trade);
    } else {
      assert accepted + [] == accepted;
    }
  }

  lemma WindowStep(accepted: seq<Trade>, t: Trade)
    requires DistinctIds(accepted)
    ensures Last(Sorted(Last(Sorted(accepted, Before), WINDOW) + [t], Before), WINDOW) ==
              Last(Sorted(accepted + [t], Before), WINDOW)
  {
    var sorted := Sorted(accepted, Before);
    var window := Last(sorted, WINDOW);
    TradesInOrder(accepted);
    BeforeIsAnOrder();
    SortedIsStable(window, Before);
    assert (window + [t])[..|window|] == window;
    assert (accepted + [t])[..|accepted|] == accepted;
    TruncateEarly(sorted, t, WINDOW);
  }

  lemma {:induction false} TradesKeepWindow(f: Feed, trades: seq<TradeMessage>, accepted: seq<Trade>)
    requires Windowed(f.tape, accepted)
    ensures Windowed(ApplyTrades(f, trades).tape, accepted + AcceptedIn(f, trades))
  {
    if trades == [] {
      assert accepted + [] == accepted;
    } else {
      var before := trades[..|trades| - 1];
      TradesKeepWindow(f, before, accepted);
      TradeKeepsWindow(ApplyTrades(f, before), trades[|trades| - 1], accepted + AcceptedIn(f, before));
      assert accepted + AcceptedIn(f, trades)
          == accepted + AcceptedIn(f, before) + AcceptedOf(ApplyTrades(f, before).tape, trades[|trades| - 1]);
    }
  }

  lemma {:induction false} KlinesKeepTape(f: Feed, items: seq<KlineItem>)
    ensures ApplyKlines(f, items).tape == f.tape
  {
    if items != [] { KlinesKeepTape(f, items[..|items| - 1]); }
  }

  lemma OthersKeepTape(f: Feed, event: Event)
    requires !(event.Received? && event.message.Trades?)
    ensures Step(f, event).tape == f.tape
  {
    match event
    case Received(Klines(items), _) => KlinesKeepTape(f, items);
    case _ =>
  }

  lemma {:induction false} WindowOfRun(events: seq<Event>)
    ensures Windowed(Run(events).tape, AcceptedTrades(events))
  {
    if events != [] {
      var before, last := events[..|events| - 1], events[|events| - 1];
      WindowOfRun(before);
      if last.Received? && last.message.Trades? {
        TradesKeepWindow(Run(before), last.message.trades, AcceptedTrades(before));
      } else {
        OthersKeepTape(Run(before), last);
        assert AcceptedTrades(before) + [] == AcceptedTrades(before);
      }
    }
  }

  /**
   The window is what one sort of everything accepted would leave, strictly increasing by
   (timestamp, id), with no id twice.
   */
  lemma TradesAreTheNewest(events: seq<Event>)
    ensures var trades, accepted := Run(events).tape.trades, AcceptedTrades(events);
            && trades == Last(Sorted(accepted, Before), WINDOW)
            && |trades| == (if |accepted| < WINDOW then |accepted| else WINDOW)
            && Increasing(trades, Before) && DistinctIds(trades)
            && forall i, j | 0 <= i < j < |trades| ::
                 trades[i].ms < trades[j].ms || (trades[i].ms == trades[j].ms && Less(trades[i].id, trades[j].id))
  {
    WindowOfRun(events);
    var trades, accepted := Run(events).tape.trades, AcceptedTrades(events);
    SortedKeepsAll(accepted, Before);
    TradesInOrder(accepted);
    forall i, j | 0 <= i < j < |trades| ensures trades[i].id != trades[j].id {
      IncreasingIds(accepted, trades[i], trades[j]);
    }
  }

  /** Two different accepted trades have different ids. */
  lemma IncreasingIds(accepted: seq<Trade>, a: Trade, b: Trade)
    requires DistinctIds(accepted) && Before(a, b)
    requires a in Sorted(accepted, Before) && b in Sorted(accepted, Before)
    ensures a.id != b.id
  {
    SortedKeepsAll(accepted, Before);
    assert a in multiset(accepted) && b in multiset(accepted);
    BeforeIsStrict(a, b);
  }

  /** Nothing that was dropped from the window is newer than anything in it. */
  lemma DroppedAreOlder(events: seq<Event>, dropped: Trade, kept: Trade)
    requires dropped in AcceptedTrades(events) && dropped !in Run(events).tape.trades
    requires kept in Run(events).tape.trades
    ensures Before(dropped, kept) && kept in AcceptedTrades(events)
    ensures dropped.ms < kept.ms || (dropped.ms == kept.ms && Less(dropped.id, kept.id))
  {
    WindowOfRun(events);
    var accepted := AcceptedTrades(events);
    var sorted := Sorted(accepted, Before);
    SortedKeepsAll(accepted, Before);
    TradesInOrder(accepted);
    assert dropped in multiset(sorted) && kept in multiset(accepted);
    var i :| 0 <= i < |sorted| && sorted[i] == dropped;
    var j :| 0 <= j < |Last(sorted, WINDOW)| && Last(sorted, WINDOW)[j] == kept;
  }
}
