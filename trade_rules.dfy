/** What the worker's decision promises, command by command, stated over the
    raw positions response and configuration rather than over the scan. */
module TradeRules {
  import opened Wrappers
  import opened Text
  import opened Positions
  import opened Trade
  import Records

  /** The message is young enough and its pair is a listed market. */
  predicate Admitted(m: MessageFields, cfg: WorkerConfig, env: MessageEnv) {
    Seconds(env.clock.expiryCheckAt - m.timestamp) < cfg.maxMessageAge && Upper(m.pair) in cfg.markets
  }

  predicate OpenOn(r: seq<PositionEntry>, side: string) {
    exists i :: 0 <= i < |r| && IsOpen(r[i], side)
  }

  /** `r[i]` is the last entry open on `side`. */
  predicate LastOpen(r: seq<PositionEntry>, side: string, i: int) {
    0 <= i < |r| && IsOpen(r[i], side) && forall j :: i < j < |r| ==> !IsOpen(r[j], side)
  }

  /** The scan's two flags are the two "some entry is open" facts, and each
      value is the last open entry of its side. */
  lemma ScanFacts(r: seq<PositionEntry>)
    ensures ScanOf(r).buy.Some? <==> OpenOn(r, Buy)
    ensures ScanOf(r).sell.Some? <==> OpenOn(r, Sell)
    ensures ScanOf(r).buy.Some? ==> exists i :: LastOpen(r, Buy, i) && ScanOf(r).buy.value == r[i]
    ensures ScanOf(r).sell.Some? ==> exists i :: LastOpen(r, Sell, i) && ScanOf(r).sell.value == r[i]
  {
    ScanFindsLast(r, Buy);
    ScanFindsLast(r, Sell);
  }

  // ---------------------------------------------------------------------------
  // Before dispatch

  /** The age check comes first and the market lookup second; both end the
      message without any exchange request. */
  lemma AgeAndMarketChecksComeFirst(m: MessageFields, cfg: WorkerConfig, env: MessageEnv)
    ensures Seconds(env.clock.expiryCheckAt - m.timestamp) >= cfg.maxMessageAge ==>
      Decide(m, cfg, env) == Step([], Failed(ExpiredText(cfg.maxMessageAge), Records.Warn))
    ensures Seconds(env.clock.expiryCheckAt - m.timestamp) < cfg.maxMessageAge && Upper(m.pair) !in cfg.markets ==>
      Decide(m, cfg, env) == Step([], Failed(NoMarketText(Upper(m.pair)), Records.High))
  {
  }

  /** Because only `.seconds` of the age is compared, a message that is
      whole days older than an admissible age is admitted as well: the age
      test sees `micros` only, whatever the number of days. */
  lemma AgeSeenModuloDay(m: MessageFields, cfg: WorkerConfig, env: MessageEnv, days: nat, micros: int)
    requires env.clock.expiryCheckAt - m.timestamp == days * 86400 * 1000000 + micros
    requires 0 <= micros < 86400 * 1000000
    ensures Seconds(env.clock.expiryCheckAt - m.timestamp) == micros / 1000000
    ensures micros / 1000000 < cfg.maxMessageAge && Upper(m.pair) in cfg.markets ==> Admitted(m, cfg, env)
  {
    SecondsDropsDays(micros, days);
  }

  /** A command matching none of the ten kinds fails with a warning and no
      request; commands are compared after lower-casing. */
  lemma UnknownCommandRejected(m: MessageFields, cfg: WorkerConfig, env: MessageEnv)
    requires Admitted(m, cfg, env)
    requires forall kind: Kind :: Lower(m.command) != EnterCommand(kind) && Lower(m.command) != ExitCommand(kind)
    requires forall kind: Kind, v: nat :: 1 <= v <= 3 ==> Lower(m.command) != TakeProfitCommand(kind, v)
    ensures Decide(m, cfg, env) == Step([], Failed(InvalidCommandText(Lower(m.command)), Records.Warn))
  {
    CommandsDistinct();
    assert Lower(m.command) != TakeProfitCommand(Long, 1) && Lower(m.command) != TakeProfitCommand(Short, 1);
    assert Lower(m.command) != TakeProfitCommand(Long, 2) && Lower(m.command) != TakeProfitCommand(Short, 2);
    assert Lower(m.command) != TakeProfitCommand(Long, 3) && Lower(m.command) != TakeProfitCommand(Short, 3);
    assert Lower(m.command) != EnterCommand(Long) && Lower(m.command) != EnterCommand(Short);
    assert Lower(m.command) != ExitCommand(Long) && Lower(m.command) != ExitCommand(Short);
  }

  // ---------------------------------------------------------------------------
  // Entering

  /** An enter command on a bot that already holds a position on either side
      is refused with a warning before any request. */
  lemma EnterRefusedWhenPositionOpen(kind: Kind, m: MessageFields, cfg: WorkerConfig, env: MessageEnv)
    requires Admitted(m, cfg, env)
    requires Lower(m.command) == EnterCommand(kind)
    requires |env.positions| == 2
    requires OpenOn(env.positions, Buy) || OpenOn(env.positions, Sell)
    ensures Decide(m, cfg, env) == Step([], Failed(AlreadyOpenText, Records.Warn))
  {
    CommandsDistinct();
    ScanFacts(env.positions);
  }

  /** A well-formed response with neither side open. */
  predicate NoPosition(r: seq<PositionEntry>) {
    |r| == 2 && !OpenOn(r, Buy) && !OpenOn(r, Sell)
  }

  /** Every guard of the enter branch after the position check: the
      leverage, isolated-margin and portfolio settings read, both exchange
      replies are tolerated, the price is nonzero, the order-time budget is
      kept, a configured stop reads, and the ladder reads and is empty or
      sums to 100. */
  predicate EntryGuards(kind: Kind, pair: string, cfg: WorkerConfig, env: MessageEnv, ladder: Result<seq<Rung>, string>) {
    && ReadFloat(cfg.trade, LeverageKey(pair)).Success?
    && HasOption(cfg.trade, IsolatedKey(pair))
    && Tolerated(env.marginReply, MarginUnchangedCode)
    && Tolerated(env.leverageReply, LeverageUnchangedCode)
    && ReadFloat(cfg.trade, PortfolioKey(pair)).Success?
    && env.price != 0.0
    && Seconds(env.clock.orderCheckAt - env.clock.startedAt) < cfg.maxOrderTime
    && (HasOption(cfg.trade, StopLossKey(pair)) ==> ReadFloat(cfg.trade, StopLossKey(pair)).Success?)
    && ladder.Success?
    && (|ladder.value| == 0 || ShareSum(ladder.value) == 100.0)
  }

  /** The requests of an entry that passes every guard: margin mode,
      leverage, the market order with its optional rounded stop, then the
      take-profit ladder. */
  function EntryRequests(kind: Kind, pair: string, cfg: WorkerConfig, env: MessageEnv, ladder: Result<seq<Rung>, string>): seq<Action>
    requires EntryGuards(kind, pair, cfg, env, ladder)
  {
    var lev := ReadFloat(cfg.trade, LeverageKey(pair)).value;
    var qty := PositionQty(env.freeBalance, lev, ReadFloat(cfg.trade, PortfolioKey(pair)).value, env.price);
    var stop := if HasOption(cfg.trade, StopLossKey(pair))
                then Some(Round2(RawStopLoss(kind, ReadFloat(cfg.trade, StopLossKey(pair)).value, env.price)))
                else None;
    [SwitchIsolated(OptionValue(cfg.trade, IsolatedKey(pair)) == "true", lev), SetLeverage(lev),
     MarketOrder(EntrySide(kind), qty, false, stop)] + TakeProfitOrders(kind, ladder.value, qty, env.price)
  }

  /** With no position open, the enter step succeeds exactly when every guard
      passes, and then sends exactly the entry requests. */
  lemma EnterStepAccepted(kind: Kind, pair: string, cfg: WorkerConfig, env: MessageEnv, s: Scan,
                          ladder: Result<seq<Rung>, string>)
    requires |env.positions| == 2 && s.buy.None? && s.sell.None?
    ensures EnterStep(kind, pair, cfg, env, s, ladder).outcome.Succeeded? <==> EntryGuards(kind, pair, cfg, env, ladder)
    ensures EntryGuards(kind, pair, cfg, env, ladder) ==>
      EnterStep(kind, pair, cfg, env, s, ladder) == Step(EntryRequests(kind, pair, cfg, env, ladder), Succeeded(OpenedText))
  {
  }

  /** The enter step succeeds only past every guard, with the requests
      listed in `EnterSuccess`. */
  lemma EnterStepSuccess(kind: Kind, pair: string, cfg: WorkerConfig, env: MessageEnv, s: Scan,
                         ladder: Result<seq<Rung>, string>)
    requires EnterStep(kind, pair, cfg, env, s, ladder).outcome.Succeeded?
    ensures |env.positions| == 2 && s.buy.None? && s.sell.None?
    ensures Seconds(env.clock.orderCheckAt - env.clock.startedAt) < cfg.maxOrderTime
    ensures var lev := ReadFloat(cfg.trade, LeverageKey(pair));
      var invest := ReadFloat(cfg.trade, PortfolioKey(pair));
      var actions := EnterStep(kind, pair, cfg, env, s, ladder).actions;
      && lev.Success? && invest.Success? && env.price != 0.0 && ladder.Success?
      && var qty := PositionQty(env.freeBalance, lev.value, invest.value, env.price);
      && |actions| == 3 + |ladder.value|
      && actions[0] == SwitchIsolated(HasOption(cfg.trade, IsolatedKey(pair)) && OptionValue(cfg.trade, IsolatedKey(pair)) == "true", lev.value)
      && actions[1] == SetLeverage(lev.value)
      && actions[2].MarketOrder? && actions[2].side == EntrySide(kind) && actions[2].qty == qty && !actions[2].reduceOnly
      && (HasOption(cfg.trade, StopLossKey(pair)) <==> actions[2].stopLoss.Some?)
      && (actions[2].stopLoss.Some? ==>
            actions[2].stopLoss.value == Round2(RawStopLoss(kind, ReadFloat(cfg.trade, StopLossKey(pair)).value, env.price)))
      && actions[3..] == TakeProfitOrders(kind, ladder.value, qty, env.price)
  {
    var step := EnterStep(kind, pair, cfg, env, s, ladder);
    assert |env.positions| == 2 && s.buy.None? && s.sell.None?;
    EnterStepAccepted(kind, pair, cfg, env, s, ladder);
    var lev := ReadFloat(cfg.trade, LeverageKey(pair)).value;
    var invest := ReadFloat(cfg.trade, PortfolioKey(pair)).value;
    var qty := PositionQty(env.freeBalance, lev, invest, env.price);
    var rungs := ladder.value;
    var a3 := step.actions[..3];
    assert step.actions == a3 + TakeProfitOrders(kind, rungs, qty, env.price);
    TakeProfitOrdersShape(kind, rungs, qty, env.price);
  }

  /** A successful entry sends, in order: the margin-mode switch, the leverage,
      one market order on the entry side that is not reduce-only and is sized
      from balance, leverage and the allotted share at the current price,
      carrying the rounded stop when one is configured; then one reduce-only
      take-profit order per ladder rung on the closing side, which together
      cover the whole position. It happens only for a young message on a
      listed market, with no position open and the order-time budget kept. */
  lemma EnterSuccess(kind: Kind, m: MessageFields, cfg: WorkerConfig, env: MessageEnv)
    requires Lower(m.command) == EnterCommand(kind)
    requires Decide(m, cfg, env).outcome.Succeeded?
    ensures Admitted(m, cfg, env)
    ensures |env.positions| == 2 && !OpenOn(env.positions, Buy) && !OpenOn(env.positions, Sell)
    ensures Seconds(env.clock.orderCheckAt - env.clock.startedAt) < cfg.maxOrderTime
    ensures var pair := Upper(m.pair);
      var lev := ReadFloat(cfg.trade, LeverageKey(pair));
      var invest := ReadFloat(cfg.trade, PortfolioKey(pair));
      var ladder := LadderOf(cfg.trade, pair);
      var actions := Decide(m, cfg, env).actions;
      && lev.Success? && invest.Success? && env.price != 0.0 && ladder.Success?
      && var qty := PositionQty(env.freeBalance, lev.value, invest.value, env.price);
      && |actions| == 3 + |ladder.value|
      && actions[0] == SwitchIsolated(HasOption(cfg.trade, IsolatedKey(pair)) && OptionValue(cfg.trade, IsolatedKey(pair)) == "true", lev.value)
      && actions[1] == SetLeverage(lev.value)
      && actions[2].MarketOrder? && actions[2].side == EntrySide(kind) && actions[2].qty == qty && !actions[2].reduceOnly
      && (HasOption(cfg.trade, StopLossKey(pair)) <==> actions[2].stopLoss.Some?)
      && (actions[2].stopLoss.Some? ==>
            actions[2].stopLoss.value == Round2(RawStopLoss(kind, ReadFloat(cfg.trade, StopLossKey(pair)).value, env.price)))
      && (forall i :: 3 <= i < |actions| ==>
            actions[i].TakeProfitOrder? && actions[i].side == ExitSide(kind) && actions[i].basePrice == env.price)
      && (|actions| > 3 ==> OrderQtySum(actions[3..]) == qty)
  {
    var pair := Upper(m.pair);
    var s := ScanOf(env.positions);
    var ladder := LadderOf(cfg.trade, pair);
    CommandsDistinct();
    ScanFacts(env.positions);
    assert Decide(m, cfg, env) == EnterStep(kind, pair, cfg, env, s, ladder);
    EnterStepSuccess(kind, pair, cfg, env, s, ladder);
    var lev := ReadFloat(cfg.trade, LeverageKey(pair)).value;
    var invest := ReadFloat(cfg.trade, PortfolioKey(pair)).value;
    var qty := PositionQty(env.freeBalance, lev, invest, env.price);
    TakeProfitOrdersShape(kind, ladder.value, qty, env.price);
    if ShareSum(ladder.value) == 100.0 {
      TakeProfitOrdersCoverPosition(kind, ladder.value, qty, env.price);
    }
    var actions := Decide(m, cfg, env).actions;
    forall i | 3 <= i < |actions|
      ensures actions[i].TakeProfitOrder? && actions[i].side == ExitSide(kind) && actions[i].basePrice == env.price
    {
      assert actions[i] == actions[3..][i - 3];
    }
  }

  /** The converse of `EnterSuccess`: an admitted enter command succeeds
      exactly when the response has two entries, neither side is open and
      every entry guard passes, and then it sends exactly the entry requests.
      In particular a configuration without any take-profit key is accepted:
      the entry then sends only margin mode, leverage and the market order. */
  lemma EnterAccepted(kind: Kind, m: MessageFields, cfg: WorkerConfig, env: MessageEnv)
    requires Admitted(m, cfg, env)
    requires Lower(m.command) == EnterCommand(kind)
    ensures Decide(m, cfg, env).outcome.Succeeded? <==>
      NoPosition(env.positions) && EntryGuards(kind, Upper(m.pair), cfg, env, LadderOf(cfg.trade, Upper(m.pair)))
    ensures NoPosition(env.positions) && EntryGuards(kind, Upper(m.pair), cfg, env, LadderOf(cfg.trade, Upper(m.pair))) ==>
      Decide(m, cfg, env) == Step(EntryRequests(kind, Upper(m.pair), cfg, env, LadderOf(cfg.trade, Upper(m.pair))), Succeeded(OpenedText))
    ensures NoPosition(env.positions) && !HasOption(cfg.trade, TpKey(Upper(m.pair), 1)) ==>
      EntryGuards(kind, Upper(m.pair), cfg, env, LadderOf(cfg.trade, Upper(m.pair))) ==>
      Decide(m, cfg, env).outcome == Succeeded(OpenedText) && |Decide(m, cfg, env).actions| == 3
  {
    var pair := Upper(m.pair);
    var s := ScanOf(env.positions);
    var ladder := LadderOf(cfg.trade, pair);
    CommandsDistinct();
    ScanFacts(env.positions);
    assert Decide(m, cfg, env) == EnterStep(kind, pair, cfg, env, s, ladder);
    if |env.positions| == 2 && s.buy.None? && s.sell.None? {
      EnterStepAccepted(kind, pair, cfg, env, s, ladder);
    }
  }

  /** A ladder whose shares do not add up to 100 never lets an entry succeed
      and never produces a take-profit order; and when the entry order was
      sent, it is the last request and the record fails with high severity. */
  lemma BadLadderFailsAfterEntryOrder(kind: Kind, m: MessageFields, cfg: WorkerConfig, env: MessageEnv)
    requires Lower(m.command) == EnterCommand(kind)
    requires LadderOf(cfg.trade, Upper(m.pair)).Success?
    requires |LadderOf(cfg.trade, Upper(m.pair)).value| > 0
    requires ShareSum(LadderOf(cfg.trade, Upper(m.pair)).value) != 100.0
    ensures !Decide(m, cfg, env).outcome.Succeeded?
    ensures forall i :: 0 <= i < |Decide(m, cfg, env).actions| ==> !Decide(m, cfg, env).actions[i].TakeProfitOrder?
    ensures var actions := Decide(m, cfg, env).actions;
      (exists i :: 0 <= i < |actions| && actions[i].MarketOrder?) ==>
        && Decide(m, cfg, env).outcome == Failed(LadderSumText, Records.High)
        && actions[|actions| - 1].MarketOrder? && actions[|actions| - 1].side == EntrySide(kind)
  {
    CommandsDistinct();
    var pair := Upper(m.pair);
    if Admitted(m, cfg, env) {
      assert Decide(m, cfg, env) == EnterStep(kind, pair, cfg, env, ScanOf(env.positions), LadderOf(cfg.trade, pair));
      BadLadderStep(kind, pair, cfg, env, ScanOf(env.positions), LadderOf(cfg.trade, pair));
    }
  }

  lemma BadLadderStep(kind: Kind, pair: string, cfg: WorkerConfig, env: MessageEnv, s: Scan, ladder: Result<seq<Rung>, string>)
    requires ladder.Success? && |ladder.value| > 0 && ShareSum(ladder.value) != 100.0
    ensures !EnterStep(kind, pair, cfg, env, s, ladder).outcome.Succeeded?
    ensures var actions := EnterStep(kind, pair, cfg, env, s, ladder).actions;
      forall i :: 0 <= i < |actions| ==> !actions[i].TakeProfitOrder?
    ensures var actions := EnterStep(kind, pair, cfg, env, s, ladder).actions;
      (exists i :: 0 <= i < |actions| && actions[i].MarketOrder?) ==>
        && EnterStep(kind, pair, cfg, env, s, ladder).outcome == Failed(LadderSumText, Records.High)
        && actions[|actions| - 1].MarketOrder? && actions[|actions| - 1].side == EntrySide(kind)
  {
  }

  // ---------------------------------------------------------------------------
  // Exiting

  /** An exit refuses when the opposite side is open, closes the last open
      entry of its own side after cancelling all conditional orders, and
      otherwise reports that there is nothing to close. The close is logged
      as a success exactly when the exchange reports the order "Created";
      otherwise the record stays pending. */
  lemma ExitRules(kind: Kind, m: MessageFields, cfg: WorkerConfig, env: MessageEnv)
    requires Admitted(m, cfg, env)
    requires Lower(m.command) == ExitCommand(kind)
    requires |env.positions| == 2
    ensures OpenOn(env.positions, ExitSide(kind)) ==>
      Decide(m, cfg, env) == Step([], Failed(WrongSideText(kind), Records.Warn))
    ensures !OpenOn(env.positions, ExitSide(kind)) && !OpenOn(env.positions, EntrySide(kind)) ==>
      Decide(m, cfg, env) == Step([], Failed(NoPositionText(kind), Records.Warn))
    ensures !OpenOn(env.positions, ExitSide(kind)) && OpenOn(env.positions, EntrySide(kind)) ==>
      exists i :: LastOpen(env.positions, EntrySide(kind), i) &&
        Decide(m, cfg, env) ==
          Step([CancelConditionalOrders, CloseOrder(ExitSide(kind), env.positions[i].size)],
               if env.orderStatus == "Created" then Succeeded(ClosedText) else StillPending)
  {
    CommandsDistinct();
    ScanFacts(env.positions);
  }

  /** Any response of a length other than two fails an enter, exit or
      first-variant take-profit command with high severity before any
      request (`TakeProfit2Rule` states the same for the second variant). */
  lemma MalformedResponseFails(kind: Kind, m: MessageFields, cfg: WorkerConfig, env: MessageEnv)
    requires Admitted(m, cfg, env)
    requires Lower(m.command) in {EnterCommand(kind), ExitCommand(kind), TakeProfitCommand(kind, 1)}
    requires |env.positions| != 2
    ensures Decide(m, cfg, env) == Step([], Failed(PositionsErrorText, Records.High))
  {
    CommandsDistinct();
  }

  // ---------------------------------------------------------------------------
  // Take-profit

  /** The first variant, case by case: a malformed response fails high; a
      position on the other side, or none at all, fails with a warning; with
      its own side open and `i` that side's last open entry, a zero entry
      price fails on the division, and otherwise the entry is closed exactly
      when the PnL seen in the trade's direction is strictly positive. */
  lemma TakeProfit1Rule(kind: Kind, m: MessageFields, cfg: WorkerConfig, env: MessageEnv, i: int)
    requires Admitted(m, cfg, env)
    requires Lower(m.command) == TakeProfitCommand(kind, 1)
    ensures |env.positions| != 2 ==> Decide(m, cfg, env) == Step([], Failed(PositionsErrorText, Records.High))
    ensures |env.positions| == 2 && OpenOn(env.positions, ExitSide(kind)) ==>
      Decide(m, cfg, env) == Step([], Failed(WrongSideText(kind), Records.Warn))
    ensures |env.positions| == 2 && !OpenOn(env.positions, ExitSide(kind)) && !OpenOn(env.positions, EntrySide(kind)) ==>
      Decide(m, cfg, env) == Step([], Failed(NoPositionText(kind), Records.Warn))
    ensures |env.positions| == 2 && !OpenOn(env.positions, ExitSide(kind)) && LastOpen(env.positions, EntrySide(kind), i) ==>
      var e := env.positions[i];
      && (e.entryPrice == 0.0 ==> Decide(m, cfg, env) == Step([], Failed(ZeroDivisionText, Records.High)))
      && (e.entryPrice != 0.0 && SignedPnl(kind, env.price, e.entryPrice) > 0.0 ==>
            Decide(m, cfg, env) == Step([CloseOrder(ExitSide(kind), e.size)],
                                        if env.orderStatus == "Created" then Succeeded(ClosedText) else StillPending))
      && (e.entryPrice != 0.0 && SignedPnl(kind, env.price, e.entryPrice) <= 0.0 ==>
            Decide(m, cfg, env) == Step([], Failed(NotPositiveText, Records.Warn)))
  {
    CommandsDistinct();
    assert Decide(m, cfg, env) == TakeProfit1Step(kind, env, ScanOf(env.positions));
    TakeProfit1StepRule(kind, env, i);
  }

  lemma TakeProfit1StepRule(kind: Kind, env: MessageEnv, i: int)
    ensures |env.positions| != 2 ==>
      TakeProfit1Step(kind, env, ScanOf(env.positions)) == Step([], Failed(PositionsErrorText, Records.High))
    ensures |env.positions| == 2 && OpenOn(env.positions, ExitSide(kind)) ==>
      TakeProfit1Step(kind, env, ScanOf(env.positions)) == Step([], Failed(WrongSideText(kind), Records.Warn))
    ensures |env.positions| == 2 && !OpenOn(env.positions, ExitSide(kind)) && !OpenOn(env.positions, EntrySide(kind)) ==>
      TakeProfit1Step(kind, env, ScanOf(env.positions)) == Step([], Failed(NoPositionText(kind), Records.Warn))
    ensures |env.positions| == 2 && !OpenOn(env.positions, ExitSide(kind)) && LastOpen(env.positions, EntrySide(kind), i) ==>
      var e := env.positions[i];
      && (e.entryPrice == 0.0 ==> TakeProfit1Step(kind, env, ScanOf(env.positions)) == Step([], Failed(ZeroDivisionText, Records.High)))
      && (e.entryPrice != 0.0 && SignedPnl(kind, env.price, e.entryPrice) > 0.0 ==>
            TakeProfit1Step(kind, env, ScanOf(env.positions)) ==
              Step([CloseOrder(ExitSide(kind), e.size)], if env.orderStatus == "Created" then Succeeded(ClosedText) else StillPending))
      && (e.entryPrice != 0.0 && SignedPnl(kind, env.price, e.entryPrice) <= 0.0 ==>
            TakeProfit1Step(kind, env, ScanOf(env.positions)) == Step([], Failed(NotPositiveText, Records.Warn)))
  {
    var r := env.positions;
    ScanFacts(r);
    if |r| == 2 && !OpenOn(r, ExitSide(kind)) && LastOpen(r, EntrySide(kind), i) {
      var j :| LastOpen(r, EntrySide(kind), j) && OwnSide(kind, ScanOf(r)).value == r[j];
      LastOpenUnique(r, EntrySide(kind), i, j);
    }
  }

  /** The second variant, case by case, once the percent (its last character
      dropped) reads as `target`: the same failures as the first variant, and
      otherwise a close exactly when the raw PnL, not negated for a short,
      reaches the target. */
  lemma TakeProfit2Rule(kind: Kind, m: MessageFields, cfg: WorkerConfig, env: MessageEnv, i: int, target: real)
    requires Admitted(m, cfg, env)
    requires Lower(m.command) == TakeProfitCommand(kind, 2)
    requires ParseDecimal(DropLast(m.percent)) == Some(target)
    ensures |env.positions| != 2 ==> Decide(m, cfg, env) == Step([], Failed(PositionsErrorText, Records.High))
    ensures |env.positions| == 2 && OpenOn(env.positions, ExitSide(kind)) ==>
      Decide(m, cfg, env) == Step([], Failed(WrongSideText(kind), Records.Warn))
    ensures |env.positions| == 2 && !OpenOn(env.positions, ExitSide(kind)) && !OpenOn(env.positions, EntrySide(kind)) ==>
      Decide(m, cfg, env) == Step([], Failed(NoPositionText(kind), Records.Warn))
    ensures |env.positions| == 2 && !OpenOn(env.positions, ExitSide(kind)) && LastOpen(env.positions, EntrySide(kind), i) ==>
      var e := env.positions[i];
      && (e.entryPrice == 0.0 ==> Decide(m, cfg, env) == Step([], Failed(ZeroDivisionText, Records.High)))
      && (e.entryPrice != 0.0 && PnlPercent(env.price, e.entryPrice) >= target ==>
            Decide(m, cfg, env) == Step([CloseOrder(ExitSide(kind), e.size)],
                                        if env.orderStatus == "Created" then Succeeded(ClosedText) else StillPending))
      && (e.entryPrice != 0.0 && PnlPercent(env.price, e.entryPrice) < target ==>
            Decide(m, cfg, env) == Step([], Failed(BelowTargetText, Records.Warn)))
  {
    CommandsDistinct();
    assert Decide(m, cfg, env) == TakeProfit2Step(kind, m.percent, env, ScanOf(env.positions));
    TakeProfit2StepRule(kind, m.percent, env, i, target);
  }

  lemma TakeProfit2StepRule(kind: Kind, percent: string, env: MessageEnv, i: int, target: real)
    requires ParseDecimal(DropLast(percent)) == Some(target)
    ensures |env.positions| != 2 ==>
      TakeProfit2Step(kind, percent, env, ScanOf(env.positions)) == Step([], Failed(PositionsErrorText, Records.High))
    ensures |env.positions| == 2 && OpenOn(env.positions, ExitSide(kind)) ==>
      TakeProfit2Step(kind, percent, env, ScanOf(env.positions)) == Step([], Failed(WrongSideText(kind), Records.Warn))
    ensures |env.positions| == 2 && !OpenOn(env.positions, ExitSide(kind)) && !OpenOn(env.positions, EntrySide(kind)) ==>
      TakeProfit2Step(kind, percent, env, ScanOf(env.positions)) == Step([], Failed(NoPositionText(kind), Records.Warn))
    ensures |env.positions| == 2 && !OpenOn(env.positions, ExitSide(kind)) && LastOpen(env.positions, EntrySide(kind), i) ==>
      var e := env.positions[i];
      && (e.entryPrice == 0.0 ==>
            TakeProfit2Step(kind, percent, env, ScanOf(env.positions)) == Step([], Failed(ZeroDivisionText, Records.High)))
      && (e.entryPrice != 0.0 && PnlPercent(env.price, e.entryPrice) >= target ==>
            TakeProfit2Step(kind, percent, env, ScanOf(env.positions)) ==
              Step([CloseOrder(ExitSide(kind), e.size)], if env.orderStatus == "Created" then Succeeded(ClosedText) else StillPending))
      && (e.entryPrice != 0.0 && PnlPercent(env.price, e.entryPrice) < target ==>
            TakeProfit2Step(kind, percent, env, ScanOf(env.positions)) == Step([], Failed(BelowTargetText, Records.Warn)))
  {
    var r := env.positions;
    ScanFacts(r);
    if |r| == 2 && !OpenOn(r, ExitSide(kind)) && LastOpen(r, EntrySide(kind), i) {
      var j :| LastOpen(r, EntrySide(kind), j) && OwnSide(kind, ScanOf(r)).value == r[j];
      LastOpenUnique(r, EntrySide(kind), i, j);
    }
  }

  /** A percent that is not a number once its last character is dropped fails
      both percent variants with high severity before any request. */
  lemma BadPercentFails(kind: Kind, v: nat, m: MessageFields, cfg: WorkerConfig, env: MessageEnv)
    requires Admitted(m, cfg, env)
    requires v == 2 || v == 3
    requires Lower(m.command) == TakeProfitCommand(kind, v)
    requires ParseDecimal(DropLast(m.percent)).None?
    ensures Decide(m, cfg, env) == Step([], Failed(FloatErrorText(DropLast(m.percent)), Records.High))
  {
    CommandsDistinct();
  }

  /** The re-entry order of the third variant: both settings must read and
      the price must be nonzero, and then exactly one market order goes out on
      the closing side, not reduce-only; any other case fails high with no
      request. */
  predicate ReEnters(kind: Kind, cfg: map<string, string>, pair: string, env: MessageEnv, step: Step) {
    var invest := ReadFloat(cfg, PortfolioKey(pair));
    var lev := ReadFloat(cfg, LeverageKey(pair));
    if invest.Success? && lev.Success? && env.price != 0.0 then
      step == Step([MarketOrder(ExitSide(kind), PositionQty(env.freeBalance, lev.value, invest.value, env.price), false, None)],
                   Succeeded(ReEnteredText))
    else step.actions == [] && step.outcome.Failed? && step.outcome.severity == Records.High
  }

  lemma ReEnterOutcome(kind: Kind, cfg: map<string, string>, pair: string, env: MessageEnv)
    ensures ReEnters(kind, cfg, pair, env, ReEnterStep(kind, cfg, pair, env))
  {
  }

  /** The re-entry is sized exactly like an entry: whenever an entry on the
      same settings and readings succeeds, the re-entry succeeds too, with one
      market order of the entry order's quantity, on the closing side of its
      own direction and without a stop. */
  lemma ReEnterSizedLikeEntry(kind: Kind, entryKind: Kind, pair: string, cfg: WorkerConfig, env: MessageEnv, s: Scan,
                              ladder: Result<seq<Rung>, string>)
    requires EnterStep(entryKind, pair, cfg, env, s, ladder).outcome.Succeeded?
    ensures |EnterStep(entryKind, pair, cfg, env, s, ladder).actions| >= 3
    ensures var entry := EnterStep(entryKind, pair, cfg, env, s, ladder).actions[2];
      ReEnterStep(kind, cfg.trade, pair, env) ==
        Step([MarketOrder(ExitSide(kind), entry.qty, false, None)], Succeeded(ReEnteredText))
  {
    EnterStepSuccess(entryKind, pair, cfg, env, s, ladder);
    ReEnterOutcome(kind, cfg.trade, pair, env);
  }

  /** The third variant reads the position through `get_position`. A
      malformed or two-sided response fails on the unpacking; no position of
      its own direction reports nothing to close. With its own side open and
      `i` that side's last open entry: a zero entry price fails on the
      division; a directional PnL at or above the target closes reduce-only
      with the side of the response's last entry (a close logged as a success
      exactly on "Created"); a PnL below it re-enters as `ReEnters` says. */
  lemma TakeProfit3Rule(kind: Kind, m: MessageFields, cfg: WorkerConfig, env: MessageEnv, target: real, i: int)
    requires Admitted(m, cfg, env)
    requires Lower(m.command) == TakeProfitCommand(kind, 3)
    requires ParseDecimal(DropLast(m.percent)) == Some(target)
    ensures |env.positions| != 2 || (OpenOn(env.positions, Buy) && OpenOn(env.positions, Sell)) ==>
      Decide(m, cfg, env) == Step([], Failed(UnpackText, Records.High))
    ensures |env.positions| == 2 && !OpenOn(env.positions, EntrySide(kind)) ==>
      Decide(m, cfg, env) == Step([], Failed(NoPositionText(kind), Records.Warn))
    ensures |env.positions| == 2 && !OpenOn(env.positions, ExitSide(kind)) && LastOpen(env.positions, EntrySide(kind), i) ==>
      var e := env.positions[i];
      && (e.entryPrice == 0.0 ==> Decide(m, cfg, env) == Step([], Failed(ZeroDivisionText, Records.High)))
      && (e.entryPrice != 0.0 && SignedPnl(kind, env.price, e.entryPrice) >= target ==>
            Decide(m, cfg, env) ==
              Step([CloseOrder(env.positions[1].side, e.size)],
                   if env.orderStatus == "Created" then Succeeded(ClosedText) else StillPending))
      && (e.entryPrice != 0.0 && SignedPnl(kind, env.price, e.entryPrice) < target ==>
            ReEnters(kind, cfg.trade, Upper(m.pair), env, Decide(m, cfg, env)))
  {
    CommandsDistinct();
    assert Decide(m, cfg, env) == TakeProfit3Step(kind, m.percent, cfg.trade, Upper(m.pair), env, ScanOf(env.positions));
    TakeProfit3StepRule(kind, m.percent, cfg.trade, Upper(m.pair), env, target, i);
  }

  lemma TakeProfit3StepRule(kind: Kind, percent: string, trade: map<string, string>, pair: string, env: MessageEnv,
                            target: real, i: int)
    requires ParseDecimal(DropLast(percent)) == Some(target)
    ensures |env.positions| != 2 || (OpenOn(env.positions, Buy) && OpenOn(env.positions, Sell)) ==>
      TakeProfit3Step(kind, percent, trade, pair, env, ScanOf(env.positions)) == Step([], Failed(UnpackText, Records.High))
    ensures |env.positions| == 2 && !OpenOn(env.positions, EntrySide(kind)) ==>
      TakeProfit3Step(kind, percent, trade, pair, env, ScanOf(env.positions)) == Step([], Failed(NoPositionText(kind), Records.Warn))
    ensures |env.positions| == 2 && !OpenOn(env.positions, ExitSide(kind)) && LastOpen(env.positions, EntrySide(kind), i) ==>
      var e := env.positions[i];
      var step := TakeProfit3Step(kind, percent, trade, pair, env, ScanOf(env.positions));
      && (e.entryPrice == 0.0 ==> step == Step([], Failed(ZeroDivisionText, Records.High)))
      && (e.entryPrice != 0.0 && SignedPnl(kind, env.price, e.entryPrice) >= target ==>
            step == Step([CloseOrder(env.positions[1].side, e.size)],
                         if env.orderStatus == "Created" then Succeeded(ClosedText) else StillPending))
      && (e.entryPrice != 0.0 && SignedPnl(kind, env.price, e.entryPrice) < target ==>
            ReEnters(kind, trade, pair, env, step))
  {
    var r := env.positions;
    ScanFacts(r);
    ClassifyTradeLookup(env.price, r);
    if |r| == 2 && !OpenOn(r, ExitSide(kind)) && LastOpen(r, EntrySide(kind), i) {
      TakeProfit3Found(kind, percent, trade, pair, env, target, i);
    }
  }

  lemma TakeProfit3Found(kind: Kind, percent: string, trade: map<string, string>, pair: string, env: MessageEnv,
                         target: real, i: int)
    requires ParseDecimal(DropLast(percent)) == Some(target)
    requires |env.positions| == 2 && !OpenOn(env.positions, ExitSide(kind)) && LastOpen(env.positions, EntrySide(kind), i)
    ensures
      var e := env.positions[i];
      var step := TakeProfit3Step(kind, percent, trade, pair, env, ScanOf(env.positions));
      && (e.entryPrice == 0.0 ==> step == Step([], Failed(ZeroDivisionText, Records.High)))
      && (e.entryPrice != 0.0 && SignedPnl(kind, env.price, e.entryPrice) >= target ==>
            step == Step([CloseOrder(env.positions[1].side, e.size)],
                         if env.orderStatus == "Created" then Succeeded(ClosedText) else StillPending))
      && (e.entryPrice != 0.0 && SignedPnl(kind, env.price, e.entryPrice) < target ==>
            ReEnters(kind, trade, pair, env, step))
  {
    var r := env.positions;
    var s := ScanOf(r);
    ScanFacts(r);
    var j :| LastOpen(r, EntrySide(kind), j) && OwnSide(kind, s).value == r[j];
    LastOpenUnique(r, EntrySide(kind), i, j);
    var h := HoldingOf(kind, r[i], env.price);
    assert TradeLookupFrom(env.price, |r|, s) == Found(h, r[1].side);
    ReEnterOutcome(kind, trade, pair, env);
  }

  lemma LastOpenUnique(r: seq<PositionEntry>, side: string, i: int, j: int)
    requires LastOpen(r, side, i) && LastOpen(r, side, j)
    ensures i == j
  {
  }
}
