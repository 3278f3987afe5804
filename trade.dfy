/** The trade worker's per-message decision (the body of the worker's message
    loop): the expiry check, the market lookup, and for each command kind its
    guards on the observed position, its formulas, its take-profit ladder and
    its PnL thresholds. The exchange is observed through `MessageEnv` and
    acted upon through the list of `Action`s a step emits, in call order; the
    `Outcome` says what is written onto the message record. */
module Trade {
  import opened Wrappers
  import opened Text
  import opened Positions
  import Records

  // ---------------------------------------------------------------------------
  // Inputs and outputs

  /** The creation fields of a queued message. */
  datatype MessageFields = MessageFields(botId: string, pair: string, command: string, percent: string, timestamp: int)

  /** The reply to a margin-mode or leverage request: accepted, or an
      exchange error carrying its `ret_code`. */
  datatype Reply = Accepted | Rejected(retCode: int)

  /** Wall-clock readings (UTC, microseconds): when the message's processing
      started, when its age was checked, and when the order-time budget was
      checked before an entry order. */
  datatype Clock = Clock(startedAt: int, expiryCheckAt: int, orderCheckAt: int)

  /** What the exchange answers while one message is processed. */
  datatype MessageEnv = MessageEnv(
    positions: seq<PositionEntry>,  // fetch_positions
    price: real,                    // last trade price
    freeBalance: real,              // free USDT
    marginReply: Reply,             // switch isolated / cross
    leverageReply: Reply,           // set leverage
    orderStatus: string,            // order_status of a closing order
    clock: Clock)

  /** The worker's settings: the bot's `[trade]` section as ConfigParser
      stores it (option names lower-cased), the two time limits after
      defaults and overrides, and the markets the exchange lists. */
  datatype WorkerConfig = WorkerConfig(
    trade: map<string, string>,
    maxMessageAge: int,
    maxOrderTime: int,
    markets: set<string>)

  /** Exchange requests, in the order they are sent. `reduceOnly` stands for
      both the reduce-only and the close-on-trigger flag, which the source
      always sets together. */
  datatype Action =
    | SwitchIsolated(isolated: bool, leverage: real)
    | SetLeverage(leverage: real)
    | CancelConditionalOrders
    | MarketOrder(side: string, qty: real, reduceOnly: bool, stopLoss: Option<real>)
    | TakeProfitOrder(side: string, qty: real, basePrice: real, triggerPrice: real)

  /** What happens to the record: `log_error(text, severity)`,
      `log_success`, or nothing (a close whose order was not "Created"). */
  datatype Outcome = Failed(text: string, severity: string) | Succeeded(text: string) | StillPending

  datatype Step = Step(actions: seq<Action>, outcome: Outcome)

  // ---------------------------------------------------------------------------
  // Texts of the errors, as the source raises or logs them

  const PositionsErrorText := "error getting active positions"
  const AlreadyOpenText := "this bot already has a position open."
  const MarginErrorText := "error setting Cross/Isolated."
  const LeverageErrorText := "error setting leverage."
  const OrderTimeText := "max_order_time expired."
  const LadderSumText := "sum of take profit percents should be 100."
  const NotPositiveText := "profit is not positive"
  const BelowTargetText := "P/L is less than specified percent."
  const OpenedText := "Position opened successfully."
  const ClosedText := "Position closed successfully."
  const ReEnteredText := "take-profit order created"
  /** Python's message for a float division by zero. */
  const ZeroDivisionText := "float division by zero"
  /** Python's message when seven values are unpacked into eight names. */
  const UnpackText := "not enough values to unpack (expected 8, got 7)"

  /** Bybit's error codes for "already in the requested margin mode" and
      "leverage not modified". */
  const MarginUnchangedCode := 130056
  const LeverageUnchangedCode := 34036

  function ExpiredText(maxAge: int): string {
    "max_webhook_message_age_time expired for message. (" + IntStr(maxAge) + "s)"
  }

  /** The exchange library's message for a symbol it does not list. */
  function NoMarketText(pair: string): string {
    "bybit does not have market symbol " + pair
  }

  function InvalidCommandText(command: string): string {
    "invalid command " + command
  }

  /** Python's ValueError message for `float(s)`. */
  function FloatErrorText(s: string): string {
    "could not convert string to float: '" + s + "'"
  }

  function WrongSideText(kind: Kind): string {
    if kind == Long then "this bot has a short position open." else "this bot has a long position open."
  }

  function NoPositionText(kind: Kind): string {
    if kind == Long then "there is no active long position to close." else "there is no active short position to close."
  }

  // ---------------------------------------------------------------------------
  // Commands

  function EnterCommand(kind: Kind): string {
    if kind == Long then "enter-long" else "enter-short"
  }

  function ExitCommand(kind: Kind): string {
    if kind == Long then "exit-long" else "exit-short"
  }

  function TakeProfitCommand(kind: Kind, variant: nat): string
    requires 1 <= variant <= 3
  {
    (if kind == Long then "take-profit-long-" else "take-profit-short-") + [DigitChar(variant)]
  }

  /** The ten command names are pairwise distinct. */
  lemma CommandsDistinct()
    ensures EnterCommand(Long) != EnterCommand(Short) && ExitCommand(Long) != ExitCommand(Short)
    ensures forall k1: Kind, k2: Kind :: EnterCommand(k1) != ExitCommand(k2)
    ensures forall k1: Kind, k2: Kind, v: nat :: 1 <= v <= 3 ==>
      EnterCommand(k1) != TakeProfitCommand(k2, v) && ExitCommand(k1) != TakeProfitCommand(k2, v)
    ensures forall k1: Kind, k2: Kind, v1: nat, v2: nat ::
      (1 <= v1 <= 3 && 1 <= v2 <= 3 && TakeProfitCommand(k1, v1) == TakeProfitCommand(k2, v2)) ==> k1 == k2 && v1 == v2
  {
    forall k1: Kind, k2: Kind, v1: nat, v2: nat | 1 <= v1 <= 3 && 1 <= v2 <= 3 &&
      TakeProfitCommand(k1, v1) == TakeProfitCommand(k2, v2)
      ensures k1 == k2 && v1 == v2
    {
      var a, b := TakeProfitCommand(k1, v1), TakeProfitCommand(k2, v2);
      assert |a| == |b|;
      assert a[|a| - 1] == DigitChar(v1) && b[|b| - 1] == DigitChar(v2);
    }
    forall k1: Kind, k2: Kind, v: nat | 1 <= v <= 3
      ensures EnterCommand(k1) != TakeProfitCommand(k2, v) && ExitCommand(k1) != TakeProfitCommand(k2, v)
    {
      assert EnterCommand(k1)[0] == 'e' && ExitCommand(k1)[0] == 'e';
      assert TakeProfitCommand(k2, v)[0] == 't';
    }
  }

  /** The side that opens a position of this kind, and the one that closes it. */
  function EntrySide(kind: Kind): string {
    if kind == Long then Buy else Sell
  }

  function ExitSide(kind: Kind): string {
    if kind == Long then Sell else Buy
  }

  // ---------------------------------------------------------------------------
  // Time

  /** `timedelta.seconds` of a difference given in microseconds: whole
      seconds with the whole days dropped. */
  function Seconds(deltaMicros: int): (s: nat)
    ensures s < 86400
  {
    (deltaMicros / 1000000) % 86400
  }

  /** The age test therefore sees a message's age modulo one day: within a
      day it is the age in whole seconds, and a whole day more changes
      nothing. */
  lemma SecondsDropsDays(deltaMicros: int, days: int)
    ensures 0 <= deltaMicros < 86400 * 1000000 ==> Seconds(deltaMicros) == deltaMicros / 1000000
    ensures Seconds(deltaMicros + days * 86400 * 1000000) == Seconds(deltaMicros)
  {
    var q := deltaMicros / 1000000;
    var r := deltaMicros % 1000000;
    assert deltaMicros == q * 1000000 + r;
    assert deltaMicros + days * 86400 * 1000000 == (q + days * 86400) * 1000000 + r;
    assert (deltaMicros + days * 86400 * 1000000) / 1000000 == q + days * 86400;
    assert (q + days * 86400) % 86400 == q % 86400;
  }

  // ---------------------------------------------------------------------------
  // Configuration

  function LeverageKey(pair: string): string { pair + "_leverage_multiple" }
  function IsolatedKey(pair: string): string { pair + "_is_isolated" }
  function PortfolioKey(pair: string): string { pair + "_portfolio_percent" }
  function StopLossKey(pair: string): string { pair + "_stop_loss" }

  /** `{pair}_tp_{c}_%`, and `{pair}_tp_{c}_%_of_position`. */
  function TpKey(pair: string, c: nat): string { pair + "_tp_" + NatStr(c) + "_%" }
  function TpShareKey(pair: string, c: nat): string { TpKey(pair, c) + "_of_position" }

  /** ConfigParser passes every option name through `optionxform`, which
      lower-cases it, both when it reads the file and when a name is looked up
      or tested with `in`. A section map holds the names as stored, so a
      lookup folds the name it asks for. */
  predicate HasOption(cfg: map<string, string>, key: string) {
    Lower(key) in cfg
  }

  function OptionValue(cfg: map<string, string>, key: string): string
    requires HasOption(cfg, key)
  {
    cfg[Lower(key)]
  }

  /** `float(config['trade'][key])`: a missing option raises KeyError, whose
      text is the name as asked for; a value that is not a number raises
      ValueError. */
  function ReadFloat(cfg: map<string, string>, key: string): (r: Result<real, string>)
    ensures !HasOption(cfg, key) ==> r == Failure(key)
    ensures HasOption(cfg, key) ==> (r.Success? <==> ParseDecimal(cfg[Lower(key)]).Some?)
    ensures r.Success? ==> HasOption(cfg, key) && ParseDecimal(cfg[Lower(key)]) == Some(r.value)
  {
    if !HasOption(cfg, key) then Failure(key)
    else match ParseDecimal(OptionValue(cfg, key))
      case None => Failure(FloatErrorText(OptionValue(cfg, key)))
      case Some(v) => Success(v)
  }

  /** Option names that differ only in the case of their letters read the
      same stored value. */
  lemma ReadFloatIgnoresCase(cfg: map<string, string>, k1: string, k2: string)
    requires Lower(k1) == Lower(k2)
    ensures ReadFloat(cfg, k1).Success? <==> ReadFloat(cfg, k2).Success?
    ensures ReadFloat(cfg, k1).Success? ==> ReadFloat(cfg, k1).value == ReadFloat(cfg, k2).value
  {
  }

  lemma TpKeyInjective(pair: string, a: nat, b: nat)
    requires TpKey(pair, a) == TpKey(pair, b)
    ensures a == b
  {
    var p := pair + "_tp_";
    var ka, kb := TpKey(pair, a), TpKey(pair, b);
    assert ka == p + NatStr(a) + "_%";
    assert kb == p + NatStr(b) + "_%";
    assert |NatStr(a)| == |NatStr(b)|;
    assert ka[|p|..|p| + |NatStr(a)|] == NatStr(a);
    assert kb[|p|..|p| + |NatStr(b)|] == NatStr(b);
    NatStrInjective(a, b);
  }

  /** Folding a ladder key folds only its pair: the rest has no capitals. */
  lemma TpKeyFolds(pair: string, c: nat)
    ensures Lower(TpKey(pair, c)) == TpKey(Lower(pair), c)
  {
    var digits := NatStr(c);
    assert forall i :: 0 <= i < |digits| ==> IsDigit(digits[i]);
    LowerKeeps(digits);
    LowerKeeps("_tp_");
    LowerKeeps("_%");
    LowerAppend(pair, "_tp_");
    LowerAppend(pair + "_tp_", digits);
    LowerAppend(pair + "_tp_" + digits, "_%");
  }

  /** The stored ladder keys the loop has already read. */
  function TpKeysBelow(pair: string, c: nat): set<string> {
    set i | 1 <= i < c :: Lower(TpKey(pair, i))
  }

  lemma TpKeysGrow(pair: string, c: nat)
    requires c >= 1
    ensures Lower(TpKey(pair, c)) !in TpKeysBelow(pair, c)
    ensures TpKeysBelow(pair, c + 1) == TpKeysBelow(pair, c) + {Lower(TpKey(pair, c))}
  {
    if Lower(TpKey(pair, c)) in TpKeysBelow(pair, c) {
      var i :| 1 <= i < c && Lower(TpKey(pair, i)) == Lower(TpKey(pair, c));
      TpKeyFolds(pair, i);
      TpKeyFolds(pair, c);
      TpKeyInjective(Lower(pair), i, c);
    }
  }

  // ---------------------------------------------------------------------------
  // Take-profit ladder

  /** One rung: the price move in percent, and the share of the position. */
  datatype Rung = Rung(percent: real, share: real)

  /** The ladder from index `c` on: rungs are read for c, c+1, ... until the
      first missing `{pair}_tp_{c}_%` key. */
  function LadderFrom(cfg: map<string, string>, pair: string, c: nat): Result<seq<Rung>, string>
    requires c >= 1
    decreases cfg.Keys - TpKeysBelow(pair, c)
  {
    var key := TpKey(pair, c);
    if !HasOption(cfg, key) then Success([])
    else
      TpKeysGrow(pair, c);
      match ReadFloat(cfg, key)
      case Failure(e) => Failure(e)
      case Success(percent) =>
        match ReadFloat(cfg, TpShareKey(pair, c))
        case Failure(e) => Failure(e)
        case Success(share) =>
          match LadderFrom(cfg, pair, c + 1)
          case Failure(e) => Failure(e)
          case Success(rest) => Success([Rung(percent, share)] + rest)
  }

  function LadderOf(cfg: map<string, string>, pair: string): Result<seq<Rung>, string> {
    LadderFrom(cfg, pair, 1)
  }

  /** The configuration holds rung `r` at index `c`. */
  predicate RungAt(cfg: map<string, string>, pair: string, c: nat, r: Rung) {
    ReadFloat(cfg, TpKey(pair, c)) == Success(r.percent) && ReadFloat(cfg, TpShareKey(pair, c)) == Success(r.share)
  }

  /** One rung of a successful read: the rung at `c` and the rest from c+1. */
  lemma LadderUnfold(cfg: map<string, string>, pair: string, c: nat)
    requires c >= 1
    requires LadderFrom(cfg, pair, c).Success?
    requires HasOption(cfg, TpKey(pair, c))
    ensures var rungs := LadderFrom(cfg, pair, c).value;
      && |rungs| >= 1
      && RungAt(cfg, pair, c, rungs[0])
      && LadderFrom(cfg, pair, c + 1) == Success(rungs[1..])
  {
  }

  /** A ladder read from `c` holds exactly the consecutive rungs c, c+1, ...
      present in the configuration, and stops at the first missing index. */
  lemma LadderReadsConsecutiveKeys(cfg: map<string, string>, pair: string, c: nat)
    requires c >= 1
    requires LadderFrom(cfg, pair, c).Success?
    ensures var rungs := LadderFrom(cfg, pair, c).value;
      && !HasOption(cfg, TpKey(pair, c + |rungs|))
      && forall i :: 0 <= i < |rungs| ==> RungAt(cfg, pair, c + i, rungs[i])
  {
    LadderStopsAtGap(cfg, pair, c);
    LadderRungsPresent(cfg, pair, c);
  }

  lemma {:induction false} LadderStopsAtGap(cfg: map<string, string>, pair: string, c: nat)
    requires c >= 1
    requires LadderFrom(cfg, pair, c).Success?
    ensures !HasOption(cfg, TpKey(pair, c + |LadderFrom(cfg, pair, c).value|))
    decreases cfg.Keys - TpKeysBelow(pair, c)
  {
    if HasOption(cfg, TpKey(pair, c)) {
      TpKeysGrow(pair, c);
      LadderUnfold(cfg, pair, c);
      LadderStopsAtGap(cfg, pair, c + 1);
    }
  }

  lemma {:induction false} LadderRungsPresent(cfg: map<string, string>, pair: string, c: nat)
    requires c >= 1
    requires LadderFrom(cfg, pair, c).Success?
    ensures var rungs := LadderFrom(cfg, pair, c).value;
      forall i :: 0 <= i < |rungs| ==> RungAt(cfg, pair, c + i, rungs[i])
    decreases cfg.Keys - TpKeysBelow(pair, c)
  {
    var rungs := LadderFrom(cfg, pair, c).value;
    if HasOption(cfg, TpKey(pair, c)) {
      TpKeysGrow(pair, c);
      LadderUnfold(cfg, pair, c);
      LadderRungsPresent(cfg, pair, c + 1);
      var rest := rungs[1..];
      forall i | 1 <= i < |rungs|
        ensures RungAt(cfg, pair, c + i, rungs[i])
      {
        assert rungs[i] == rest[i - 1];
        assert c + i == c + 1 + (i - 1);
      }
    }
  }

  /** `total_percentage` as the loop accumulates it. */
  function ShareSum(rungs: seq<Rung>): real
    decreases |rungs|
  {
    if |rungs| == 0 then 0.0 else ShareSum(rungs[..|rungs| - 1]) + rungs[|rungs| - 1].share
  }

  function Prepend(done: seq<Rung>, rest: Result<seq<Rung>, string>): Result<seq<Rung>, string> {
    match rest
    case Failure(e) => Failure(e)
    case Success(more) => Success(done + more)
  }

  lemma PrependTwice(a: seq<Rung>, b: seq<Rung>, rest: Result<seq<Rung>, string>)
    ensures Prepend(a, Prepend(b, rest)) == Prepend(a + b, rest)
  {
    if rest.Success? {
      assert a + (b + rest.value) == (a + b) + rest.value;
    }
  }

  /** One turn of the ladder loop, in terms of the two reads of index `c`. */
  lemma LadderStep(cfg: map<string, string>, pair: string, c: nat)
    requires c >= 1
    requires HasOption(cfg, TpKey(pair, c))
    ensures ReadFloat(cfg, TpKey(pair, c)).Failure? ==>
      LadderFrom(cfg, pair, c) == Failure(ReadFloat(cfg, TpKey(pair, c)).error)
    ensures ReadFloat(cfg, TpKey(pair, c)).Success? && ReadFloat(cfg, TpShareKey(pair, c)).Failure? ==>
      LadderFrom(cfg, pair, c) == Failure(ReadFloat(cfg, TpShareKey(pair, c)).error)
    ensures ReadFloat(cfg, TpKey(pair, c)).Success? && ReadFloat(cfg, TpShareKey(pair, c)).Success? ==>
      LadderFrom(cfg, pair, c) ==
        Prepend([Rung(ReadFloat(cfg, TpKey(pair, c)).value, ReadFloat(cfg, TpShareKey(pair, c)).value)], LadderFrom(cfg, pair, c + 1))
  {
  }

  /** The ladder `while` loop of the enter branches, with its running total. */
  method ReadLadder(cfg: map<string, string>, pair: string) returns (r: Result<seq<Rung>, string>, total: real)
    ensures r == LadderOf(cfg, pair)
    ensures r.Success? ==> total == ShareSum(r.value)
  {
    var tps: seq<Rung> := [];
    var c: nat := 1;
    total := 0.0;
    assert LadderOf(cfg, pair).Success? ==> [] + LadderOf(cfg, pair).value == LadderOf(cfg, pair).value;
    while HasOption(cfg, TpKey(pair, c))
      invariant c >= 1
      invariant LadderOf(cfg, pair) == Prepend(tps, LadderFrom(cfg, pair, c))
      invariant total == ShareSum(tps)
      decreases cfg.Keys - TpKeysBelow(pair, c)
    {
      TpKeysGrow(pair, c);
      LadderStep(cfg, pair, c);
      var percent := ReadFloat(cfg, TpKey(pair, c));
      if percent.Failure? {
        r := Failure(percent.error);
        return;
      }
      var share := ReadFloat(cfg, TpShareKey(pair, c));
      if share.Failure? {
        r := Failure(share.error);
        return;
      }
      total := total + share.value;
      var rung := Rung(percent.value, share.value);
      assert (tps + [rung])[..|tps|] == tps;
      PrependTwice(tps, [rung], LadderFrom(cfg, pair, c + 1));
      assert Lower(TpKey(pair, c)) in cfg.Keys - TpKeysBelow(pair, c);
      tps := tps + [rung];
      c := c + 1;
    }
    assert tps + [] == tps;
    r := Success(tps);
  }

  // ---------------------------------------------------------------------------
  // Formulas

  /** Position size: free balance times leverage times the allotted share,
      in units of the asset at the current price, to two decimals. */
  function PositionQty(balance: real, leverage: real, investPercent: real, price: real): real
    requires price != 0.0
  {
    Round2((balance * leverage * (investPercent / 100.0)) / price)
  }

  /** The entry order's stop-loss before rounding: below the price for a long,
      above it for a short. */
  function RawStopLoss(kind: Kind, slPercent: real, price: real): real {
    if kind == Long then ((100.0 - slPercent) / 100.0) * price else ((100.0 + slPercent) / 100.0) * price
  }

  /** A take-profit trigger before rounding: above the price for a long,
      below it for a short. */
  function RawTakeProfitPrice(kind: Kind, tpPercent: real, price: real): real {
    if kind == Long then ((100.0 + tpPercent) / 100.0) * price else ((100.0 - tpPercent) / 100.0) * price
  }

  /** A positive stop percentage puts the stop on the losing side of the
      price and a positive take-profit percentage puts the trigger on the
      winning side, whichever the direction. */
  lemma StopAndTargetSides(kind: Kind, slPercent: real, tpPercent: real, price: real)
    requires slPercent > 0.0 && tpPercent > 0.0 && price > 0.0
    ensures kind == Long ==> RawStopLoss(kind, slPercent, price) < price < RawTakeProfitPrice(kind, tpPercent, price)
    ensures kind == Short ==> RawTakeProfitPrice(kind, tpPercent, price) < price < RawStopLoss(kind, slPercent, price)
  {
    assert ((100.0 - slPercent) / 100.0) * price == price - slPercent * price / 100.0;
    assert ((100.0 + slPercent) / 100.0) * price == price + slPercent * price / 100.0;
    assert ((100.0 + tpPercent) / 100.0) * price == price + tpPercent * price / 100.0;
    assert ((100.0 - tpPercent) / 100.0) * price == price - tpPercent * price / 100.0;
    assert slPercent * price > 0.0 && tpPercent * price > 0.0;
  }

  /** The take-profit orders of a ladder, one per rung in order, each a
      reduce-only conditional order on the closing side. */
  function TakeProfitOrders(kind: Kind, rungs: seq<Rung>, qty: real, price: real): seq<Action>
    decreases |rungs|
  {
    if |rungs| == 0 then []
    else
      var r := rungs[|rungs| - 1];
      TakeProfitOrders(kind, rungs[..|rungs| - 1], qty, price) +
        [TakeProfitOrder(ExitSide(kind), (r.share / 100.0) * qty, price, Round2(RawTakeProfitPrice(kind, r.percent, price)))]
  }

  function OrderQtySum(actions: seq<Action>): real
    decreases |actions|
  {
    if |actions| == 0 then 0.0
    else OrderQtySum(actions[..|actions| - 1]) + (match actions[|actions| - 1]
      case MarketOrder(_, q, _, _) => q
      case TakeProfitOrder(_, q, _, _) => q
      case _ => 0.0)
  }

  /** Every take-profit order is on the closing side, one per rung. */
  lemma {:induction false} TakeProfitOrdersShape(kind: Kind, rungs: seq<Rung>, qty: real, price: real)
    ensures |TakeProfitOrders(kind, rungs, qty, price)| == |rungs|
    ensures forall i :: 0 <= i < |rungs| ==>
      TakeProfitOrders(kind, rungs, qty, price)[i] ==
        TakeProfitOrder(ExitSide(kind), (rungs[i].share / 100.0) * qty, price, Round2(RawTakeProfitPrice(kind, rungs[i].percent, price)))
    decreases |rungs|
  {
    if |rungs| > 0 {
      var init := rungs[..|rungs| - 1];
      TakeProfitOrdersShape(kind, init, qty, price);
      assert forall i :: 0 <= i < |init| ==> init[i] == rungs[i];
    }
  }

  lemma ShareArithmetic(a: real, b: real, qty: real)
    ensures (a / 100.0) * qty + (b / 100.0) * qty == ((a + b) / 100.0) * qty
  {
  }

  /** The quantities the rungs' shares cut from a position, added up. */
  function PortionSum(rungs: seq<Rung>, qty: real): real
    decreases |rungs|
  {
    if |rungs| == 0 then 0.0 else PortionSum(rungs[..|rungs| - 1], qty) + (rungs[|rungs| - 1].share / 100.0) * qty
  }

  lemma {:induction false} PortionSumShares(rungs: seq<Rung>, qty: real)
    ensures PortionSum(rungs, qty) == (ShareSum(rungs) / 100.0) * qty
    decreases |rungs|
  {
    if |rungs| > 0 {
      var init := rungs[..|rungs| - 1];
      PortionSumShares(init, qty);
      ShareArithmetic(ShareSum(init), rungs[|rungs| - 1].share, qty);
    }
  }

  lemma {:induction false} OrderQtySumPortions(kind: Kind, rungs: seq<Rung>, qty: real, price: real)
    ensures OrderQtySum(TakeProfitOrders(kind, rungs, qty, price)) == PortionSum(rungs, qty)
    decreases |rungs|
  {
    if |rungs| > 0 {
      var init := rungs[..|rungs| - 1];
      OrderQtySumPortions(kind, init, qty, price);
      var orders := TakeProfitOrders(kind, rungs, qty, price);
      assert orders[..|orders| - 1] == TakeProfitOrders(kind, init, qty, price);
    }
  }

  /** The take-profit orders split the position in the ladder's proportions. */
  lemma TakeProfitOrdersSplitPosition(kind: Kind, rungs: seq<Rung>, qty: real, price: real)
    ensures OrderQtySum(TakeProfitOrders(kind, rungs, qty, price)) == (ShareSum(rungs) / 100.0) * qty
  {
    OrderQtySumPortions(kind, rungs, qty, price);
    PortionSumShares(rungs, qty);
  }

  /** A ladder summing to 100 splits exactly the whole position. */
  lemma TakeProfitOrdersCoverPosition(kind: Kind, rungs: seq<Rung>, qty: real, price: real)
    requires ShareSum(rungs) == 100.0
    ensures OrderQtySum(TakeProfitOrders(kind, rungs, qty, price)) == qty
  {
    TakeProfitOrdersSplitPosition(kind, rungs, qty, price);
    assert (100.0 / 100.0) * qty == qty;
  }

  // ---------------------------------------------------------------------------
  // One step per command kind

  function OwnSide(kind: Kind, s: Scan): Option<PositionEntry> {
    if kind == Long then s.buy else s.sell
  }

  function OtherSide(kind: Kind, s: Scan): Option<PositionEntry> {
    if kind == Long then s.sell else s.buy
  }

  /** A close is logged as a success only when the exchange reports the
      order as "Created"; otherwise the record is left pending. */
  function CloseOutcome(orderStatus: string): Outcome {
    if orderStatus == "Created" then Succeeded(ClosedText) else StillPending
  }

  function CloseOrder(side: string, qty: real): Action {
    MarketOrder(side, qty, true, None)
  }

  function Tolerated(reply: Reply, code: int): bool {
    reply.Accepted? || reply.retCode == code
  }

  /** The stop-loss of the entry order, when `{pair}_stop_loss` is set. */
  function EntryStopLoss(kind: Kind, cfg: map<string, string>, pair: string, price: real): Result<Option<real>, string> {
    if !HasOption(cfg, StopLossKey(pair)) then Success(None)
    else match ReadFloat(cfg, StopLossKey(pair))
      case Failure(e) => Failure(e)
      case Success(sl) => Success(Some(Round2(RawStopLoss(kind, sl, price))))
  }

  /** `enter-long` / `enter-short`. */
  function EnterStep(kind: Kind, pair: string, cfg: WorkerConfig, env: MessageEnv, s: Scan,
                     ladder: Result<seq<Rung>, string>): Step
  {
    if |env.positions| != 2 then Step([], Failed(PositionsErrorText, Records.High))
    else if s.buy.Some? || s.sell.Some? then Step([], Failed(AlreadyOpenText, Records.Warn))
    else match ReadFloat(cfg.trade, LeverageKey(pair))
    case Failure(e) => Step([], Failed(e, Records.High))
    case Success(leverage) =>
      if !HasOption(cfg.trade, IsolatedKey(pair)) then Step([], Failed(IsolatedKey(pair), Records.High))
      else
        var a1 := [SwitchIsolated(OptionValue(cfg.trade, IsolatedKey(pair)) == "true", leverage)];
        if !Tolerated(env.marginReply, MarginUnchangedCode) then Step(a1, Failed(MarginErrorText, Records.High))
        else
          var a2 := a1 + [SetLeverage(leverage)];
          if !Tolerated(env.leverageReply, LeverageUnchangedCode) then Step(a2, Failed(LeverageErrorText, Records.High))
          else match ReadFloat(cfg.trade, PortfolioKey(pair))
          case Failure(e) => Step(a2, Failed(e, Records.High))
          case Success(invest) =>
            if env.price == 0.0 then Step(a2, Failed(ZeroDivisionText, Records.High))
            else
              var qty := PositionQty(env.freeBalance, leverage, invest, env.price);
              if Seconds(env.clock.orderCheckAt - env.clock.startedAt) >= cfg.maxOrderTime then
                Step(a2, Failed(OrderTimeText, Records.Warn))
              else match EntryStopLoss(kind, cfg.trade, pair, env.price)
              case Failure(e) => Step(a2, Failed(e, Records.High))
              case Success(sl) =>
                var a3 := a2 + [MarketOrder(EntrySide(kind), qty, false, sl)];
                match ladder
                case Failure(e) => Step(a3, Failed(e, Records.High))
                case Success(rungs) =>
                  if |rungs| > 0 && ShareSum(rungs) != 100.0 then Step(a3, Failed(LadderSumText, Records.High))
                  else Step(a3 + TakeProfitOrders(kind, rungs, qty, env.price), Succeeded(OpenedText))
  }

  /** `exit-long` / `exit-short`. */
  function ExitStep(kind: Kind, env: MessageEnv, s: Scan): Step {
    if |env.positions| != 2 then Step([], Failed(PositionsErrorText, Records.High))
    else if OtherSide(kind, s).Some? then Step([], Failed(WrongSideText(kind), Records.Warn))
    else if OwnSide(kind, s).Some? then
      Step([CancelConditionalOrders, CloseOrder(ExitSide(kind), OwnSide(kind, s).value.size)], CloseOutcome(env.orderStatus))
    else Step([], Failed(NoPositionText(kind), Records.Warn))
  }

  /** `take-profit-*-1`: close when the direction's PnL is positive. */
  function TakeProfit1Step(kind: Kind, env: MessageEnv, s: Scan): Step {
    if |env.positions| != 2 then Step([], Failed(PositionsErrorText, Records.High))
    else if OtherSide(kind, s).Some? then Step([], Failed(WrongSideText(kind), Records.Warn))
    else if OwnSide(kind, s).Some? then
      var e := OwnSide(kind, s).value;
      if e.entryPrice == 0.0 then Step([], Failed(ZeroDivisionText, Records.High))
      else if SignedPnl(kind, env.price, e.entryPrice) > 0.0 then
        Step([CloseOrder(ExitSide(kind), e.size)], CloseOutcome(env.orderStatus))
      else Step([], Failed(NotPositiveText, Records.Warn))
    else Step([], Failed(NoPositionText(kind), Records.Warn))
  }

  /** `take-profit-*-2`: close when the PnL reaches the message's percent.
      The PnL is not negated here, for a short either. */
  function TakeProfit2Step(kind: Kind, percent: string, env: MessageEnv, s: Scan): Step {
    match ParseDecimal(DropLast(percent))
    case None => Step([], Failed(FloatErrorText(DropLast(percent)), Records.High))
    case Some(target) =>
      if |env.positions| != 2 then Step([], Failed(PositionsErrorText, Records.High))
      else if OtherSide(kind, s).Some? then Step([], Failed(WrongSideText(kind), Records.Warn))
      else if OwnSide(kind, s).Some? then
        var e := OwnSide(kind, s).value;
        if e.entryPrice == 0.0 then Step([], Failed(ZeroDivisionText, Records.High))
        else if PnlPercent(env.price, e.entryPrice) >= target then
          Step([CloseOrder(ExitSide(kind), e.size)], CloseOutcome(env.orderStatus))
        else Step([], Failed(BelowTargetText, Records.Warn))
      else Step([], Failed(NoPositionText(kind), Records.Warn))
  }

  /** The miss branch of `take-profit-*-3`: a fresh market order sized like
      an entry, on the closing side but not reduce-only. */
  function ReEnterStep(kind: Kind, cfg: map<string, string>, pair: string, env: MessageEnv): Step {
    match ReadFloat(cfg, PortfolioKey(pair))
    case Failure(e) => Step([], Failed(e, Records.High))
    case Success(invest) =>
      match ReadFloat(cfg, LeverageKey(pair))
      case Failure(e) => Step([], Failed(e, Records.High))
      case Success(leverage) =>
        if env.price == 0.0 then Step([], Failed(ZeroDivisionText, Records.High))
        else Step([MarketOrder(ExitSide(kind), PositionQty(env.freeBalance, leverage, invest, env.price), false, None)],
                  Succeeded(ReEnteredText))
  }

  /** `take-profit-*-3`: uses `get_position`; on a hit closes with the side
      of the response's last entry, on a miss re-enters. */
  function TakeProfit3Step(kind: Kind, percent: string, cfg: map<string, string>, pair: string, env: MessageEnv, s: Scan): Step {
    match ParseDecimal(DropLast(percent))
    case None => Step([], Failed(FloatErrorText(DropLast(percent)), Records.High))
    case Some(target) =>
      match TradeLookupFrom(env.price, |env.positions|, s)
      case Fallback => Step([], Failed(UnpackText, Records.High))
      case Flat => Step([], Failed(NoPositionText(kind), Records.Warn))
      case Found(h, lastSide) =>
        if h.kind != kind then Step([], Failed(NoPositionText(kind), Records.Warn))
        else if h.entryPrice == 0.0 then Step([], Failed(ZeroDivisionText, Records.High))
        else if SignedPnl(kind, h.price, h.entryPrice) >= target then
          Step([CloseOrder(lastSide, h.qty)], CloseOutcome(env.orderStatus))
        else ReEnterStep(kind, cfg, pair, env)
  }

  /** Age, market and command dispatch for one message, given the scan of
      the positions response and the ladder read from the configuration. */
  function DecideWith(m: MessageFields, cfg: WorkerConfig, env: MessageEnv, s: Scan,
                      ladder: Result<seq<Rung>, string>): Step
  {
    var pair := Upper(m.pair);
    var command := Lower(m.command);
    if Seconds(env.clock.expiryCheckAt - m.timestamp) >= cfg.maxMessageAge then
      Step([], Failed(ExpiredText(cfg.maxMessageAge), Records.Warn))
    else if pair !in cfg.markets then Step([], Failed(NoMarketText(pair), Records.High))
    else if command == EnterCommand(Short) then EnterStep(Short, pair, cfg, env, s, ladder)
    else if command == EnterCommand(Long) then EnterStep(Long, pair, cfg, env, s, ladder)
    else if command == ExitCommand(Short) then ExitStep(Short, env, s)
    else if command == ExitCommand(Long) then ExitStep(Long, env, s)
    else if command == TakeProfitCommand(Long, 1) then TakeProfit1Step(Long, env, s)
    else if command == TakeProfitCommand(Short, 1) then TakeProfit1Step(Short, env, s)
    else if command == TakeProfitCommand(Long, 2) then TakeProfit2Step(Long, m.percent, env, s)
    else if command == TakeProfitCommand(Short, 2) then TakeProfit2Step(Short, m.percent, env, s)
    else if command == TakeProfitCommand(Long, 3) then TakeProfit3Step(Long, m.percent, cfg.trade, pair, env, s)
    else if command == TakeProfitCommand(Short, 3) then TakeProfit3Step(Short, m.percent, cfg.trade, pair, env, s)
    else Step([], Failed(InvalidCommandText(command), Records.Warn))
  }

  /** The decision for one message against what the exchange reports. */
  function Decide(m: MessageFields, cfg: WorkerConfig, env: MessageEnv): Step {
    DecideWith(m, cfg, env, ScanOf(env.positions), LadderOf(cfg.trade, Upper(m.pair)))
  }
}
