/** Reading the exchange's positions response. A response lists one entry
    per side; an entry with a nonzero size is an open position on that side.
    Both services scan the response the same way (the last open entry of a
    side wins) and classify it into long, short or no position, each with its
    own fallback. */
module Positions {
  import opened Wrappers

  const Buy := "Buy"
  const Sell := "Sell"

  /** One entry of `fetch_positions`, its numeric fields already floats. */
  datatype PositionEntry = PositionEntry(
    side: string,
    size: real,
    stopLoss: real,
    unrealisedPnl: real,
    entryPrice: real,
    leverage: real)

  predicate IsOpen(e: PositionEntry, side: string) {
    e.side == side && e.size != 0.0
  }

  /** What the scan loop leaves in its flag variables: the last open Buy entry,
      the last open Sell entry, and the side of the last entry of all. */
  datatype Scan = Scan(buy: Option<PositionEntry>, sell: Option<PositionEntry>, lastSide: string)

  /** The body of `for p in response`. */
  function ScanStep(s: Scan, p: PositionEntry): Scan {
    Scan(if IsOpen(p, Buy) then Some(p) else s.buy,
         if IsOpen(p, Sell) then Some(p) else s.sell,
         p.side)
  }

  /** The scan of a whole response, entry by entry from the first. */
  function ScanOf(r: seq<PositionEntry>): Scan
    decreases |r|
  {
    if |r| == 0 then Scan(None, None, "") else ScanStep(ScanOf(r[..|r| - 1]), r[|r| - 1])
  }

  function Pick(s: Scan, side: string): Option<PositionEntry> {
    if side == Buy then s.buy else s.sell
  }

  /** The scan finds a side open exactly when some entry is open on it, and
      then reports the last such entry. */
  lemma {:induction false} ScanFindsLast(r: seq<PositionEntry>, side: string)
    requires side == Buy || side == Sell
    ensures Pick(ScanOf(r), side).Some? <==> exists i :: 0 <= i < |r| && IsOpen(r[i], side)
    ensures Pick(ScanOf(r), side).Some? ==>
      exists i :: 0 <= i < |r| && IsOpen(r[i], side) && Pick(ScanOf(r), side).value == r[i] &&
        forall j :: i < j < |r| ==> !IsOpen(r[j], side)
    decreases |r|
  {
    if |r| > 0 {
      var init := r[..|r| - 1];
      var last := r[|r| - 1];
      ScanFindsLast(init, side);
      assert forall i :: 0 <= i < |init| ==> init[i] == r[i];
      if IsOpen(last, side) {
        assert Pick(ScanOf(r), side) == Some(last);
      } else {
        assert Pick(ScanOf(r), side) == Pick(ScanOf(init), side);
        if Pick(ScanOf(r), side).Some? {
          var i :| 0 <= i < |init| && IsOpen(init[i], side) && Pick(ScanOf(init), side).value == init[i] &&
            forall j :: i < j < |init| ==> !IsOpen(init[j], side);
          assert forall j :: i < j < |r| ==> !IsOpen(r[j], side);
        }
      }
    }
  }

  /** The loop itself, as both `get_position` and the worker's inline checks
      run it over the response. */
  method ScanResponse(r: seq<PositionEntry>) returns (s: Scan)
    ensures s == ScanOf(r)
  {
    s := Scan(None, None, "");
    var i := 0;
    while i < |r|
      invariant 0 <= i <= |r|
      invariant s == ScanOf(r[..i])
    {
      var p := r[i];
      var buy, sell := s.buy, s.sell;
      if p.side == Sell && p.size != 0.0 {
        sell := Some(p);
      }
      if p.side == Buy && p.size != 0.0 {
        buy := Some(p);
      }
      s := Scan(buy, sell, p.side);
      assert r[..i + 1][..i] == r[..i];
      i := i + 1;
    }
    assert r[..i] == r;
  }

  // ---------------------------------------------------------------------------
  // get_position

  datatype Kind = Long | Short

  /** A normalised open position: quantity, stop-loss, unrealised PnL, entry
      price of the open side, and the last traded price. */
  datatype Holding = Holding(kind: Kind, qty: real, stopLoss: real, unrealisedPnl: real, entryPrice: real, price: real)

  function HoldingOf(kind: Kind, e: PositionEntry, price: real): Holding {
    Holding(kind, e.size, e.stopLoss, e.unrealisedPnl, e.entryPrice, price)
  }

  /** What the worker's `get_position` hands back: an open position together
      with the side of the response's last entry (its eighth value); the
      eight-value "no position" tuple; or the seven-value tuple of its
      exception handler, which callers unpacking eight values cannot take. */
  datatype TradeLookup = Found(holding: Holding, lastSide: string) | Flat | Fallback

  /** The worker's `get_position`, given the response length and its scan. */
  function TradeLookupFrom(price: real, count: nat, s: Scan): TradeLookup {
    if count != 2 then Fallback
    else if s.buy.None? && s.sell.None? then Flat
    else if s.buy.Some? && s.sell.None? then Found(HoldingOf(Long, s.buy.value, price), s.lastSide)
    else if s.buy.None? && s.sell.Some? then Found(HoldingOf(Short, s.sell.value, price), s.lastSide)
    else Fallback  // both sides open: "impossible !" is raised and caught
  }

  function TradeLookupOf(price: real, r: seq<PositionEntry>): TradeLookup {
    TradeLookupFrom(price, |r|, ScanOf(r))
  }

  /** The worker's classification: a response of any length but two, or with
      both sides open, falls back; only Buy open gives long with the last open
      Buy entry's values, only Sell open gives short; neither gives "no". */
  lemma ClassifyTradeLookup(price: real, r: seq<PositionEntry>)
    ensures |r| != 2 ==> TradeLookupOf(price, r) == Fallback
    ensures |r| == 2 ==>
      var buyOpen := exists i :: 0 <= i < |r| && IsOpen(r[i], Buy);
      var sellOpen := exists i :: 0 <= i < |r| && IsOpen(r[i], Sell);
      && (TradeLookupOf(price, r) == Flat <==> !buyOpen && !sellOpen)
      && (TradeLookupOf(price, r) == Fallback <==> buyOpen && sellOpen)
      && (TradeLookupOf(price, r).Found? && TradeLookupOf(price, r).holding.kind == Long <==> buyOpen && !sellOpen)
      && (TradeLookupOf(price, r).Found? && TradeLookupOf(price, r).holding.kind == Short <==> !buyOpen && sellOpen)
    ensures TradeLookupOf(price, r).Found? ==>
      && TradeLookupOf(price, r).lastSide == r[|r| - 1].side
      && TradeLookupOf(price, r).holding.price == price
      && exists i :: 0 <= i < |r| && TradeLookupOf(price, r).holding == HoldingOf(TradeLookupOf(price, r).holding.kind, r[i], price) &&
           IsOpen(r[i], if TradeLookupOf(price, r).holding.kind == Long then Buy else Sell) &&
           forall j :: i < j < |r| ==> r[j].side != r[i].side || r[j].size == 0.0
  {
    ScanFindsLast(r, Buy);
    ScanFindsLast(r, Sell);
    var s := ScanOf(r);
    if |r| == 2 {
      assert s.lastSide == r[1].side;
      if s.buy.Some? && s.sell.None? {
        assert Pick(s, Buy) == s.buy;
      } else if s.buy.None? && s.sell.Some? {
        assert Pick(s, Sell) == s.sell;
      }
    }
  }

  /** What the stop-loss controller's lookup could do: it failed before a
      response came back (no key row, unknown market, a raising call), or it
      read the last price and the positions response. */
  datatype LookupInput = Unreachable | Fetched(price: real, response: seq<PositionEntry>)

  /** The controller's `get_position`: every failure and the both-sides case
      give the seven-value "no position" tuple, here `None`. */
  function AdjusterLookupOf(input: LookupInput): Option<Holding> {
    match input
    case Unreachable => None
    case Fetched(price, r) =>
      match TradeLookupOf(price, r)
      case Found(h, _) => Some(h)
      case Flat => None
      case Fallback => None
  }

  /** The controller sees a position exactly when the response has two
      entries and exactly one side is open; it is then the worker's holding,
      taken from the last open entry of that side at the read price. */
  lemma ClassifyAdjusterLookup(input: LookupInput)
    ensures AdjusterLookupOf(input).Some? <==>
      && input.Fetched?
      && |input.response| == 2
      && ((exists i :: 0 <= i < 2 && IsOpen(input.response[i], Buy)) !=
          (exists i :: 0 <= i < 2 && IsOpen(input.response[i], Sell)))
    ensures AdjusterLookupOf(input).Some? ==>
      AdjusterLookupOf(input).value.kind == (if exists i :: 0 <= i < 2 && IsOpen(input.response[i], Buy) then Long else Short)
    ensures AdjusterLookupOf(input).Some? ==>
      && TradeLookupOf(input.price, input.response).Found?
      && AdjusterLookupOf(input).value == TradeLookupOf(input.price, input.response).holding
    ensures AdjusterLookupOf(input).Some? ==>
      var h := AdjusterLookupOf(input).value;
      exists i :: 0 <= i < 2 && h == HoldingOf(h.kind, input.response[i], input.price) &&
        IsOpen(input.response[i], if h.kind == Long then Buy else Sell) &&
        forall j :: i < j < 2 ==> !IsOpen(input.response[j], if h.kind == Long then Buy else Sell)
  {
    if input.Fetched? {
      ClassifyTradeLookup(input.price, input.response);
    }
  }

  // ---------------------------------------------------------------------------
  // Price arithmetic shared by both services

  /** `round(x, 2)`, half away from the lower neighbour, on exact reals. */
  function Round2(x: real): real {
    ((x * 100.0 + 0.5).Floor as real) / 100.0
  }

  /** Rounding moves a value by at most half a cent, and a whole-cent value
      not at all. */
  lemma Round2Bounds(x: real)
    ensures x - 0.005 < Round2(x) <= x + 0.005
    ensures (x * 100.0).Floor as real == x * 100.0 ==> Round2(x) == x
  {
    var f := (x * 100.0 + 0.5).Floor;
    assert f as real <= x * 100.0 + 0.5 < f as real + 1.0;
    if (x * 100.0).Floor as real == x * 100.0 {
      assert f == (x * 100.0).Floor;
    }
  }

  /** `(cur - entry) / entry * 100`. */
  function PnlPercent(current: real, entry: real): real
    requires entry != 0.0
  {
    ((current - entry) / entry) * 100.0
  }

  /** The PnL as the direction sees it: negated for a short. */
  function SignedPnl(kind: Kind, current: real, entry: real): real
    requires entry != 0.0
  {
    if kind == Long then PnlPercent(current, entry) else -PnlPercent(current, entry)
  }

  /** Rounding never reverses an order between two values. */
  lemma Round2Monotone(x: real, y: real)
    requires x <= y
    ensures Round2(x) <= Round2(y)
  {
    var fx := (x * 100.0 + 0.5).Floor;
    var fy := (y * 100.0 + 0.5).Floor;
    assert fx as real <= x * 100.0 + 0.5 <= y * 100.0 + 0.5 < fy as real + 1.0;
    assert fx <= fy;
    assert (fx as real) / 100.0 <= (fy as real) / 100.0;
  }
}
