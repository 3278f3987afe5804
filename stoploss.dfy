/** The stop-loss controller: per configured (bot, pair) row, the tier scan
    over the row's `{c}a`/`{c}b` columns, the proposed stop, the "only
    tighten" test, and the two passes that share the set of fast-tracked
    bots. Each pass's position lookups come from `observe(k)` for row k;
    the stop requests it sends are recorded in order. */
module StopLoss {
  import opened Wrappers
  import opened Text
  import opened Positions

  // ---------------------------------------------------------------------------
  // Settings rows

  /** One tier's two cells; `None` is an empty (NaN) cell. */
  datatype Tier = Tier(a: Option<real>, b: Option<real>)

  /** A settings row: the bot id, the pair, and its tier columns 1a/1b, 2a/2b,
      ... in order. */
  datatype Row = Row(botId: int, pair: string, tiers: seq<Tier>)

  /** `f"{bot_id}_{pair}"`, the key of the fast-tracked set. */
  function Iden(row: Row): string {
    IntStr(row.botId) + "_" + row.pair
  }

  /** The key as the pair it is built from. */
  datatype Key = Key(botId: int, pair: string)

  function KeyOf(row: Row): Key {
    Key(row.botId, row.pair)
  }

  /** Two rows share a key string exactly when they name the same bot and
      pair, so the fast-tracked set can be kept as a set of `Key`s. */
  lemma IdenMatchesKey(r1: Row, r2: Row)
    ensures Iden(r1) == Iden(r2) <==> KeyOf(r1) == KeyOf(r2)
  {
    if Iden(r1) == Iden(r2) {
      IdenInjective(r1, r2);
    }
  }

  lemma IdenInjective(r1: Row, r2: Row)
    requires Iden(r1) == Iden(r2)
    ensures r1.botId == r2.botId && r1.pair == r2.pair
  {
    var s1, s2 := IntStr(r1.botId), IntStr(r2.botId);
    IntStrNoUnderscore(r1.botId);
    IntStrNoUnderscore(r2.botId);
    var k := Iden(r1);
    UnderscoreSplits(s1, r1.pair);
    UnderscoreSplits(s2, r2.pair);
    assert s1 == k[..|s1|] == s2;
    assert r1.pair == k[|s1| + 1..] == r2.pair;
    IntStrInjective(r1.botId, r2.botId);
  }

  /** Position of the first '_' in `k`, or `|k|` when there is none. */
  function FirstUnderscore(k: string): (p: nat)
    ensures p <= |k|
    decreases |k|
  {
    if |k| == 0 || k[0] == '_' then 0 else 1 + FirstUnderscore(k[1..])
  }

  lemma {:induction false} UnderscoreSplits(s: string, t: string)
    requires forall k :: 0 <= k < |s| ==> s[k] != '_'
    ensures FirstUnderscore(s + "_" + t) == |s|
    decreases |s|
  {
    if |s| > 0 {
      assert (s + "_" + t)[1..] == s[1..] + "_" + t;
      UnderscoreSplits(s[1..], t);
    }
  }

  lemma IntStrNoUnderscore(i: int)
    ensures forall k :: 0 <= k < |IntStr(i)| ==> IntStr(i)[k] != '_'
  {
    var n: nat := if i < 0 then -i else i;
    assert AllDigits(NatStr(n));
    if i < 0 {
      assert forall k :: 1 <= k < |IntStr(i)| ==> IntStr(i)[k] == NatStr(n)[k - 1];
    }
  }

  lemma IntStrInjective(a: int, b: int)
    requires IntStr(a) == IntStr(b)
    ensures a == b
  {
    ParseIntStr(a);
    ParseIntStr(b);
  }

  // ---------------------------------------------------------------------------
  // Tier scan

  predicate Filled(t: Tier) {
    t.a.Some? && t.b.Some?
  }

  /** Index of the first tier with an empty cell, or the number of tiers. */
  function FirstGap(tiers: seq<Tier>): (g: nat)
    ensures g <= |tiers|
    ensures forall i :: 0 <= i < g ==> Filled(tiers[i])
    ensures g < |tiers| ==> !Filled(tiers[g])
    decreases |tiers|
  {
    if |tiers| == 0 then 0
    else if !Filled(tiers[0]) then 0
    else 1 + FirstGap(tiers[1..])
  }

  /** The last tier whose `a` the PnL strictly exceeds. */
  function LastMatch(tiers: seq<Tier>, pnl: real): Option<(real, real)>
    decreases |tiers|
  {
    if |tiers| == 0 then None
    else
      var t := tiers[|tiers| - 1];
      if Filled(t) && pnl > t.a.value then Some((t.a.value, t.b.value))
      else LastMatch(tiers[..|tiers| - 1], pnl)
  }

  /** The tier loop's result: the scan stops at the first empty cell, and a
      later matching tier overrides an earlier one. */
  function SelectTier(tiers: seq<Tier>, pnl: real): Option<(real, real)> {
    LastMatch(tiers[..FirstGap(tiers)], pnl)
  }

  /** `LastMatch` picks the matching tier with no matching tier after it. */
  lemma {:induction false} LastMatchSpec(tiers: seq<Tier>, pnl: real)
    ensures LastMatch(tiers, pnl).Some? <==> exists i :: 0 <= i < |tiers| && Filled(tiers[i]) && pnl > tiers[i].a.value
    ensures LastMatch(tiers, pnl).Some? ==>
      exists i :: 0 <= i < |tiers| && Filled(tiers[i]) && pnl > tiers[i].a.value &&
        LastMatch(tiers, pnl).value == (tiers[i].a.value, tiers[i].b.value) &&
        forall j :: i < j < |tiers| ==> !(Filled(tiers[j]) && pnl > tiers[j].a.value)
    decreases |tiers|
  {
    if |tiers| > 0 {
      var init := tiers[..|tiers| - 1];
      LastMatchSpec(init, pnl);
      assert forall i :: 0 <= i < |init| ==> init[i] == tiers[i];
      var t := tiers[|tiers| - 1];
      if !(Filled(t) && pnl > t.a.value) && LastMatch(tiers, pnl).Some? {
        var i :| 0 <= i < |init| && Filled(init[i]) && pnl > init[i].a.value &&
          LastMatch(init, pnl).value == (init[i].a.value, init[i].b.value) &&
          forall j :: i < j < |init| ==> !(Filled(init[j]) && pnl > init[j].a.value);
        assert forall j :: i < j < |tiers| ==> !(Filled(tiers[j]) && pnl > tiers[j].a.value);
      }
    }
  }

  /** The tier chosen for a PnL: some tier before the first empty cell whose
      `a` the PnL exceeds, with no later such tier before the gap; and none
      exactly when no tier before the gap is exceeded. */
  lemma SelectTierSpec(tiers: seq<Tier>, pnl: real)
    ensures SelectTier(tiers, pnl).None? <==>
      forall i :: 0 <= i < FirstGap(tiers) ==> pnl <= tiers[i].a.value
    ensures SelectTier(tiers, pnl).Some? ==>
      exists i :: 0 <= i < FirstGap(tiers) && pnl > tiers[i].a.value &&
        SelectTier(tiers, pnl).value == (tiers[i].a.value, tiers[i].b.value) &&
        forall j :: i < j < FirstGap(tiers) ==> pnl <= tiers[j].a.value
  {
    var g := FirstGap(tiers);
    var pre := tiers[..g];
    LastMatchSpec(pre, pnl);
    assert forall i :: 0 <= i < g ==> pre[i] == tiers[i];
  }

  /** The `while f"{c}a" in row` loop. */
  method ScanTiers(tiers: seq<Tier>, pnl: real) returns (best: Option<(real, real)>)
    ensures best == SelectTier(tiers, pnl)
  {
    best := None;
    var c := 0;
    while c < |tiers|
      invariant c <= FirstGap(tiers)
      invariant best == LastMatch(tiers[..c], pnl)
    {
      var t := tiers[c];
      if t.a.None? || t.b.None? {
        break;
      }
      if pnl > t.a.value {
        best := Some((t.a.value, t.b.value));
      }
      assert tiers[..c + 1][..c] == tiers[..c];
      c := c + 1;
    }
    assert c == FirstGap(tiers);
  }

  // ---------------------------------------------------------------------------
  // Per-row decision

  /** A `set_sl` call: bot, pair, the position's side, and the stop. */
  datatype StopRequest = StopRequest(botId: int, pair: string, side: string, stopLoss: real)

  /** A row's outcome: the loop thread dies (ZeroDivisionError on a zero entry
      price), nothing to do, or a stop request. */
  datatype Decision = Crash | Keep | Send(request: StopRequest)

  /** The stop `b` percent past the entry: below it for a long (the sign of
      `b` is flipped), above it for a short. */
  function ProposedStop(kind: Kind, entry: real, b: real): real {
    if kind == Long then entry * (1.0 + (-b / 100.0)) else entry * (1.0 + (b / 100.0))
  }

  /** The stop is moved when none is set, or when the proposal is tighter:
      higher for a long, lower for a short. */
  predicate Tightens(kind: Kind, proposed: real, current: real) {
    current == 0.0 || (if kind == Long then proposed > current else proposed < current)
  }

  function StopSide(kind: Kind): string {
    if kind == Long then Buy else Sell
  }

  function Evaluate(row: Row, h: Holding): Decision {
    if h.entryPrice == 0.0 then Crash
    else match SelectTier(row.tiers, SignedPnl(h.kind, h.price, h.entryPrice))
      case None => Keep
      case Some(tier) =>
        var proposed := ProposedStop(h.kind, h.entryPrice, tier.1);
        if Tightens(h.kind, proposed, h.stopLoss) then
          Send(StopRequest(row.botId, row.pair, StopSide(h.kind), Round2(proposed)))
        else Keep
  }

  /** `i` is the last tier before the first empty cell whose `a` the PnL
      exceeds. */
  predicate LastExceeded(tiers: seq<Tier>, pnl: real, i: int) {
    0 <= i < FirstGap(tiers) && pnl > tiers[i].a.value &&
    forall j :: i < j < FirstGap(tiers) ==> pnl <= tiers[j].a.value
  }

  /** The decision over the row's raw tier cells: a zero entry price crashes
      the thread; when the directional PnL exceeds no tier before the first
      empty cell nothing is sent; when `i` is the last tier it exceeds, a stop
      request is sent exactly when the stop `b_i` percent past the entry
      tightens the current one, and it carries the position's side and that
      stop rounded to the cent. Every request comes from such a tier. */
  lemma EvaluateSpec(row: Row, h: Holding, i: int)
    ensures Evaluate(row, h) == Crash <==> h.entryPrice == 0.0
    ensures h.entryPrice != 0.0 ==>
      (forall k :: 0 <= k < FirstGap(row.tiers) ==> SignedPnl(h.kind, h.price, h.entryPrice) <= row.tiers[k].a.value) ==>
      Evaluate(row, h) == Keep
    ensures h.entryPrice != 0.0 && LastExceeded(row.tiers, SignedPnl(h.kind, h.price, h.entryPrice), i) ==>
      var proposed := ProposedStop(h.kind, h.entryPrice, row.tiers[i].b.value);
      && (Evaluate(row, h).Send? <==> Tightens(h.kind, proposed, h.stopLoss))
      && (Evaluate(row, h).Send? ==>
            Evaluate(row, h).request == StopRequest(row.botId, row.pair, StopSide(h.kind), Round2(proposed)))
    ensures Evaluate(row, h).Send? ==>
      h.entryPrice != 0.0 && exists k :: LastExceeded(row.tiers, SignedPnl(h.kind, h.price, h.entryPrice), k)
  {
    if h.entryPrice != 0.0 {
      var pnl := SignedPnl(h.kind, h.price, h.entryPrice);
      SelectTierSpec(row.tiers, pnl);
      if SelectTier(row.tiers, pnl).Some? {
        var k :| 0 <= k < FirstGap(row.tiers) && pnl > row.tiers[k].a.value &&
          SelectTier(row.tiers, pnl).value == (row.tiers[k].a.value, row.tiers[k].b.value) &&
          forall j :: k < j < FirstGap(row.tiers) ==> pnl <= row.tiers[j].a.value;
        assert LastExceeded(row.tiers, pnl, k);
        if LastExceeded(row.tiers, pnl, i) {
          assert i == k;
        }
      }
    }
  }

  /** The controller never loosens a stop that sits on a whole cent: a long's
      new stop is at least the current one and a short's at most. */
  lemma StopNeverLoosens(row: Row, h: Holding)
    requires Evaluate(row, h).Send?
    requires h.stopLoss != 0.0
    requires (h.stopLoss * 100.0).Floor as real == h.stopLoss * 100.0
    ensures h.kind == Long ==> Evaluate(row, h).request.stopLoss >= h.stopLoss
    ensures h.kind == Short ==> Evaluate(row, h).request.stopLoss <= h.stopLoss
  {
    var tier := SelectTier(row.tiers, SignedPnl(h.kind, h.price, h.entryPrice)).value;
    var proposed := ProposedStop(h.kind, h.entryPrice, tier.1);
    Round2Bounds(h.stopLoss);
    if h.kind == Long {
      Round2Monotone(h.stopLoss, proposed);
    } else {
      Round2Monotone(proposed, h.stopLoss);
    }
  }

  /** The per-row body after a position was found. */
  method DecideRow(row: Row, h: Holding) returns (d: Decision)
    ensures d == Evaluate(row, h)
  {
    if h.entryPrice == 0.0 {
      return Crash;
    }
    var pnl := PnlPercent(h.price, h.entryPrice);
    if h.kind == Short {
      pnl := -pnl;
    }
    var tier := ScanTiers(row.tiers, pnl);
    if tier.None? {
      return Keep;
    }
    var b := tier.value.1;
    if h.kind == Long {
      b := -b;
    }
    var proposed := h.entryPrice * (1.0 + (b / 100.0));
    assert pnl == SignedPnl(h.kind, h.price, h.entryPrice);
    assert tier == SelectTier(row.tiers, SignedPnl(h.kind, h.price, h.entryPrice));
    assert proposed == ProposedStop(h.kind, h.entryPrice, tier.value.1);
    if h.kind == Long && (h.stopLoss == 0.0 || proposed > h.stopLoss) {
      d := Send(StopRequest(row.botId, row.pair, Buy, Round2(proposed)));
    } else if h.kind == Short && (h.stopLoss == 0.0 || proposed < h.stopLoss) {
      d := Send(StopRequest(row.botId, row.pair, Sell, Round2(proposed)));
    } else {
      d := Keep;
    }
  }

  // ---------------------------------------------------------------------------
  // The two passes

  /** The controller's shared state after some rows: the fast-tracked keys,
      the stop requests sent so far, and whether the pass's thread died. */
  datatype PassState = PassState(fast: set<Key>, sent: seq<StopRequest>, crashed: bool)

  function Apply(st: PassState, d: Decision): PassState {
    match d
    case Crash => st.(crashed := true)
    case Keep => st
    case Send(r) => st.(sent := st.sent + [r])
  }

  /** One row of `slow_loop`: rows already fast-tracked are skipped; a found
      position fast-tracks the row before its stop is evaluated. */
  function SlowStep(st: PassState, row: Row, found: Option<Holding>, decide: (Row, Holding) -> Decision): PassState {
    if KeyOf(row) in st.fast then st
    else match found
      case None => st
      case Some(h) => Apply(st.(fast := st.fast + {KeyOf(row)}), decide(row, h))
  }

  /** One row of `fast_loop`: only fast-tracked rows are visited; a row whose
      lookup finds no position leaves the fast track. */
  function FastStep(st: PassState, row: Row, found: Option<Holding>, decide: (Row, Holding) -> Decision): PassState {
    if KeyOf(row) !in st.fast then st
    else match found
      case None => st.(fast := st.fast - {KeyOf(row)})
      case Some(h) => Apply(st, decide(row, h))
  }

  /** What the controller's `get_position` returns for each row of a pass,
      from what the exchange answers for that row. */
  function LookupsOf(observe: nat -> LookupInput): nat -> Option<Holding> {
    (k: nat) => AdjusterLookupOf(observe(k))
  }

  /** The state after the first `n` rows of a slow pass; a dead thread
      handles no further row. */
  function SlowUpTo(rows: seq<Row>, found: nat -> Option<Holding>, decide: (Row, Holding) -> Decision, st: PassState, n: nat): PassState
    requires n <= |rows|
  {
    if n == 0 then st
    else
      var before := SlowUpTo(rows, found, decide, st, n - 1);
      if before.crashed then before else SlowStep(before, rows[n - 1], found(n - 1), decide)
  }

  function FastUpTo(rows: seq<Row>, found: nat -> Option<Holding>, decide: (Row, Holding) -> Decision, st: PassState, n: nat): PassState
    requires n <= |rows|
  {
    if n == 0 then st
    else
      var before := FastUpTo(rows, found, decide, st, n - 1);
      if before.crashed then before else FastStep(before, rows[n - 1], found(n - 1), decide)
  }

  /** The keys of rows among the first `n` whose lookup finds a position. */
  function FoundKeys(rows: seq<Row>, found: nat -> Option<Holding>, n: nat): set<Key>
    requires n <= |rows|
  {
    if n == 0 then {}
    else FoundKeys(rows, found, n - 1) + (if found(n - 1).Some? then {KeyOf(rows[n - 1])} else {})
  }

  /** The keys of rows among the first `n` whose lookup finds none. */
  function MissingKeys(rows: seq<Row>, found: nat -> Option<Holding>, n: nat): set<Key>
    requires n <= |rows|
  {
    if n == 0 then {}
    else MissingKeys(rows, found, n - 1) + (if found(n - 1).None? then {KeyOf(rows[n - 1])} else {})
  }

  lemma {:induction false} FoundKeysMembers(rows: seq<Row>, found: nat -> Option<Holding>, n: nat, x: Key)
    requires n <= |rows|
    ensures x in FoundKeys(rows, found, n) <==>
      exists k :: 0 <= k < n && found(k).Some? && KeyOf(rows[k]) == x
  {
    if n > 0 {
      FoundKeysMembers(rows, found, n - 1, x);
    }
  }

  lemma {:induction false} MissingKeysMembers(rows: seq<Row>, found: nat -> Option<Holding>, n: nat, x: Key)
    requires n <= |rows|
    ensures x in MissingKeys(rows, found, n) <==>
      exists k :: 0 <= k < n && found(k).None? && KeyOf(rows[k]) == x
  {
    if n > 0 {
      MissingKeysMembers(rows, found, n - 1, x);
    }
  }

  /** One slow row only adds its own key, and only when its lookup found a
      position; when the thread survives the row, the key is added. */
  lemma SlowStepFacts(st: PassState, row: Row, found: Option<Holding>, decide: (Row, Holding) -> Decision)
    ensures var next := SlowStep(st, row, found, decide);
      var added := if found.Some? then {KeyOf(row)} else {};
      && st.fast <= next.fast <= st.fast + added
      && (!next.crashed ==> next.fast == st.fast + added)
      && st.sent <= next.sent
  {
  }

  /** A slow pass only adds to the fast track, and a pass that runs to the
      end adds exactly the keys of the rows whose lookup found a position;
      the requests sent are only appended. */
  lemma {:induction false} SlowPassFastTracks(rows: seq<Row>, found: nat -> Option<Holding>, decide: (Row, Holding) -> Decision, st: PassState, n: nat)
    requires n <= |rows|
    requires !st.crashed
    ensures st.fast <= SlowUpTo(rows, found, decide, st, n).fast <= st.fast + FoundKeys(rows, found, n)
    ensures !SlowUpTo(rows, found, decide, st, n).crashed ==>
      SlowUpTo(rows, found, decide, st, n).fast == st.fast + FoundKeys(rows, found, n)
    ensures st.sent <= SlowUpTo(rows, found, decide, st, n).sent
  {
    if n > 0 {
      SlowPassFastTracks(rows, found, decide, st, n - 1);
      var before := SlowUpTo(rows, found, decide, st, n - 1);
      if !before.crashed {
        SlowStepFacts(before, rows[n - 1], found(n - 1), decide);
      }
    }
  }

  lemma FastStepFacts(st: PassState, row: Row, found: Option<Holding>, decide: (Row, Holding) -> Decision)
    ensures var next := FastStep(st, row, found, decide);
      var removed := if found.None? then {KeyOf(row)} else {};
      && st.fast - removed <= next.fast <= st.fast
      && (!next.crashed ==> next.fast == st.fast - removed)
      && st.sent <= next.sent
  {
  }

  /** A fast pass only removes from the fast track, and a pass that runs to
      the end removes exactly the keys of the rows whose lookup found none. */
  lemma {:induction false} FastPassReleases(rows: seq<Row>, found: nat -> Option<Holding>, decide: (Row, Holding) -> Decision, st: PassState, n: nat)
    requires n <= |rows|
    requires !st.crashed
    ensures st.fast - MissingKeys(rows, found, n) <= FastUpTo(rows, found, decide, st, n).fast <= st.fast
    ensures !FastUpTo(rows, found, decide, st, n).crashed ==>
      FastUpTo(rows, found, decide, st, n).fast == st.fast - MissingKeys(rows, found, n)
    ensures st.sent <= FastUpTo(rows, found, decide, st, n).sent
  {
    if n > 0 {
      FastPassReleases(rows, found, decide, st, n - 1);
      var before := FastUpTo(rows, found, decide, st, n - 1);
      if !before.crashed {
        FastStepFacts(before, rows[n - 1], found(n - 1), decide);
      }
    }
  }

  /** The two loops' shared state. */
  class Controller {
    var fastBots: set<Key>
    var sent: seq<StopRequest>

    constructor ()
      ensures fastBots == {} && sent == []
    {
      fastBots := {};
      sent := [];
    }

    /** The body of `slow_loop` for one row, given its lookup. */
    method SlowRow(row: Row, input: LookupInput) returns (crashed: bool)
      modifies this
      ensures PassState(fastBots, sent, crashed) == SlowStep(PassState(old(fastBots), old(sent), false), row, AdjusterLookupOf(input), Evaluate)
    {
      crashed := false;
      if KeyOf(row) !in fastBots {
        var found := AdjusterLookupOf(input);
        if found.Some? {
          fastBots := fastBots + {KeyOf(row)};
          var d := DecideRow(row, found.value);
          if d.Crash? {
            crashed := true;
          } else if d.Send? {
            sent := sent + [d.request];
          }
        }
      }
    }

    /** The body of `fast_loop` for one row, given its lookup. */
    method FastRow(row: Row, input: LookupInput) returns (crashed: bool)
      modifies this
      ensures PassState(fastBots, sent, crashed) == FastStep(PassState(old(fastBots), old(sent), false), row, AdjusterLookupOf(input), Evaluate)
    {
      crashed := false;
      if KeyOf(row) in fastBots {
        var found := AdjusterLookupOf(input);
        if found.Some? {
          var d := DecideRow(row, found.value);
          if d.Crash? {
            crashed := true;
          } else if d.Send? {
            sent := sent + [d.request];
          }
        } else {
          fastBots := fastBots - {KeyOf(row)};
        }
      }
    }

    /** One sweep of `slow_loop` over the rows; `crashed` when the thread
        died on a row. */
    method SlowPass(rows: seq<Row>, observe: nat -> LookupInput) returns (crashed: bool)
      modifies this
      ensures PassState(fastBots, sent, crashed) ==
        SlowUpTo(rows, LookupsOf(observe), Evaluate, PassState(old(fastBots), old(sent), false), |rows|)
    {
      ghost var found := LookupsOf(observe);
      ghost var decide := Evaluate;
      ghost var start := PassState(fastBots, sent, false);
      crashed := false;
      var i := 0;
      while i < |rows| && !crashed
        invariant 0 <= i <= |rows|
        invariant PassState(fastBots, sent, crashed) == SlowUpTo(rows, found, decide, start, i)
        invariant crashed ==> SlowUpTo(rows, found, decide, start, |rows|) == SlowUpTo(rows, found, decide, start, i)
      {
        SlowUpToNext(rows, found, decide, start, i);
        crashed := SlowRow(rows[i], observe(i));
        if crashed {
          SlowCrashSticks(rows, found, decide, start, i + 1, |rows|);
        }
        i := i + 1;
      }
    }

    /** One sweep of `fast_loop` over the rows. */
    method FastPass(rows: seq<Row>, observe: nat -> LookupInput) returns (crashed: bool)
      modifies this
      ensures PassState(fastBots, sent, crashed) ==
        FastUpTo(rows, LookupsOf(observe), Evaluate, PassState(old(fastBots), old(sent), false), |rows|)
    {
      ghost var found := LookupsOf(observe);
      ghost var decide := Evaluate;
      ghost var start := PassState(fastBots, sent, false);
      crashed := false;
      var i := 0;
      while i < |rows| && !crashed
        invariant 0 <= i <= |rows|
        invariant PassState(fastBots, sent, crashed) == FastUpTo(rows, found, decide, start, i)
        invariant crashed ==> FastUpTo(rows, found, decide, start, |rows|) == FastUpTo(rows, found, decide, start, i)
      {
        FastUpToNext(rows, found, decide, start, i);
        crashed := FastRow(rows[i], observe(i));
        if crashed {
          FastCrashSticks(rows, found, decide, start, i + 1, |rows|);
        }
        i := i + 1;
      }
    }
  }

  lemma SlowUpToNext(rows: seq<Row>, found: nat -> Option<Holding>, decide: (Row, Holding) -> Decision, st: PassState, n: nat)
    requires n < |rows|
    requires !SlowUpTo(rows, found, decide, st, n).crashed
    ensures SlowUpTo(rows, found, decide, st, n + 1) == SlowStep(SlowUpTo(rows, found, decide, st, n), rows[n], found(n), decide)
  {
  }

  lemma FastUpToNext(rows: seq<Row>, found: nat -> Option<Holding>, decide: (Row, Holding) -> Decision, st: PassState, n: nat)
    requires n < |rows|
    requires !FastUpTo(rows, found, decide, st, n).crashed
    ensures FastUpTo(rows, found, decide, st, n + 1) == FastStep(FastUpTo(rows, found, decide, st, n), rows[n], found(n), decide)
  {
  }

  /** Once a pass's thread has died, later rows change nothing. */
  lemma {:induction false} SlowCrashSticks(rows: seq<Row>, found: nat -> Option<Holding>, decide: (Row, Holding) -> Decision, st: PassState, n: nat, k: nat)
    requires n <= k <= |rows|
    requires SlowUpTo(rows, found, decide, st, n).crashed
    ensures SlowUpTo(rows, found, decide, st, k) == SlowUpTo(rows, found, decide, st, n)
    decreases k
  {
    if k > n {
      SlowCrashSticks(rows, found, decide, st, n, k - 1);
      var before := SlowUpTo(rows, found, decide, st, k - 1);
      assert before.crashed;
    }
  }

  lemma {:induction false} FastCrashSticks(rows: seq<Row>, found: nat -> Option<Holding>, decide: (Row, Holding) -> Decision, st: PassState, n: nat, k: nat)
    requires n <= k <= |rows|
    requires FastUpTo(rows, found, decide, st, n).crashed
    ensures FastUpTo(rows, found, decide, st, k) == FastUpTo(rows, found, decide, st, n)
    decreases k
  {
    if k > n {
      FastCrashSticks(rows, found, decide, st, n, k - 1);
      var before := FastUpTo(rows, found, decide, st, k - 1);
      assert before.crashed;
    }
  }
}
