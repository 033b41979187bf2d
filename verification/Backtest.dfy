// src/backtest/data.rs and src/backtest/mod.rs: load, validate, classify, simulate,
// count.  The pipeline as one stateful pass, and what its report adds up to.
module Backtest {
  import opened Wrappers
  import opened Signals
  import opened Sorting
  import opened Splits
  import opened Simulation
  import ExitWalk
  import G = EntryGate
  import E = Economics

  // ---------- loading ----------

  // A line of the dataset: blank or comment, not parseable, or a record.
  datatype Line = Skipped | Unparsable | Record(signal: Signal)

  predicate IsBase58(ch: char) {
    ('1' <= ch <= '9') || ('A' <= ch <= 'Z' && ch != 'I' && ch != 'O') || ('a' <= ch <= 'z' && ch != 'l')
  }

  predicate IsAddress(s: string) {
    32 <= |s| <= 44 && forall i :: 0 <= i < |s| ==> IsBase58(s[i])
  }

  predicate PositiveIfPresent(x: Option<real>) {
    x.Some? ==> x.value > 0.0
  }

  predicate ObservationOk(o: Observation, signalTime: int) {
    && o.timestamp >= signalTime && o.price > 0.0 && o.liquidity >= 0.0
    && PositiveIfPresent(o.openUsd) && PositiveIfPresent(o.highUsd) && PositiveIfPresent(o.lowUsd) && PositiveIfPresent(o.closeUsd)
    && High(o) >= Low(o)
  }

  // `validate_signal`.
  predicate Validates(s: Signal) {
    && s.history != [] && IsAddress(s.mint)
    && (forall i :: 0 < i < |s.history| ==> s.history[i - 1].timestamp <= s.history[i].timestamp)
    && (forall i :: 0 <= i < |s.history| ==> ObservationOk(s.history[i], s.timestamp))
    && s.position > 0.0 && s.expectedGrossPct >= 0.0 && s.tokenDecimals <= 18 && s.baseDecimals <= 18
    && s.market.observedAt <= s.timestamp && s.market.price > 0.0 && s.market.liquidity >= 0.0
    && s.safety.observedAt <= s.timestamp && s.safety.ageSecs >= 0
    && s.costs.observedAt <= s.timestamp
    && s.wallets != []
    && forall i :: 0 <= i < |s.wallets| ==>
         s.wallets[i].updatedAt <= s.timestamp && s.wallets[i].updatedAt <= s.market.observedAt && IsAddress(s.wallets[i].address)
  }

  method CheckAddress(s: string) returns (ok: bool)
    ensures ok <==> IsAddress(s)
  {
    if |s| < 32 || |s| > 44 {
      return false;
    }
    for i := 0 to |s|
      invariant forall j :: 0 <= j < i ==> IsBase58(s[j])
    {
      var letter := ('a' <= s[i] <= 'z') || ('A' <= s[i] <= 'Z');
      var digit := '0' <= s[i] <= '9';
      if !(letter || digit) || s[i] == '0' || s[i] == 'O' || s[i] == 'I' || s[i] == 'l' {
        return false;
      }
    }
    return true;
  }

  method CheckObservation(o: Observation, signalTime: int) returns (ok: bool)
    ensures ok <==> ObservationOk(o, signalTime)
  {
    if o.timestamp < signalTime || o.price <= 0.0 || o.liquidity < 0.0 {
      return false;
    }
    if o.openUsd.Some? && o.openUsd.value <= 0.0 {
      return false;
    }
    if o.highUsd.Some? && o.highUsd.value <= 0.0 {
      return false;
    }
    if o.lowUsd.Some? && o.lowUsd.value <= 0.0 {
      return false;
    }
    if o.closeUsd.Some? && o.closeUsd.value <= 0.0 {
      return false;
    }
    var high := if o.highUsd.Some? then o.highUsd.value else o.price;
    var low := if o.lowUsd.Some? then o.lowUsd.value else o.price;
    return high >= low;
  }

  method CheckHistory(s: Signal) returns (ok: bool)
    requires s.history != []
    ensures ok <==>
      && (forall i :: 0 < i < |s.history| ==> s.history[i - 1].timestamp <= s.history[i].timestamp)
      && (forall i :: 0 <= i < |s.history| ==> ObservationOk(s.history[i], s.timestamp))
  {
    for i := 1 to |s.history|
      invariant forall j :: 0 < j < i ==> s.history[j - 1].timestamp <= s.history[j].timestamp
    {
      if s.history[i - 1].timestamp > s.history[i].timestamp {
        return false;
      }
    }
    for i := 0 to |s.history|
      invariant forall j :: 0 <= j < i ==> ObservationOk(s.history[j], s.timestamp)
    {
      var good := CheckObservation(s.history[i], s.timestamp);
      if !good {
        return false;
      }
    }
    return true;
  }

  method CheckWallets(s: Signal) returns (ok: bool)
    ensures ok <==>
      && s.wallets != []
      && forall i :: 0 <= i < |s.wallets| ==>
           s.wallets[i].updatedAt <= s.timestamp && s.wallets[i].updatedAt <= s.market.observedAt && IsAddress(s.wallets[i].address)
  {
    if s.wallets == [] {
      return false;
    }
    for i := 0 to |s.wallets|
      invariant forall j :: 0 <= j < i ==>
        s.wallets[j].updatedAt <= s.timestamp && s.wallets[j].updatedAt <= s.market.observedAt && IsAddress(s.wallets[j].address)
    {
      if s.wallets[i].updatedAt > s.timestamp || s.wallets[i].updatedAt > s.market.observedAt {
        return false;
      }
      var known := CheckAddress(s.wallets[i].address);
      if !known {
        return false;
      }
    }
    return true;
  }

  // The checks of `validate_signal`, in its order, up to the wallets.
  method ValidateSignal(s: Signal) returns (ok: bool)
    ensures ok <==> Validates(s)
  {
    if s.history == [] {
      return false;
    }
    var known := CheckAddress(s.mint);
    if !known {
      return false;
    }
    var ordered := CheckHistory(s);
    if !ordered {
      return false;
    }
    if s.position <= 0.0 || s.expectedGrossPct < 0.0 || s.tokenDecimals > 18 || s.baseDecimals > 18 {
      return false;
    }
    if s.market.observedAt > s.timestamp || s.market.price <= 0.0 || s.market.liquidity < 0.0 {
      return false;
    }
    if s.safety.observedAt > s.timestamp || s.safety.ageSecs < 0 || s.costs.observedAt > s.timestamp {
      return false;
    }
    ok := CheckWallets(s);
  }

  function KeyOf(s: Signal): (string, int) {
    (s.mint, s.timestamp)
  }

  predicate HasKey(signals: seq<Signal>, key: (string, int)) {
    exists i :: 0 <= i < |signals| && KeyOf(signals[i]) == key
  }

  // Valid records, the first of each (mint, timestamp), in file order.
  function Kept(lines: seq<Line>): seq<Signal> {
    if lines == [] then []
    else
      var front := Kept(lines[..|lines| - 1]);
      match lines[|lines| - 1]
      case Record(s) => if Validates(s) && !HasKey(front, KeyOf(s)) then front + [s] else front
      case _ => front
  }

  function CountRecords(lines: seq<Line>): nat {
    if lines == [] then 0
    else CountRecords(lines[..|lines| - 1]) + (if lines[|lines| - 1].Skipped? then 0 else 1)
  }

  function ByTime(s: Signal): real {
    s.timestamp as real
  }

  ghost predicate DistinctKeys(signals: seq<Signal>) {
    forall i, j :: 0 <= i < j < |signals| ==> KeyOf(signals[i]) != KeyOf(signals[j])
  }

  // A record is kept exactly when it is valid and no earlier kept record has its key.
  lemma {:induction false} KeptIsValidAndDistinct(lines: seq<Line>)
    ensures forall i :: 0 <= i < |Kept(lines)| ==> Validates(Kept(lines)[i])
    ensures DistinctKeys(Kept(lines))
    ensures forall i :: 0 <= i < |lines| && lines[i].Record? && Validates(lines[i].signal) ==> HasKey(Kept(lines), KeyOf(lines[i].signal))
  {
    if lines != [] {
      var front := lines[..|lines| - 1];
      KeptIsValidAndDistinct(front);
      hide Validates;
      forall i | 0 <= i < |lines| && lines[i].Record? && Validates(lines[i].signal) ensures HasKey(Kept(lines), KeyOf(lines[i].signal)) {
        if i < |front| {
          assert front[i] == lines[i];
          var k :| 0 <= k < |Kept(front)| && KeyOf(Kept(front)[k]) == KeyOf(lines[i].signal);
          assert Kept(lines)[k] == Kept(front)[k];
        } else if !HasKey(Kept(front), KeyOf(lines[i].signal)) {
          assert Kept(lines)[|Kept(front)|] == lines[i].signal;
        }
      }
    }
  }

  method Load(lines: seq<Line>) returns (signals: seq<Signal>, rejected: nat)
    ensures signals == Sort(Kept(lines), ByTime)
    ensures |signals| + rejected == CountRecords(lines)
  {
    signals, rejected := [], 0;
    var seen: set<(string, int)> := {};
    for i := 0 to |lines|
      invariant signals == Kept(lines[..i])
      invariant forall key :: key in seen <==> HasKey(signals, key)
      invariant |signals| + rejected == CountRecords(lines[..i])
    {
      assert lines[..i + 1][..i] == lines[..i];
      match lines[i]
      case Skipped =>
      case Unparsable => rejected := rejected + 1;
      case Record(s) =>
        var valid := ValidateSignal(s);
        if !valid || KeyOf(s) in seen {
          rejected := rejected + 1;
        } else {
          ghost var before := signals;
          seen := seen + {KeyOf(s)};
          signals := signals + [s];
          KeysGrow(before, s);
        }
    }
    assert lines[..|lines|] == lines;
    SortIsSorted(signals, ByTime);
    signals := Sort(signals, ByTime);
  }

  lemma KeysGrow(signals: seq<Signal>, s: Signal)
    ensures forall key :: HasKey(signals + [s], key) <==> HasKey(signals, key) || key == KeyOf(s)
  {
    forall key | HasKey(signals, key) ensures HasKey(signals + [s], key) {
      var i :| 0 <= i < |signals| && KeyOf(signals[i]) == key;
      assert (signals + [s])[i] == signals[i];
    }
    assert (signals + [s])[|signals|] == s;
  }

  // ---------- prefilter ----------

  predicate Coherent(s: Signal) {
    s.history != [] && s.market.mint == s.mint
  }

  method Prefilter(signals: seq<Signal>) returns (accepted: seq<Signal>, rejected: nat)
    ensures accepted == Select(signals, Coherent) && |accepted| + rejected == |signals|
  {
    accepted, rejected := [], 0;
    for i := 0 to |signals|
      invariant accepted == Select(signals[..i], Coherent) && |accepted| + rejected == i
    {
      assert signals[..i + 1][..i] == signals[..i];
      if signals[i].history == [] || signals[i].market.mint != signals[i].mint {
        rejected := rejected + 1;
      } else {
        accepted := accepted + [signals[i]];
      }
    }
    assert signals[..|signals|] == signals;
  }

  // ---------- simulation ----------

  predicate Excluded(sc: Splits.Config, s: Signal) {
    Classify(s.timestamp, sc).1
  }

  function ExcludedBy(sc: Splits.Config): Signal -> bool {
    (s: Signal) => Excluded(sc, s)
  }

  // The trades of the simulation loop; the index counts trades, not signals.
  function TradesOf(c: G.Config, a: Assumptions, sc: Splits.Config, signals: seq<Signal>): seq<Trade>
    requires forall i :: 0 <= i < |signals| ==> signals[i].wallets != []
  {
    if signals == [] then []
    else
      var front := TradesOf(c, a, sc, signals[..|signals| - 1]);
      var s := signals[|signals| - 1];
      if Excluded(sc, s) then front
      else
        match Simulated(c, a, ProductionFor(c)(s), s, Classify(s.timestamp, sc).0, |front|)
        case Ok(t) => front + [t]
        case Err(_) => front
  }

  datatype SplitCounts = SplitCounts(total: nat, ambiguous: nat, censored: nat, usable: nat)

  datatype Report = Report(
    trades: seq<Trade>,
    totalSignals: nat,
    malformed: nat,
    structural: nat,
    rangeExcluded: nat,
    strategyRejected: nat,
    train: SplitCounts,
    validation: SplitCounts,
    oos: SplitCounts)

  predicate Usable(t: Trade) {
    !t.ambiguous && !t.censored
  }

  datatype Mark = Every | Ambiguous | Censored | Clean

  predicate Marked(t: Trade, mark: Mark) {
    match mark
    case Every => true
    case Ambiguous => t.ambiguous
    case Censored => t.censored
    case Clean => Usable(t)
  }

  // The trades of one period carrying a mark, in order: the source's filters.
  function Only(trades: seq<Trade>, split: Split, mark: Mark): seq<Trade> {
    if trades == [] then []
    else
      var last := trades[|trades| - 1];
      Only(trades[..|trades| - 1], split, mark) + (if last.split == split && Marked(last, mark) then [last] else [])
  }

  ghost predicate NeverBoth(trades: seq<Trade>) {
    forall i :: 0 <= i < |trades| ==> !(trades[i].ambiguous && trades[i].censored)
  }

  // Excluded trades are counted once, so the usable count is what is left and never underflows.
  lemma {:induction false} CountsAddUp(trades: seq<Trade>, split: Split)
    requires NeverBoth(trades)
    ensures |Only(trades, split, Every)|
      == |Only(trades, split, Ambiguous)| + |Only(trades, split, Censored)| + |Only(trades, split, Clean)|
  {
    if trades != [] {
      CountsAddUp(trades[..|trades| - 1], split);
    }
  }

  // The counts are those of the period's trades, and exclude each other.
  ghost predicate Counts(n: SplitCounts, trades: seq<Trade>, split: Split) {
    && n.total == |Only(trades, split, Every)| && n.usable == |Only(trades, split, Clean)|
    && n.ambiguous == |Only(trades, split, Ambiguous)| && n.censored == |Only(trades, split, Censored)|
    && n.total == n.ambiguous + n.censored + n.usable
  }

  method CountSplit(trades: seq<Trade>, split: Split) returns (n: SplitCounts)
    requires NeverBoth(trades)
    ensures Counts(n, trades, split)
  {
    CountsAddUp(trades, split);
    var total := |Only(trades, split, Every)|;
    var ambiguous := |Only(trades, split, Ambiguous)|;
    var censored := |Only(trades, split, Censored)|;
    n := SplitCounts(total, ambiguous, censored, total - ambiguous - censored);
  }

  ghost predicate InTimeOrder(trades: seq<Trade>) {
    forall i, j :: 0 <= i < j < |trades| ==> trades[i].timestamp <= trades[j].timestamp
  }

  ghost predicate InStageOrder(trades: seq<Trade>) {
    forall i, j :: 0 <= i < j < |trades| ==> Stage(trades[i].split) <= Stage(trades[j].split)
  }

  ghost predicate WellPlaced(sc: Splits.Config, trades: seq<Trade>) {
    forall i :: 0 <= i < |trades| ==> trades[i].index == i && Classify(trades[i].timestamp, sc) == (trades[i].split, false)
  }

  ghost predicate WithWallets(signals: seq<Signal>) {
    forall i :: 0 <= i < |signals| ==> signals[i].wallets != []
  }

  lemma TradeIsPlaced(c: G.Config, a: Assumptions, s: Signal, split: Split, index: nat)
    requires s.wallets != []
    ensures var r := Simulated(c, a, ProductionFor(c)(s), s, split, index);
      r.Ok? ==>
        && r.value.timestamp == s.timestamp && r.value.split == split && r.value.index == index
        && !(r.value.ambiguous && r.value.censored)
  {
    hide G.Decide;
    if s.market.price > 0.0 {
      ExitWalk.FlagsExclude(s.history, ExitWalk.TermsOf(c.exits, s.market.price, s.timestamp), ProductionFor(c)(s));
    }
    hide ExitWalk.Outcome, CostsOf, PctOf, ExitWalk.Production;
  }

  lemma {:induction false} TradesAreOrdered(c: G.Config, a: Assumptions, sc: Splits.Config, signals: seq<Signal>)
    requires WithWallets(signals) && IsSorted(signals, ByTime)
    ensures var trades := TradesOf(c, a, sc, signals);
      && InTimeOrder(trades) && WellPlaced(sc, trades) && NeverBoth(trades)
      && (forall i :: 0 <= i < |trades| ==> exists j :: 0 <= j < |signals| && signals[j].timestamp == trades[i].timestamp)
  {
    hide Simulated, Classify;
    if signals != [] {
      var front, s := signals[..|signals| - 1], signals[|signals| - 1];
      TradesAreOrdered(c, a, sc, front);
      var before, trades := TradesOf(c, a, sc, front), TradesOf(c, a, sc, signals);
      TradeIsPlaced(c, a, s, Classify(s.timestamp, sc).0, |before|);
      forall i | 0 <= i < |before|
        ensures before[i].timestamp <= s.timestamp && exists j :: 0 <= j < |signals| && signals[j].timestamp == before[i].timestamp {
        var j :| 0 <= j < |front| && front[j].timestamp == before[i].timestamp;
        assert signals[j] == front[j];
        assert ByTime(signals[j]) <= ByTime(s);
      }
      assert |trades| > |before| ==> trades[|before|].timestamp == s.timestamp;
    }
  }

  lemma OrderedIsStaged(sc: Splits.Config, trades: seq<Trade>)
    requires InTimeOrder(trades) && WellPlaced(sc, trades)
    ensures InStageOrder(trades)
  {
    hide Classify;
    forall i, j | 0 <= i < j < |trades| ensures Stage(trades[i].split) <= Stage(trades[j].split) {
      ClassifyIsMonotone(trades[i].timestamp, trades[j].timestamp, sc);
    }
  }

  lemma {:induction false} NoneLater(trades: seq<Trade>, split: Split, later: Split)
    requires Stage(later) > Stage(split) && forall k :: 0 <= k < |trades| ==> Stage(trades[k].split) <= Stage(split)
    ensures Only(trades, later, Every) == []
  {
    if trades != [] {
      NoneLater(trades[..|trades| - 1], split, later);
    }
  }

  lemma OnlyLast(trades: seq<Trade>, last: Trade, split: Split)
    ensures Only(trades + [last], split, Every) == Only(trades, split, Every) + (if last.split == split then [last] else [])
  {
    assert (trades + [last])[..|trades|] == trades;
  }

  // A stage-ordered list is its three periods one after the other.
  lemma {:induction false} StagesConcatenate(trades: seq<Trade>)
    requires InStageOrder(trades)
    ensures trades == Only(trades, Train, Every) + Only(trades, Validation, Every) + Only(trades, OutOfSample, Every)
  {
    if trades != [] {
      var front, last := trades[..|trades| - 1], trades[|trades| - 1];
      StagesConcatenate(front);
      LastStage(front, last);
      assert trades == front + [last];
    }
  }

  lemma LastStage(front: seq<Trade>, last: Trade)
    requires front == Only(front, Train, Every) + Only(front, Validation, Every) + Only(front, OutOfSample, Every)
    requires forall k :: 0 <= k < |front| ==> Stage(front[k].split) <= Stage(last.split)
    ensures var all := front + [last];
      all == Only(all, Train, Every) + Only(all, Validation, Every) + Only(all, OutOfSample, Every)
  {
    OnlyLast(front, last, Train);
    OnlyLast(front, last, Validation);
    OnlyLast(front, last, OutOfSample);
    if last.split.Train? {
      NoneLater(front, Train, Validation);
    }
    if !last.split.OutOfSample? {
      NoneLater(front, last.split, OutOfSample);
    }
    Glue(Only(front, Train, Every), Only(front, Validation, Every), Only(front, OutOfSample, Every), last, Stage(last.split));
    hide Only;
  }

  // One more element goes to the end of the last part that is not followed by a non-empty one.
  lemma Glue<T>(a: seq<T>, b: seq<T>, c: seq<T>, x: T, stage: nat)
    requires (stage == 0 ==> b == []) && (stage <= 1 ==> c == [])
    ensures a + b + c + [x]
      == (a + if stage == 0 then [x] else []) + (b + if stage == 1 then [x] else []) + (c + if stage >= 2 then [x] else [])
  {
  }

  // ---------- the run ----------

  // The report accounts for every record, and its trades are the three periods in time order.
  ghost predicate Accounts(r: Report, sc: Splits.Config) {
    && r.totalSignals == r.malformed + r.structural + r.rangeExcluded + r.strategyRejected + |r.trades|
    && InTimeOrder(r.trades) && WellPlaced(sc, r.trades)
    && r.trades == Only(r.trades, Train, Every) + Only(r.trades, Validation, Every) + Only(r.trades, OutOfSample, Every)
    && |r.trades| == r.train.total + r.validation.total + r.oos.total
    && Counts(r.train, r.trades, Train) && Counts(r.validation, r.trades, Validation) && Counts(r.oos, r.trades, OutOfSample)
  }

  // Nothing is dropped or invented: the trades are those of the kept, coherent records.
  ghost predicate Faithful(r: Report, c: G.Config, a: Assumptions, sc: Splits.Config, lines: seq<Line>) {
    && r.totalSignals == CountRecords(lines)
    && var accepted := Select(Sort(Kept(lines), ByTime), Coherent);
    && WithWallets(accepted) && r.trades == TradesOf(c, a, sc, accepted)
    && r.rangeExcluded == |Select(accepted, ExcludedBy(sc))|
  }

  // The report over trades already simulated.
  method Tally(trades: seq<Trade>, sc: Splits.Config, loaded: nat, malformed: nat, structural: nat, excluded: nat, refused: nat)
    returns (r: Report)
    requires InTimeOrder(trades) && WellPlaced(sc, trades) && NeverBoth(trades)
    requires loaded == structural + excluded + refused + |trades|
    ensures Accounts(r, sc)
    ensures r.trades == trades && r.totalSignals == loaded + malformed && r.rangeExcluded == excluded
  {
    OrderedIsStaged(sc, trades);
    StagesConcatenate(trades);
    hide Only, WellPlaced, InTimeOrder, InStageOrder;
    var train := CountSplit(trades, Train);
    var validation := CountSplit(trades, Validation);
    var oos := CountSplit(trades, OutOfSample);
    r := Report(trades, loaded + malformed, malformed, structural, excluded, refused, train, validation, oos);
  }

  method SimulateAll(c: G.Config, a: Assumptions, sc: Splits.Config, accepted: seq<Signal>)
    returns (trades: seq<Trade>, excluded: nat, refused: nat)
    requires WithWallets(accepted)
    ensures trades == TradesOf(c, a, sc, accepted)
    ensures |trades| + excluded + refused == |accepted|
    ensures excluded == |Select(accepted, ExcludedBy(sc))|
  {
    trades, excluded, refused := [], 0, 0;
    var tradeIndex := 0;
    hide Simulated, Classify;
    for i := 0 to |accepted|
      invariant trades == TradesOf(c, a, sc, accepted[..i]) && tradeIndex == |trades|
      invariant |trades| + excluded + refused == i
      invariant excluded == |Select(accepted[..i], ExcludedBy(sc))|
    {
      assert accepted[..i + 1][..i] == accepted[..i];
      var s := accepted[i];
      var (split, out) := Classify(s.timestamp, sc);
      if out {
        excluded := excluded + 1;
      } else {
        var r := Simulate(c, a, ProductionFor(c)(s), s, split, tradeIndex);
        match r
        case Ok(t) =>
          trades := trades + [t];
          tradeIndex := tradeIndex + 1;
        case Err(_) => refused := refused + 1;
      }
    }
    assert accepted[..|accepted|] == accepted;
  }

  // What the simulation loop is handed: valid, coherent records in time order.
  lemma AcceptedShape(lines: seq<Line>)
    ensures var accepted := Select(Sort(Kept(lines), ByTime), Coherent);
      && IsSorted(accepted, ByTime) && WithWallets(accepted)
      && forall i :: 0 <= i < |accepted| ==> Validates(accepted[i]) && Coherent(accepted[i])
  {
    var kept := Kept(lines);
    var sorted := Sort(kept, ByTime);
    KeptIsValidAndDistinct(lines);
    SortIsSorted(kept, ByTime);
    SelectSorted(sorted, Coherent, ByTime);
    hide Validates, Kept, Sort, Select;
    forall i | 0 <= i < |sorted| ensures Validates(sorted[i]) {
      assert sorted[i] in multiset(sorted);
      assert sorted[i] in kept;
    }
    SelectKeeps(sorted, Coherent, Validates);
    var accepted := Select(sorted, Coherent);
    forall i | 0 <= i < |accepted| ensures accepted[i].wallets != [] {
      ValidHasWallets(accepted[i]);
    }
  }

  lemma ValidHasWallets(s: Signal)
    requires Validates(s)
    ensures s.wallets != []
  {
  }

  method RunBacktest(c: G.Config, a: Assumptions, sc: Splits.Config, lines: seq<Line>) returns (r: Option<Report>)
    ensures r.Some? <==> BoundariesOk(sc)
    ensures r.Some? ==> Accounts(r.value, sc) && Faithful(r.value, c, a, sc, lines)
  {
    var ok := ValidateBoundaries(sc);
    if !ok {
      return None;
    }
    var signals, malformed := Load(lines);
    var accepted, structural := Prefilter(signals);
    AcceptedShape(lines);
    hide Kept, Sort, TradesOf, Select, CountRecords, Accounts, InTimeOrder, WellPlaced, NeverBoth;
    var trades, excluded, refused := SimulateAll(c, a, sc, accepted);
    TradesAreOrdered(c, a, sc, accepted);
    var report := Tally(trades, sc, |signals|, malformed, structural, excluded, refused);
    r := Some(report);
  }

  // ---------- stages that guard the same thing twice ----------

  // A record the loader kept is never refused by the prefilter for an empty history.
  lemma LoadedNeverHasEmptyHistory(lines: seq<Line>)
    ensures forall s :: s in Sort(Kept(lines), ByTime) && !Coherent(s) ==> s.market.mint != s.mint
  {
    KeptIsValidAndDistinct(lines);
    SortIsSorted(Kept(lines), ByTime);
    forall s | s in Sort(Kept(lines), ByTime) ensures s.history != [] {
      assert s in multiset(Sort(Kept(lines), ByTime));
      assert s in Kept(lines);
    }
  }

  // Nor can a valid record be refused for late costs, late wallets or a non-positive
  // price: the loader has rejected those already.  Stale market data remains possible
  // only through its age.
  lemma ValidRecordsSkipBranches(c: G.Config, s: Signal)
    requires Validates(s)
    ensures G.Decide(c, s) != Some(G.CostsAfterSignal) && G.Decide(c, s) != Some(G.NonPositivePrice)
    ensures G.Decide(c, s) == Some(G.StaleMarket) ==> s.timestamp - s.market.observedAt > c.maxDataAgeSecs
    ensures G.Decide(c, s) == Some(G.WalletEvidence) ==>
      exists w :: w in s.wallets && (w.trades < c.minSamples || w.score < c.minWalletScore)
  {
    hide E.BreakEvenOf, E.ExpectedNet, G.FinalScore;
  }
}
