// src/collector/swap_parser.rs: balance deltas to a classified swap, and the replica of
// its rule in tools/build_smoke_wallets.py.  A HashMap's order is a parameter.
module SwapParser {
  import opened Wrappers

  type Mint = string

  const WSOL: Mint := "So11111111111111111111111111111111111111112"
  const DUST: nat := 1_000
  const MIN_SWAP: int := 1_000

  // ---------- balances ----------

  // One element of pre/postTokenBalances; an unreadable amount counts as zero.
  datatype Entry = Entry(owner: string, mint: Option<Mint>, amount: Option<u64>, decimals: nat)

  datatype Balance = Balance(amount: u64, decimals: nat)

  predicate Counts(e: Entry, wallet: string, mint: Mint) {
    e.owner == wallet && e.mint == Some(mint)
  }

  function AmountOf(e: Entry): u64 {
    if e.amount.Some? then e.amount.value else 0
  }

  function ExactSum(entries: seq<Entry>, wallet: string, mint: Mint): nat {
    if entries == [] then 0
    else
      var last := entries[|entries| - 1];
      ExactSum(entries[..|entries| - 1], wallet, mint) + (if Counts(last, wallet, mint) && last.amount.Some? then last.amount.value else 0)
  }

  function BalanceOf(entries: seq<Entry>, wallet: string, mint: Mint): Balance {
    Balance(Min(ExactSum(entries, wallet, mint), U64_MAX), FirstDecimals(entries, wallet, mint))
  }

  ghost predicate Mentions(entries: seq<Entry>, wallet: string, mint: Mint) {
    exists i :: 0 <= i < |entries| && Counts(entries[i], wallet, mint)
  }

  // The decimals, as u8, of the first entry for the mint; zero if there is none.
  function FirstDecimals(entries: seq<Entry>, wallet: string, mint: Mint): nat {
    if entries == [] then 0
    else if Counts(entries[0], wallet, mint) then entries[0].decimals % 256
    else FirstDecimals(entries[1..], wallet, mint)
  }

  // The map holds exactly the wallet's mints, each with its sum clamped to u64 and the
  // decimals of its first entry.
  ghost predicate BalancesOf(entries: seq<Entry>, wallet: string, balances: map<Mint, Balance>) {
    && (forall mint :: mint in balances <==> Mentions(entries, wallet, mint))
    && (forall mint :: mint in balances ==> balances[mint] == BalanceOf(entries, wallet, mint))
  }

  // `parse_token_balances_for_owner`; decimals are those of the mint's first entry, as u8.
  method ParseBalances(entries: seq<Entry>, wallet: string) returns (balances: map<Mint, Balance>)
    ensures BalancesOf(entries, wallet, balances)
  {
    balances := map[];
    for i := 0 to |entries|
      invariant BalancesOf(entries[..i], wallet, balances)
    {
      var e := entries[i];
      ghost var before := balances;
      if e.owner == wallet && e.mint.Some? {
        var mint := e.mint.value;
        var held := if mint in balances then balances[mint] else Balance(0, e.decimals % 256);
        balances := balances[mint := held.(amount := SaturatingAdd(held.amount, AmountOf(e)))];
      }
      BalancesGrow(entries[..i], e, wallet, before, balances);
      assert entries[..i + 1] == entries[..i] + [e];
    }
    assert entries[..|entries|] == entries;
  }

  lemma BalancesGrow(entries: seq<Entry>, e: Entry, wallet: string, before: map<Mint, Balance>, after: map<Mint, Balance>)
    requires BalancesOf(entries, wallet, before)
    requires if e.owner == wallet && e.mint.Some? then
        var m := e.mint.value;
        && after.Keys == before.Keys + {m} && (forall k :: k in before && k != m ==> after[k] == before[k])
        && after[m] == Balance(SaturatingAdd(if m in before then before[m].amount else 0, AmountOf(e)),
                               if m in before then before[m].decimals else e.decimals % 256)
      else after == before
    ensures BalancesOf(entries + [e], wallet, after)
  {
    var longer := entries + [e];
    assert longer[..|entries|] == entries;
    forall mint ensures Mentions(longer, wallet, mint) <==> Mentions(entries, wallet, mint) || Counts(e, wallet, mint) {
      if Mentions(entries, wallet, mint) {
        var i :| 0 <= i < |entries| && Counts(entries[i], wallet, mint);
        assert Counts(longer[i], wallet, mint);
      }
      assert longer[|entries|] == e;
    }
    forall mint | !Mentions(entries, wallet, mint) ensures ExactSum(entries, wallet, mint) == 0 {
      UnmentionedIsZero(entries, wallet, mint);
    }
    forall mint ensures FirstDecimals(longer, wallet, mint)
      == if Mentions(entries, wallet, mint) then FirstDecimals(entries, wallet, mint)
         else if Counts(e, wallet, mint) then e.decimals % 256 else 0 {
      FirstDecimalsAppend(entries, e, wallet, mint);
    }
    hide FirstDecimals;
  }

  lemma {:induction false} FirstDecimalsAppend(entries: seq<Entry>, e: Entry, wallet: string, mint: Mint)
    ensures FirstDecimals(entries + [e], wallet, mint)
      == if Mentions(entries, wallet, mint) then FirstDecimals(entries, wallet, mint)
         else if Counts(e, wallet, mint) then e.decimals % 256 else 0
  {
    if entries != [] {
      assert (entries + [e])[1..] == entries[1..] + [e];
      FirstDecimalsAppend(entries[1..], e, wallet, mint);
      MentionsSplits(entries, wallet, mint);
    }
  }

  lemma MentionsSplits(entries: seq<Entry>, wallet: string, mint: Mint)
    requires entries != []
    ensures Mentions(entries, wallet, mint) <==> Counts(entries[0], wallet, mint) || Mentions(entries[1..], wallet, mint)
  {
    if Mentions(entries[1..], wallet, mint) {
      var i :| 0 <= i < |entries| - 1 && Counts(entries[1..][i], wallet, mint);
      assert Counts(entries[i + 1], wallet, mint);
    }
    if Mentions(entries, wallet, mint) {
      var i :| 0 <= i < |entries| && Counts(entries[i], wallet, mint);
      if i > 0 {
        assert Counts(entries[1..][i - 1], wallet, mint);
      }
    }
  }

  lemma {:induction false} UnmentionedIsZero(entries: seq<Entry>, wallet: string, mint: Mint)
    requires !Mentions(entries, wallet, mint)
    ensures ExactSum(entries, wallet, mint) == 0
  {
    if entries != [] {
      var front := entries[..|entries| - 1];
      assert forall i :: 0 <= i < |front| ==> front[i] == entries[i];
      assert !Counts(entries[|entries| - 1], wallet, mint);
      UnmentionedIsZero(front, wallet, mint);
    }
  }

  // ---------- deltas ----------

  datatype Change = Change(mint: Mint, amount: nat, decimals: nat)

  function AmountIn(balances: map<Mint, Balance>, mint: Mint): u64 {
    if mint in balances then balances[mint].amount else 0
  }

  function DecimalsIn(pre: map<Mint, Balance>, post: map<Mint, Balance>, mint: Mint): nat {
    if mint in post then post[mint].decimals else if mint in pre then pre[mint].decimals else 0
  }

  function Delta(pre: map<Mint, Balance>, post: map<Mint, Balance>, mint: Mint): int {
    AmountIn(post, mint) - AmountIn(pre, mint)
  }

  // Each mint of either map once, in whatever order the hash maps yield.
  ghost predicate IsOrder(order: seq<Mint>, pre: map<Mint, Balance>, post: map<Mint, Balance>) {
    && (forall m :: m in order <==> m in pre || m in post)
    && forall i, j :: 0 <= i < j < |order| ==> order[i] != order[j]
  }

  // `gained` and `lost` hold the other mints' movements, in order, one entry each.
  ghost predicate AreChanges(order: seq<Mint>, pre: map<Mint, Balance>, post: map<Mint, Balance>, changes: seq<Change>, sign: int) {
    && (forall c :: c in changes <==>
          c.mint in order && c.mint != WSOL && c.amount == sign * Delta(pre, post, c.mint) && c.amount > 0
          && c.decimals == DecimalsIn(pre, post, c.mint))
    && forall i, j :: 0 <= i < j < |changes| ==> changes[i].mint != changes[j].mint
  }

  lemma ChangesGrow(order: seq<Mint>, pre: map<Mint, Balance>, post: map<Mint, Balance>, cs: seq<Change>, sign: int, mint: Mint)
    requires AreChanges(order, pre, post, cs, sign) && mint !in order
    ensures var amount := sign * Delta(pre, post, mint);
      AreChanges(order + [mint], pre, post,
                 if mint != WSOL && amount > 0 then cs + [Change(mint, amount, DecimalsIn(pre, post, mint))] else cs, sign)
  {
    hide Delta, DecimalsIn;
  }

  method SplitDeltas(order: seq<Mint>, pre: map<Mint, Balance>, post: map<Mint, Balance>)
    returns (gained: seq<Change>, lost: seq<Change>, wsolDelta: int)
    requires IsOrder(order, pre, post)
    ensures AreChanges(order, pre, post, gained, 1) && AreChanges(order, pre, post, lost, -1)
    ensures wsolDelta == Delta(pre, post, WSOL)
  {
    gained, lost, wsolDelta := [], [], 0;
    assert AreChanges([], pre, post, [], 1) && AreChanges([], pre, post, [], -1);
    hide AreChanges, DecimalsIn;
    for i := 0 to |order|
      invariant AreChanges(order[..i], pre, post, gained, 1) && AreChanges(order[..i], pre, post, lost, -1)
      invariant wsolDelta == if WSOL in order[..i] then Delta(pre, post, WSOL) else 0
    {
      var mint := order[i];
      assert order[..i + 1] == order[..i] + [mint] && mint !in order[..i];
      ChangesGrow(order[..i], pre, post, gained, 1, mint);
      ChangesGrow(order[..i], pre, post, lost, -1, mint);
      var delta := AmountIn(post, mint) - AmountIn(pre, mint);
      if mint == WSOL {
        wsolDelta := delta;
      } else if delta > 0 {
        gained := gained + [Change(mint, delta, DecimalsIn(pre, post, mint))];
      } else if delta < 0 {
        lost := lost + [Change(mint, 0 - delta, DecimalsIn(pre, post, mint))];
      }
    }
    assert order[..|order|] == order;
  }

  // ---------- the primary token ----------

  function NonDust(cs: seq<Change>): seq<Change> {
    if cs == [] then []
    else NonDust(cs[..|cs| - 1]) + (if cs[|cs| - 1].amount >= DUST then [cs[|cs| - 1]] else [])
  }

  // Rust `max_by_key`: the last of the largest.
  function LastMax(cs: seq<Change>): Change
    requires cs != []
  {
    if |cs| == 1 then cs[0]
    else
      var best := LastMax(cs[..|cs| - 1]);
      if cs[|cs| - 1].amount >= best.amount then cs[|cs| - 1] else best
  }

  // Python `max`: the first of the largest.
  function FirstMax(cs: seq<Change>): Change
    requires cs != []
  {
    if |cs| == 1 then cs[0]
    else
      var best := FirstMax(cs[..|cs| - 1]);
      if cs[|cs| - 1].amount > best.amount then cs[|cs| - 1] else best
  }

  function Primary(cs: seq<Change>): Change
    requires cs != []
  {
    if NonDust(cs) != [] then LastMax(NonDust(cs)) else LastMax(cs)
  }

  function ReplicaPrimary(cs: seq<Change>): Change
    requires cs != []
  {
    if NonDust(cs) != [] then FirstMax(NonDust(cs)) else FirstMax(cs)
  }

  ghost predicate IsMax(c: Change, cs: seq<Change>) {
    c in cs && forall d :: d in cs ==> d.amount <= c.amount
  }

  lemma {:induction false} MaxesAreMax(cs: seq<Change>)
    requires cs != []
    ensures IsMax(LastMax(cs), cs) && IsMax(FirstMax(cs), cs)
  {
    if |cs| > 1 {
      var front, last := cs[..|cs| - 1], cs[|cs| - 1];
      MaxesAreMax(front);
      assert cs == front + [last];
    }
  }

  lemma {:induction false} NonDustIs(cs: seq<Change>)
    ensures forall c :: c in NonDust(cs) <==> c in cs && c.amount >= DUST
  {
    if cs != [] {
      var front, last := cs[..|cs| - 1], cs[|cs| - 1];
      NonDustIs(front);
      assert cs == front + [last];
    }
  }

  // The dust filter never changes the maximum, and both rules pick a maximal change.
  lemma PrimaryIsMax(cs: seq<Change>)
    requires cs != []
    ensures IsMax(Primary(cs), cs) && IsMax(ReplicaPrimary(cs), cs)
    ensures Primary(cs).amount == ReplicaPrimary(cs).amount == LastMax(cs).amount
  {
    NonDustIs(cs);
    MaxesAreMax(cs);
    if NonDust(cs) != [] {
      MaxesAreMax(NonDust(cs));
    }
    hide LastMax, FirstMax, NonDust;
  }

  // Both programs iterate over hash tables, so each sees the movements in an order of its own.
  ghost predicate Reordered(cs: seq<Change>, cs': seq<Change>) {
    |cs| == |cs'| && multiset(cs) == multiset(cs')
  }

  lemma ChoicesAreMax(cs: seq<Change>, cs': seq<Change>)
    requires Reordered(cs, cs') && cs != []
    ensures cs' != [] && IsMax(Primary(cs'), cs) && IsMax(ReplicaPrimary(cs'), cs)
  {
    PrimaryIsMax(cs');
    hide Primary, ReplicaPrimary;
    forall d ensures d in cs' <==> d in cs {
      assert d in multiset(cs') <==> d in multiset(cs);
    }
  }

  lemma {:induction false} FirstMaxLeads(d: Change, rest: seq<Change>)
    requires forall c :: c in rest ==> c.amount <= d.amount
    ensures FirstMax([d] + rest) == d
  {
    if rest != [] {
      var front := rest[..|rest| - 1];
      FirstMaxLeads(d, front);
      assert ([d] + rest)[..|rest|] == [d] + front;
    }
  }

  lemma {:induction false} NonDustFront(d: Change, rest: seq<Change>)
    ensures NonDust([d] + rest) == (if d.amount >= DUST then [d] else []) + NonDust(rest)
  {
    if rest != [] {
      NonDustFront(d, rest[..|rest| - 1]);
      assert ([d] + rest)[..|rest|] == [d] + rest[..|rest| - 1];
    }
  }

  // Any maximal movement is the replica's choice when it comes first, and the parser's
  // when it comes last.
  lemma MaxLeads(d: Change, rest: seq<Change>)
    requires forall c :: c in rest ==> c.amount <= d.amount
    ensures ReplicaPrimary([d] + rest) == d && Primary(rest + [d]) == d
  {
    NonDustIs(rest);
    NonDustFront(d, rest);
    FirstMaxLeads(d, rest);
    FirstMaxLeads(d, NonDust(rest));
    assert (rest + [d])[..|rest|] == rest;
    LastMaxEnds(d, rest);
    LastMaxEnds(d, NonDust(rest));
    assert d.amount < DUST ==> NonDust(rest) == [] by {
      assert NonDust(rest) != [] ==> NonDust(rest)[0] in NonDust(rest);
    }
    hide FirstMax, LastMax;
  }

  lemma LastMaxEnds(d: Change, rest: seq<Change>)
    requires forall c :: c in rest ==> c.amount <= d.amount
    ensures LastMax(rest + [d]) == d
  {
    if rest != [] {
      MaxesAreMax(rest);
      assert (rest + [d])[..|rest|] == rest;
    }
  }

  // A maximal movement can be put at either end.
  lemma MaxToTheEnds(d: Change, cs: seq<Change>) returns (rest: seq<Change>)
    requires IsMax(d, cs)
    ensures Reordered(cs, [d] + rest) && Reordered(cs, rest + [d])
    ensures ReplicaPrimary([d] + rest) == d && Primary(rest + [d]) == d
  {
    var i :| 0 <= i < |cs| && cs[i] == d;
    rest := cs[..i] + cs[i + 1..];
    assert cs == cs[..i] + [d] + cs[i + 1..];
    assert multiset([d] + rest) == multiset{d} + multiset(rest) == multiset(cs);
    assert multiset(rest + [d]) == multiset(rest) + multiset{d};
    forall c | c in rest ensures c.amount <= d.amount {
      assert c in cs;
    }
    MaxLeads(d, rest);
  }

  ghost predicate AloneAtTheTop(c: Change, cs: seq<Change>) {
    forall d :: IsMax(d, cs) ==> d == c
  }

  // The replica names the same token in whatever orders the two programs iterate exactly
  // when one movement alone is maximal; the parser agrees with itself under the very same condition.
  lemma ReplicaAgreesIff(cs: seq<Change>)
    requires cs != []
    ensures (forall cs' :: Reordered(cs, cs') ==> ReplicaPrimary(cs') == Primary(cs)) <==> AloneAtTheTop(Primary(cs), cs)
    ensures (forall cs' :: Reordered(cs, cs') ==> Primary(cs') == Primary(cs)) <==> AloneAtTheTop(Primary(cs), cs)
  {
    hide Primary, ReplicaPrimary, Reordered, IsMax;
    forall cs' | Reordered(cs, cs') ensures cs' != [] && IsMax(Primary(cs'), cs) && IsMax(ReplicaPrimary(cs'), cs) {
      ChoicesAreMax(cs, cs');
    }
    if !AloneAtTheTop(Primary(cs), cs) {
      var d :| IsMax(d, cs) && d != Primary(cs);
      var rest := MaxToTheEnds(d, cs);
    }
  }

  // ---------- classification ----------

  datatype Direction = Buy | Sell

  // What a parsed swap copies from the transaction.
  datatype Header = Header(wallet: string, fee: u64, slot: nat, blockTime: int, signature: string)

  datatype Parsed = Parsed(
    header: Header,
    dex: string,
    direction: Direction,
    inputMint: Mint,
    outputMint: Mint,
    input: nat,
    output: nat,
    inputDecimals: nat,
    outputDecimals: nat)

  const SOL_DECIMALS: nat := 9

  // What the wallet put in beyond the fee: native SOL out, less WSOL gained.
  function SolSpent(preSol: u64, postSol: u64, wsolDelta: int, fee: u64): int {
    preSol - postSol - wsolDelta - fee
  }

  // An `as u64` cast of an i128.
  function AsU64(x: int): u64 {
    x % 0x1_0000_0000_0000_0000
  }

  // The three cases, tried in order, once a DEX program was found.
  function Classify(header: Header, dex: Option<string>, total: int, gained: seq<Change>, lost: seq<Change>): Option<Parsed> {
    if dex.None? then None
    else if total > MIN_SWAP && gained != [] then
      var p := Primary(gained);
      Some(Parsed(header, dex.value, Buy, WSOL, p.mint, AsU64(total), p.amount, SOL_DECIMALS, p.decimals))
    else if total < -MIN_SWAP && lost != [] then
      var p := Primary(lost);
      Some(Parsed(header, dex.value, Sell, p.mint, WSOL, p.amount, AsU64(0 - total), p.decimals, SOL_DECIMALS))
    else if lost != [] && gained != [] && -MIN_SWAP < total < MIN_SWAP then
      var input, output := Primary(lost), Primary(gained);
      Some(Parsed(header, dex.value, if input.mint == WSOL then Buy else if output.mint == WSOL then Sell else Buy,
                  input.mint, output.mint, input.amount, output.amount, input.decimals, output.decimals))
    else None
  }

  // When a swap is reported, and which kind: the cases exclude each other, and a
  // movement of exactly the minimum, either way, is none of them.
  lemma CasesAreDisjoint(header: Header, dex: Option<string>, total: int, gained: seq<Change>, lost: seq<Change>)
    requires WSOL !in (set c | c in gained :: c.mint) && WSOL !in (set c | c in lost :: c.mint)
    ensures var r, known := Classify(header, dex, total, gained, lost), dex.Some?;
      && (r.Some? && r.value.inputMint == WSOL <==> known && total > MIN_SWAP && gained != [])
      && (r.Some? && r.value.outputMint == WSOL <==> known && total < -MIN_SWAP && lost != [])
      && (r.Some? && r.value.inputMint != WSOL && r.value.outputMint != WSOL <==>
            known && -MIN_SWAP < total < MIN_SWAP && lost != [] && gained != [])
      && (total == MIN_SWAP || total == -MIN_SWAP ==> r.None?)
      && (r.Some? ==> (r.value.direction.Sell? <==> r.value.outputMint == WSOL))
  {
    if gained != [] {
      PrimaryIsMax(gained);
      assert Primary(gained).mint in (set c | c in gained :: c.mint);
    }
    if lost != [] {
      PrimaryIsMax(lost);
      assert Primary(lost).mint in (set c | c in lost :: c.mint);
    }
    hide Primary;
  }

  // The accounting identity of a purchase, and of a sale, holds exactly when the SOL
  // moved fits the u64 it is reported in.
  lemma SolIsAccountedFor(header: Header, dex: string, preSol: u64, postSol: u64, preWsol: u64, postWsol: u64,
                          gained: seq<Change>, lost: seq<Change>)
    ensures var fee := header.fee;
      var total := SolSpent(preSol, postSol, postWsol - preWsol, fee);
      var r := Classify(header, Some(dex), total, gained, lost);
      && (total > MIN_SWAP && gained != [] ==>
            (preSol + preWsol == postSol + postWsol + fee + r.value.input <==> total <= U64_MAX))
      && (total < -MIN_SWAP && lost != [] ==>
            (preSol + preWsol + r.value.output == postSol + postWsol + fee <==> 0 - total <= U64_MAX))
  {
    hide Primary;
  }

  // ---------- order does not matter ----------

  // Whatever order the maps yield, the reported swap has the same case and amounts;
  // the tokens it names each attain the maximal movement.
  lemma OrderIsIrrelevant(order: seq<Mint>, order': seq<Mint>, pre: map<Mint, Balance>, post: map<Mint, Balance>,
                          gained: seq<Change>, lost: seq<Change>, gained': seq<Change>, lost': seq<Change>,
                          header: Header, dex: Option<string>, total: int)
    requires IsOrder(order, pre, post) && IsOrder(order', pre, post)
    requires AreChanges(order, pre, post, gained, 1) && AreChanges(order, pre, post, lost, -1)
    requires AreChanges(order', pre, post, gained', 1) && AreChanges(order', pre, post, lost', -1)
    ensures var r, r' := Classify(header, dex, total, gained, lost), Classify(header, dex, total, gained', lost');
      && (r.Some? <==> r'.Some?)
      && (r.Some? ==> r.value.direction == r'.value.direction && r.value.input == r'.value.input && r.value.output == r'.value.output)
  {
    SameMembers(order, order', pre, post, gained, gained', 1);
    SameMembers(order, order', pre, post, lost, lost', -1);
    SamePrimaryAmount(gained, gained');
    SamePrimaryAmount(lost, lost');
    NeverWsol(order, pre, post, gained, 1);
    NeverWsol(order, pre, post, lost, -1);
    NeverWsol(order', pre, post, gained', 1);
    NeverWsol(order', pre, post, lost', -1);
    hide Primary, AreChanges, IsOrder;
  }

  lemma SameMembers(order: seq<Mint>, order': seq<Mint>, pre: map<Mint, Balance>, post: map<Mint, Balance>,
                    cs: seq<Change>, cs': seq<Change>, sign: int)
    requires IsOrder(order, pre, post) && IsOrder(order', pre, post)
    requires AreChanges(order, pre, post, cs, sign) && AreChanges(order', pre, post, cs', sign)
    ensures forall c :: c in cs <==> c in cs'
    ensures cs == [] <==> cs' == []
  {
    forall c ensures c in cs <==> c in cs' {
      assert c.mint in order <==> c.mint in order';
    }
    if cs != [] {
      assert cs[0] in cs';
    }
    if cs' != [] {
      assert cs'[0] in cs;
    }
  }

  lemma SamePrimaryAmount(cs: seq<Change>, cs': seq<Change>)
    requires (forall c :: c in cs <==> c in cs') && (cs == [] <==> cs' == [])
    ensures cs != [] ==> Primary(cs).amount == Primary(cs').amount
  {
    if cs != [] {
      PrimaryIsMax(cs);
      PrimaryIsMax(cs');
    }
    hide Primary;
  }

  // Wrapped SOL is never listed as gained or lost, so the two direction tests of the
  // token-to-token case never succeed and such a swap is always called a buy.
  lemma NeverWsol(order: seq<Mint>, pre: map<Mint, Balance>, post: map<Mint, Balance>, cs: seq<Change>, sign: int)
    requires AreChanges(order, pre, post, cs, sign)
    ensures cs != [] ==> Primary(cs).mint != WSOL
  {
    if cs != [] {
      PrimaryIsMax(cs);
    }
    hide Primary;
  }

  // ---------- from entries to the swap ----------

  // The wallet's holding of a token by the listed entries, clamped to u64.
  function Held(entries: seq<Entry>, wallet: string, mint: Mint): nat {
    BalanceOf(entries, wallet, mint).amount
  }

  function Net(pre: seq<Entry>, post: seq<Entry>, wallet: string, mint: Mint): int {
    Held(post, wallet, mint) - Held(pre, wallet, mint)
  }

  lemma HeldIsAmountIn(entries: seq<Entry>, wallet: string, balances: map<Mint, Balance>, mint: Mint)
    requires BalancesOf(entries, wallet, balances)
    ensures AmountIn(balances, mint) == Held(entries, wallet, mint)
  {
    if mint !in balances {
      UnmentionedIsZero(entries, wallet, mint);
    }
  }

  // Some token other than wrapped SOL moved that way.
  ghost predicate Moved(pre: seq<Entry>, post: seq<Entry>, wallet: string, sign: int) {
    exists mint :: mint != WSOL && sign * Net(pre, post, wallet, mint) > 0
  }

  // Decimals as recorded after the transaction, or before it if the token is gone.
  ghost function DecimalsOf(pre: seq<Entry>, post: seq<Entry>, wallet: string, mint: Mint): nat {
    if Mentions(post, wallet, mint) then FirstDecimals(post, wallet, mint)
    else if Mentions(pre, wallet, mint) then FirstDecimals(pre, wallet, mint)
    else 0
  }

  // The named token moved that much, and no other token moved more.
  ghost predicate Dominates(pre: seq<Entry>, post: seq<Entry>, wallet: string, sign: int, mint: Mint, amount: nat, decimals: nat) {
    && mint != WSOL && amount == sign * Net(pre, post, wallet, mint) && decimals == DecimalsOf(pre, post, wallet, mint)
    && forall other :: other != WSOL ==> sign * Net(pre, post, wallet, other) <= amount
  }

  lemma ChangesDescribeEntries(pre: seq<Entry>, post: seq<Entry>, wallet: string, order: seq<Mint>,
                               preMap: map<Mint, Balance>, postMap: map<Mint, Balance>, cs: seq<Change>, sign: int)
    requires BalancesOf(pre, wallet, preMap) && BalancesOf(post, wallet, postMap) && IsOrder(order, preMap, postMap)
    requires AreChanges(order, preMap, postMap, cs, sign) && (sign == 1 || sign == -1)
    ensures cs != [] <==> Moved(pre, post, wallet, sign)
    ensures cs != [] ==> Dominates(pre, post, wallet, sign, Primary(cs).mint, Primary(cs).amount, Primary(cs).decimals)
  {
    forall mint ensures Delta(preMap, postMap, mint) == Net(pre, post, wallet, mint) {
      HeldIsAmountIn(pre, wallet, preMap, mint);
      HeldIsAmountIn(post, wallet, postMap, mint);
    }
    assert forall mint :: DecimalsIn(preMap, postMap, mint) == DecimalsOf(pre, post, wallet, mint);
    hide BalancesOf, Net, Primary, DecimalsIn, DecimalsOf;
    forall mint | mint != WSOL && sign * Net(pre, post, wallet, mint) > 0
      ensures Change(mint, sign * Net(pre, post, wallet, mint), DecimalsIn(preMap, postMap, mint)) in cs {
      assert Delta(preMap, postMap, mint) == Net(pre, post, wallet, mint);
    }
    if cs != [] {
      PrimaryIsMax(cs);
      assert cs[0] in cs;
      assert sign * Net(pre, post, wallet, cs[0].mint) > 0;
    }
  }

  // The mints of both maps, each once, in an order nobody controls.
  method AllMints(pre: map<Mint, Balance>, post: map<Mint, Balance>) returns (order: seq<Mint>)
    ensures IsOrder(order, pre, post)
  {
    order := [];
    var rest := pre.Keys + post.Keys;
    while rest != {}
      invariant forall m :: m in pre || m in post <==> m in order || m in rest
      invariant forall m :: m in order ==> m !in rest
      invariant forall i, j :: 0 <= i < j < |order| ==> order[i] != order[j]
      decreases |rest|
    {
      var m :| m in rest;
      rest := rest - {m};
      order := order + [m];
    }
  }

  predicate CaseApplies(total: int, gained: bool, lost: bool) {
    (total > MIN_SWAP && gained) || (total < -MIN_SWAP && lost) || (-MIN_SWAP < total < MIN_SWAP && gained && lost)
  }

  // What a reported swap says about the transaction, in terms of its entries alone.
  ghost predicate Explains(r: Option<Parsed>, header: Header, dex: Option<string>, pre: seq<Entry>, post: seq<Entry>, total: int) {
    var wallet := header.wallet;
    && (r.Some? <==> dex.Some? && CaseApplies(total, Moved(pre, post, wallet, 1), Moved(pre, post, wallet, -1)))
    && (r.Some? ==>
          var s := r.value;
          && s.header == header && Some(s.dex) == dex
          && (if total > MIN_SWAP then s.inputMint == WSOL && s.input == AsU64(total) && s.inputDecimals == SOL_DECIMALS
              else Dominates(pre, post, wallet, -1, s.inputMint, s.input, s.inputDecimals))
          && (if total < -MIN_SWAP then s.outputMint == WSOL && s.output == AsU64(0 - total) && s.outputDecimals == SOL_DECIMALS
              else Dominates(pre, post, wallet, 1, s.outputMint, s.output, s.outputDecimals))
          && (s.direction.Sell? <==> total < -MIN_SWAP))
  }

  method ParseSwap(header: Header, dex: Option<string>, preSol: u64, postSol: u64, pre: seq<Entry>, post: seq<Entry>)
    returns (r: Option<Parsed>)
    ensures Explains(r, header, dex, pre, post, SolSpent(preSol, postSol, Net(pre, post, header.wallet, WSOL), header.fee))
  {
    hide BalancesOf, AreChanges, IsOrder, Primary, Held, Net, Moved, Dominates, Classify;
    var wallet := header.wallet;
    var preMap := ParseBalances(pre, wallet);
    var postMap := ParseBalances(post, wallet);
    var order := AllMints(preMap, postMap);
    var gained, lost, wsolDelta := SplitDeltas(order, preMap, postMap);
    ChangesDescribeEntries(pre, post, wallet, order, preMap, postMap, gained, 1);
    ChangesDescribeEntries(pre, post, wallet, order, preMap, postMap, lost, -1);
    WsolMoves(pre, post, wallet, preMap, postMap);
    var total := preSol - postSol - wsolDelta - header.fee;
    ClassifyExplains(header, dex, pre, post, gained, lost, total);
    r := Classify(header, dex, total, gained, lost);
  }

  lemma WsolMoves(pre: seq<Entry>, post: seq<Entry>, wallet: string, preMap: map<Mint, Balance>, postMap: map<Mint, Balance>)
    requires BalancesOf(pre, wallet, preMap) && BalancesOf(post, wallet, postMap)
    ensures Delta(preMap, postMap, WSOL) == Net(pre, post, wallet, WSOL)
  {
    hide BalancesOf, Held;
    HeldIsAmountIn(pre, wallet, preMap, WSOL);
    HeldIsAmountIn(post, wallet, postMap, WSOL);
  }

  lemma ClassifyExplains(header: Header, dex: Option<string>, pre: seq<Entry>, post: seq<Entry>, gained: seq<Change>, lost: seq<Change>, total: int)
    requires var w := header.wallet; (gained != [] <==> Moved(pre, post, w, 1)) && (lost != [] <==> Moved(pre, post, w, -1))
    requires gained != [] ==>
      Dominates(pre, post, header.wallet, 1, Primary(gained).mint, Primary(gained).amount, Primary(gained).decimals)
    requires lost != [] ==>
      Dominates(pre, post, header.wallet, -1, Primary(lost).mint, Primary(lost).amount, Primary(lost).decimals)
    ensures Explains(Classify(header, dex, total, gained, lost), header, dex, pre, post, total)
  {
    hide Primary, Net, Moved, DecimalsOf;
  }

  // ---------- detect_dex ----------

  // Program table lookups, top-level instructions first, then each inner block.
  function Name(table: map<string, string>, keys: seq<string>, index: nat): Option<string> {
    if index < |keys| && keys[index] in table && table[keys[index]] != "ignore" then Some(table[keys[index]]) else None
  }

  function Flatten(blocks: seq<seq<nat>>): seq<nat> {
    if blocks == [] then [] else Flatten(blocks[..|blocks| - 1]) + blocks[|blocks| - 1]
  }

  // The account at the index is a program the table names, and not with the placeholder.
  predicate IsDex(table: map<string, string>, keys: seq<string>, index: nat, name: string) {
    index < |keys| && keys[index] in table && table[keys[index]] == name && name != "ignore"
  }

  // The first instruction, in that order, whose program is a known DEX.
  ghost predicate FirstKnown(table: map<string, string>, keys: seq<string>, programs: seq<nat>, found: Option<string>) {
    match found
    case None => forall i, name :: 0 <= i < |programs| ==> !IsDex(table, keys, programs[i], name)
    case Some(name) =>
      exists i :: 0 <= i < |programs| && IsDex(table, keys, programs[i], name)
                  && forall j, other :: 0 <= j < i ==> !IsDex(table, keys, programs[j], other)
  }

  lemma NameIsDex(table: map<string, string>, keys: seq<string>, index: nat)
    ensures forall name :: Name(table, keys, index) == Some(name) <==> IsDex(table, keys, index, name)
  {
  }

  method DetectDex(table: map<string, string>, keys: seq<string>, top: seq<nat>, inner: seq<seq<nat>>) returns (dex: Option<string>)
    ensures FirstKnown(table, keys, top + Flatten(inner), dex)
  {
    hide Name, IsDex;
    for i := 0 to |top|
      invariant FirstKnown(table, keys, top[..i], None)
    {
      dex := Name(table, keys, top[i]);
      NameIsDex(table, keys, top[i]);
      if dex.Some? {
        assert (top + Flatten(inner))[i] == top[i];
        assert forall j :: 0 <= j < i ==> (top + Flatten(inner))[j] == top[..i][j];
        return;
      }
    }
    ghost var seen := top;
    for b := 0 to |inner|
      invariant seen == top + Flatten(inner[..b]) && FirstKnown(table, keys, seen, None)
    {
      for i := 0 to |inner[b]|
        invariant FirstKnown(table, keys, seen + inner[b][..i], None)
      {
        dex := Name(table, keys, inner[b][i]);
        NameIsDex(table, keys, inner[b][i]);
        if dex.Some? {
          FlattenPrefix(inner, b, i);
          ghost var all, n := top + Flatten(inner), |seen| + i;
          assert all[n] == inner[b][i];
          assert forall j :: 0 <= j < n ==> all[j] == (seen + inner[b][..i])[j];
          return;
        }
        assert seen + inner[b][..i + 1] == seen + inner[b][..i] + [inner[b][i]];
      }
      assert inner[..b + 1][..b] == inner[..b];
      assert inner[b][..|inner[b]|] == inner[b];
      seen := seen + inner[b];
    }
    assert inner[..|inner|] == inner;
    dex := None;
  }

  lemma {:induction false} FlattenPrefix(blocks: seq<seq<nat>>, b: nat, i: nat)
    requires b < |blocks| && i < |blocks[b]|
    ensures |Flatten(blocks[..b])| + i < |Flatten(blocks)|
    ensures Flatten(blocks)[..|Flatten(blocks[..b])| + i] == Flatten(blocks[..b]) + blocks[b][..i]
    ensures Flatten(blocks)[|Flatten(blocks[..b])| + i] == blocks[b][i]
  {
    var front := blocks[..|blocks| - 1];
    if b < |blocks| - 1 {
      FlattenPrefix(front, b, i);
      assert front[..b] == blocks[..b];
    }
  }
}
