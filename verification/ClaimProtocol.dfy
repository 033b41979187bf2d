// The claim / fetch / emit protocol on the shared signature set: WebSocket handlers
// (src/collector/wallet_ws.rs) and the poller (src/collector/wallet_monitor.rs).
// Every await is a point where the others may run.
module ClaimProtocol {
  type Sig = string
  type Swaps = (Sig, nat) -> bool

  // What a handler is doing with the signature it claimed; `next` is the wallet to look at.
  datatype Handler = Fetching(sig: Sig) | Emitting(sig: Sig, next: nat)

  datatype Event = Event(sig: Sig, wallet: nat)

  // `swaps` says which wallets a transaction is a swap for; it never changes.
  datatype State = State(
    wallets: nat,
    seen: set<Sig>,
    handlers: map<nat, Handler>,
    emitted: seq<Event>,
    processed: set<Event>,
    polled: seq<Event>,
    open: bool)

  datatype Act =
    | Notify(handler: nat, sig: Sig)
    | FetchFails(handler: nat)
    | FetchSucceeds(handler: nat)
    | Advance(handler: nat)
    | Poll(sig: Sig, wallet: nat)
    | CloseChannel

  predicate Enabled(s: State, a: Act) {
    match a
    case Notify(h, _) => h !in s.handlers
    case FetchFails(h) => h in s.handlers && s.handlers[h].Fetching?
    case FetchSucceeds(h) => h in s.handlers && s.handlers[h].Fetching?
    case Advance(h) => h in s.handlers && s.handlers[h].Emitting?
    // The poller asks its own record of processed signatures, not the shared set.
    case Poll(sig, w) => w < s.wallets && Event(sig, w) !in s.processed
    case CloseChannel => true
  }

  function Step(swaps: Swaps, s: State, a: Act): State
    requires Enabled(s, a)
  {
    match a
    case Notify(h, sig) =>
      // One critical section: skip if seen, else claim.
      if sig in s.seen then s
      else s.(seen := s.seen + {sig}, handlers := s.handlers[h := Fetching(sig)])
    case FetchFails(h) => s.(seen := s.seen - {s.handlers[h].sig}, handlers := s.handlers - {h})
    case FetchSucceeds(h) => s.(handlers := s.handlers[h := Emitting(s.handlers[h].sig, 0)])
    case Advance(h) =>
      var sig, w := s.handlers[h].sig, s.handlers[h].next;
      if w >= s.wallets then s.(handlers := s.handlers - {h})
      else if !swaps(sig, w) then s.(handlers := s.handlers[h := Emitting(sig, w + 1)])
      else if s.open then s.(emitted := s.emitted + [Event(sig, w)], handlers := s.handlers[h := Emitting(sig, w + 1)])
      else s.(handlers := s.handlers - {h})
    case Poll(sig, w) =>
      s.(processed := s.processed + {Event(sig, w)}, seen := s.seen + {sig},
         polled := if swaps(sig, w) then s.polled + [Event(sig, w)] else s.polled)
    case CloseChannel => s.(open := false)
  }

  predicate Runnable(swaps: Swaps, s: State, acts: seq<Act>)
    decreases |acts|
  {
    acts == [] || (Enabled(s, acts[0]) && Runnable(swaps, Step(swaps, s, acts[0]), acts[1..]))
  }

  function Run(swaps: Swaps, s: State, acts: seq<Act>): State
    requires Runnable(swaps, s, acts)
    decreases |acts|
  {
    if acts == [] then s else Run(swaps, Step(swaps, s, acts[0]), acts[1..])
  }

  function Start(wallets: nat): State {
    State(wallets, {}, map[], [], {}, [], true)
  }

  // ---------- the invariant ----------

  ghost predicate Claims(s: State, h: nat, sig: Sig) {
    h in s.handlers && s.handlers[h].sig == sig
  }

  ghost predicate OneClaimant(s: State) {
    && (forall h :: h in s.handlers ==> s.handlers[h].sig in s.seen)
    && forall h, g :: h in s.handlers && g in s.handlers && s.handlers[h].sig == s.handlers[g].sig ==> h == g
  }

  // A claimant has emitted exactly the swaps of the wallets it has passed.
  ghost predicate ProgressOf(swaps: Swaps, wallets: nat, emitted: seq<Event>, handler: Handler) {
    match handler
    case Fetching(sig) => forall w: nat :: Event(sig, w) !in emitted
    case Emitting(sig, next) =>
      next <= wallets && forall w: nat :: Event(sig, w) in emitted <==> w < next && swaps(sig, w)
  }

  ghost predicate Progress(swaps: Swaps, s: State) {
    forall h :: h in s.handlers ==> ProgressOf(swaps, s.wallets, s.emitted, s.handlers[h])
  }

  ghost predicate NoDuplicates(es: seq<Event>) {
    forall i, j :: 0 <= i < j < |es| ==> es[i] != es[j]
  }

  // Everything sent out was claimed, was a swap, and went out once.
  ghost predicate EmittedOk(swaps: Swaps, s: State) {
    && NoDuplicates(s.emitted)
    && forall e :: e in s.emitted ==> e.sig in s.seen && e.wallet < s.wallets && swaps(e.sig, e.wallet)
  }

  ghost predicate PolledOk(swaps: Swaps, s: State) {
    && NoDuplicates(s.polled)
    && (forall e :: e in s.polled <==> e in s.processed && swaps(e.sig, e.wallet))
  }

  ghost predicate Finished(swaps: Swaps, s: State, sig: Sig) {
    forall w: nat :: w < s.wallets && swaps(sig, w) ==> Event(sig, w) in s.emitted
  }

  // Why a signature may be in the shared set.
  ghost predicate Accounted(swaps: Swaps, s: State, sig: Sig) {
    || (exists h :: Claims(s, h, sig))
    || Finished(swaps, s, sig)
    || (exists w: nat :: Event(sig, w) in s.processed)
    || !s.open
  }

  ghost predicate Inv(swaps: Swaps, s: State) {
    && OneClaimant(s) && Progress(swaps, s) && EmittedOk(swaps, s) && PolledOk(swaps, s)
    && forall sig :: sig in s.seen ==> Accounted(swaps, s, sig)
  }

  lemma StepKeepsClaims(swaps: Swaps, s: State, a: Act)
    requires OneClaimant(s) && Enabled(s, a)
    ensures OneClaimant(Step(swaps, s, a))
  {
  }

  // A handler other than the acting one is not affected by what the latter emits.
  lemma OthersProgress(swaps: Swaps, wallets: nat, emitted: seq<Event>, handler: Handler, e: Event)
    requires ProgressOf(swaps, wallets, emitted, handler) && e.sig != handler.sig
    ensures ProgressOf(swaps, wallets, emitted + [e], handler)
  {
  }

  lemma StepKeepsProgress(swaps: Swaps, s: State, a: Act)
    requires Inv(swaps, s) && Enabled(s, a)
    ensures Progress(swaps, Step(swaps, s, a))
  {
    var t := Step(swaps, s, a);
    hide PolledOk, Accounted;
    forall h | h in t.handlers ensures ProgressOf(swaps, t.wallets, t.emitted, t.handlers[h]) {
      if h in s.handlers {
        assert ProgressOf(swaps, s.wallets, s.emitted, s.handlers[h]);
        if t.emitted != s.emitted && h != a.handler {
          OthersProgress(swaps, s.wallets, s.emitted, s.handlers[h], t.emitted[|s.emitted|]);
        }
      }
    }
  }

  lemma StepKeepsEvents(swaps: Swaps, s: State, a: Act)
    requires Inv(swaps, s) && Enabled(s, a)
    ensures var t := Step(swaps, s, a); EmittedOk(swaps, t) && PolledOk(swaps, t)
  {
    hide Accounted;
  }

  lemma StepKeepsAccounts(swaps: Swaps, s: State, a: Act)
    requires Inv(swaps, s) && Enabled(s, a)
    ensures var t := Step(swaps, s, a); forall sig :: sig in t.seen ==> Accounted(swaps, t, sig)
  {
    var t := Step(swaps, s, a);
    forall sig | sig in t.seen ensures Accounted(swaps, t, sig) {
      if sig in s.seen {
        AccountMoves(swaps, s, a, sig);
      } else if a.Notify? {
        assert Claims(t, a.handler, sig);
      } else {
        assert Event(sig, a.wallet) in t.processed;
      }
    }
  }

  lemma AccountMoves(swaps: Swaps, s: State, a: Act, sig: Sig)
    requires Inv(swaps, s) && Enabled(s, a) && sig in s.seen && sig in Step(swaps, s, a).seen
    ensures Accounted(swaps, Step(swaps, s, a), sig)
  {
    var t := Step(swaps, s, a);
    assert Accounted(swaps, s, sig);
    if h :| Claims(s, h, sig) {
      if !Claims(t, h, sig) {
        assert a.Advance? && a.handler == h;
        if s.handlers[h].next >= s.wallets {
          assert Finished(swaps, t, sig);
        }
      }
    } else if w: nat :| Event(sig, w) in s.processed {
      assert Event(sig, w) in t.processed;
    } else if Finished(swaps, s, sig) {
      assert Finished(swaps, t, sig);
    }
  }

  lemma {:induction false} RunKeepsInv(swaps: Swaps, s: State, acts: seq<Act>)
    requires Inv(swaps, s) && Runnable(swaps, s, acts)
    ensures Inv(swaps, Run(swaps, s, acts))
    decreases |acts|
  {
    hide Inv, Enabled, Step;
    if acts != [] {
      StepKeepsInv(swaps, s, acts[0]);
      RunKeepsInv(swaps, Step(swaps, s, acts[0]), acts[1..]);
    }
  }

  lemma StepKeepsInv(swaps: Swaps, s: State, a: Act)
    requires Inv(swaps, s) && Enabled(s, a)
    ensures Inv(swaps, Step(swaps, s, a))
  {
    hide Step, OneClaimant, Progress, EmittedOk, PolledOk, Accounted;
    StepKeepsClaims(swaps, s, a);
    StepKeepsProgress(swaps, s, a);
    StepKeepsEvents(swaps, s, a);
    StepKeepsAccounts(swaps, s, a);
  }

  // ---------- the theorems ----------

  // Under every interleaving each event goes out at most once over the WebSocket path
  // and is absorbed at most once by polling, and no signature is left claimed by nobody.
  lemma EachPathAtMostOnce(swaps: Swaps, wallets: nat, acts: seq<Act>)
    requires Runnable(swaps, Start(wallets), acts)
    ensures var s := Run(swaps, Start(wallets), acts);
      && NoDuplicates(s.emitted) && NoDuplicates(s.polled)
      && forall sig :: sig in s.seen ==> Accounted(swaps, s, sig)
  {
    RunKeepsInv(swaps, Start(wallets), acts);
  }

  // A failed fetch frees its signature for the next notification.
  lemma FailureReleases(swaps: Swaps, s: State, h: nat, g: nat)
    requires Inv(swaps, s) && Enabled(s, FetchFails(h)) && g !in Step(swaps, s, FetchFails(h)).handlers
    ensures var t := Step(swaps, s, FetchFails(h));
      var sig := s.handlers[h].sig;
      && sig !in t.seen && (forall k :: !Claims(t, k, sig))
      && Enabled(t, Notify(g, sig)) && Claims(Step(swaps, t, Notify(g, sig)), g, sig)
  {
  }

  // A seen signature that nobody is working on stays so, and nothing more is emitted for it.
  ghost predicate Settled(s: State, sig: Sig) {
    sig in s.seen && forall h :: !Claims(s, h, sig)
  }

  lemma {:induction false} SettledForever(swaps: Swaps, s: State, acts: seq<Act>, sig: Sig)
    requires Runnable(swaps, s, acts) && Settled(s, sig)
    ensures var t := Run(swaps, s, acts);
      Settled(t, sig) && forall w: nat :: Event(sig, w) in t.emitted <==> Event(sig, w) in s.emitted
    decreases |acts|
  {
    if acts != [] {
      StepKeepsSettled(swaps, s, acts[0], sig);
      hide Settled, Step, Enabled;
      SettledForever(swaps, Step(swaps, s, acts[0]), acts[1..], sig);
    }
  }

  lemma StepKeepsSettled(swaps: Swaps, s: State, a: Act, sig: Sig)
    requires Enabled(s, a) && Settled(s, sig)
    ensures var t := Step(swaps, s, a);
      Settled(t, sig) && forall w: nat :: Event(sig, w) in t.emitted <==> Event(sig, w) in s.emitted
  {
    var t := Step(swaps, s, a);
    forall h ensures !Claims(t, h, sig) {
      assert !Claims(s, h, sig);
    }
    if a.Advance? || a.FetchFails? {
      assert !Claims(s, a.handler, sig);
    }
  }

  // Polling a signature that no handler is working on keeps the WebSocket path off it
  // from then on: nothing more is ever emitted for it.
  lemma PolledIsDeduplicated(swaps: Swaps, s: State, sig: Sig, w: nat, acts: seq<Act>)
    requires Enabled(s, Poll(sig, w)) && (forall h :: !Claims(s, h, sig)) && Runnable(swaps, Step(swaps, s, Poll(sig, w)), acts)
    ensures var t := Run(swaps, Step(swaps, s, Poll(sig, w)), acts);
      forall v: nat :: Event(sig, v) in t.emitted <==> Event(sig, v) in s.emitted
  {
    var t := Step(swaps, s, Poll(sig, w));
    forall h ensures !Claims(t, h, sig) {
      assert !Claims(s, h, sig);
    }
    assert Settled(t, sig);
    SettledForever(swaps, t, acts, sig);
  }

  lemma {:induction false} ClosedEmitsNothing(swaps: Swaps, s: State, acts: seq<Act>)
    requires Runnable(swaps, s, acts) && !s.open
    ensures Run(swaps, s, acts).emitted == s.emitted && !Run(swaps, s, acts).open
    decreases |acts|
  {
    if acts != [] {
      var t := Step(swaps, s, acts[0]);
      assert t.emitted == s.emitted && !t.open;
      hide Step, Enabled;
      ClosedEmitsNothing(swaps, t, acts[1..]);
    }
  }

  // A handler left to itself while the channel is open comes to every swap it has not passed.
  lemma {:induction false} HandlerEmits(swaps: Swaps, s: State, h: nat, w: nat) returns (acts: seq<Act>)
    requires s.open && h in s.handlers && s.handlers[h].Emitting? && s.handlers[h].next <= w < s.wallets
    requires swaps(s.handlers[h].sig, w)
    ensures Runnable(swaps, s, acts)
    ensures Event(s.handlers[h].sig, w) in Run(swaps, s, acts).emitted && Run(swaps, s, acts).polled == s.polled
    ensures Run(swaps, s, acts).processed == s.processed && Run(swaps, s, acts).wallets == s.wallets
    decreases w - s.handlers[h].next
  {
    var next := s.handlers[h].next;
    var t := Step(swaps, s, Advance(h));
    if next == w {
      acts := [Advance(h)];
      assert acts[1..] == [] && Run(swaps, t, []) == t;
    } else {
      var rest := HandlerEmits(swaps, t, h, w);
      acts := [Advance(h)] + rest;
      assert acts[1..] == rest;
    }
  }

  // The event ends up in both lists: emitted by a handler and absorbed by polling.
  ghost predicate CountsTwice(swaps: Swaps, s: State, e: Event, acts: seq<Act>) {
    Runnable(swaps, s, acts) && e in Run(swaps, s, acts).emitted && e in Run(swaps, s, acts).polled
  }

  lemma ClaimedCountsTwice(swaps: Swaps, s: State, h: nat, w: nat) returns (acts: seq<Act>)
    requires Inv(swaps, s) && s.open && h in s.handlers && w < s.wallets
    requires swaps(s.handlers[h].sig, w) && Event(s.handlers[h].sig, w) in s.polled
    ensures CountsTwice(swaps, s, Event(s.handlers[h].sig, w), acts)
  {
    var sig := s.handlers[h].sig;
    if Event(sig, w) in s.emitted {
      acts := [];
      assert Run(swaps, s, acts) == s;
    } else if s.handlers[h].Emitting? {
      assert ProgressOf(swaps, s.wallets, s.emitted, s.handlers[h]);
      acts := HandlerEmits(swaps, s, h, w);
    } else {
      var t := Step(swaps, s, FetchSucceeds(h));
      var rest := HandlerEmits(swaps, t, h, w);
      acts := [FetchSucceeds(h)] + rest;
      assert acts[1..] == rest;
    }
  }

  // The exact limit of the deduplication.  A swap that is polled can come to count twice
  // if and only if it was emitted already, or a handler is working on its signature and
  // the channel is open; the poller looks at none of these.
  lemma CountsTwiceIff(swaps: Swaps, s: State, sig: Sig, w: nat)
    requires Inv(swaps, s) && Enabled(s, Poll(sig, w)) && swaps(sig, w)
    ensures (exists acts :: CountsTwice(swaps, Step(swaps, s, Poll(sig, w)), Event(sig, w), acts))
      <==> Event(sig, w) in s.emitted || (s.open && exists h :: Claims(s, h, sig))
  {
    var t := Step(swaps, s, Poll(sig, w));
    var e := Event(sig, w);
    assert e in t.polled && t.emitted == s.emitted && t.handlers == s.handlers && t.open == s.open;
    StepKeepsInv(swaps, s, Poll(sig, w));
    hide Inv, Step, Enabled;
    if e in s.emitted {
      assert Run(swaps, t, []) == t;
      assert CountsTwice(swaps, t, e, []);
    } else if s.open && exists h :: Claims(s, h, sig) {
      var h :| Claims(s, h, sig);
      var acts := ClaimedCountsTwice(swaps, t, h, w);
    } else {
      forall acts | Runnable(swaps, t, acts) ensures e !in Run(swaps, t, acts).emitted {
        if !s.open {
          ClosedEmitsNothing(swaps, t, acts);
        } else {
          forall h ensures !Claims(t, h, sig) {
            assert !Claims(s, h, sig);
          }
          SeenAfterPoll(swaps, s, sig, w);
          SettledForever(swaps, t, acts, sig);
        }
      }
    }
  }

  lemma SeenAfterPoll(swaps: Swaps, s: State, sig: Sig, w: nat)
    requires Enabled(s, Poll(sig, w))
    ensures sig in Step(swaps, s, Poll(sig, w)).seen
  {
  }

  // The order emit, then poll always counts twice: the poller never looks at the shared set.
  lemma EmittedThenPolledCountsTwice(swaps: Swaps, s: State, sig: Sig, w: nat)
    requires Inv(swaps, s) && Event(sig, w) in s.emitted && Event(sig, w) !in s.processed
    ensures Enabled(s, Poll(sig, w))
    ensures var t := Step(swaps, s, Poll(sig, w)); Event(sig, w) in t.emitted && Event(sig, w) in t.polled
  {
    assert w < s.wallets && swaps(sig, w);
  }

  // From the start every swap can come to count twice, in either order of the two paths.
  lemma BothOrdersAreReachable(swaps: Swaps, wallets: nat, sig: Sig, w: nat, pollFirst: bool) returns (acts: seq<Act>)
    requires w < wallets && swaps(sig, w)
    ensures CountsTwice(swaps, Start(wallets), Event(sig, w), acts)
  {
    var s0 := Start(wallets);
    var s1 := Step(swaps, s0, Notify(0, sig));
    var s2 := Step(swaps, s1, FetchSucceeds(0));
    var rest;
    if pollFirst {
      var s3 := Step(swaps, s2, Poll(sig, w));
      rest := HandlerEmits(swaps, s3, 0, w);
      GoOn(swaps, s2, Poll(sig, w), rest);
      rest := [Poll(sig, w)] + rest;
    } else {
      rest := HandlerEmits(swaps, s2, 0, w);
      ThenPoll(swaps, s2, rest, sig, w);
      rest := rest + [Poll(sig, w)];
    }
    GoOn(swaps, s1, FetchSucceeds(0), rest);
    GoOn(swaps, s0, Notify(0, sig), [FetchSucceeds(0)] + rest);
    acts := [Notify(0, sig)] + ([FetchSucceeds(0)] + rest);
    hide Run, Runnable;
  }

  lemma GoOn(swaps: Swaps, s: State, a: Act, rest: seq<Act>)
    requires Enabled(s, a) && Runnable(swaps, Step(swaps, s, a), rest)
    ensures Runnable(swaps, s, [a] + rest) && Run(swaps, s, [a] + rest) == Run(swaps, Step(swaps, s, a), rest)
  {
    assert ([a] + rest)[1..] == rest;
  }

  lemma {:induction false} ThenPoll(swaps: Swaps, s: State, acts: seq<Act>, sig: Sig, w: nat)
    requires Runnable(swaps, s, acts) && swaps(sig, w)
    requires w < Run(swaps, s, acts).wallets && Event(sig, w) !in Run(swaps, s, acts).processed
    ensures Runnable(swaps, s, acts + [Poll(sig, w)])
    ensures Run(swaps, s, acts + [Poll(sig, w)]) == Step(swaps, Run(swaps, s, acts), Poll(sig, w))
    decreases |acts|
  {
    if acts == [] {
      assert ([] + [Poll(sig, w)])[1..] == [];
      assert Runnable(swaps, Step(swaps, s, Poll(sig, w)), []);
    } else {
      assert (acts + [Poll(sig, w)])[1..] == acts[1..] + [Poll(sig, w)];
      hide Step, Enabled;
      ThenPoll(swaps, Step(swaps, s, acts[0]), acts[1..], sig, w);
    }
  }

  // The channel may close at any time, and nothing is emitted after that.
  lemma ClosingStopsEmission(swaps: Swaps, s: State, acts: seq<Act>)
    ensures Enabled(s, CloseChannel)
    ensures var t := Step(swaps, s, CloseChannel);
      Runnable(swaps, t, acts) ==> Run(swaps, t, acts).emitted == s.emitted
  {
    var t := Step(swaps, s, CloseChannel);
    if Runnable(swaps, t, acts) {
      ClosedEmitsNothing(swaps, t, acts);
    }
  }
}
