// The order life cycle of src/domain/trade.rs: the states, the table of allowed
// moves, and what every chain of successful `transition` calls can do.
module Orders {
  import opened Wrappers

  datatype OrderState = Pending | Submitted | Confirmed | Failed | Dropped | Unknown | Expired | Reconciled

  datatype OrderKind = Entry | Exit | LegacyUnknown

  predicate IsTerminal(s: OrderState) {
    s.Confirmed? || s.Failed? || s.Dropped? || s.Expired? || s.Reconciled?
  }

  predicate CanTransition(s: OrderState, next: OrderState) {
    match (s, next)
    case (Pending, Submitted) => true
    case (Pending, Failed) => true
    case (Pending, Expired) => true
    case (Pending, Unknown) => true
    case (Submitted, Confirmed) => true
    case (Submitted, Failed) => true
    case (Submitted, Expired) => true
    case (Submitted, Unknown) => true
    case (Unknown, Confirmed) => true
    case (Unknown, Failed) => true
    case (Unknown, Expired) => true
    case (Unknown, Reconciled) => true
    case _ => false
  }

  // `OrderRecord::transition`: a repeated state is accepted, an illegal one leaves the record alone.
  function Transition(s: OrderState, next: OrderState): Option<OrderState> {
    if s == next then Some(s)
    else if CanTransition(s, next) then Some(next)
    else None
  }

  // The state a caller is left holding when it logs a refused transition and carries on.
  function TransitionOrKeep(s: OrderState, next: OrderState): OrderState {
    match Transition(s, next)
    case Some(t) => t
    case None => s
  }

  // A history is any list of states in which each one follows its predecessor by a successful call.
  ghost predicate IsHistory(h: seq<OrderState>) {
    |h| > 0 && forall i :: 0 < i < |h| ==> Transition(h[i - 1], h[i]) == Some(h[i])
  }

  // Number of further distinct states an order may still move through.
  function Rank(s: OrderState): nat {
    match s
    case Pending => 3
    case Submitted => 2
    case Unknown => 1
    case _ => 0
  }

  function Changes(h: seq<OrderState>): nat
    requires |h| > 0
  {
    if |h| == 1 then 0
    else Changes(h[..|h| - 1]) + (if h[|h| - 2] == h[|h| - 1] then 0 else 1)
  }

  // Along every history an order really changes state at most three times.
  lemma {:induction false} HistoryIsShort(h: seq<OrderState>)
    requires IsHistory(h)
    ensures Changes(h) + Rank(h[|h| - 1]) <= Rank(h[0])
    ensures Changes(h) <= 3
  {
    if |h| > 1 {
      var front := h[..|h| - 1];
      HistoryIsShort(front);
      assert Transition(h[|h| - 2], h[|h| - 1]) == Some(h[|h| - 1]);
    }
  }

  // A terminal state, once reached, is every later state of the history.
  lemma {:induction false} TerminalIsForever(h: seq<OrderState>, i: nat, j: nat)
    requires IsHistory(h) && i <= j < |h| && IsTerminal(h[i])
    ensures h[j] == h[i]
    decreases j
  {
    if i < j {
      TerminalIsForever(h, i, j - 1);
      assert Transition(h[j - 1], h[j]) == Some(h[j]);
    }
  }

  // Never back to Pending, and Confirmed only from an order seen Submitted or Unknown before.
  lemma {:induction false} ConfirmedWasSubmitted(h: seq<OrderState>, j: nat)
    requires IsHistory(h) && j < |h| && h[0] == Pending
    ensures h[j] == Pending ==> forall i :: 0 <= i <= j ==> h[i] == Pending
    ensures h[j] == Confirmed ==> exists i :: 0 <= i < j && (h[i] == Submitted || h[i] == Unknown)
    decreases j
  {
    if j > 0 {
      ConfirmedWasSubmitted(h, j - 1);
      assert Transition(h[j - 1], h[j]) == Some(h[j]);
    }
  }

  predicate IsLive(s: OrderState) {
    s.Pending? || s.Submitted? || s.Unknown?
  }

  // The table in one sentence: a live order moves on to a later live state, or fails, or
  // expires; it is confirmed only once submitted or unknown, reconciled only when unknown,
  // and never dropped.  A state is terminal exactly when nothing follows it.
  lemma OneMoveIff(s: OrderState, t: OrderState)
    ensures CanTransition(s, t) <==>
      && IsLive(s)
      && ((IsLive(t) && Rank(t) < Rank(s)) || t.Failed? || t.Expired? || (t.Confirmed? && !s.Pending?) || (t.Reconciled? && s.Unknown?))
    ensures IsTerminal(s) <==> forall next :: !CanTransition(s, next)
    ensures IsTerminal(s) <==> !IsLive(s)
  {
    assert IsLive(s) ==> CanTransition(s, Failed);
  }

  // Three changes do happen, and a refused move leaves the record alone.
  lemma ThreeChangesHappen()
    ensures var h := [Pending, Submitted, Unknown, Confirmed]; IsHistory(h) && Changes(h) == 3
    ensures forall s, t :: TransitionOrKeep(s, t) == if s == t || CanTransition(s, t) then t else s
  {
    var h := [Pending, Submitted, Unknown, Confirmed];
    assert h[..3] == [Pending, Submitted, Unknown] && h[..3][..2] == [Pending, Submitted] && h[..3][..2][..1] == [Pending];
    assert Changes([Pending, Submitted]) == 1;
    assert Changes([Pending, Submitted, Unknown]) == 2;
  }
}
