// The token-age pager of fetch_token_safety (src/collector/token_data.rs): walk a
// signature history backward, at most ten pages of two hundred, until the age is proven.
module AgePager {
  import opened Wrappers

  const PAGE: nat := 200
  const MAX_PAGES: nat := 10

  datatype Entry = Entry(signature: string, blockTime: Option<int>)

  // The mint account's history, newest first, as the RPC node would page it out.
  type History = seq<Entry>

  ghost predicate Distinct(h: History) {
    forall i, j :: 0 <= i < j < |h| ==> h[i].signature != h[j].signature
  }

  // Where the page that follows `before` starts.
  function After(h: History, before: Option<string>): nat {
    match before
    case None => 0
    case Some(s) => IndexOf(h, s) + 1
  }

  function IndexOf(h: History, s: string): (i: nat)
    ensures i < |h| ==> h[i].signature == s
    ensures i <= |h|
  {
    if h == [] || h[0].signature == s then 0 else 1 + IndexOf(h[1..], s)
  }

  // `signatures_for_address_paged`.
  function PageOf(h: History, before: Option<string>): History {
    var from := Min(After(h, before), |h|);
    h[from..Min(from + PAGE, |h|)]
  }

  ghost predicate TimedWithin(h: History, n: nat, bt: int)
    requires n <= |h|
  {
    exists i :: 0 <= i < n && h[i].blockTime == Some(bt)
  }

  // The least block time among the first n entries, if any of them has one.
  ghost predicate OldestOf(h: History, n: nat, oldest: Option<int>)
    requires n <= |h|
  {
    match oldest
    case None => forall i :: 0 <= i < n ==> h[i].blockTime.None?
    case Some(o) => TimedWithin(h, n, o) && forall bt :: TimedWithin(h, n, bt) ==> o <= bt
  }

  datatype Verdict = RpcFailed | Unverifiable | Age(seconds: int)

  function Cutoff(now: int, minAge: int): int {
    now - (if minAge > 0 then minAge else 0)
  }

  // Some entry within reach of the ten pages is old enough.
  ghost predicate OldEnough(h: History, now: int, minAge: int) {
    exists bt :: bt <= Cutoff(now, minAge) && TimedWithin(h, Min(|h|, MAX_PAGES * PAGE), bt)
  }

  ghost predicate SomeTimed(h: History) {
    exists bt :: TimedWithin(h, |h|, bt)
  }

  lemma {:induction false} IndexIsUnique(h: History, k: nat)
    requires Distinct(h) && k < |h|
    ensures IndexOf(h, h[k].signature) == k
  {
    if k > 0 {
      assert h[0].signature != h[k].signature;
      assert h[1..][k - 1] == h[k];
      IndexIsUnique(h[1..], k - 1);
    }
  }

  // The fold over one page extends the oldest time to that page.
  method FoldPage(ghost h: History, page: History, ghost from: nat, start: Option<int>) returns (oldest: Option<int>)
    requires from + |page| <= |h| && page == h[from..from + |page|] && OldestOf(h, from, start)
    ensures OldestOf(h, from + |page|, oldest)
  {
    oldest := start;
    for i := 0 to |page|
      invariant OldestOf(h, from + i, oldest)
    {
      ghost var before := oldest;
      assert page[i] == h[from + i];
      if page[i].blockTime.Some? {
        var bt := page[i].blockTime.value;
        oldest := Some(if oldest.Some? && oldest.value <= bt then oldest.value else bt);
      }
      OldestGrows(h, from + i, before, oldest);
    }
  }

  lemma OldestGrows(h: History, n: nat, before: Option<int>, after: Option<int>)
    requires n < |h| && OldestOf(h, n, before)
    requires after == match h[n].blockTime
                      case None => before
                      case Some(bt) => Some(if before.Some? && before.value <= bt then before.value else bt)
    ensures OldestOf(h, n + 1, after)
  {
    var m := n + 1;
    forall bt ensures TimedWithin(h, m, bt) <==> TimedWithin(h, n, bt) || h[n].blockTime == Some(bt) {
    }
  }

  // A page starts where the last one ended and is full unless the history ends there.
  lemma PageIsSlice(h: History, before: Option<string>, read: nat)
    requires After(h, before) == read <= |h|
    ensures var page := PageOf(h, before);
      && read + |page| <= |h| && page == h[read..read + |page|] && |page| <= PAGE
      && (|page| < PAGE ==> read + |page| == |h|)
  {
  }

  lemma NextPage(h: History, read: nat)
    requires Distinct(h) && 0 < read <= |h|
    ensures After(h, Some(h[read - 1].signature)) == read
  {
    IndexIsUnique(h, read - 1);
  }

  // The pager.  It answers exactly when an entry within reach is old enough, or the
  // history is short enough to be read to its end and has a time at all.  The age is
  // that of a real entry, so never overstated, and is exact for a history read whole.
  // `read` is how far the walk got; `reachable` says which requests are answered.
  method ProveAge(h: History, now: int, minAge: int, reachable: nat -> bool) returns (verdict: Verdict, pages: nat, ghost read: nat)
    requires Distinct(h)
    ensures pages <= MAX_PAGES
    ensures verdict.RpcFailed? <==> pages > 0 && !reachable(pages - 1)
    ensures !verdict.RpcFailed? ==>
      (verdict.Age? <==> OldEnough(h, now, minAge) || (|h| < MAX_PAGES * PAGE && SomeTimed(h)))
    ensures verdict.Age? ==>
      && read <= |h| && OldestOf(h, read, Some(now - verdict.seconds))
      && (verdict.seconds >= minAge || read == |h|)
  {
    var cutoff := now - (if minAge > 0 then minAge else 0);
    var oldest: Option<int> := None;
    var before: Option<string> := None;
    var exhausted, done := false, false;
    pages, read := 0, 0;
    assert OldestOf(h, 0, None);
    hide OldestOf, OldEnough, SomeTimed, Distinct, PageOf, IndexOf;
    while pages < MAX_PAGES && !done
      invariant pages <= MAX_PAGES && (pages > 0 ==> reachable(pages - 1))
      invariant read <= |h| && OldestOf(h, read, oldest) && (!done ==> After(h, before) == read)
      invariant !done ==> read == pages * PAGE && !exhausted && (oldest.Some? ==> oldest.value > cutoff)
      invariant done && exhausted ==> read == |h| < MAX_PAGES * PAGE
      invariant done && !exhausted ==> read <= MAX_PAGES * PAGE && oldest.Some? && oldest.value <= cutoff
      decreases MAX_PAGES - pages, !done
    {
      pages := pages + 1;
      if !reachable(pages - 1) {
        return RpcFailed, pages, read;
      }
      var page := PageOf(h, before);
      PageIsSlice(h, before, read);
      if page == [] {
        exhausted, done := true, true;
      } else {
        oldest := FoldPage(h, page, read, oldest);
        read := read + |page|;
        if oldest.Some? && oldest.value <= cutoff {
          done := true;
        } else if |page| < PAGE {
          exhausted, done := true, true;
        } else {
          before := Some(page[|page| - 1].signature);
          NextPage(h, read);
        }
      }
    }
    AgeMeans(h, now, minAge, read, oldest, exhausted);
    if oldest.None? || (!exhausted && oldest.value > cutoff) {
      verdict := Unverifiable;
    } else {
      verdict := Age(now - oldest.value);
    }
  }

  lemma AgeMeans(h: History, now: int, minAge: int, read: nat, oldest: Option<int>, exhausted: bool)
    requires read <= |h| && OldestOf(h, read, oldest)
    requires exhausted ==> read == |h| < MAX_PAGES * PAGE
    requires !exhausted ==> read <= MAX_PAGES * PAGE
    requires !exhausted && !(oldest.Some? && oldest.value <= Cutoff(now, minAge)) ==> read == MAX_PAGES * PAGE
    ensures oldest.Some? && (exhausted || oldest.value <= Cutoff(now, minAge)) <==>
      OldEnough(h, now, minAge) || (|h| < MAX_PAGES * PAGE && SomeTimed(h))
  {
    var reach := Min(|h|, MAX_PAGES * PAGE);
    forall bt | TimedWithin(h, read, bt) ensures TimedWithin(h, reach, bt) && TimedWithin(h, |h|, bt) {
    }
    if oldest.Some? {
      assert TimedWithin(h, read, oldest.value);
    }
  }

  // What the answer guarantees to a caller: it never exceeds the true age, reaches the
  // minimum or is the true age, and a short history with one time is always answered.
  lemma AgeIsSound(h: History, now: int, minAge: int, seconds: int, oldest: int, n: nat)
    requires n <= |h| && OldestOf(h, n, Some(now - seconds)) && OldestOf(h, |h|, Some(oldest))
    ensures seconds <= now - oldest
    ensures n == |h| ==> seconds == now - oldest
  {
    assert TimedWithin(h, n, now - seconds);
    assert TimedWithin(h, |h|, now - seconds);
  }
}
