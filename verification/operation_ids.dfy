/** The ids of new orders (`next_operation_id`, src/app.rs): a counter that restarts
    take from the snapshot, and a timestamp that has to make up for what the counter
    forgets. */
module OperationIds {
  import opened Common
  import opened Orders
  import opened Journals
  import opened Replay
  import opened ReplayLaws
  import opened OrderTrail

  const U64_MAX: int := 0xFFFF_FFFF_FFFF_FFFF

  // ----- the text of an id -----

  function Digits(n: nat): (s: string)
    ensures s != [] && forall i | 0 <= i < |s| :: '0' <= s[i] <= '9'
  {
    var last := '0' + (n % 10) as char;
    if n < 10 then [last] else Digits(n / 10) + [last]
  }

  function Decimal(n: int): string {
    if n < 0 then "-" + Digits(-n) else Digits(n)
  }

  lemma {:induction false} DigitsDetermine(a: nat, b: nat)
    ensures Digits(a) == Digits(b) <==> a == b
  {
    if Digits(a) == Digits(b) {
      var s := Digits(a);
      assert s[|s| - 1] == '0' + (a % 10) as char == '0' + (b % 10) as char;
      if a >= 10 && b >= 10 {
        assert s[..|s| - 1] == Digits(a / 10) == Digits(b / 10);
        DigitsDetermine(a / 10, b / 10);
      }
    }
  }

  /** `scope` is the lower-case mode and ticker of the configuration. */
  function OperationId(scope: string, timestamp: int, counter: nat): string {
    scope + "-" + Decimal(timestamp) + "-buy" + "-" + Digits(counter)
  }

  function CloseId(id: string): string {
    id + "-close"
  }

  predicate HasDash(s: string) {
    exists i :: 0 <= i < |s| && s[i] == '-'
  }

  lemma LongerHeadLeavesDash(a: string, d: string, b: string, e: string)
    requires a + "-" + d == b + "-" + e && |a| > |b|
    ensures HasDash(e)
  {
    var all := a + "-" + d;
    assert all[|a|] == '-' && e[|a| - |b| - 1] == all[|a|];
  }

  /** The text behind the last dash is determined. */
  lemma LastDashSplits(a: string, d: string, b: string, e: string)
    requires a + "-" + d == b + "-" + e && !HasDash(d) && !HasDash(e)
    ensures a == b && d == e
  {
    if |a| > |b| {
      LongerHeadLeavesDash(a, d, b, e);
    } else if |b| > |a| {
      LongerHeadLeavesDash(b, e, a, d);
    } else {
      var all := a + "-" + d;
      assert all[..|a|] == a && all[..|b|] == b && all[|a| + 1..] == d && all[|b| + 1..] == e;
    }
  }

  lemma CommonPrefix(p: string, a: string, b: string, q: string)
    requires p + a + q == p + b + q
    ensures a == b
  {
    assert a == (p + a + q)[|p|..|p + a + q| - |q|];
    assert b == (p + b + q)[|p|..|p + b + q| - |q|];
  }

  /** Two ids are the same text only for the same timestamp and counter. */
  lemma OperationIdsDiffer(scope: string, t: int, n: nat, u: int, m: nat)
    ensures OperationId(scope, t, n) == OperationId(scope, u, m) <==> t == u && n == m
  {
    if OperationId(scope, t, n) == OperationId(scope, u, m) {
      LastDashSplits(scope + "-" + Decimal(t) + "-buy", Digits(n), scope + "-" + Decimal(u) + "-buy", Digits(m));
      CommonPrefix(scope + "-", Decimal(t), Decimal(u), "-buy");
      DigitsDetermine(n, m);
      assert Decimal(t)[0] == Decimal(u)[0];
      if t < 0 {
        assert Decimal(t)[1..] == Digits(-t) && Decimal(u)[1..] == Digits(-u);
        DigitsDetermine(-t, -u);
      } else {
        DigitsDetermine(t, u);
      }
    }
  }

  /** A close never takes the id of an entry. */
  lemma CloseIdsAreApart(scope: string, t: int, n: nat, id: string)
    ensures OperationId(scope, t, n) != CloseId(id)
  {
    var entry, digits := OperationId(scope, t, n), Digits(n);
    assert entry[|entry| - 1] == digits[|digits| - 1];
    assert CloseId(id)[|CloseId(id)| - 1] == 'e';
  }

  // ----- the counter over any number of runs -----

  datatype IdRecord =
    | Issued(timestamp: int) // an entry took the next id
    | CounterSaved           // a snapshot holds the counter
    | CounterRestored        // a new process took the counter of the last snapshot

  datatype Counters = Counters(live: nat, saved: nat)

  /** `u64::saturating_add(1)`. */
  function Next(counter: nat): nat {
    if counter >= U64_MAX then U64_MAX else counter + 1
  }

  function CountersAfter(history: seq<IdRecord>): Counters {
    if history == [] then Counters(0, 0)
    else
      var before := CountersAfter(history[..|history| - 1]);
      match history[|history| - 1]
      case Issued(_) => before.(live := Next(before.live))
      case CounterSaved => before.(saved := before.live)
      case CounterRestored => before.(live := before.saved)
  }

  /** The id that record `k` issued. */
  function IdOf(scope: string, history: seq<IdRecord>, k: nat): string
    requires k < |history| && history[k].Issued?
  {
    OperationId(scope, history[k].timestamp, CountersAfter(history[..k + 1]).live)
  }

  function NextId(scope: string, history: seq<IdRecord>, timestamp: int): string {
    OperationId(scope, timestamp, Next(CountersAfter(history).live))
  }

  ghost predicate IsNew(scope: string, history: seq<IdRecord>, timestamp: int) {
    forall k | 0 <= k < |history| && history[k].Issued? :: IdOf(scope, history, k) != NextId(scope, history, timestamp)
  }

  ghost predicate SavedBetween(history: seq<IdRecord>, k: int, n: int)
    requires 0 <= k && n <= |history|
  {
    exists j :: k < j < n && history[j].CounterSaved?
  }

  /** The counter of record `k` was lost: a new process started before any snapshot
      took it. */
  ghost predicate CounterWasLost(history: seq<IdRecord>, k: nat) {
    exists j :: k < j < |history| && history[j].CounterRestored? && !SavedBetween(history, k, j)
  }

  lemma {:induction false} KeptCounterIsBehind(history: seq<IdRecord>, k: nat)
    requires k < |history| && !CounterWasLost(history, k)
    ensures var counters := CountersAfter(history);
            var issued := CountersAfter(history[..k + 1]).live;
            issued <= counters.live && (SavedBetween(history, k, |history|) ==> issued <= counters.saved)
    decreases |history|
  {
    if k + 1 == |history| {
      assert history[..k + 1] == history;
    } else {
      var n := |history| - 1;
      var past := history[..n];
      PastIsTheSame(history, k, n);
      SavedIsBehind(past);
      KeptCounterIsBehind(past, k);
      assert past[..k + 1] == history[..k + 1];
    }
  }

  lemma PastIsTheSame(history: seq<IdRecord>, k: nat, n: nat)
    requires k < n < |history| && !CounterWasLost(history, k)
    ensures forall m | 0 <= m <= n :: SavedBetween(history[..n], k, m) <==> SavedBetween(history, k, m)
    ensures !CounterWasLost(history[..n], k)
    ensures history[n].CounterRestored? ==> SavedBetween(history, k, n)
    ensures SavedBetween(history, k, n + 1) <==> SavedBetween(history, k, n) || history[n].CounterSaved?
  {
    var past := history[..n];
    forall m | 0 <= m <= n ensures SavedBetween(past, k, m) <==> SavedBetween(history, k, m) {
      assert forall j | 0 <= j < m :: past[j] == history[j];
    }
    forall j | k < j < n && past[j].CounterRestored? ensures SavedBetween(past, k, j) {
      assert history[j].CounterRestored?;
    }
  }

  lemma {:induction false} SavedIsBehind(history: seq<IdRecord>)
    ensures CountersAfter(history).saved <= CountersAfter(history).live <= U64_MAX
  {
    if history != [] {
      SavedIsBehind(history[..|history| - 1]);
    }
  }

  /** Over any number of runs: the next id is new if and only if no id of the same
      timestamp carries the counter that comes next, among those whose counter was
      lost; or among all, once the counter is saturated. */
  lemma {:induction false} NextIdIsNewExactly(scope: string, history: seq<IdRecord>, timestamp: int)
    ensures var saturated := CountersAfter(history).live == U64_MAX;
            IsNew(scope, history, timestamp) <==>
              forall k | 0 <= k < |history| && history[k] == Issued(timestamp) && (saturated || CounterWasLost(history, k)) ::
                CountersAfter(history[..k + 1]).live != Next(CountersAfter(history).live)
  {
    var next := Next(CountersAfter(history).live);
    SavedIsBehind(history);
    forall k | 0 <= k < |history| && history[k].Issued?
      ensures IdOf(scope, history, k) == NextId(scope, history, timestamp) <==>
                && history[k] == Issued(timestamp)
                && (CountersAfter(history).live == U64_MAX || CounterWasLost(history, k))
                && CountersAfter(history[..k + 1]).live == next
    {
      OperationIdsDiffer(scope, history[k].timestamp, CountersAfter(history[..k + 1]).live, timestamp, next);
      if !CounterWasLost(history, k) {
        KeptCounterIsBehind(history, k);
      }
    }
  }

  /** So an id is new when time has moved past every id whose counter was lost. */
  lemma {:induction false} LaterTimestampIsNew(scope: string, history: seq<IdRecord>, timestamp: int)
    requires CountersAfter(history).live < U64_MAX
    requires forall k | 0 <= k < |history| && history[k].Issued? && CounterWasLost(history, k) ::
               history[k].timestamp < timestamp
    ensures IsNew(scope, history, timestamp)
  {
    NextIdIsNewExactly(scope, history, timestamp);
  }

  /** And not when a replayed source brings the same timestamp again: an entry, a stop
      before the snapshot, and the same frame. */
  lemma ReplayedFrameRepeatsTheId(scope: string, timestamp: int)
    ensures var history := [Issued(timestamp), CounterRestored];
            IdOf(scope, history, 0) == NextId(scope, history, timestamp)
  {
    var history := [Issued(timestamp), CounterRestored];
    var first := [Issued(timestamp)];
    assert first[..0] == [] && CountersAfter(first) == Counters(1, 0);
    assert history[..1] == first && CountersAfter(history) == Counters(0, 0);
  }

  /** Every order of the journal was an entry under an issued id or a close. */
  ghost predicate IdsAreIssued(scope: string, history: seq<IdRecord>, events: seq<JournalEvent>) {
    forall i | 0 <= i < |events| && Subject(events[i]).Some? :: IsIssuedId(scope, history, Subject(events[i]).value)
  }

  ghost predicate IsIssuedId(scope: string, history: seq<IdRecord>, id: string) {
    || (exists entry :: id == CloseId(entry))
    || (exists k :: 0 <= k < |history| && history[k].Issued? && id == IdOf(scope, history, k))
  }

  /** A new id may be ordered under. */
  lemma NewIdMayOrder(scope: string, history: seq<IdRecord>, events: seq<JournalEvent>, timestamp: int, request: OrderRequest)
    requires Accepted(events) && IdsAreIssued(scope, history, events) && IsNew(scope, history, timestamp)
    requires request.operationId == NextId(scope, history, timestamp)
    ensures Fresh(events, request.operationId) && MayOrder(events, request)
  {
    forall close ensures CloseId(close) != request.operationId {
      CloseIdsAreApart(scope, timestamp, Next(CountersAfter(history).live), close);
    }
    forall i | 0 <= i < |events| ensures Subject(events[i]) != Some(request.operationId) {
      assert Subject(events[i]).Some? ==> IsIssuedId(scope, history, Subject(events[i]).value);
    }
    FreshMayOrder(events, request);
  }
}
