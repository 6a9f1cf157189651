/** Lunch-hour liquidity: a sliding window of quote changes per symbol, pruned and
    evicted as frames arrive, against the full history of sightings
    (src/app.rs). */
module LunchLiquidity {
  import opened Common

  datatype QuoteState = QuoteState(bid: Option<real>, ask: Option<real>, volume: nat)

  datatype Quote = Quote(symbol: string, state: QuoteState)

  datatype Activity = Activity(firstSeen: i64, lastSeen: i64, state: QuoteState, updates: seq<i64>)

  // ----- the reference: everything that was ever seen -----

  datatype Sighting = Sighting(symbol: string, time: i64, state: QuoteState)

  function SightingsOf(history: seq<Sighting>, symbol: string): seq<Sighting> {
    if history == [] then []
    else
      var rest := SightingsOf(history[..|history| - 1], symbol);
      var last := history[|history| - 1];
      if last.symbol == symbol then rest + [last] else rest
  }

  ghost predicate InOrder(s: seq<Sighting>) {
    forall i, j | 0 <= i < j < |s| :: s[i].time <= s[j].time
  }

  /** Where the last run of sightings without a gap longer than the window began. */
  function RunStart(s: seq<Sighting>, window: int): (start: nat)
    requires s != []
    ensures start < |s|
  {
    var n := |s| - 1;
    if n == 0 || s[n].time - s[n - 1].time > window then n else RunStart(s[..n], window)
  }

  /** The sightings of that run that changed the quote, at `since` or later. */
  ghost function Changes(s: seq<Sighting>, window: int, since: int): set<nat>
    requires s != []
  {
    set j: nat | RunStart(s, window) < j < |s| && s[j].state != s[j - 1].state && s[j].time >= since
  }

  /** An unbroken run of at least one window, with enough changes in the last one. */
  ghost predicate Lively(s: seq<Sighting>, window: int, now: int, minimum: nat) {
    && s != []
    && now - s[RunStart(s, window)].time >= window
    && |Changes(s, window, now - window)| >= minimum
  }

  // ----- one symbol, without pruning -----

  function Unpruned(s: seq<Sighting>, window: int): Activity
    requires s != []
  {
    var n := |s| - 1;
    if n == 0 || s[n].time - s[n - 1].time > window then Activity(s[n].time, s[n].time, s[n].state, [])
    else
      var before := Unpruned(s[..n], window);
      Activity(before.firstSeen, s[n].time, s[n].state,
               if before.state != s[n].state then before.updates + [s[n].time] else before.updates)
  }

  function CountSince(times: seq<i64>, since: int): nat {
    if times == [] then 0
    else CountSince(times[..|times| - 1], since) + if times[|times| - 1] >= since then 1 else 0
  }

  function PruneFront(times: seq<i64>, cutoff: int): seq<i64> {
    if times != [] && times[0] < cutoff then PruneFront(times[1..], cutoff) else times
  }

  lemma {:induction false} UnprunedEnds(s: seq<Sighting>, window: int)
    requires s != []
    ensures var activity := Unpruned(s, window);
            && activity.firstSeen == s[RunStart(s, window)].time
            && activity.lastSeen == s[|s| - 1].time && activity.state == s[|s| - 1].state
  {
    var n := |s| - 1;
    if n > 0 && s[n].time - s[n - 1].time <= window {
      UnprunedEnds(s[..n], window);
    }
  }

  lemma ChangesGrow(s: seq<Sighting>, window: int, since: int)
    requires |s| > 1 && s[|s| - 1].time - s[|s| - 2].time <= window
    ensures var n := |s| - 1;
            Changes(s, window, since) ==
            Changes(s[..n], window, since) + if s[n].state != s[n - 1].state && s[n].time >= since then {n} else {}
  {
    var n := |s| - 1;
    assert RunStart(s, window) == RunStart(s[..n], window);
    assert forall j | 0 <= j < n :: s[..n][j] == s[j];
  }

  lemma UpdatesGrow(s: seq<Sighting>, window: int, since: int)
    requires |s| > 1 && s[|s| - 1].time - s[|s| - 2].time <= window
    ensures var n := |s| - 1;
            CountSince(Unpruned(s, window).updates, since) ==
            CountSince(Unpruned(s[..n], window).updates, since)
            + if s[n].state != s[n - 1].state && s[n].time >= since then 1 else 0
  {
    var n := |s| - 1;
    UnprunedEnds(s[..n], window);
    var before := Unpruned(s[..n], window).updates;
    assert (before + [s[n].time])[..|before|] == before;
  }

  lemma {:induction false} UnprunedCounts(s: seq<Sighting>, window: int, since: int)
    requires s != []
    ensures CountSince(Unpruned(s, window).updates, since) == |Changes(s, window, since)|
  {
    hide Unpruned, Changes;
    var n := |s| - 1;
    if n == 0 || s[n].time - s[n - 1].time > window {
      NoChangesYet(s, window, since);
    } else {
      UnprunedCounts(s[..n], window, since);
      UpdatesGrow(s, window, since);
      ChangesGrow(s, window, since);
      LastIsNoEarlierChange(s, window, since);
    }
  }

  lemma NoChangesYet(s: seq<Sighting>, window: int, since: int)
    requires s != [] && (|s| == 1 || s[|s| - 1].time - s[|s| - 2].time > window)
    ensures Changes(s, window, since) == {} && Unpruned(s, window).updates == []
  {
  }

  lemma LastIsNoEarlierChange(s: seq<Sighting>, window: int, since: int)
    requires |s| > 1
    ensures |s| - 1 !in Changes(s[..|s| - 1], window, since)
  {
  }

  lemma {:induction false} UnprunedBounded(s: seq<Sighting>, window: int)
    requires s != [] && InOrder(s)
    ensures forall i | 0 <= i < |Unpruned(s, window).updates| :: Unpruned(s, window).updates[i] <= s[|s| - 1].time
  {
    var n := |s| - 1;
    if n > 0 && s[n].time - s[n - 1].time <= window {
      UnprunedBounded(s[..n], window);
    }
  }

  lemma {:induction false} CountFront(times: seq<i64>, since: int)
    requires times != []
    ensures CountSince(times, since) == CountSince(times[1..], since) + if times[0] >= since then 1 else 0
  {
    var n := |times| - 1;
    if n > 0 {
      CountFront(times[..n], since);
      assert times[..n][1..] == times[1..][..n - 1];
    }
  }

  /** Pruned times never count again. */
  lemma {:induction false} PruningKeepsCount(times: seq<i64>, cutoff: int, since: int)
    requires cutoff <= since
    ensures CountSince(PruneFront(times, cutoff), since) == CountSince(times, since)
    decreases |times|
  {
    if times != [] && times[0] < cutoff {
      CountFront(times, since);
      PruningKeepsCount(times[1..], cutoff, since);
    }
  }

  lemma {:induction false} PruneTwice(times: seq<i64>, more: seq<i64>, early: int, late: int)
    requires early <= late
    ensures PruneFront(PruneFront(times, early) + more, late) == PruneFront(times + more, late)
    decreases |times|
  {
    if times != [] && times[0] < early {
      PruneTwice(times[1..], more, early, late);
      assert (times + more)[1..] == times[1..] + more;
    }
  }

  // ----- the monitor -----

  /** The stored activity is the unpruned one, without the changes that are more
      than a window older than the last sighting. */
  ghost predicate Tracks(activity: Activity, s: seq<Sighting>, window: int) {
    && s != []
    && activity == Unpruned(s, window).(updates := PruneFront(Unpruned(s, window).updates, s[|s| - 1].time - window))
  }

  function EntryOf(entries: map<string, Activity>, symbol: string): Option<Activity> {
    if symbol in entries then Some(entries[symbol]) else None
  }

  /** What the monitor holds for a symbol that was seen as `s`, when the newest
      frame is at `latest`. */
  ghost predicate Agrees(entry: Option<Activity>, s: seq<Sighting>, window: int, latest: int) {
    match entry
    case Some(activity) => Tracks(activity, s, window)
    case None => s != [] ==> s[|s| - 1].time < latest - window
  }

  lemma {:induction false} SightingsInOrder(history: seq<Sighting>, symbol: string, latest: int)
    requires InOrder(history) && forall i | 0 <= i < |history| :: history[i].time <= latest
    ensures InOrder(SightingsOf(history, symbol))
    ensures forall i | 0 <= i < |SightingsOf(history, symbol)| :: SightingsOf(history, symbol)[i].time <= latest
  {
    if history != [] {
      var n := |history| - 1;
      SightingsInOrder(history[..n], symbol, history[n].time);
    }
  }

  /** One more sighting of a symbol, as the program updates its entry. */
  function Observed(entry: Option<Activity>, time: i64, state: QuoteState, window: int): Activity {
    var activity := if entry.None? then Activity(time, time, state, []) else entry.value;
    var touched :=
      if SatSub(time, activity.lastSeen) > window then activity.(firstSeen := time, state := state, updates := [])
      else if activity.state != state then activity.(state := state, updates := activity.updates + [time])
      else activity;
    touched.(lastSeen := time)
  }

  function Pruned(activity: Activity, cutoff: int): Activity {
    activity.(updates := PruneFront(activity.updates, cutoff))
  }

  /** A gap, or a symbol that is not held: the run starts over. */
  lemma RunStartsOver(entry: Option<Activity>, s: seq<Sighting>, seen: Sighting, window: int)
    requires 0 <= window < I64_MAX
    requires s != [] ==> seen.time - s[|s| - 1].time > window
    requires entry.Some? ==> Tracks(entry.value, s, window)
    ensures Tracks(Pruned(Observed(entry, seen.time, seen.state, window), seen.time - window), s + [seen], window)
  {
    if entry.Some? {
      UnprunedEnds(s, window);
    }
    assert (s + [seen])[|s|] == seen;
  }

  lemma UnprunedSnoc(s: seq<Sighting>, seen: Sighting, window: int)
    requires s != [] && seen.time - s[|s| - 1].time <= window
    ensures var full := Unpruned(s, window);
            var more := if full.state != seen.state then [seen.time] else [];
            Unpruned(s + [seen], window) == Activity(full.firstSeen, seen.time, seen.state, full.updates + more)
  {
    UnprunedEnds(s, window);
    assert (s + [seen])[..|s|] == s;
    assert Unpruned(s, window).updates + [] == Unpruned(s, window).updates;
  }

  lemma RunGoesOn(activity: Activity, s: seq<Sighting>, seen: Sighting, window: int)
    requires 0 <= window < I64_MAX && Tracks(activity, s, window)
    requires s[|s| - 1].time <= seen.time <= s[|s| - 1].time + window
    ensures Tracks(Pruned(Observed(Some(activity), seen.time, seen.state, window), seen.time - window), s + [seen], window)
  {
    UnprunedEnds(s, window);
    var full := Unpruned(s, window);
    var more := if full.state != seen.state then [seen.time] else [];
    PruneTwice(full.updates, more, s[|s| - 1].time - window, seen.time - window);
    UnprunedSnoc(s, seen, window);
    assert activity.updates + [] == activity.updates;
    assert Observed(Some(activity), seen.time, seen.state, window)
        == Activity(full.firstSeen, seen.time, seen.state, activity.updates + more);
  }

  lemma OneMoreSighting(history: seq<Sighting>, seen: Sighting)
    ensures SightingsOf(history + [seen], seen.symbol) == SightingsOf(history, seen.symbol) + [seen]
  {
    assert (history + [seen])[..|history|] == history;
  }

  lemma ObservedTracks(entry: Option<Activity>, s: seq<Sighting>, seen: Sighting, window: int, latest: int)
    requires 0 <= window < I64_MAX && Agrees(entry, s, window, latest)
    requires latest <= seen.time && (s != [] ==> s[|s| - 1].time <= seen.time)
    ensures Tracks(Pruned(Observed(entry, seen.time, seen.state, window), seen.time - window), s + [seen], window)
  {
    if entry.Some? && seen.time - s[|s| - 1].time <= window {
      RunGoesOn(entry.value, s, seen, window);
    } else {
      RunStartsOver(entry, s, seen, window);
    }
  }

  lemma {:induction false} LastSightingIsOld(history: seq<Sighting>, symbol: string, time: int)
    requires forall i | 0 <= i < |history| :: history[i].time <= time
    ensures var s := SightingsOf(history, symbol); s != [] ==> s[|s| - 1].time <= time
  {
    if history != [] {
      LastSightingIsOld(history[..|history| - 1], symbol, time);
    }
  }

  lemma OthersUnaffected(history: seq<Sighting>, seen: Sighting, symbol: string)
    requires seen.symbol != symbol
    ensures SightingsOf(history + [seen], symbol) == SightingsOf(history, symbol)
  {
    assert (history + [seen])[..|history|] == history;
  }

  lemma StoreKeepsAgreement(entries: map<string, Activity>, history: seq<Sighting>, seen: Sighting, activity: Activity,
                            window: int, latest: int)
    requires forall symbol :: Agrees(EntryOf(entries, symbol), SightingsOf(history, symbol), window, latest)
    requires Agrees(Some(activity), SightingsOf(history + [seen], seen.symbol), window, latest)
    ensures forall symbol ::
              Agrees(EntryOf(entries[seen.symbol := activity], symbol), SightingsOf(history + [seen], symbol), window, latest)
  {
    var stored := entries[seen.symbol := activity];
    forall symbol ensures Agrees(EntryOf(stored, symbol), SightingsOf(history + [seen], symbol), window, latest) {
      if symbol != seen.symbol {
        assert EntryOf(stored, symbol) == EntryOf(entries, symbol);
        OthersUnaffected(history, seen, symbol);
      }
    }
  }

  /** Counting in the kept entry is counting in the history. */
  lemma EntryCounts(activity: Activity, s: seq<Sighting>, window: i64, now: i64)
    requires 0 <= window && Tracks(activity, s, window) && s[|s| - 1].time <= now
    ensures CountSince(activity.updates, SatSub(now, window)) == |Changes(s, window, now - window)|
  {
    SaturationCannotCount(activity.updates, now, window);
    UnprunedCounts(s, window, now - window);
    KeptCounts(activity.updates, Unpruned(s, window).updates, s[|s| - 1].time - window, now - window);
  }

  lemma KeptCounts(kept: seq<i64>, all: seq<i64>, cutoff: int, since: int)
    requires kept == PruneFront(all, cutoff) && cutoff <= since
    ensures CountSince(kept, since) == CountSince(all, since)
  {
    PruningKeepsCount(all, cutoff, since);
  }

  lemma EntryEnds(activity: Activity, s: seq<Sighting>, window: i64)
    requires Tracks(activity, s, window)
    ensures activity.firstSeen == s[RunStart(s, window)].time && activity.lastSeen == s[|s| - 1].time
  {
    UnprunedEnds(s, window);
  }

  lemma EvictedHasNoChanges(s: seq<Sighting>, window: i64, now: int)
    requires s != [] && InOrder(s) && s[|s| - 1].time < now - window
    ensures |Changes(s, window, now - window)| == 0
  {
    assert Changes(s, window, now - window) == {};
  }

  class LunchLiquidityMonitor {
    var bySymbol: map<string, Activity>
    ghost var history: seq<Sighting>
    ghost var latest: int

    ghost predicate Current(window: int)
      reads this
    {
      && InOrder(history)
      && forall symbol :: Agrees(EntryOf(bySymbol, symbol), SightingsOf(history, symbol), window, latest)
    }

    ghost predicate Valid(window: int)
      reads this
    {
      && Current(window)
      && (forall i | 0 <= i < |history| :: history[i].time <= latest)
      && forall symbol | symbol in bySymbol :: bySymbol[symbol].lastSeen >= latest - window
    }

    constructor ()
      ensures forall window :: Valid(window)
      ensures history == [] && latest == I64_MIN
    {
      bySymbol, history, latest := map[], [], I64_MIN;
    }

    method Observe(timestamp: i64, quotes: seq<Quote>, window: i64)
      requires 0 <= window < I64_MAX && Valid(window)
      requires latest <= timestamp // market frames never go back in time
      modifies this
      ensures Valid(window) && latest == timestamp
      ensures history == old(history) + SightingsIn(timestamp, quotes)
    {
      var cutoff := SatSub(timestamp, window);
      assert history + SightingsIn(timestamp, quotes[..0]) == history;
      for n := 0 to |quotes|
        invariant history == old(history) + SightingsIn(timestamp, quotes[..n])
        invariant Current(window) && latest == old(latest)
        invariant forall i | 0 <= i < |history| :: history[i].time <= timestamp
      {
        ObserveQuote(timestamp, quotes[n], window, cutoff);
        assert quotes[..n + 1] == quotes[..n] + [quotes[n]];
      }
      assert quotes[..|quotes|] == quotes;
      Evict(timestamp, cutoff, window);
    }

    method ObserveQuote(timestamp: i64, quote: Quote, window: i64, cutoff: i64)
      requires 0 <= window < I64_MAX && cutoff == SatSub(timestamp, window) && Current(window)
      requires latest <= timestamp && forall i | 0 <= i < |history| :: history[i].time <= timestamp
      modifies this`bySymbol, this`history
      ensures Current(window)
      ensures history == old(history) + [Sighting(quote.symbol, timestamp, quote.state)]
    {
      hide SightingsOf, Unpruned, PruneFront, CountSince;
      ghost var seen := Sighting(quote.symbol, timestamp, quote.state);
      var entry := EntryOf(bySymbol, quote.symbol);
      LastSightingIsOld(history, quote.symbol, timestamp);
      ObservedTracks(entry, SightingsOf(history, quote.symbol), seen, window, latest);
      OneMoreSighting(history, seen);
      var activity := Observed(entry, timestamp, quote.state, window);
      var updates := PruneUpdates(activity.updates, cutoff, timestamp - window);
      StoreKeepsAgreement(bySymbol, history, seen, activity.(updates := updates), window, latest);
      bySymbol := bySymbol[quote.symbol := activity.(updates := updates)];
      history := history + [seen];
    }

    /** Pops the front while it is too old. The saturated cutoff cuts where the exact
        one would. */
    method PruneUpdates(updates: seq<i64>, cutoff: i64, ghost exact: int) returns (kept: seq<i64>)
      requires cutoff == exact || (exact < I64_MIN && cutoff == I64_MIN)
      ensures kept == PruneFront(updates, exact)
    {
      kept := updates;
      while kept != [] && kept[0] < cutoff
        invariant PruneFront(kept, exact) == PruneFront(updates, exact)
        decreases |kept|
      {
        kept := kept[1..];
      }
    }

    /** Forgets the symbols that were last seen more than a window ago. */
    method Evict(timestamp: i64, cutoff: i64, window: i64)
      requires 0 <= window < I64_MAX && cutoff == SatSub(timestamp, window) && latest <= timestamp
      requires Current(window) && forall i | 0 <= i < |history| :: history[i].time <= timestamp
      modifies this`bySymbol, this`latest
      ensures Valid(window) && latest == timestamp
    {
      ghost var before, earlier := bySymbol, latest;
      bySymbol := map symbol | symbol in bySymbol && bySymbol[symbol].lastSeen >= cutoff :: bySymbol[symbol];
      latest := timestamp;
      forall symbol ensures Agrees(EntryOf(bySymbol, symbol), SightingsOf(history, symbol), window, timestamp) {
        assert Agrees(EntryOf(before, symbol), SightingsOf(history, symbol), window, earlier);
        if symbol in before {
          EntryEnds(before[symbol], SightingsOf(history, symbol), window);
        }
      }
    }

    function UpdateCount(symbol: string, now: i64, window: i64): Option<nat>
      reads this
    {
      if symbol !in bySymbol then None
      else if SatSub(now, bySymbol[symbol].firstSeen) >= window then
        Some(CountSince(bySymbol[symbol].updates, SatSub(now, window)))
      else None
    }

    /** Exactly the reference, although most of the history has been thrown away;
        only a minimum of zero can notice that a silent symbol was evicted. */
    method SufficientUpdates(symbol: string, now: i64, window: i64, minimum: nat) returns (enough: bool)
      requires 0 <= window < I64_MAX && Valid(window) && latest <= now
      ensures minimum >= 1 ==> (enough <==> Lively(SightingsOf(history, symbol), window, now, minimum))
      ensures minimum == 0 ==>
                var s := SightingsOf(history, symbol);
                enough <==> Lively(s, window, now, 0) && s[|s| - 1].time >= latest - window
    {
      hide SightingsOf, Unpruned, PruneFront, CountSince;
      var count := UpdateCount(symbol, now, window);
      enough := count.Some? && count.value >= minimum;
      ghost var s := SightingsOf(history, symbol);
      assert Agrees(EntryOf(bySymbol, symbol), s, window, latest);
      LastSightingIsOld(history, symbol, latest);
      if symbol in bySymbol {
        EntryEnds(bySymbol[symbol], s, window);
        EntryCounts(bySymbol[symbol], s, window, now);
      } else if s != [] {
        SightingsInOrder(history, symbol, latest);
        EvictedHasNoChanges(s, window, now);
      }
    }
  }

  ghost function SightingsIn(timestamp: i64, quotes: seq<Quote>): seq<Sighting> {
    if quotes == [] then []
    else
      var n := |quotes| - 1;
      SightingsIn(timestamp, quotes[..n]) + [Sighting(quotes[n].symbol, timestamp, quotes[n].state)]
  }

  lemma {:induction false} SaturationCannotCount(times: seq<i64>, now: i64, window: i64)
    requires 0 <= window
    ensures CountSince(times, SatSub(now, window)) == CountSince(times, now - window)
  {
    if times != [] {
      SaturationCannotCount(times[..|times| - 1], now, window);
    }
  }
}
