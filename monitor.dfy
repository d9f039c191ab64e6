/**
 * monitorCaPerformance: a `while (true)` loop that fetches a quote, writes the
 * latest price and multiplier into the watchlist, alerts when the multiplier
 * is at least 1.5, and sleeps.  An exception (a failed alert) ends the loop.
 *
 * The endless loop is modelled over a finite trace of what the outside world
 * answers in successive iterations; `Step` is one iteration and `Run` the
 * loop over a trace.  The stored multiplier is overwritten by every non-zero
 * sample: it is the latest multiplier, not the highest one.
 */
module Monitor {
  import opened Wrappers
  import opened Watchlist

  /** The wait after an unavailable quote. */
  const RetryDelay: nat := 3000

  /** The wait after a successful sample (five minutes). */
  const SampleInterval: nat := 300000

  /** One iteration's answers: the quote gateway's reply and whether an alert, if one is sent, goes through. */
  datatype Sample = Sample(quote: Option<real>, sendOk: bool)

  /** The "New update for <ca>: <multiplier>x" alert. */
  datatype Notice = Notice(ca: string, multiplier: real)

  /** What the loop does after an iteration: sleep, or leave through the catch block. */
  datatype Next = Wait(delay: nat) | Terminated

  datatype StepResult = StepResult(table: Table, notice: Option<Notice>, next: Next)

  /** One iteration of the loop body. */
  function Step(t: Table, ca: string, initialPrice: real, s: Sample): (r: StepResult)
    requires initialPrice != 0.0
    ensures s.quote.None? ==> r == StepResult(t, None, Wait(RetryDelay))
    ensures r.table.Keys == t.Keys
    ensures forall k | k in t && k != ca :: r.table[k] == t[k]
    ensures ca in t && s.quote.Some? ==>
              && r.table[ca] == t[ca].(currentPrice := r.table[ca].currentPrice,
                                       highestMultiplier := r.table[ca].highestMultiplier)
              && r.table[ca].currentPrice == s.quote.value
              && r.table[ca].highestMultiplier == (if s.quote.value != 0.0 then s.quote.value / initialPrice
                                                   else t[ca].highestMultiplier)
    ensures r.notice.Some? <==> s.quote.Some? && s.quote.value / initialPrice >= WinMultiplier && s.sendOk
    ensures r.notice.Some? ==> r.notice.value == Notice(ca, s.quote.value / initialPrice)
    ensures r.next == Terminated <==> s.quote.Some? && s.quote.value / initialPrice >= WinMultiplier && !s.sendOk
    ensures r.next.Wait? ==> r.next.delay == if s.quote.None? then RetryDelay else SampleInterval
  {
    match s.quote
    case None => StepResult(t, None, Wait(RetryDelay))
    case Some(price) =>
      var multiplier := price / initialPrice;
      var t' := Update(t, ca, price, Some(multiplier));
      if multiplier >= WinMultiplier then
        if s.sendOk then StepResult(t', Some(Notice(ca, multiplier)), Wait(SampleInterval))
        else StepResult(t', None, Terminated)
      else
        StepResult(t', None, Wait(SampleInterval))
  }

  /** What the loop has done after a trace: the table, the alerts sent, the sleeps taken, and whether it died. */
  datatype Trace = Trace(table: Table, notices: seq<Notice>, delays: seq<nat>, terminated: bool)

  /** The loop over a trace; once it has terminated, later samples are never taken. */
  function Run(t: Table, ca: string, initialPrice: real, samples: seq<Sample>): (r: Trace)
    requires initialPrice != 0.0
    ensures |r.delays| <= |samples|
    ensures r.terminated ==> |r.delays| < |samples|
    ensures !r.terminated ==> |r.delays| == |samples|
    ensures |r.notices| <= |r.delays|
    ensures r.table.Keys == t.Keys
  {
    if samples == [] then Trace(t, [], [], false)
    else
      var prev := Run(t, ca, initialPrice, samples[..|samples| - 1]);
      if prev.terminated then prev
      else
        var r := Step(prev.table, ca, initialPrice, samples[|samples| - 1]);
        Trace(r.table,
              prev.notices + (if r.notice.Some? then [r.notice.value] else []),
              prev.delays + (if r.next.Wait? then [r.next.delay] else []),
              r.next == Terminated)
  }

  /**
   * After the row has been removed the loop keeps running (and alerting), but
   * its writes change nothing: a removed address is never re-created.
   */
  lemma {:induction false} RunAfterRemoval(t: Table, ca: string, initialPrice: real, samples: seq<Sample>)
    requires initialPrice != 0.0
    requires ca !in t
    ensures Run(t, ca, initialPrice, samples).table == t
  {
    if samples != [] {
      RunAfterRemoval(t, ca, initialPrice, samples[..|samples| - 1]);
    }
  }

  /** A terminated loop takes no further samples: later answers change nothing. */
  lemma {:induction false} TerminationIsFinal(t: Table, ca: string, initialPrice: real,
                                              samples: seq<Sample>, more: seq<Sample>)
    requires initialPrice != 0.0
    requires Run(t, ca, initialPrice, samples).terminated
    ensures Run(t, ca, initialPrice, samples + more) == Run(t, ca, initialPrice, samples)
    decreases |more|
  {
    if more == [] {
      assert samples + more == samples;
    } else {
      var shorter := more[..|more| - 1];
      TerminationIsFinal(t, ca, initialPrice, samples, shorter);
      assert (samples + more)[..|samples + more| - 1] == samples + shorter;
    }
  }

  /** Each sleep is 3000 after an unavailable quote and 300000 after a sample. */
  lemma {:induction false} RunDelays(t: Table, ca: string, initialPrice: real, samples: seq<Sample>)
    requires initialPrice != 0.0
    ensures var r := Run(t, ca, initialPrice, samples);
            forall k | 0 <= k < |r.delays| ::
              r.delays[k] == if samples[k].quote.None? then RetryDelay else SampleInterval
  {
    if samples != [] {
      var prefix := samples[..|samples| - 1];
      RunDelays(t, ca, initialPrice, prefix);
      var r := Run(t, ca, initialPrice, samples);
      forall k | 0 <= k < |r.delays|
        ensures r.delays[k] == if samples[k].quote.None? then RetryDelay else SampleInterval
      {
        if k < |prefix| {
          assert samples[k] == prefix[k];
        }
      }
    }
  }

  /** The multiplier the table ends up with: that of the last sample with a non-zero quote. */
  function LatestMultiplier(samples: seq<Sample>, initialPrice: real, stored: real): real
    requires initialPrice != 0.0
  {
    if samples == [] then stored
    else
      var last := samples[|samples| - 1];
      if last.quote.Some? && last.quote.value != 0.0 then last.quote.value / initialPrice
      else LatestMultiplier(samples[..|samples| - 1], initialPrice, stored)
  }

  /** The price the table ends up with: that of the last sample with a quote. */
  function LatestPrice(samples: seq<Sample>, stored: real): real {
    if samples == [] then stored
    else
      var last := samples[|samples| - 1];
      if last.quote.Some? then last.quote.value
      else LatestPrice(samples[..|samples| - 1], stored)
  }

  /**
   * While the loop lives, the row holds the latest price and the latest
   * non-zero multiplier; its initial price and group never change.
   */
  lemma {:induction false} RunStoresLatest(t: Table, ca: string, initialPrice: real, samples: seq<Sample>)
    requires initialPrice != 0.0
    requires ca in t
    requires !Run(t, ca, initialPrice, samples).terminated
    ensures var row := Run(t, ca, initialPrice, samples).table[ca];
            && row.highestMultiplier == LatestMultiplier(samples, initialPrice, t[ca].highestMultiplier)
            && row.currentPrice == LatestPrice(samples, t[ca].currentPrice)
            && row.initialPrice == t[ca].initialPrice
            && row.groupName == t[ca].groupName
  {
    if samples != [] {
      RunStoresLatest(t, ca, initialPrice, samples[..|samples| - 1]);
    }
  }

  /** The alerts of a loop that no send failure has killed: one for every sample at or above 1.5. */
  function Alerts(samples: seq<Sample>, ca: string, initialPrice: real): seq<Notice>
    requires initialPrice != 0.0
  {
    if samples == [] then []
    else
      var last := samples[|samples| - 1];
      Alerts(samples[..|samples| - 1], ca, initialPrice)
      + if last.quote.Some? && last.quote.value / initialPrice >= WinMultiplier
        then [Notice(ca, last.quote.value / initialPrice)] else []
  }

  /**
   * When every send succeeds the loop never stops, and it alerts on every
   * sample at or above 1.5, not only on the first crossing.
   */
  lemma {:induction false} RunAlertsEverySample(t: Table, ca: string, initialPrice: real, samples: seq<Sample>)
    requires initialPrice != 0.0
    requires forall k | 0 <= k < |samples| :: samples[k].sendOk
    ensures !Run(t, ca, initialPrice, samples).terminated
    ensures Run(t, ca, initialPrice, samples).notices == Alerts(samples, ca, initialPrice)
  {
    if samples != [] {
      RunAlertsEverySample(t, ca, initialPrice, samples[..|samples| - 1]);
    }
  }

  /**
   * The stored multiplier can go down: a 2x sample followed by a 1.2x sample
   * leaves 1.2 in the table.  The column is overwritten, not ratcheted.
   */
  lemma MultiplierIsNotRatcheted(ca: string, group: string)
    ensures var t := map[ca := Row(1.0, 1.0, InitialMultiplier, group)];
            var r := Run(t, ca, 1.0, [Sample(Some(2.0), true), Sample(Some(1.2), true)]);
            && r.table[ca].highestMultiplier == 1.2
            && r.notices == [Notice(ca, 2.0)]
            && r.delays == [SampleInterval, SampleInterval]
  {
    var t := map[ca := Row(1.0, 1.0, InitialMultiplier, group)];
    var samples := [Sample(Some(2.0), true), Sample(Some(1.2), true)];
    assert samples[..1] == [Sample(Some(2.0), true)];
    assert samples[..1][..0] == [];
  }

  /** A fresh address at price 1.0 that later samples at 1.5 is alerted once and stored at 1.5. */
  lemma FirstWinAlertsOnce(ca: string, group: string)
    ensures var t := InsertOrIgnore(map[], ca, 1.0, group);
            var r := Run(t, ca, 1.0, [Sample(Some(1.5), true)]);
            && r.notices == [Notice(ca, 1.5)]
            && r.table[ca].highestMultiplier == 1.5
            && r.table[ca].initialPrice == 1.0
  {
    assert [Sample(Some(1.5), true)][..0] == [];
  }

  /**
   * monitorCaPerformance over a finite trace.  The loop runs until the trace
   * is used up or an alert fails to send (the catch block).
   */
  method MonitorCaPerformance(db: WatchlistDb, ca: string, initialPrice: real, samples: seq<Sample>)
    returns (notices: seq<Notice>, delays: seq<nat>, terminated: bool)
    requires initialPrice != 0.0
    modifies db
    ensures Trace(db.rows, notices, delays, terminated) == Run(old(db.rows), ca, initialPrice, samples)
  {
    notices, delays, terminated := [], [], false;
    var i := 0;
    while i < |samples| && !terminated
      invariant 0 <= i <= |samples|
      invariant Trace(db.rows, notices, delays, terminated) == Run(old(db.rows), ca, initialPrice, samples[..i])
    {
      assert samples[..i + 1][..i] == samples[..i];
      var currentPrice := samples[i].quote;
      if currentPrice.None? {
        delays := delays + [RetryDelay];
      } else {
        var multiplier := currentPrice.value / initialPrice;
        db.UpdateWatchlist(ca, currentPrice.value, Some(multiplier));
        if multiplier >= WinMultiplier && !samples[i].sendOk {
          terminated := true;
        } else {
          if multiplier >= WinMultiplier {
            notices := notices + [Notice(ca, multiplier)];
          }
          delays := delays + [SampleInterval];
        }
      }
      i := i + 1;
    }
    if i < |samples| {
      TerminationIsFinal(old(db.rows), ca, initialPrice, samples[..i], samples[i..]);
      assert samples[..i] + samples[i..] == samples;
    } else {
      assert samples[..i] == samples;
    }
  }
}
