/** The counters of the forwarder and its sliding windows over processing latencies. */
module Metrics {

  /** One recorded latency and the clock reading taken while recording it, in nanoseconds. */
  datatype Sample = Sample(latency: int, at: int)

  const WINDOW := 100
  const MINUTE := 60_000_000_000

  function Latencies(samples: seq<Sample>): (ls: seq<int>)
    ensures |ls| == |samples|
  {
    seq(|samples|, i requires 0 <= i < |samples| => samples[i].latency)
  }

  function LastN(ls: seq<int>, n: nat): (r: seq<int>)
    ensures |r| <= n
  {
    if |ls| <= n then ls else ls[|ls| - n..]
  }

  function Sum(ls: seq<int>): int {
    if ls == [] then 0 else Sum(ls[..|ls| - 1]) + ls[|ls| - 1]
  }

  /** The per-minute counter after a run of samples: how many it holds and since when. */
  datatype Rate = Rate(count: nat, since: int)

  function MinuteRate(start: int, samples: seq<Sample>): Rate {
    if samples == [] then Rate(0, start)
    else
      var now := samples[|samples| - 1].at;
      var before := MinuteRate(start, samples[..|samples| - 1]);
      if now - before.since >= MINUTE then Rate(1, now) else Rate(before.count + 1, before.since)
  }

  function CountSince(samples: seq<Sample>, t: int): nat {
    if samples == [] then 0
    else CountSince(samples[..|samples| - 1], t) + if samples[|samples| - 1].at >= t then 1 else 0
  }

  ghost predicate MonotoneClock(start: int, samples: seq<Sample>) {
    && (forall i :: 0 <= i < |samples| ==> start <= samples[i].at)
    && (forall i, j :: 0 <= i < j < |samples| ==> samples[i].at <= samples[j].at)
  }

  /** What one more sample does to the window, the total and the per-minute rate. */
  lemma SampleAppended(start: int, samples: seq<Sample>, sample: Sample)
    ensures var longer := samples + [sample];
            var window := LastN(Latencies(samples), WINDOW);
            var rate := MinuteRate(start, samples);
            && LastN(Latencies(longer), WINDOW)
                 == (if |window| >= WINDOW then window[1..] else window) + [sample.latency]
            && Sum(Latencies(longer)) == Sum(Latencies(samples)) + sample.latency
            && MinuteRate(start, longer) == if sample.at - rate.since >= MINUTE then Rate(1, sample.at)
                                            else Rate(rate.count + 1, rate.since)
  {
    var longer := samples + [sample];
    var ls := Latencies(samples);
    assert longer[..|longer| - 1] == samples;
    assert Latencies(longer) == ls + [sample.latency];
    assert (ls + [sample.latency])[..|ls|] == ls;
  }

  class QueueMetrics {
    var queueSize: int
    var processedMessages: int
    var failedMessages: int
    var retryMessages: int
    var totalRetryCount: int
    var totalProcessingTime: int
    var messageLatencies: seq<int>
    var lastMinuteMessages: nat
    var lastMinuteTime: int
    const startTime: int
    /** Every sample recorded so far. */
    ghost var history: seq<Sample>

    ghost predicate Valid()
      reads this
    {
      && messageLatencies == LastN(Latencies(history), WINDOW)
      && totalProcessingTime == Sum(Latencies(history))
      && Rate(lastMinuteMessages, lastMinuteTime) == MinuteRate(startTime, history)
    }

    constructor (now: int)
      ensures Valid() && history == [] && startTime == now
      ensures processedMessages == failedMessages == retryMessages == totalRetryCount == 0
    {
      queueSize, processedMessages, failedMessages, retryMessages := 0, 0, 0, 0;
      totalRetryCount, totalProcessingTime, messageLatencies := 0, 0, [];
      lastMinuteMessages, lastMinuteTime := 0, now;
      startTime := now;
      history := [];
    }

    method SetQueueSize(size: int)
      modifies this`queueSize
      ensures queueSize == size
    {
      queueSize := size;
    }

    method IncrementProcessedMessages()
      modifies this`processedMessages
      ensures processedMessages == old(processedMessages) + 1
    {
      processedMessages := processedMessages + 1;
    }

    method IncrementFailedMessages()
      modifies this`failedMessages
      ensures failedMessages == old(failedMessages) + 1
    {
      failedMessages := failedMessages + 1;
    }

    method IncrementRetryMessages()
      modifies this`retryMessages
      ensures retryMessages == old(retryMessages) + 1
    {
      retryMessages := retryMessages + 1;
    }

    method IncrementRetryCount()
      modifies this`totalRetryCount
      ensures totalRetryCount == old(totalRetryCount) + 1
    {
      totalRetryCount := totalRetryCount + 1;
    }

    /** Resets three counters; the total retry count and the windows go on. */
    method ResetCounters()
      modifies this`processedMessages, this`failedMessages, this`retryMessages
      ensures processedMessages == failedMessages == retryMessages == 0
    {
      processedMessages, failedMessages, retryMessages := 0, 0, 0;
    }

    method AddMessageLatency(latency: int, now: int)
      requires Valid()
      modifies this`totalProcessingTime, this`messageLatencies, this`lastMinuteMessages,
               this`lastMinuteTime, this`history
      ensures Valid() && history == old(history) + [Sample(latency, now)]
      ensures totalProcessingTime == old(totalProcessingTime) + latency
      ensures messageLatencies
           == (if |old(messageLatencies)| >= 100 then old(messageLatencies)[1..] else old(messageLatencies)) + [latency]
      ensures if now - old(lastMinuteTime) >= 60_000_000_000 then lastMinuteMessages == 1 && lastMinuteTime == now
              else lastMinuteMessages == old(lastMinuteMessages) + 1 && lastMinuteTime == old(lastMinuteTime)
    {
      hide Latencies, LastN, Sum, MinuteRate;
      SampleAppended(startTime, history, Sample(latency, now));
      history := history + [Sample(latency, now)];
      totalProcessingTime := totalProcessingTime + latency;
      if |messageLatencies| >= WINDOW {
        messageLatencies := messageLatencies[1..];
      }
      messageLatencies := messageLatencies + [latency];
      if now - lastMinuteTime >= MINUTE {
        lastMinuteMessages := 1;
        lastMinuteTime := now;
      } else {
        lastMinuteMessages := lastMinuteMessages + 1;
      }
    }
  }

  /**
   Under a monotone clock the per-minute counter is the number of samples taken since the latest
   window start, the sample that opened the window included, and the window is under a minute old.
   */
  lemma {:induction false} MinuteRateCountsSinceWindowStart(start: int, samples: seq<Sample>)
    requires MonotoneClock(start, samples)
    ensures var r := MinuteRate(start, samples);
            && r.count == CountSince(samples, r.since)
            && start <= r.since
            && (r.since == start || exists i :: 0 <= i < |samples| && samples[i].at == r.since)
            && (samples != [] ==> r.since <= samples[|samples| - 1].at < r.since + MINUTE)
  {
    if samples != [] {
      var front, last := samples[..|samples| - 1], samples[|samples| - 1];
      MinuteRateCountsSinceWindowStart(start, front);
      var before := MinuteRate(start, front);
      if last.at - before.since >= MINUTE {
        forall i | 0 <= i < |front| ensures front[i].at < last.at {
          assert samples[i].at <= samples[|front| - 1].at;
        }
        NoneSince(front, last.at);
      } else {
        if front != [] { assert front[|front| - 1].at <= last.at; }
        if before.since != start {
          var i :| 0 <= i < |front| && front[i].at == before.since;
          assert samples[i].at == before.since;
        }
      }
    }
  }

  lemma {:induction false} NoneSince(samples: seq<Sample>, t: int)
    requires forall i :: 0 <= i < |samples| ==> samples[i].at < t
    ensures CountSince(samples, t) == 0
  {
    if samples != [] {
      NoneSince(samples[..|samples| - 1], t);
    }
  }
}
