/**
 * The request tracker: which source-chain heights have a backfill in
 * flight, with a full reset once a day. Time is a parameter (`now`, in
 * nanoseconds); the mutex is left out since each method is one atomic step.
 */
module Tracker {
  import opened Types

  /** `24*time.Hour`, in nanoseconds. */
  const ResetPeriod: int := 24 * 60 * 60 * 1_000_000_000

  /**
   * `RequestTracker`. Each entry of `processing` is the completion channel
   * made for that height, modelled as the channel's serial number: every
   * `make(chan struct{})` yields a channel distinct from all earlier ones.
   */
  class RequestTracker {
    var processing: map<u64, nat>
    var lastResetTime: int
    /** Channels made so far; the next channel gets this serial number. */
    var channelsMade: nat

    /** Every channel in the map was made earlier. */
    ghost predicate Valid()
      reads this
    {
      forall id :: id in processing ==> processing[id] < channelsMade
    }

    /** `NewRequestTracker`: nothing in flight, last reset now. */
    constructor (now: int)
      ensures processing == map[] && lastResetTime == now && channelsMade == 0
      ensures Valid()
    {
      processing := map[];
      lastResetTime := now;
      channelsMade := 0;
    }

    /** `shouldReset`: at least a day has passed since the last reset. */
    method ShouldReset(now: int) returns (b: bool)
      ensures b <==> now - lastResetTime >= ResetPeriod
    {
      b := now - lastResetTime >= ResetPeriod;
    }

    /** `resetProcessingRequests`: forget every entry and restart the day. */
    method ResetProcessingRequests(now: int)
      modifies this`processing, this`lastResetTime
      ensures processing == map[] && lastResetTime == now
    {
      processing := map[];
      lastResetTime := now;
    }

    /**
     * `MarkProcessing`: the height maps to a newly made channel, replacing
     * any earlier one; other heights keep theirs.
     */
    method MarkProcessing(id: u64)
      modifies this`processing, this`channelsMade
      ensures processing == old(processing)[id := old(channelsMade)]
      ensures channelsMade == old(channelsMade) + 1
      ensures old(Valid()) ==> Valid()
      ensures old(Valid()) ==> forall k :: k in old(processing) ==> processing[id] != old(processing)[k]
    {
      var done := channelsMade;
      channelsMade := channelsMade + 1;
      processing := processing[id := done];
    }

    /** `IsProcessing`: the height's channel, or nil when none; reads only. */
    method IsProcessing(id: u64) returns (ch: Option<nat>)
      ensures id in processing ==> ch == Some(processing[id])
      ensures id !in processing ==> ch == None
    {
      if id in processing {
        ch := Some(processing[id]);
      } else {
        ch := None;
      }
    }

    /**
     * `CompleteProcessing`: once a day has passed, empties the whole map and
     * restarts the day; otherwise changes nothing, not even the entry of `id`.
     */
    method CompleteProcessing(id: u64, now: int)
      modifies this`processing, this`lastResetTime
      ensures old(now - lastResetTime >= ResetPeriod) ==> processing == map[] && lastResetTime == now
      ensures old(now - lastResetTime < ResetPeriod) ==>
        processing == old(processing) && lastResetTime == old(lastResetTime)
      ensures old(Valid()) ==> Valid()
    {
      var reset := ShouldReset(now);
      if reset {
        ResetProcessingRequests(now);
      }
    }
  }

  /** Marking a height makes the probe see it at once. */
  method MarkThenProbe(t: RequestTracker, id: u64) returns (ch: Option<nat>)
    modifies t`processing, t`channelsMade
    ensures ch == Some(old(t.channelsMade))
    ensures forall k :: k != id && k in old(t.processing) ==> k in t.processing && t.processing[k] == old(t.processing)[k]
  {
    t.MarkProcessing(id);
    ch := t.IsProcessing(id);
  }
}
