/** The client's response-timeout and retransmission bookkeeping: the time the last request went
    out and how many times it has timed out since. Clock_Time() readings are parameters. */
module Retry {
  import opened MeshTypes

  /** CLIENT_TX_INPROGRESS, CLIENT_TX_TIMEOUT, CLIENT_TX_RETRY_ENDS */
  datatype RetrySignal = InProgress | Timeout | RetryEnds

  /** The eServerRespRecdState_t the caller passes in; the state machine only ever writes the
      first two, and keeps any other value it finds. */
  datatype ServerRespState = NodeIdle | NodeNoResponse | OtherState(code: nat)

  datatype TimerState = TimerState(initialTime: u32, attempts: nat)

  datatype PollOutcome = PollOutcome(state: TimerState, signal: RetrySignal, resp: ServerRespState)

  /** The response timeout has run out when the 32-bit clock difference, taken modulo 2^32,
      reaches it. */
  predicate TimedOut(now: u32, initialTime: u32, responseTimeout: u32)
    ensures responseTimeout == 0 ==> TimedOut(now, initialTime, responseTimeout)
    ensures now == initialTime ==> (TimedOut(now, initialTime, responseTimeout) <==> responseTimeout == 0)
  {
    now - initialTime >= responseTimeout
  }

  /** One call of ConfigClient_ChkRetrialState from state s: now is the clock reading it compares,
      later the reading ConfigClient_SaveMsgSendingTime takes after a timeout. */
  function Poll(s: TimerState, now: u32, later: u32, resp: ServerRespState,
                responseTimeout: u32, maxTrials: nat): (o: PollOutcome)
    ensures o.signal == InProgress <==> !TimedOut(now, s.initialTime, responseTimeout)
    ensures o.signal == InProgress ==> o.state == s && o.resp == resp
    ensures o.signal == RetryEnds <==> TimedOut(now, s.initialTime, responseTimeout) && s.attempts + 1 >= maxTrials
    ensures o.signal == RetryEnds ==> o.state == TimerState(later, 0) && o.resp == NodeNoResponse
    ensures o.signal == Timeout ==> o.state == TimerState(later, s.attempts + 1) && o.resp == NodeIdle
  {
    if !TimedOut(now, s.initialTime, responseTimeout) then PollOutcome(s, InProgress, resp)
    else if s.attempts + 1 >= maxTrials then PollOutcome(TimerState(later, 0), RetryEnds, NodeNoResponse)
    else PollOutcome(TimerState(later, s.attempts + 1), Timeout, NodeIdle)
  }

  /** The bound every poll keeps: the attempt count stays below the number of trials (or at 0
      when that number is 0). */
  predicate WithinTrials(s: TimerState, maxTrials: nat)
  {
    s.attempts == 0 || s.attempts < maxTrials
  }

  lemma PollKeepsWithinTrials(s: TimerState, now: u32, later: u32, resp: ServerRespState,
                              responseTimeout: u32, maxTrials: nat)
    requires WithinTrials(s, maxTrials)
    ensures WithinTrials(Poll(s, now, later, resp, responseTimeout, maxTrials).state, maxTrials)
  {
  }

  /** The clock difference is modular, so a clock that wraps past 2^32 while a request is
      outstanding measures the true elapsed time d. */
  lemma TimedOutAcrossWrap(initialTime: u32, d: u32, responseTimeout: u32)
    ensures TimedOut(initialTime + d, initialTime, responseTimeout) <==> d >= responseTimeout
  {
    assert (initialTime + d) - initialTime == d;
  }

  /** A run of polls, each one arriving after the previous poll's restart time by at least the
      timeout: times[i] is the pair (now, later) of the i-th poll. */
  predicate AllTimeOut(initialTime: u32, times: seq<(u32, u32)>, responseTimeout: u32)
    decreases |times|
  {
    |times| > 0 ==>
      TimedOut(times[0].0, initialTime, responseTimeout) && AllTimeOut(times[0].1, times[1..], responseTimeout)
  }

  /** The signals a run of polls produces. */
  function Signals(s: TimerState, times: seq<(u32, u32)>, responseTimeout: u32, maxTrials: nat): (r: seq<RetrySignal>)
    ensures |r| == |times|
    decreases |times|
  {
    if |times| == 0 then []
    else
      var o := Poll(s, times[0].0, times[0].1, NodeIdle, responseTimeout, maxTrials);
      [o.signal] + Signals(o.state, times[1..], responseTimeout, maxTrials)
  }

  /** With no response, a request that has already timed out `attempts` times times out again
      until the maxTrials-th consecutive timeout, which ends the retries. */
  lemma {:induction false} RetriesEndAtMaxTrials(s: TimerState, times: seq<(u32, u32)>, responseTimeout: u32, maxTrials: nat)
    requires s.attempts < maxTrials && |times| == maxTrials - s.attempts
    requires AllTimeOut(s.initialTime, times, responseTimeout)
    ensures Signals(s, times, responseTimeout, maxTrials) == seq(|times| - 1, _ => Timeout) + [RetryEnds]
    decreases |times|
  {
    var o := Poll(s, times[0].0, times[0].1, NodeIdle, responseTimeout, maxTrials);
    if |times| == 1 {
      assert o.signal == RetryEnds;
    } else {
      assert o.signal == Timeout && o.state.attempts == s.attempts + 1;
      RetriesEndAtMaxTrials(o.state, times[1..], responseTimeout, maxTrials);
      assert [Timeout] + seq(|times| - 2, _ => Timeout) == seq(|times| - 1, _ => Timeout);
    }
  }

  /** After the retries end the count is back at 0, so the next cycle again allows maxTrials
      timeouts. */
  lemma RetryEndsRestartsCount(s: TimerState, now: u32, later: u32, resp: ServerRespState,
                               responseTimeout: u32, maxTrials: nat)
    requires Poll(s, now, later, resp, responseTimeout, maxTrials).signal == RetryEnds
    ensures Poll(s, now, later, resp, responseTimeout, maxTrials).state.attempts == 0
  {
  }

  /** The timer part of NodeInfo. */
  class RetryTimer {
    /** CONFIGCLIENT_RESPONSE_TIMEOUT */
    const responseTimeout: u32
    /** CONFIGCLIENT_MAX_TRIALS */
    const maxTrials: nat
    /** NodeInfo.Initial_time */
    var initialTime: u32
    /** NodeInfo.numberOfAttemptsTx */
    var attempts: nat

    ghost predicate Valid()
      reads this
    {
      WithinTrials(State(), maxTrials)
    }

    function State(): TimerState
      reads this
    {
      TimerState(initialTime, attempts)
    }

    /** NodeInfo starts zeroed. */
    constructor (responseTimeout: u32, maxTrials: nat)
      ensures Valid()
      ensures this.responseTimeout == responseTimeout && this.maxTrials == maxTrials
      ensures State() == TimerState(0, 0)
    {
      this.responseTimeout := responseTimeout;
      this.maxTrials := maxTrials;
      initialTime := 0;
      attempts := 0;
    }

    /** ConfigClient_SaveMsgSendingTime */
    method SaveMsgSendingTime(now: u32)
      requires Valid()
      modifies this
      ensures Valid()
      ensures State() == TimerState(now, old(attempts))
    {
      initialTime := now;
    }

    /** ConfigClient_ChkRetrialState */
    method ChkRetrialState(now: u32, later: u32, resp: ServerRespState) returns (signal: RetrySignal, respOut: ServerRespState)
      requires Valid()
      modifies this
      ensures Valid()
      ensures PollOutcome(State(), signal, respOut) == Poll(old(State()), now, later, resp, responseTimeout, maxTrials)
    {
      signal := InProgress;
      respOut := resp;
      if now - initialTime >= responseTimeout {
        attempts := attempts + 1;
        if attempts >= maxTrials {
          attempts := 0;
          signal := RetryEnds;
          respOut := NodeNoResponse;
        } else {
          signal := Timeout;
          respOut := NodeIdle;
        }
        SaveMsgSendingTime(later);
      }
    }

    /** ConfigClient_ResetTrials */
    method ResetTrials()
      requires Valid()
      modifies this
      ensures Valid()
      ensures State() == TimerState(old(initialTime), 0)
    {
      attempts := 0;
    }
  }
}
