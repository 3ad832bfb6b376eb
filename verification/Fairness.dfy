/** Bounded overtaking: the queue serves the targets in order, so a queued target
    waits for each other target at most once. */
module Fairness {
  import opened Session
  import opened Scheduler
  import opened Tokens
  import opened Stopping

  predicate IsTake(e: Event) { e.OfWorker? && e.we.Take? }

  predicate IsPut(c: Settings, s: State, e: Event) { e.OfTimer? && e.te.Send? && |s.queue| < Capacity(c) }

  /** The targets that were taken from the queue, in order. */
  function Taken(trace: seq<State>, events: seq<Event>): seq<nat>
    requires |events| <= |trace|
  {
    if events == [] then []
    else
      var n := |events| - 1;
      Taken(trace[..n], events[..n])
      + if IsTake(events[n]) && trace[n].queue != [] then [trace[n].queue[0]] else []
  }

  /** The targets that were put into the queue, in order. */
  function Put(c: Settings, trace: seq<State>, events: seq<Event>): seq<nat>
    requires |events| <= |trace|
  {
    if events == [] then []
    else
      var n := |events| - 1;
      Put(c, trace[..n], events[..n]) + if IsPut(c, trace[n], events[n]) then [events[n].i] else []
  }

  lemma QueueStep(c: Settings, s: State, e: Event, s': State)
    requires Steps(c, s, e, s')
    ensures if IsTake(e) then s.queue != [] && s'.queue == s.queue[1..]
            else if IsPut(c, s, e) then s'.queue == s.queue + [e.i]
            else s'.queue == s.queue
  {
    hide Classify, Filed, CanReturn, LeavesOpen, Min, Keeps;
  }

  /** First in, first out: what was in the queue followed by what was put there is
      what was taken followed by what is still there. */
  lemma {:induction false} FirstInFirstOut(c: Settings, trace: seq<State>, events: seq<Event>)
    requires Run(c, trace, events)
    ensures trace[0].queue + Put(c, trace, events) == Taken(trace, events) + trace[|events|].queue
  {
    hide Steps, Capacity;
    if events == [] {
      assert trace[0].queue + [] == [] + trace[0].queue;
    } else {
      var n := |events| - 1;
      RunPrefix(c, trace, events, n);
      FirstInFirstOut(c, trace[..n + 1], events[..n]);
      SameTaken(c, trace[..n + 1], trace[..n], events[..n]);
      QueueStep(c, trace[n], events[n], trace[n + 1]);
      var taken, put := Taken(trace[..n], events[..n]), Put(c, trace[..n], events[..n]);
      if IsTake(events[n]) {
        TakeIsNoPut(c, trace[n], events[n]);
        assert Put(c, trace, events) == put + [];
        MoveFront(taken, trace[n].queue);
      } else if IsPut(c, trace[n], events[n]) {
        assert Taken(trace, events) == taken + [];
        MoveBack(trace[0].queue, put, taken, trace[n].queue, events[n].i);
      } else {
        assert Taken(trace, events) == taken + [] == taken;
        assert Put(c, trace, events) == put + [] == put;
      }
    }
  }

  lemma MoveFront(taken: seq<nat>, queue: seq<nat>)
    requires queue != []
    ensures (taken + [queue[0]]) + queue[1..] == taken + queue
  {}

  lemma MoveBack(before: seq<nat>, put: seq<nat>, taken: seq<nat>, queue: seq<nat>, t: nat)
    requires before + put == taken + queue
    ensures before + (put + [t]) == taken + (queue + [t])
  {
    assert before + (put + [t]) == (before + put) + [t];
    assert taken + (queue + [t]) == (taken + queue) + [t];
  }

  lemma TakeIsNoPut(c: Settings, s: State, e: Event)
    requires IsTake(e)
    ensures !IsPut(c, s, e)
  {}

  /** Only the states in which an event happens matter. */
  lemma {:induction false} SameTaken(c: Settings, trace: seq<State>, shorter: seq<State>, events: seq<Event>)
    requires |events| == |shorter| && shorter <= trace
    ensures Taken(trace, events) == Taken(shorter, events)
    ensures Put(c, trace, events) == Put(c, shorter, events)
  {
    if events != [] {
      var n := |events| - 1;
      assert trace[..n] == shorter[..n];
    }
  }

  lemma QueueDistinct(c: Settings, s: State)
    requires TokensBalance(c, s)
    ensures |s.queue| <= c.targets
    ensures forall i, j :: 0 <= i < j < |s.queue| ==> s.queue[i] != s.queue[j]
  {
    forall t: nat | t < c.targets ensures multiset(s.queue)[t] <= 1 {
      assert TokenCount(s, t) <= 1;
    }
    DistinctBound(s.queue, c.targets);
  }

  lemma FrontOfQueue(before: seq<nat>, put: seq<nat>, taken: seq<nat>, after: seq<nat>, p: nat)
    requires before + put == taken + after && p < |before|
    ensures forall k :: 0 <= k < |taken| && k <= p ==> taken[k] == before[k]
    ensures |taken| <= p ==> p - |taken| < |after| && after[p - |taken|] == before[p]
  {
    forall k | 0 <= k < |taken| && k <= p ensures taken[k] == before[k] {
      assert (before + put)[k] == (taken + after)[k];
    }
    if |taken| <= p {
      assert (before + put)[p] == (taken + after)[p];
    }
  }

  lemma RunSuffix(c: Settings, trace: seq<State>, events: seq<Event>, j: nat)
    requires Run(c, trace, events) && j <= |events|
    ensures Run(c, trace[j..], events[j..])
  {
    hide Steps;
  }

  /** A target in slot `p` of the queue moves up with every take: the next `p`
      takes serve `p` different other targets, the one after that serves this
      target, and until then it stays queued. As `p` is less than the number of
      targets, at most that number less one are served before it. */
  lemma BoundedOvertaking(c: Settings, trace: seq<State>, events: seq<Event>, j: nat, p: nat)
    requires Run(c, trace, events) && trace[0] == Start(c) && j <= |events| && p < |trace[j].queue|
    ensures p < c.targets
    ensures var t, taken := trace[j].queue[p], Taken(trace[j..], events[j..]);
            && (forall k :: 0 <= k < |taken| && k < p ==> taken[k] != t)
            && (forall i, k :: 0 <= i < k < |taken| && k < p ==> taken[i] != taken[k])
            && (|taken| > p ==> taken[p] == t)
            && (|taken| <= p ==> p - |taken| < |trace[|events|].queue| && trace[|events|].queue[p - |taken|] == t)
  {
    hide Steps, Start, TokensBalance, NeverFull;
    TokensAlways(c, trace, events, j);
    QueueDistinct(c, trace[j]);
    RunSuffix(c, trace, events, j);
    FirstInFirstOut(c, trace[j..], events[j..]);
    FrontOfQueue(trace[j].queue, Put(c, trace[j..], events[j..]), Taken(trace[j..], events[j..]),
        trace[|events|].queue, p);
  }
}
