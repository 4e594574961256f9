/** The gap policy behind every credited amount: a heartbeat is worth the
    seconds since the previous one only when that gap is positive and within
    the idle threshold. */
module TimePolicy {
  import opened Records

  /** Longest gap, in seconds, still counted as continuous activity. */
  const IdleThreshold: int := 120

  /** Seconds credited for a heartbeat at `current` after one at `previous`.
      An unparseable timestamp compares as false and so credits nothing. */
  function CreditedSeconds(current: Stamp, previous: Stamp): (d: nat)
    ensures d <= IdleThreshold
    ensures d > 0 <==> current.seconds.Some? && previous.seconds.Some?
                       && 0 < current.seconds.value - previous.seconds.value <= IdleThreshold
    ensures d > 0 ==> d == current.seconds.value - previous.seconds.value
  {
    match (current.seconds, previous.seconds)
    case (Some(c), Some(p)) => if 0 < c - p <= IdleThreshold then c - p else 0
    case _ => 0
  }

  /** Total credited along a chain of heartbeats, each against its predecessor. */
  function ChainCredit(ts: seq<Stamp>): nat {
    if |ts| < 2 then 0
    else ChainCredit(ts[..|ts| - 1]) + CreditedSeconds(ts[|ts| - 1], ts[|ts| - 2])
  }

  ghost predicate ParsedAscending(ts: seq<Stamp>) {
    && (forall i :: 0 <= i < |ts| ==> ts[i].seconds.Some?)
    && (forall i :: 0 < i < |ts| ==> ts[i - 1].seconds.value <= ts[i].seconds.value)
  }

  /** Along a parsed, time-ordered chain, credited time never exceeds the wall
      clock between its first and last heartbeat. */
  lemma {:induction false} ChainCreditWithinSpan(ts: seq<Stamp>)
    requires |ts| > 0 && ParsedAscending(ts)
    ensures ChainCredit(ts) <= ts[|ts| - 1].seconds.value - ts[0].seconds.value
  {
    if |ts| >= 2 {
      var init := ts[..|ts| - 1];
      assert ParsedAscending(init);
      ChainCreditWithinSpan(init);
    }
  }
}
