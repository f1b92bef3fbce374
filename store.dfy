/** The occupancy store: the single `count` row of the occupancy table, and the
    alert e-mails sent when a committed count reaches the limit. */
module Store {

  /** The occupancy limit at or above which an alert is sent. */
  const MaxOccupancy: int := 500

  predicate AtCapacity(count: int)
  {
    count >= MaxOccupancy
  }

  /** The number of alerts that a series of committed counts raises: one for
      each count at or above the limit, with no cooldown between them. */
  function AlertsFor(counts: seq<int>): (r: nat)
    ensures r <= |counts|
    ensures (forall i :: 0 <= i < |counts| ==> AtCapacity(counts[i])) ==> r == |counts|
    ensures (forall i :: 0 <= i < |counts| ==> !AtCapacity(counts[i])) ==> r == 0
    decreases |counts|
  {
    if counts == [] then 0
    else
      var last := counts[|counts| - 1];
      AlertsFor(counts[..|counts| - 1]) + (if AtCapacity(last) then 1 else 0)
  }

  /** Alerts add up over consecutive series of updates. */
  lemma {:induction false} AlertsForAppend(a: seq<int>, b: seq<int>)
    ensures AlertsFor(a + b) == AlertsFor(a) + AlertsFor(b)
    decreases |b|
  {
    if b == [] {
      assert a + b == a;
    } else {
      var b' := b[..|b| - 1];
      AlertsForAppend(a, b');
      assert (a + b)[..|a + b| - 1] == a + b';
      assert (a + b)[|a + b| - 1] == b[|b| - 1];
    }
  }

  class OccupancyStore {
    /** The `count` column of row 1 of the occupancy table. */
    var count: int
    /** How many times the alert e-mail has been sent. */
    var alertsSent: nat
    /** Every count committed so far, oldest first. */
    ghost var history: seq<int>

    ghost predicate Valid()
      reads this
    {
      && alertsSent == AlertsFor(history)
      && count == (if history == [] then 0 else history[|history| - 1])
    }

    /** A freshly initialised database: one row holding 0, no alert sent. */
    constructor ()
      ensures Valid() && history == []
      ensures count == 0 && alertsSent == 0
    {
      count, alertsSent := 0, 0;
      history := [];
    }

    /** Overwrite the stored count with `c`, then send one alert when `c` is
        at or above the limit. */
    method UpdateOccupancy(c: int)
      requires Valid()
      modifies this
      ensures Valid() && history == old(history) + [c]
      ensures count == c
      ensures alertsSent == old(alertsSent) + (if AtCapacity(c) then 1 else 0)
    {
      count := c;
      history := history + [c];
      assert history[..|history| - 1] == old(history);
      if AtCapacity(c) {
        alertsSent := alertsSent + 1;
      }
    }

    /** The count last committed, or 0 when nothing has been committed. */
    method GetOccupancy() returns (c: int)
      requires Valid()
      ensures c == count
      ensures c == if history == [] then 0 else history[|history| - 1]
    {
      c := count;
    }
  }
}
