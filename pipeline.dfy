/** The frame loop: each successful camera read pushes the frame's face
    encodings into the window, re-estimates the occupancy from the whole window
    and commits it to the store; the first failed read ends the loop. */
module Pipeline {
  import opened Window
  import opened Clustering
  import opened Store

  /** One camera read: a failure, or the face encodings found in the frame. */
  datatype Frame<E> = ReadFailed | Captured(encodings: seq<E>)

  /** What the loop changes: the encodings window, the occupancy global, the
      stored count, the number of alerts sent, and whether the loop still runs. */
  datatype LoopState<E> = LoopState(window: seq<E>, occupancy: int, stored: int, alerts: nat, running: bool)

  /** Process start: empty window, occupancy 0, a fresh row holding 0. */
  function Initial<E>(): LoopState<E>
  {
    LoopState([], 0, 0, 0, true)
  }

  /** The occupancy global and the stored count are both the estimate for the
      current window. */
  ghost predicate Consistent<E(!new)>(s: LoopState<E>, kmeans: KMeans<E>)
  {
    |s.window| <= Capacity && s.stored == s.occupancy == ClusterFaces(s.window, kmeans)
  }

  /** One iteration of the loop. A loop that has stopped stays stopped. */
  function Advance<E(!new)>(s: LoopState<E>, frame: Frame<E>, kmeans: KMeans<E>): (r: LoopState<E>)
    requires |s.window| <= Capacity
    ensures |r.window| <= Capacity
    ensures r.running ==> s.running && frame.Captured?
    ensures s.running && frame.Captured? ==> r.running
    ensures r.running ==> r.stored == r.occupancy == ClusterFaces(r.window, kmeans)
    ensures !r.running ==> r == s.(running := false)
  {
    if !s.running then s
    else
      match frame
      case ReadFailed => s.(running := false)
      case Captured(encodings) =>
        var w := PushAll(s.window, encodings);
        var occupancy := ClusterFaces(w, kmeans);
        LoopState(w, occupancy, occupancy, s.alerts + (if AtCapacity(occupancy) then 1 else 0), true)
  }

  /** The loop run over a series of camera reads. */
  function AdvanceAll<E(!new)>(s: LoopState<E>, frames: seq<Frame<E>>, kmeans: KMeans<E>): (r: LoopState<E>)
    requires |s.window| <= Capacity
    ensures |r.window| <= Capacity
    decreases |frames|
  {
    if frames == [] then s else AdvanceAll(Advance(s, frames[0], kmeans), frames[1..], kmeans)
  }

  /** The encodings of the frames read before the first failed read. */
  function Consumed<E>(frames: seq<Frame<E>>): seq<E>
  {
    if frames == [] then []
    else
      match frames[0]
      case ReadFailed => []
      case Captured(encodings) => encodings + Consumed(frames[1..])
  }

  /** Process start is consistent: an empty window has estimate 0. */
  lemma InitialConsistent<E(!new)>(kmeans: KMeans<E>)
    ensures Consistent(Initial<E>(), kmeans)
  {
  }

  /** After a run the loop still runs exactly when it ran before and every read
      succeeded. */
  lemma {:induction false} AdvanceAllRunning<E(!new)>(s: LoopState<E>, frames: seq<Frame<E>>, kmeans: KMeans<E>)
    requires |s.window| <= Capacity
    ensures AdvanceAll(s, frames, kmeans).running <==>
              s.running && forall i :: 0 <= i < |frames| ==> frames[i].Captured?
    decreases |frames|
  {
    if frames != [] {
      AdvanceAllRunning(Advance(s, frames[0], kmeans), frames[1..], kmeans);
      assert forall i :: 1 <= i < |frames| ==> frames[i] == frames[1..][i - 1];
    }
  }

  /** A stopped loop ignores every later read. */
  lemma {:induction false} AdvanceAllStopped<E(!new)>(s: LoopState<E>, frames: seq<Frame<E>>, kmeans: KMeans<E>)
    requires |s.window| <= Capacity && !s.running
    ensures AdvanceAll(s, frames, kmeans) == s
    decreases |frames|
  {
    if frames != [] {
      AdvanceAllStopped(s, frames[1..], kmeans);
    }
  }

  /** Running over `a + b` is running over `a`, then over `b`. */
  lemma {:induction false} AdvanceAllAppend<E(!new)>(s: LoopState<E>, a: seq<Frame<E>>, b: seq<Frame<E>>, kmeans: KMeans<E>)
    requires |s.window| <= Capacity
    ensures AdvanceAll(s, a + b, kmeans) == AdvanceAll(AdvanceAll(s, a, kmeans), b, kmeans)
    decreases |a|
  {
    if a == [] {
      assert a + b == b;
    } else {
      assert (a + b)[0] == a[0];
      assert (a + b)[1..] == a[1..] + b;
      AdvanceAllAppend(Advance(s, a[0], kmeans), a[1..], b, kmeans);
    }
  }

  /** A failed read ends the loop: no push, no update, no alert, then or later. */
  lemma FailedReadStops<E(!new)>(s: LoopState<E>, frames: seq<Frame<E>>, kmeans: KMeans<E>)
    requires |s.window| <= Capacity && s.running
    ensures AdvanceAll(s, [ReadFailed] + frames, kmeans) == s.(running := false)
  {
    assert ([ReadFailed] + frames)[1..] == frames;
    AdvanceAllStopped(s.(running := false), frames, kmeans);
  }

  /** The window after a run holds exactly the last min(N, Capacity) of the
      encodings appended before the first failed read, in append order. */
  lemma {:induction false} AdvanceAllWindow<E(!new)>(s: LoopState<E>, frames: seq<Frame<E>>, kmeans: KMeans<E>)
    requires |s.window| <= Capacity && s.running
    ensures AdvanceAll(s, frames, kmeans).window == PushAll(s.window, Consumed(frames))
    decreases |frames|
  {
    if frames != [] {
      match frames[0]
      case ReadFailed =>
        AdvanceAllStopped(s.(running := false), frames[1..], kmeans);
      case Captured(encodings) =>
        var next := Advance(s, frames[0], kmeans);
        AdvanceAllWindow(next, frames[1..], kmeans);
        PushAllAppend(s.window, encodings, Consumed(frames[1..]));
    }
  }

  /** From process start, the window is the last min(N, Capacity) encodings read. */
  lemma WindowFromStart<E(!new)>(frames: seq<Frame<E>>, kmeans: KMeans<E>)
    ensures var w := AdvanceAll(Initial(), frames, kmeans).window;
            var all := Consumed(frames);
            |w| == Min(|all|, Capacity) && w == all[|all| - |w|..]
  {
    AdvanceAllWindow(Initial(), frames, kmeans);
    assert [] + Consumed(frames) == Consumed(frames);
  }

  /** The occupancy is always the estimate for the current window, never a
      running total: every run keeps the state consistent. */
  lemma {:induction false} AdvanceAllConsistent<E(!new)>(s: LoopState<E>, frames: seq<Frame<E>>, kmeans: KMeans<E>)
    requires Consistent(s, kmeans)
    ensures Consistent(AdvanceAll(s, frames, kmeans), kmeans)
    decreases |frames|
  {
    if frames != [] {
      AdvanceAllConsistent(Advance(s, frames[0], kmeans), frames[1..], kmeans);
    }
  }

  /** Two loops that differ at most in their alert counts stay that way. */
  lemma {:induction false} AdvanceAllIgnoresAlerts<E(!new)>(s: LoopState<E>, t: LoopState<E>, frames: seq<Frame<E>>, kmeans: KMeans<E>)
    requires |s.window| <= Capacity && s.(alerts := 0) == t.(alerts := 0)
    ensures AdvanceAll(s, frames, kmeans).(alerts := 0) == AdvanceAll(t, frames, kmeans).(alerts := 0)
    decreases |frames|
  {
    if frames != [] {
      AdvanceAllIgnoresAlerts(Advance(s, frames[0], kmeans), Advance(t, frames[0], kmeans), frames[1..], kmeans);
    }
  }

  /** Once a frame has been read, the occupancy no longer depends on the
      occupancy or stored count before it: it is recomputed, not incremented. */
  lemma OccupancyRecomputed<E(!new)>(s: LoopState<E>, t: LoopState<E>, encodings: seq<E>, frames: seq<Frame<E>>, kmeans: KMeans<E>)
    requires |s.window| <= Capacity && s.running && t.running && s.window == t.window
    ensures var rs := AdvanceAll(s, [Captured(encodings)] + frames, kmeans);
            var rt := AdvanceAll(t, [Captured(encodings)] + frames, kmeans);
            rs.occupancy == rt.occupancy && rs.stored == rt.stored && rs.window == rt.window
  {
    assert ([Captured(encodings)] + frames)[1..] == frames;
    AdvanceAllIgnoresAlerts(Advance(s, Captured(encodings), kmeans), Advance(t, Captured(encodings), kmeans), frames, kmeans);
  }

  /** A frame without faces leaves the window as it was, yet the occupancy is
      still recomputed from it and committed. */
  lemma EmptyFrameRecomputes<E(!new)>(s: LoopState<E>, kmeans: KMeans<E>)
    requires |s.window| <= Capacity && s.running
    ensures var r := Advance(s, Captured([]), kmeans);
            r.running && r.window == s.window && r.stored == r.occupancy == ClusterFaces(s.window, kmeans)
  {
  }

  /** The estimate never exceeds KMax (5), which is below MaxOccupancy (500),
      so the loop never sends an alert. */
  lemma {:induction false} LoopNeverAlerts<E(!new)>(s: LoopState<E>, frames: seq<Frame<E>>, kmeans: KMeans<E>)
    requires |s.window| <= Capacity
    ensures AdvanceAll(s, frames, kmeans).alerts == s.alerts
    decreases |frames|
  {
    if frames != [] {
      LoopNeverAlerts(Advance(s, frames[0], kmeans), frames[1..], kmeans);
    }
  }

  /** No read fails among the three frames [a, b], [c], [d, e]. */
  lemma ThreeFramesKeepRunning<E(!new)>(a: E, b: E, c: E, d: E, e: E, kmeans: KMeans<E>)
    ensures AdvanceAll(Initial(), [Captured([a, b]), Captured([c]), Captured([d, e])], kmeans).running
  {
    var rest2 := [Captured([d, e])];
    var rest1 := [Captured([c])] + rest2;
    var frames := [Captured([a, b])] + rest1;
    assert frames[1..] == rest1 && rest1[1..] == rest2 && rest2[1..] == [];
    var s1 := Advance(Initial(), frames[0], kmeans);
    var s2 := Advance(s1, rest1[0], kmeans);
    var s3 := Advance(s2, rest2[0], kmeans);
    assert AdvanceAll(s2, rest2, kmeans) == AdvanceAll(s3, [], kmeans) == s3;
    assert AdvanceAll(s1, rest1, kmeans) == AdvanceAll(s2, rest2, kmeans);
  }

  /** The three frames [a, b], [c], [d, e] fill the window with [a, b, c, d, e]. */
  lemma ThreeFramesWindow<E(!new)>(a: E, b: E, c: E, d: E, e: E, kmeans: KMeans<E>)
    ensures AdvanceAll(Initial(), [Captured([a, b]), Captured([c]), Captured([d, e])], kmeans).window == [a, b, c, d, e]
  {
    var rest2 := [Captured([d, e])];
    var rest1 := [Captured([c])] + rest2;
    var frames := [Captured([a, b])] + rest1;
    assert frames[1..] == rest1 && rest1[1..] == rest2 && rest2[1..] == [];
    assert Consumed(rest2) == [d, e] + Consumed([]);
    assert Consumed(rest1) == [c] + Consumed(rest2);
    assert Consumed(frames) == [a, b] + Consumed(rest1);
    assert Consumed(frames) == [a, b, c, d, e];
    AdvanceAllWindow(Initial(), frames, kmeans);
  }

  /** Three frames with five encodings in all, which KMeans splits into a
      group of three and a group of two, give an occupancy of 2 and no alert. */
  lemma TwoPeopleInFiveEncodings<E(!new)>(a: E, b: E, c: E, d: E, e: E, kmeans: KMeans<E>)
    requires kmeans([a, b, c, d, e], 5) == [0, 0, 0, 1, 1]
    ensures var r := AdvanceAll(Initial(), [Captured([a, b]), Captured([c]), Captured([d, e])], kmeans);
            r.occupancy == 2 && r.stored == 2 && r.alerts == 0 && r.running
  {
    var frames := [Captured([a, b]), Captured([c]), Captured([d, e])];
    ThreeFramesKeepRunning(a, b, c, d, e, kmeans);
    ThreeFramesWindow(a, b, c, d, e, kmeans);
    AdvanceAllConsistent(Initial(), frames, kmeans);
    LoopNeverAlerts(Initial(), frames, kmeans);
    assert UsedLabels([0, 0, 0, 1, 1]) == {0, 1};
  }

  /** The module-level state of the monitor: the encodings window, the
      occupancy global and the occupancy store. */
  class Monitor<E(!new)> {
    const window: EmbeddingWindow<E>
    const store: OccupancyStore
    var currentOccupancy: int

    ghost predicate Valid()
      reads this, window, store
    {
      window.Valid() && store.Valid()
    }

    /** The state a loop sees; `running` is local to one loop. */
    ghost function State(running: bool): LoopState<E>
      reads this, window, store
    {
      LoopState(window.items, currentOccupancy, store.count, store.alertsSent, running)
    }

    constructor ()
      ensures Valid() && fresh(window) && fresh(store)
      ensures State(true) == Initial()
    {
      window := new EmbeddingWindow();
      store := new OccupancyStore();
      currentOccupancy := 0;
    }

    /** The body of the loop after a successful read. */
    method ProcessFrame(encodings: seq<E>, kmeans: KMeans<E>)
      requires Valid()
      modifies this, window, store
      ensures Valid()
      ensures State(true) == Advance(old(State(true)), Captured(encodings), kmeans)
    {
      window.AppendAll(encodings);
      currentOccupancy := ClusterFaces(window.items, kmeans);
      store.UpdateOccupancy(currentOccupancy);
    }

    /** One iteration of the loop: a failed read stops it, any other read is
        processed. `stopped` tells which happened. */
    method Step(frame: Frame<E>, kmeans: KMeans<E>) returns (stopped: bool)
      requires Valid()
      modifies this, window, store
      ensures Valid()
      ensures stopped <==> frame.ReadFailed?
      ensures State(!stopped) == Advance(old(State(true)), frame, kmeans)
    {
      match frame {
        case ReadFailed =>
          stopped := true;
        case Captured(encodings) =>
          ProcessFrame(encodings, kmeans);
          stopped := false;
      }
    }

    /** The loop over a series of camera reads, up to the first failed read;
        `stopped` tells whether some read failed. */
    method GenerateFrames(frames: seq<Frame<E>>, kmeans: KMeans<E>) returns (stopped: bool)
      requires Valid()
      modifies this, window, store
      ensures Valid()
      ensures State(!stopped) == AdvanceAll(old(State(true)), frames, kmeans)
      ensures stopped <==> exists i :: 0 <= i < |frames| && frames[i].ReadFailed?
    {
      ghost var start := State(true);
      stopped := false;
      var i := 0;
      while i < |frames| && !stopped
        invariant 0 <= i <= |frames|
        invariant Valid()
        invariant AdvanceAll(start, frames, kmeans) == AdvanceAll(State(!stopped), frames[i..], kmeans)
      {
        assert frames[i..][1..] == frames[i + 1..];
        stopped := Step(frames[i], kmeans);
        i := i + 1;
      }
      if stopped {
        AdvanceAllStopped(State(false), frames[i..], kmeans);
      }
      AdvanceAllRunning(start, frames, kmeans);
    }
  }
}
