/** The sustained-shift detector: when a request for re-analysis fires, over any run of windows. */
module ShiftDetector {
  import opened Catalog
  import opened WorkloadDistance

  const THRESHOLD: real := 0.20
  const SLACK: real := 0.000000000001
  const CONSECUTIVE_REQUIRED: nat := 3

  /** One window: whether its distance reaches the threshold, and whether the scheduler would take
      a request (a refusal raises out of the call). */
  datatype Window = Window(shifted: bool, schedulable: bool)

  datatype Counters = Counters(consecutive: nat, open: bool, requests: nat)

  function Next(s: Counters, w: Window): Counters {
    if !w.shifted then s.(consecutive := 0, open := false)
    else
      var n := s.consecutive + 1;
      if n >= CONSECUTIVE_REQUIRED && !s.open && w.schedulable then Counters(n, true, s.requests + 1)
      else s.(consecutive := n)
  }

  function After(ws: seq<Window>): Counters {
    if ws == [] then Counters(0, false, 0) else Next(After(ws[..|ws| - 1]), ws[|ws| - 1])
  }

  /** A request is accepted in window `i`. */
  predicate Fires(ws: seq<Window>, i: nat)
    requires i < |ws|
  {
    After(ws[..i + 1]).requests > After(ws[..i]).requests
  }

  /** The length of the shifted run that ends the windows. */
  function Streak(ws: seq<Window>): (n: nat)
    ensures n <= |ws|
  {
    if ws == [] || !ws[|ws| - 1].shifted then 0 else Streak(ws[..|ws| - 1]) + 1
  }

  /** A run is maximal: its windows are shifted and the window before it is not. */
  lemma {:induction false} StreakIsMaximal(ws: seq<Window>)
    ensures var start := |ws| - Streak(ws);
            && (forall j :: start <= j < |ws| ==> ws[j].shifted)
            && (start > 0 ==> !ws[start - 1].shifted)
  {
    if ws != [] {
      StreakIsMaximal(ws[..|ws| - 1]);
    }
  }

  /** From the third window of the run on, some window of it could be scheduled. */
  ghost predicate Served(ws: seq<Window>) {
    exists j :: |ws| - Streak(ws) + 2 <= j < |ws| && ws[j].schedulable
  }

  lemma {:induction false} StateIs(ws: seq<Window>)
    ensures After(ws).consecutive == Streak(ws)
    ensures After(ws).open <==> Served(ws)
  {
    if ws != [] {
      var init, last := ws[..|ws| - 1], ws[|ws| - 1];
      StateIs(init);
      if last.shifted {
        assert |ws| - Streak(ws) == |init| - Streak(init);
        if j :| |init| - Streak(init) + 2 <= j < |init| && init[j].schedulable {
          assert ws[j].schedulable;
        }
        if j :| |ws| - Streak(ws) + 2 <= j < |ws| && ws[j].schedulable {
          if j < |init| {
            assert init[j].schedulable;
          }
        }
      }
    }
  }

  /** A request fires exactly in the first window from the third of its shifted run on in which the
      scheduler takes it. */
  lemma FiresIff(ws: seq<Window>, i: nat)
    requires i < |ws|
    ensures var start := i + 1 - Streak(ws[..i + 1]);
            Fires(ws, i) <==>
            start + 2 <= i && ws[i].schedulable && forall j :: start + 2 <= j < i ==> !ws[j].schedulable
  {
    assert ws[..i + 1][..i] == ws[..i];
    StateIs(ws[..i]);
    var start := i + 1 - Streak(ws[..i + 1]);
    if ws[i].shifted {
      assert start == i - Streak(ws[..i]);
      if j :| start + 2 <= j < i && ws[j].schedulable {
        assert ws[..i][j].schedulable;
      }
      if Served(ws[..i]) {
        var j :| start + 2 <= j < i && ws[..i][j].schedulable;
        assert ws[j].schedulable;
      }
    }
  }

  /** With a scheduler that always accepts: exactly at the third window of each maximal run. */
  lemma FiresAtThird(ws: seq<Window>, i: nat)
    requires i < |ws| && forall j :: 0 <= j < |ws| ==> ws[j].schedulable
    ensures Fires(ws, i) <==> Streak(ws[..i + 1]) == 3
  {
    FiresIff(ws, i);
  }

  /** Two requests are never in the same shifted run. */
  lemma OncePerRun(ws: seq<Window>, i: nat, k: nat)
    requires i < k < |ws| && Fires(ws, i) && Fires(ws, k)
    ensures exists j :: i < j < k && !ws[j].shifted
  {
    FiresIff(ws, i);
    FiresIff(ws, k);
    StreakIsMaximal(ws[..i + 1]);
    StreakIsMaximal(ws[..k + 1]);
    var first, second := i + 1 - Streak(ws[..i + 1]), k + 1 - Streak(ws[..k + 1]);
    if second > i + 1 {
      assert !ws[..k + 1][second - 1].shifted;
      assert !ws[second - 1].shifted;
    }
  }

  lemma {:induction false} Budget(ws: seq<Window>)
    ensures var s := After(ws); 4 * s.requests <= if s.open then |ws| + 1 else |ws| - s.consecutive
  {
    if ws != [] {
      Budget(ws[..|ws| - 1]);
    }
  }

  /** Over any `n` windows at most ⌊(n + 1) / 4⌋ requests fire, and some windows reach that number. */
  lemma {:induction false} AtMostOneInFour(ws: seq<Window>)
    ensures After(ws).requests <= (|ws| + 1) / 4
    ensures After(Steady(|ws|)).requests == (|ws| + 1) / 4
  {
    Budget(ws);
    SteadyReaches(|ws|);
  }

  /** Three shifted windows, then one that is not, again and again. */
  function Steady(n: nat): (ws: seq<Window>)
    ensures |ws| == n
  {
    seq(n, i => Window(i % 4 != 3, true))
  }

  lemma {:induction false} SteadyReaches(n: nat)
    ensures After(Steady(n)) == Counters(n % 4, n % 4 == 3, (n + 1) / 4)
  {
    if n > 0 {
      SteadyReaches(n - 1);
      assert Steady(n)[..n - 1] == Steady(n - 1);
    }
  }

  // ------------------------------------------------------------ the detector

  datatype Decision = Decision(distance: real, consecutive: nat, detected: bool, requested: bool)

  predicate Shifted(distance: real) {
    distance + SLACK >= THRESHOLD
  }

  /** A window is shifted from a distance of one fifth on, up to a slack of 10⁻¹². */
  lemma ShiftedIff(distance: real)
    ensures Shifted(distance) <==> distance >= 0.2 - 0.000000000001
  {
  }

  class WorkloadShiftDetector {
    var consecutive: nat
    var episodeOpen: bool
    var requests: nat

    constructor ()
      ensures Now() == After([])
    {
      consecutive, episodeOpen, requests := 0, false, 0;
    }

    function Now(): Counters
      reads this
    {
      Counters(consecutive, episodeOpen, requests)
    }

    /** One monitoring window.  `None` stands for a raised error: malformed shares change nothing,
        a refused request leaves the episode closed so that the next window asks again. */
    method Observe(baseline: seq<Share>, observed: seq<Share>, schedulable: bool) returns (r: Option<Decision>)
      modifies this
      ensures var valid := WellFormed(baseline) && Accepted(AsDistribution(baseline))
                           && WellFormed(observed) && Accepted(AsDistribution(observed));
              var distance := Distance(AsDistribution(baseline), AsDistribution(observed));
              var next := Next(old(Now()), Window(Shifted(distance), schedulable));
              && Now() == (if valid then next else old(Now()))
              && (r.Some? ==>
                    valid && r.value == Decision(distance, next.consecutive, next.consecutive >= 3,
                                                 next.requests > old(requests)))
              && (valid && r.None? ==> next.consecutive >= 3 && !next.open && !schedulable)
    {
      var distance := TotalVariationDistance(baseline, observed);
      if distance.None? {
        return None;
      }
      if distance.value + SLACK >= THRESHOLD {
        consecutive := consecutive + 1;
      } else {
        consecutive, episodeOpen := 0, false;
      }
      var detected := consecutive >= CONSECUTIVE_REQUIRED;
      var requested := detected && !episodeOpen;
      if requested {
        if !schedulable {
          return None;
        }
        requests := requests + 1;
        episodeOpen := true;
      }
      return Some(Decision(distance.value, consecutive, detected, requested));
    }
  }
}
