/** The skill bars (`setupSkills`, `animateSkillBars`): the first time the
    skills section comes into view, every bar is scheduled to grow to its
    configured width, one after the other. */
module Skills {
  import opened Wrappers

  /** The delay between two consecutive bars, in milliseconds. */
  const StaggerMs: nat := 150

  /** A width change scheduled by `animateSkillBars`: the timer delay and the
      inline width it will write. */
  datatype BarUpdate = BarUpdate(delayMs: nat, width: string)

  /** The inline width of a bar: its `data-width` followed by "%", and "null%"
      when the attribute is missing. */
  function WidthValue(dataWidth: Option<string>): (w: string)
    ensures |w| > 0 && w[|w| - 1] == '%'
    ensures dataWidth.Some? ==> w[..|w| - 1] == dataWidth.value
    ensures dataWidth.None? ==> w == "null%"
  {
    (if dataWidth.Some? then dataWidth.value else "null") + "%"
  }

  /** `animateSkillBars` over the `data-width` attributes of the bars, in
      document order: one update per bar, the first at once and each next one a
      stagger later than the one before. */
  function AnimateSkillBars(bars: seq<Option<string>>): (r: seq<BarUpdate>)
    ensures |r| == |bars|
    ensures forall k | 0 <= k < |r| :: r[k].width == WidthValue(bars[k])
    ensures |r| > 0 ==> r[0].delayMs == 0
    ensures forall k | 0 < k < |r| :: r[k].delayMs == r[k - 1].delayMs + StaggerMs
  {
    seq(|bars|, k requires 0 <= k < |bars| => BarUpdate(k * StaggerMs, WidthValue(bars[k])))
  }

  /** The bars start one after another: bar j starts (j - i) staggers after bar i. */
  lemma StaggerIncreases(bars: seq<Option<string>>, i: nat, j: nat)
    requires i < j < |bars|
    ensures AnimateSkillBars(bars)[j].delayMs == AnimateSkillBars(bars)[i].delayMs + (j - i) * StaggerMs
  {
  }

  /** The observer's closure state: the `hasAnimated` flag, the number of times
      `animateSkillBars` has run, and the bar updates scheduled so far. */
  datatype Guard = Guard(hasAnimated: bool, runs: nat, scheduled: seq<BarUpdate>)

  /** The guard as `setupSkills` creates it. */
  const Fresh := Guard(false, 0, [])

  /** One observer batch, each entry reduced to its `isIntersecting`: the first
      intersecting entry while the flag is down runs `animateSkillBars` and
      raises the flag. At most one run per batch, and none once the flag is up. */
  function Observe(g: Guard, bars: seq<Option<string>>, entries: seq<bool>): (r: Guard)
    ensures r.hasAnimated <==> g.hasAnimated || true in entries
    ensures r.runs == g.runs + (if !g.hasAnimated && true in entries then 1 else 0)
    ensures r.scheduled == g.scheduled + (if !g.hasAnimated && true in entries then AnimateSkillBars(bars) else [])
    decreases |entries|
  {
    if |entries| == 0 then g
    else
      var next := if entries[0] && !g.hasAnimated then Guard(true, g.runs + 1, g.scheduled + AnimateSkillBars(bars)) else g;
      assert entries == [entries[0]] + entries[1..];
      Observe(next, bars, entries[1..])
  }

  /** Splitting the entries into two batches changes nothing. */
  lemma {:induction false} ObserveConcat(g: Guard, bars: seq<Option<string>>, a: seq<bool>, b: seq<bool>)
    ensures Observe(Observe(g, bars, a), bars, b) == Observe(g, bars, a + b)
  {
    var x := Observe(g, bars, a);
    assert true in a + b <==> true in a || true in b by {
      assert forall v :: v in a + b <==> v in a || v in b;
    }
    if g.hasAnimated || !(true in a + b) {
      assert g.scheduled + [] == g.scheduled;
      assert x == g;
    } else if true in a {
      assert x.hasAnimated;
    } else {
      assert g.scheduled + [] == g.scheduled;
      assert x == g;
    }
  }

  /** Once the bars have been animated, no later batch animates them again. */
  lemma AnimatedStaysAnimated(g: Guard, bars: seq<Option<string>>, entries: seq<bool>)
    requires g.hasAnimated
    ensures Observe(g, bars, entries) == g
  {
  }

  /** Whether some entry of some batch intersects. */
  predicate AnyIntersecting(batches: seq<seq<bool>>) {
    exists i | 0 <= i < |batches| :: true in batches[i]
  }

  /** The observer over the page's lifetime: its batches, one after another. */
  function ObserveBatches(g: Guard, bars: seq<Option<string>>, batches: seq<seq<bool>>): Guard
    decreases |batches|
  {
    if |batches| == 0 then g
    else ObserveBatches(Observe(g, bars, batches[0]), bars, batches[1..])
  }

  /** Over any sequence of batches, the bars are scheduled exactly once if the
      flag was down and some entry intersected, and not at all otherwise. */
  lemma {:induction false} SchedulesAtMostOnce(g: Guard, bars: seq<Option<string>>, batches: seq<seq<bool>>)
    ensures ObserveBatches(g, bars, batches).scheduled ==
      g.scheduled + (if !g.hasAnimated && AnyIntersecting(batches) then AnimateSkillBars(bars) else [])
    ensures ObserveBatches(g, bars, batches).runs ==
      g.runs + (if !g.hasAnimated && AnyIntersecting(batches) then 1 else 0)
    decreases |batches|
  {
    if |batches| == 0 {
      assert !AnyIntersecting(batches);
      assert g.scheduled + [] == g.scheduled;
    } else {
      var next := Observe(g, bars, batches[0]);
      var rest := batches[1..];
      SchedulesAtMostOnce(next, bars, rest);
      assert AnyIntersecting(batches) <==> true in batches[0] || AnyIntersecting(rest) by {
        if AnyIntersecting(rest) {
          var i :| 0 <= i < |rest| && true in rest[i];
          assert batches[i + 1] == rest[i];
        }
        if AnyIntersecting(batches) && !(true in batches[0]) {
          var i :| 0 <= i < |batches| && true in batches[i];
          assert rest[i - 1] == batches[i];
        }
      }
      if g.hasAnimated {
        assert next == g by { assert g.scheduled + [] == g.scheduled; }
      } else if true in batches[0] {
        assert next.hasAnimated;
        assert next.scheduled + [] == next.scheduled;
      } else {
        assert next == g by { assert g.scheduled + [] == g.scheduled; }
      }
    }
  }

  /** From the guard `setupSkills` creates, the page schedules the bars once as
      soon as the section has intersected, and never again. */
  lemma FreshGuardSchedulesOnce(bars: seq<Option<string>>, batches: seq<seq<bool>>)
    ensures ObserveBatches(Fresh, bars, batches).scheduled ==
      (if AnyIntersecting(batches) then AnimateSkillBars(bars) else [])
  {
    SchedulesAtMostOnce(Fresh, bars, batches);
  }
}
