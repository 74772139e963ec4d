/** The visitor and page-view counters (`setupVisitorTracking`): page views
    count every run, visitors count once per browser session. */
module Visitors {
  import opened Wrappers

  /** The stored counters: "visitorCount" in local storage, "pageViews" and the
      "visited" flag in session storage. Absent keys are None / false. */
  datatype Storage = Storage(visitorCount: Option<nat>, pageViews: Option<nat>, visited: bool)

  /** A counter as the script reads it: `getItem(key) || 0`. */
  function Count(o: Option<nat>): nat {
    o.GetOr(0)
  }

  /** One run of `setupVisitorTracking`. */
  function Track(s: Storage): (r: Storage)
    ensures Count(r.pageViews) == Count(s.pageViews) + 1
    ensures Count(r.visitorCount) == Count(s.visitorCount) + (if s.visited then 0 else 1)
    ensures s.visited ==> r.visitorCount == s.visitorCount
    ensures r.visited
  {
    var visitors := if s.visited then s.visitorCount else Some(Count(s.visitorCount) + 1);
    Storage(visitors, Some(Count(s.pageViews) + 1), true)
  }

  /** `n` runs in one session. */
  function TrackTimes(s: Storage, n: nat): Storage {
    if n == 0 then s else Track(TrackTimes(s, n - 1))
  }

  /** A session adds one page view per run but at most one visitor: exactly one
      if the session had not been counted yet and the tracker ran at all. */
  lemma {:induction false} OneVisitorPerSession(s: Storage, n: nat)
    ensures Count(TrackTimes(s, n).pageViews) == Count(s.pageViews) + n
    ensures Count(TrackTimes(s, n).visitorCount) == Count(s.visitorCount) + (if !s.visited && n > 0 then 1 else 0)
    ensures n > 0 ==> TrackTimes(s, n).visited
  {
    if n > 0 {
      OneVisitorPerSession(s, n - 1);
    }
  }

  /** A new browser session: session storage starts empty, local storage stays. */
  function NewSession(s: Storage): (r: Storage)
    ensures r.visitorCount == s.visitorCount && r.pageViews.None? && !r.visited
  {
    Storage(s.visitorCount, None, false)
  }

  /** The first load of a session counts one new visitor. */
  lemma NewSessionCountsVisitor(s: Storage)
    ensures Count(Track(NewSession(s)).visitorCount) == Count(s.visitorCount) + 1
    ensures Count(Track(NewSession(s)).pageViews) == 1
  {
  }

  /** A page load as the script is written: the initialisation runs twice, and
      with it the tracker, so a load adds two page views. */
  function PageLoadAsWritten(s: Storage): (r: Storage)
    ensures Count(r.pageViews) == Count(s.pageViews) + 2
    ensures Count(r.visitorCount) == Count(s.visitorCount) + (if s.visited then 0 else 1)
  {
    OneVisitorPerSession(s, 2);
    TrackTimes(s, 2)
  }

  /** A page load with the initialisation run once: one page view, and a visitor
      only on the session's first load. */
  function PageLoad(s: Storage): (r: Storage)
    ensures Count(r.pageViews) == Count(s.pageViews) + 1
    ensures Count(r.visitorCount) == Count(s.visitorCount) + (if s.visited then 0 else 1)
  {
    OneVisitorPerSession(s, 1);
    TrackTimes(s, 1)
  }

  /** The first load in a browser that never saw the page: as written it shows
      two page views, while one initialisation would show one. */
  lemma FirstLoadAsWrittenCountsTwoViews()
    ensures PageLoadAsWritten(Storage(None, None, false)).pageViews == Some(2)
    ensures PageLoad(Storage(None, None, false)).pageViews == Some(1)
  {
  }
}
