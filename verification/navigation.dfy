/** Active-section highlighting (`setupNavigation`): the visibility observer's
    callback marks as "active" the navigation links that point at a section
    that has just come into view. */
module Navigation {
  import opened Wrappers

  /** A `.nav-menu a`: its `href` attribute and whether it has the "active" class. */
  datatype Link = Link(href: Option<string>, active: bool)

  /** One observer entry: the id of the observed section and whether it is
      intersecting the viewport (at the 0.3 threshold). */
  datatype Entry = Entry(sectionId: string, isIntersecting: bool)

  /** The `href` that points at section `id`. */
  function Anchor(id: string): string {
    "#" + id
  }

  /** One intersecting entry: every link loses "active", then the links whose
      `href` is `#id` get it. */
  function Highlight(links: seq<Link>, id: string): (r: seq<Link>)
    ensures |r| == |links|
    ensures forall k | 0 <= k < |r| :: r[k].href == links[k].href
    ensures forall k | 0 <= k < |r| :: r[k].active <==> links[k].href == Some(Anchor(id))
  {
    seq(|links|, k requires 0 <= k < |links| => links[k].(active := links[k].href == Some(Anchor(id))))
  }

  /** The observer callback: the entries of one batch, in delivery order. No
      link is added, lost or retargeted, and a batch with no intersecting entry
      leaves the links as they were. */
  function ProcessBatch(links: seq<Link>, entries: seq<Entry>): (r: seq<Link>)
    ensures |r| == |links|
    ensures forall k | 0 <= k < |r| :: r[k].href == links[k].href
    ensures (forall k | 0 <= k < |entries| :: !entries[k].isIntersecting) ==> r == links
    decreases |entries|
  {
    if |entries| == 0 then links
    else
      var next := if entries[0].isIntersecting then Highlight(links, entries[0].sectionId) else links;
      ProcessBatch(next, entries[1..])
  }

  /** The section of the last intersecting entry of a batch, if any. */
  function LastIntersecting(entries: seq<Entry>): (r: Option<string>)
    ensures r.None? <==> forall k | 0 <= k < |entries| :: !entries[k].isIntersecting
    ensures r.Some? ==> exists k | 0 <= k < |entries| ::
      entries[k].isIntersecting && entries[k].sectionId == r.value &&
      forall j | k < j < |entries| :: !entries[j].isIntersecting
  {
    if |entries| == 0 then None
    else
      var last := entries[|entries| - 1];
      if last.isIntersecting then Some(last.sectionId)
      else
        var r := LastIntersecting(entries[..|entries| - 1]);
        if r.Some? then
          var k :| 0 <= k < |entries| - 1 && entries[k].isIntersecting && entries[k].sectionId == r.value &&
            forall j | k < j < |entries| - 1 :: !entries[j].isIntersecting;
          assert entries[k].isIntersecting && entries[k].sectionId == r.value &&
            forall j | k < j < |entries| :: !entries[j].isIntersecting;
          r
        else r
  }

  /** The indices of the active links. */
  function ActiveLinks(links: seq<Link>): set<nat> {
    set k: nat | k < |links| && links[k].active
  }

  /** A batch settles on its last intersecting entry: the links are untouched
      when nothing intersects, and otherwise the active links are exactly those
      pointing at the last intersecting section. */
  lemma {:induction false} BatchLastIntersectingWins(links: seq<Link>, entries: seq<Entry>)
    ensures LastIntersecting(entries).None? ==> ProcessBatch(links, entries) == links
    ensures LastIntersecting(entries).Some? ==>
      ProcessBatch(links, entries) == Highlight(links, LastIntersecting(entries).value)
    decreases |entries|
  {
    if |entries| > 0 {
      var next := if entries[0].isIntersecting then Highlight(links, entries[0].sectionId) else links;
      var rest := entries[1..];
      BatchLastIntersectingWins(next, rest);
      assert entries == [entries[0]] + rest;
      LastIntersectingOfCons(entries);
      if LastIntersecting(rest).Some? {
        HighlightForgetsHistory(links, next, LastIntersecting(rest).value);
      }
    }
  }

  /** Highlighting depends on the links' targets only, not on which were active. */
  lemma HighlightForgetsHistory(a: seq<Link>, b: seq<Link>, id: string)
    requires |a| == |b|
    requires forall k | 0 <= k < |a| :: a[k].href == b[k].href
    ensures Highlight(a, id) == Highlight(b, id)
  {
  }

  /** The last intersecting entry of a batch is that of its tail, unless the tail
      has none. */
  lemma LastIntersectingOfCons(entries: seq<Entry>)
    requires |entries| > 0
    ensures LastIntersecting(entries[1..]).Some? ==> LastIntersecting(entries) == LastIntersecting(entries[1..])
    ensures LastIntersecting(entries[1..]).None? ==>
      LastIntersecting(entries) == (if entries[0].isIntersecting then Some(entries[0].sectionId) else None)
  {
  }

  /** The outcome of a batch with an intersecting entry, as a set of links: the
      ones whose `href` targets the last intersecting section; none at all if no
      link targets it. */
  lemma ActiveAfterBatch(links: seq<Link>, entries: seq<Entry>)
    requires LastIntersecting(entries).Some?
    ensures var id := LastIntersecting(entries).value;
      ActiveLinks(ProcessBatch(links, entries)) == set k: nat | k < |links| && links[k].href == Some(Anchor(id))
    ensures var id := LastIntersecting(entries).value;
      (forall k | 0 <= k < |links| :: links[k].href != Some(Anchor(id))) ==>
        ActiveLinks(ProcessBatch(links, entries)) == {}
  {
    BatchLastIntersectingWins(links, entries);
  }

  /** When the links' targets are pairwise different, a batch leaves at most one
      link active. */
  lemma AtMostOneActive(links: seq<Link>, entries: seq<Entry>, i: nat, j: nat)
    requires LastIntersecting(entries).Some?
    requires forall a, b | 0 <= a < b < |links| :: links[a].href != links[b].href
    requires i < |links| && j < |links|
    requires ProcessBatch(links, entries)[i].active && ProcessBatch(links, entries)[j].active
    ensures i == j
  {
    BatchLastIntersectingWins(links, entries);
  }

  /** Delivering the same batch twice (the page registers two observers) ends as
      delivering it once. */
  lemma BatchIdempotent(links: seq<Link>, entries: seq<Entry>)
    ensures ProcessBatch(ProcessBatch(links, entries), entries) == ProcessBatch(links, entries)
  {
    var once := ProcessBatch(links, entries);
    BatchLastIntersectingWins(links, entries);
    BatchLastIntersectingWins(once, entries);
    if LastIntersecting(entries).Some? {
      HighlightForgetsHistory(once, links, LastIntersecting(entries).value);
    }
  }
}
