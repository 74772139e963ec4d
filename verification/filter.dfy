/** The project gallery's filter bar (`setupProjectFilters`): clicking a filter
    button makes it the only active button and shows exactly the cards of its
    category. */
module ProjectFilter {
  import opened Wrappers
  import opened Dom

  /** A `.project-card`: its `data-category` attribute and its inline display. */
  datatype Card = Card(category: Option<string>, display: Display)

  /** A `.filter-btn`: its `data-filter` attribute and whether it has the
      "active" class. */
  datatype Button = Button(filter: Option<string>, active: bool)

  datatype Gallery = Gallery(buttons: seq<Button>, cards: seq<Card>)

  /** The filter value that selects every card. */
  const All := "all"

  /** `filter === "all" || category === filter`, where a missing attribute is
      null and null is strictly equal only to null. */
  predicate Selects(filter: Option<string>, category: Option<string>) {
    filter == Some(All) || category == filter
  }

  /** The cards after a click with `filter`: a selected card is set to "block",
      any other to "none"; none is removed and none changes category. */
  function ShowCards(cards: seq<Card>, filter: Option<string>): (r: seq<Card>)
    ensures |r| == |cards|
    ensures forall k | 0 <= k < |r| :: r[k].category == cards[k].category
    ensures forall k | 0 <= k < |r| ::
      r[k].display == (if Selects(filter, cards[k].category) then Block else Hidden)
  {
    if |cards| == 0 then []
    else
      var first := cards[0].(display := if Selects(filter, cards[0].category) then Block else Hidden);
      [first] + ShowCards(cards[1..], filter)
  }

  /** The buttons after a click on button `clicked`: every "active" class is
      removed, then the clicked one gets it back. */
  function ActivateOnly(buttons: seq<Button>, clicked: nat): (r: seq<Button>)
    requires clicked < |buttons|
    ensures |r| == |buttons|
    ensures forall k | 0 <= k < |r| :: r[k].filter == buttons[k].filter
    ensures forall k | 0 <= k < |r| :: r[k].active <==> k == clicked
  {
    seq(|buttons|, k requires 0 <= k < |buttons| => buttons[k].(active := k == clicked))
  }

  /** The click handler of filter button `clicked`: the clicked button becomes
      the only active one, and a card is on display exactly when the clicked
      filter selects it; no card or button is added or lost. */
  function Click(g: Gallery, clicked: nat): (r: Gallery)
    requires clicked < |g.buttons|
    ensures |r.buttons| == |g.buttons| && |r.cards| == |g.cards|
    ensures forall k | 0 <= k < |r.buttons| :: r.buttons[k].active <==> k == clicked
    ensures forall k | 0 <= k < |r.cards| ::
      r.cards[k].category == g.cards[k].category &&
      (r.cards[k].display == Block <==> Selects(g.buttons[clicked].filter, g.cards[k].category))
  {
    Gallery(ActivateOnly(g.buttons, clicked), ShowCards(g.cards, g.buttons[clicked].filter))
  }

  /** The indices of the cards on display. */
  function Visible(g: Gallery): set<nat> {
    set k: nat | k < |g.cards| && g.cards[k].display == Block
  }

  /** The indices of the cards that are still in the gallery but hidden. */
  function Concealed(g: Gallery): set<nat> {
    set k: nat | k < |g.cards| && g.cards[k].display == Hidden
  }

  /** The indices of the active buttons. */
  function ActiveButtons(g: Gallery): set<nat> {
    set k: nat | k < |g.buttons| && g.buttons[k].active
  }

  /** After a click, the cards on display are exactly those the clicked filter
      selects, every other card is hidden but kept, and the clicked button is
      the one active button. */
  lemma ClickShowsExactlySelected(g: Gallery, clicked: nat)
    requires clicked < |g.buttons|
    ensures var f := g.buttons[clicked].filter;
      Visible(Click(g, clicked)) == set k: nat | k < |g.cards| && Selects(f, g.cards[k].category)
    ensures var f := g.buttons[clicked].filter;
      Concealed(Click(g, clicked)) == set k: nat | k < |g.cards| && !Selects(f, g.cards[k].category)
    ensures |Click(g, clicked).cards| == |g.cards|
    ensures ActiveButtons(Click(g, clicked)) == {clicked}
  {
  }

  /** The "all" filter shows the whole gallery. */
  lemma AllShowsEverything(g: Gallery, clicked: nat)
    requires clicked < |g.buttons| && g.buttons[clicked].filter == Some(All)
    ensures forall k: nat | k < |g.cards| :: k in Visible(Click(g, clicked))
    ensures Concealed(Click(g, clicked)) == {}
  {
  }

  /** Only the last click counts: whatever an earlier click did, a click on
      `second` leaves the gallery as a click on `second` alone would. */
  lemma LastClickWins(g: Gallery, first: nat, second: nat)
    requires first < |g.buttons| && second < |g.buttons|
    ensures Click(Click(g, first), second) == Click(g, second)
  {
  }

  /** Clicking the same filter twice gives what clicking it once gives. */
  lemma ClickIdempotent(g: Gallery, clicked: nat)
    requires clicked < |g.buttons|
    ensures Click(Click(g, clicked), clicked) == Click(g, clicked)
  {
  }
}
