/**
 * The project filter: clicking a filter button marks it as the only active button; each card
 * whose `data-category` is the button's `data-filter` (every card for `all`) gets `display:
 * block` at once, and every other card gets a 300 ms timer that sets `display: none`. The timers
 * are never cancelled, so a hide scheduled by an earlier click can still fire after a later click
 * has shown the card. Attributes are `Option<string>`, `None` standing for the `null` of a
 * missing attribute.
 */
module ProjectFilters {
  import opened Options
  import opened Toggles

  /** Whether a card with `category` is displayed under `filter` (strict equality, so two missing attributes match). */
  predicate Shown(filter: Option<string>, category: Option<string>)
  {
    filter == Some("all") || category == filter
  }

  /**
   * Apart from `all`, a card is shown by exactly the filter naming its category, so two
   * different filters other than `all` show no card in common; `all` shows every card.
   */
  lemma FiltersPartition(f: Option<string>, g: Option<string>, category: Option<string>)
    requires f != Some("all") && g != Some("all")
    ensures Shown(Some("all"), category) && Shown(category, category)
    ensures Shown(f, category) && Shown(g, category) ==> f == g
    ensures Shown(f, category) <==> category == f
  {
  }

  /** A card: whether its `display` is `block`, and how many hide timers are still pending for it. */
  datatype Card = Card(displayed: bool, pendingHides: nat)

  /** What one click does to a card at once: show it, or schedule one more hide. */
  function ClickCard(c: Card, shown: bool): Card
  {
    if shown then c.(displayed := true) else c.(pendingHides := c.pendingHides + 1)
  }

  /** A pending hide timer fires: `display` becomes `none`. */
  function FireHide(c: Card): Card
    requires c.pendingHides > 0
  {
    Card(false, c.pendingHides - 1)
  }

  /** The card once every pending hide timer has fired. */
  function Settle(c: Card): (r: Card)
    decreases c.pendingHides
  {
    if c.pendingHides == 0 then c else Settle(FireHide(c))
  }

  /** Once the timers have fired the card is displayed exactly when it was and no hide was pending. */
  lemma {:induction false} SettleHides(c: Card)
    ensures Settle(c).pendingHides == 0
    ensures Settle(c).displayed <==> c.displayed && c.pendingHides == 0
    decreases c.pendingHides
  {
    if c.pendingHides > 0 {
      SettleHides(FireHide(c));
    }
  }

  /** From a card with no pending hide, a click followed by its timers displays it iff the filter shows it. */
  lemma SettledClick(c: Card, shown: bool)
    requires c.pendingHides == 0
    ensures Settle(ClickCard(c, shown)).displayed == shown
  {
    SettleHides(ClickCard(c, shown));
  }

  /**
   * The race: a displayed card is hidden by one click and shown again by the next before the
   * first click's 300 ms timer fires. The card is shown under the active filter, yet it ends up
   * hidden once the timer fires.
   */
  lemma LateHideRace()
    ensures ClickCard(ClickCard(Card(true, 0), false), true).displayed
    ensures !Settle(ClickCard(ClickCard(Card(true, 0), false), true)).displayed
  {
    SettleHides(ClickCard(ClickCard(Card(true, 0), false), true));
  }

  /** A click that also cancels the hides pending for the cards it shows. */
  function ClickCardCancelling(c: Card, shown: bool): Card
  {
    if shown then Card(true, 0) else c.(pendingHides := c.pendingHides + 1)
  }

  /** With the pending hides cancelled, every card settles to what the last filter shows, whatever came before. */
  lemma CancellingClickSettles(c: Card, shown: bool)
    ensures Settle(ClickCardCancelling(c, shown)).displayed == shown
  {
    SettleHides(ClickCardCancelling(c, shown));
  }

  /** The buttons and cards of `initProjectFilters`. */
  class Filters {
    const filters: seq<Option<string>>
    const categories: seq<Option<string>>
    var buttonActive: seq<bool>
    var cards: seq<Card>

    ghost predicate Valid()
      reads this
    {
      |buttonActive| == |filters| && |cards| == |categories|
    }

    constructor (filters: seq<Option<string>>, categories: seq<Option<string>>, buttonActive: seq<bool>, displayed: seq<bool>)
      requires |buttonActive| == |filters| && |displayed| == |categories|
      ensures Valid() && this.filters == filters && this.categories == categories
      ensures this.buttonActive == buttonActive
      ensures forall c :: 0 <= c < |categories| ==> cards[c] == Card(displayed[c], 0)
    {
      this.filters, this.categories := filters, categories;
      this.buttonActive := buttonActive;
      cards := seq(|displayed|, c requires 0 <= c < |displayed| => Card(displayed[c], 0));
    }

    /**
     * The click listener of button `b`: `b` becomes the only active button, the cards the filter
     * shows are displayed at once, and each other card gets one more pending hide. A card that
     * had no pending hide settles to displayed exactly when the filter shows it.
     */
    method Click(b: nat)
      requires Valid() && b < |filters|
      modifies this`buttonActive, this`cards
      ensures Valid()
      ensures AtMostOne(buttonActive) && buttonActive[b]
      ensures forall c :: 0 <= c < |categories| ==> cards[c] == ClickCard(old(cards)[c], Shown(filters[b], categories[c]))
      ensures forall c :: 0 <= c < |categories| && Shown(filters[b], categories[c]) ==> cards[c].displayed
      ensures forall c :: 0 <= c < |categories| && old(cards)[c].pendingHides == 0 ==>
        (Settle(cards[c]).displayed <==> Shown(filters[b], categories[c]))
    {
      var i := 0;
      while i < |buttonActive|
        invariant 0 <= i <= |buttonActive| == |filters| && cards == old(cards)
        invariant forall j :: 0 <= j < i ==> !buttonActive[j]
      {
        buttonActive := buttonActive[i := false];
        i := i + 1;
      }
      buttonActive := buttonActive[b := true];
      assert forall j :: 0 <= j < |buttonActive| ==> (buttonActive[j] <==> j == b);
      var filter := filters[b];
      var c := 0;
      while c < |cards|
        invariant 0 <= c <= |cards| == |categories| == |old(cards)|
        invariant |buttonActive| == |filters| && AtMostOne(buttonActive) && buttonActive[b]
        invariant forall j :: 0 <= j < c ==> cards[j] == ClickCard(old(cards)[j], Shown(filter, categories[j]))
        invariant forall j :: c <= j < |cards| ==> cards[j] == old(cards)[j]
      {
        if filter == Some("all") || categories[c] == filter {
          cards := cards[c := cards[c].(displayed := true)];
        } else {
          cards := cards[c := cards[c].(pendingHides := cards[c].pendingHides + 1)];
        }
        c := c + 1;
      }
      forall j | 0 <= j < |categories| && old(cards)[j].pendingHides == 0
        ensures Settle(cards[j]).displayed <==> Shown(filter, categories[j])
      {
        SettledClick(old(cards)[j], Shown(filter, categories[j]));
      }
    }

    /** One pending 300 ms timer of card `c` fires and sets its `display` to `none`. */
    method HideTimerFires(c: nat)
      requires Valid() && c < |cards| && cards[c].pendingHides > 0
      modifies this`cards
      ensures Valid() && cards == old(cards)[c := FireHide(old(cards)[c])]
      ensures !cards[c].displayed
    {
      cards := cards[c := Card(false, cards[c].pendingHides - 1)];
    }
  }
}
