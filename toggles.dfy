/**
 * The "What I Do" accordion and the project-details panels: a click closes every other open
 * entry and toggles the clicked one, so at most one entry is ever open after a click.
 * `active`, `open` and the like hold one class flag per entry in document order; the
 * `aria-expanded` attributes are the `expanded` flags.
 */
module Toggles {

  /** At most one flag is set. */
  predicate AtMostOne(flags: seq<bool>)
  {
    forall i, j :: 0 <= i < |flags| && 0 <= j < |flags| && flags[i] && flags[j] ==> i == j
  }

  /** The open flags after clicking entry `k`: every other entry closed, entry `k` toggled. */
  function AfterClick(flags: seq<bool>, k: nat): (r: seq<bool>)
    requires k < |flags|
    ensures |r| == |flags| && AtMostOne(r)
    ensures r[k] == !flags[k]
    ensures forall j :: 0 <= j < |r| && j != k ==> !r[j]
  {
    seq(|flags|, j requires 0 <= j < |flags| => j == k && !flags[k])
  }

  /**
   * The `aria-expanded` values after clicking entry `k`: the clicked header's value is the
   * negation of whether its entry was open; a header whose entry is closed by the click is set
   * to false; every other header keeps its value.
   */
  function ExpandedAfterClick(flags: seq<bool>, expanded: seq<bool>, k: nat): (r: seq<bool>)
    requires k < |flags| == |expanded|
    ensures |r| == |expanded|
    ensures r[k] == !flags[k]
    ensures forall j :: 0 <= j < |r| && j != k ==> r[j] == (expanded[j] && !flags[j])
  {
    seq(|expanded|, j requires 0 <= j < |expanded| => if j == k then !flags[k] else expanded[j] && !flags[j])
  }

  /** A click opens its entry exactly when it was closed, and leaves nothing else open. */
  lemma ClickOpensIffClosed(flags: seq<bool>, k: nat)
    requires k < |flags|
    ensures (exists j :: 0 <= j < |flags| && AfterClick(flags, k)[j]) <==> !flags[k]
  {
    if !flags[k] {
      assert AfterClick(flags, k)[k];
    }
  }

  /** Clicking the same entry twice restores the flags exactly when no other entry was open. */
  lemma {:induction false} DoubleClick(flags: seq<bool>, k: nat)
    requires k < |flags|
    ensures AfterClick(AfterClick(flags, k), k) == flags <==> forall j :: 0 <= j < |flags| && j != k ==> !flags[j]
  {
    var twice := AfterClick(AfterClick(flags, k), k);
    if forall j :: 0 <= j < |flags| && j != k ==> !flags[j] {
      assert forall j :: 0 <= j < |flags| ==> twice[j] == flags[j];
    } else {
      var j :| 0 <= j < |flags| && j != k && flags[j];
      assert twice[j] != flags[j];
    }
  }

  /** When the `aria-expanded` values mirror the open flags, a click keeps them mirrored. */
  lemma ClickKeepsMirror(flags: seq<bool>, expanded: seq<bool>, k: nat)
    requires k < |flags| && flags == expanded
    ensures ExpandedAfterClick(flags, expanded, k) == AfterClick(flags, k)
  {
  }

  /** The accordion of `initAccordion`: an `active` class and an `aria-expanded` value per item. */
  class Accordion {
    var active: seq<bool>
    var expanded: seq<bool>

    ghost predicate Valid()
      reads this
    {
      |active| == |expanded|
    }

    constructor (active: seq<bool>, expanded: seq<bool>)
      requires |active| == |expanded|
      ensures Valid() && this.active == active && this.expanded == expanded
    {
      this.active, this.expanded := active, expanded;
    }

    /** The click listener of header `k`: close each other active item, then toggle item `k`. */
    method Click(k: nat)
      requires Valid() && k < |active|
      modifies this
      ensures Valid()
      ensures active == AfterClick(old(active), k)
      ensures expanded == ExpandedAfterClick(old(active), old(expanded), k)
    {
      var isActive := active[k];
      var j := 0;
      while j < |active|
        invariant 0 <= j <= |active| == |expanded| == |old(active)|
        invariant forall i :: 0 <= i < |active| && i != k ==>
          active[i] == (old(active)[i] && i >= j)
        invariant forall i :: 0 <= i < |active| && i != k ==>
          expanded[i] == (if i < j then old(expanded)[i] && !old(active)[i] else old(expanded)[i])
        invariant active[k] == isActive == old(active)[k] && expanded[k] == old(expanded)[k]
      {
        if active[j] && j != k {
          active := active[j := false];
          expanded := expanded[j := false];
        }
        j := j + 1;
      }
      active := active[k := !active[k]];
      expanded := expanded[k := !isActive];
    }
  }

  /**
   * The project cards of `initProjectDetails`: per card, whether its details content is `open`,
   * whether its toggle button is `active`, and the button's `aria-expanded` value.
   */
  class ProjectDetails {
    var open: seq<bool>
    var buttonActive: seq<bool>
    var expanded: seq<bool>

    ghost predicate Valid()
      reads this
    {
      |open| == |buttonActive| == |expanded|
    }

    constructor (open: seq<bool>, buttonActive: seq<bool>, expanded: seq<bool>)
      requires |open| == |buttonActive| == |expanded|
      ensures Valid() && this.open == open && this.buttonActive == buttonActive && this.expanded == expanded
    {
      this.open, this.buttonActive, this.expanded := open, buttonActive, expanded;
    }

    /**
     * The click listener of toggle button `k`: close each other open content and clear its
     * button, then toggle content `k` and button `k` independently and set its `aria-expanded`
     * from whether the content was open.
     */
    method Click(k: nat)
      requires Valid() && k < |open|
      modifies this
      ensures Valid()
      ensures open == AfterClick(old(open), k)
      ensures expanded == ExpandedAfterClick(old(open), old(expanded), k)
      ensures buttonActive[k] == !old(buttonActive)[k]
      ensures forall j :: 0 <= j < |open| && j != k ==> buttonActive[j] == (old(buttonActive)[j] && !old(open)[j])
    {
      var isOpen := open[k];
      var j := 0;
      while j < |open|
        invariant 0 <= j <= |open| == |buttonActive| == |expanded| == |old(open)|
        invariant forall i :: 0 <= i < |open| && i != k ==> open[i] == (old(open)[i] && i >= j)
        invariant forall i :: 0 <= i < |open| && i != k ==>
          buttonActive[i] == (if i < j then old(buttonActive)[i] && !old(open)[i] else old(buttonActive)[i])
        invariant forall i :: 0 <= i < |open| && i != k ==>
          expanded[i] == (if i < j then old(expanded)[i] && !old(open)[i] else old(expanded)[i])
        invariant open[k] == isOpen == old(open)[k]
        invariant buttonActive[k] == old(buttonActive)[k] && expanded[k] == old(expanded)[k]
      {
        if open[j] && j != k {
          open := open[j := false];
          buttonActive := buttonActive[j := false];
          expanded := expanded[j := false];
        }
        j := j + 1;
      }
      open := open[k := !open[k]];
      buttonActive := buttonActive[k := !buttonActive[k]];
      expanded := expanded[k := !isOpen];
    }
  }
}
