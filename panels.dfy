/** The expandable panels of the page: the two exclusive groups (practice
    "Learn More" in `setupPracticeLearnMore` and blog "Read More" in
    `setupBlogReadMore`, script.js), which are one state machine with two
    label pairs, and the FAQ accordion (`setupFAQ`), whose items toggle
    independently. Each card holds one trigger button and one details panel;
    the panel's `active` class is its expanded flag and the button's text
    its label. */
module Panels {

  /** The two exclusive groups differ only in their button texts. */
  datatype GroupKind = Practice | Blog

  /** The text of a button whose panel is collapsed. */
  function CollapsedLabel(kind: GroupKind): (text: string)
  {
    match kind
    case Practice => "Learn More"
    case Blog => "Read More"
  }

  /** The text of a button whose panel is expanded. */
  function ExpandedLabel(kind: GroupKind): (text: string)
  {
    match kind
    case Practice => "Show Less"
    case Blog => "Read Less"
  }

  /** The label a button shows for the state of its panel. */
  function LabelFor(kind: GroupKind, expanded: bool): (text: string)
    ensures text == ExpandedLabel(kind) <==> expanded
    ensures text == CollapsedLabel(kind) <==> !expanded
  {
    if expanded then ExpandedLabel(kind) else CollapsedLabel(kind)
  }

  /** At most one panel of the group is expanded. */
  predicate AtMostOneExpanded(flags: seq<bool>)
  {
    forall i, j :: 0 <= i < |flags| && 0 <= j < |flags| && flags[i] && flags[j] ==> i == j
  }

  /** Every button shows the expanded label iff its panel is expanded. */
  predicate LabelsAgree(kind: GroupKind, flags: seq<bool>, labels: seq<string>)
  {
    |labels| == |flags| && forall j :: 0 <= j < |flags| ==> labels[j] == LabelFor(kind, flags[j])
  }

  /** The expanded flags after a click on panel `i`: every other panel is
      collapsed and the clicked one flips on its state before the click. */
  function ExclusiveClick(flags: seq<bool>, i: nat): (r: seq<bool>)
    requires i < |flags|
    ensures |r| == |flags|
    ensures r[i] == !flags[i]
    ensures forall j :: 0 <= j < |r| && j != i ==> !r[j]
  {
    seq(|flags|, j => j == i && !flags[i])
  }

  /** The button texts after a click, given the flags the click produced:
      each button matches its own panel. */
  function ClickLabels(kind: GroupKind, flags: seq<bool>): (r: seq<string>)
    ensures LabelsAgree(kind, flags, r)
  {
    seq(|flags|, j requires 0 <= j < |flags| => LabelFor(kind, flags[j]))
  }

  /** Group exclusivity: whatever the state before, at most one panel is
      expanded after a click. */
  lemma ClickLeavesAtMostOne(flags: seq<bool>, i: nat)
    requires i < |flags|
    ensures AtMostOneExpanded(ExclusiveClick(flags, i))
  {
  }

  /** Clicking an expanded panel collapses the whole group. */
  lemma ClickOnExpandedCollapsesAll(flags: seq<bool>, i: nat)
    requires i < |flags| && flags[i]
    ensures forall j :: 0 <= j < |flags| ==> !ExclusiveClick(flags, i)[j]
  {
  }

  /** Clicking a collapsed panel leaves exactly that one expanded. */
  lemma ClickOnCollapsedExpandsOnlyIt(flags: seq<bool>, i: nat)
    requires i < |flags| && !flags[i]
    ensures forall j :: 0 <= j < |flags| ==> ExclusiveClick(flags, i)[j] == (j == i)
  {
  }

  /** Two clicks on the same panel of a group that had at most that panel
      expanded restore the group; with another panel expanded they do not,
      because the first click collapsed it. */
  lemma {:induction false} ClickTwice(flags: seq<bool>, i: nat)
    requires i < |flags|
    ensures ExclusiveClick(ExclusiveClick(flags, i), i) == flags
        <==> forall j :: 0 <= j < |flags| && j != i ==> !flags[j]
  {
    var twice := ExclusiveClick(ExclusiveClick(flags, i), i);
    if forall j :: 0 <= j < |flags| && j != i ==> !flags[j] {
      assert forall j :: 0 <= j < |flags| ==> twice[j] == flags[j];
    } else {
      var j :| 0 <= j < |flags| && j != i && flags[j];
      assert twice[j] != flags[j];
    }
  }

  /** An exclusive group: practice cards or blog posts. */
  class ExclusiveGroup {
    const kind: GroupKind
    /** The `active` class of each details panel. */
    const expanded: array<bool>
    /** The text of each card's trigger button. */
    const labels: array<string>

    ghost predicate Valid()
      reads this
    {
      expanded.Length == labels.Length
    }

    /** The group as the markup leaves it; nothing is assumed about the
        initial flags and texts. */
    constructor (kind: GroupKind, flags: seq<bool>, texts: seq<string>)
      requires |texts| == |flags|
      ensures Valid() && fresh(expanded) && fresh(labels)
      ensures this.kind == kind && expanded[..] == flags && labels[..] == texts
    {
      this.kind := kind;
      expanded := new bool[|flags|](j requires 0 <= j < |flags| => flags[j]);
      labels := new string[|texts|](j requires 0 <= j < |texts| => texts[j]);
    }

    /** A click on the button of card `i`: read the panel's state, collapse
        every other panel and reset its button, then flip the clicked panel
        and set its button's text. */
    method Click(i: nat)
      requires Valid() && i < expanded.Length
      modifies expanded, labels
      ensures Valid()
      ensures expanded[..] == ExclusiveClick(old(expanded[..]), i)
      ensures labels[..] == ClickLabels(kind, expanded[..])
      ensures AtMostOneExpanded(expanded[..]) && LabelsAgree(kind, expanded[..], labels[..])
    {
      var wasExpanded := expanded[i];
      ghost var before := expanded[..];
      for j := 0 to expanded.Length
        invariant expanded[i] == before[i]
        invariant forall m :: 0 <= m < j && m != i ==> !expanded[m] && labels[m] == CollapsedLabel(kind)
      {
        if j != i {
          expanded[j] := false;
          labels[j] := CollapsedLabel(kind);
        }
      }
      if wasExpanded {
        expanded[i] := false;
        labels[i] := CollapsedLabel(kind);
      } else {
        expanded[i] := true;
        labels[i] := ExpandedLabel(kind);
      }
      ClickLeavesAtMostOne(before, i);
    }
  }

  /** The flags after an FAQ question click: only that item flips. */
  function FaqToggle(flags: seq<bool>, i: nat): (r: seq<bool>)
    requires i < |flags|
    ensures |r| == |flags| && r[i] == !flags[i]
    ensures forall j :: 0 <= j < |flags| && j != i ==> r[j] == flags[j]
  {
    flags[i := !flags[i]]
  }

  /** Two clicks on the same FAQ item restore the original state. */
  lemma FaqToggleTwice(flags: seq<bool>, i: nat)
    requires i < |flags|
    ensures FaqToggle(FaqToggle(flags, i), i) == flags
  {
  }

  /** Clicks on different FAQ items commute: items are independent. */
  lemma FaqTogglesCommute(flags: seq<bool>, i: nat, j: nat)
    requires i < |flags| && j < |flags|
    ensures FaqToggle(FaqToggle(flags, i), j) == FaqToggle(FaqToggle(flags, j), i)
  {
  }

  /** The FAQ accordion: the `active` class of each `.faq-item`. */
  class Accordion {
    const open: array<bool>

    constructor (flags: seq<bool>)
      ensures fresh(open) && open[..] == flags
    {
      open := new bool[|flags|](j requires 0 <= j < |flags| => flags[j]);
    }

    /** A click on the question of item `i`: `item.classList.toggle('active')`. */
    method Click(i: nat)
      requires i < open.Length
      modifies open
      ensures open[..] == FaqToggle(old(open[..]), i)
    {
      open[i] := !open[i];
    }
  }
}
