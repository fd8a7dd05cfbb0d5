/** The active-navigation tracker (`updateActiveState` in `setupActiveNav`,
    script.js): choose the section in view and mark the links whose href
    points at it. Scroll offsets and section geometry are integers given by
    the caller; the debounce and the one-second re-check after a link click
    only decide WHEN the update runs, so the update is an operation that may
    be invoked at any point. */
module ActiveNav {

  import opened Wrappers

  /** A `<section>` element: its `id` attribute (absent is `null`), its
      `offsetTop` and its `clientHeight`. */
  datatype Section = Section(id: Option<string>, top: int, height: int)

  /** The look-ahead margin subtracted from each section's extent. */
  const Margin := 200

  /** The section's window test: `top - 200 <= scroll < top + height - 200`. */
  predicate InView(scroll: int, s: Section)
    ensures InView(scroll, s) <==> 0 <= scroll - (s.top - Margin) < s.height
    ensures InView(scroll, s) ==> s.height > 0
  {
    s.top - Margin <= scroll < s.top + s.height - Margin
  }

  /** `scrollY < heroHeight * 0.5`, stated over integers; it agrees with
      the test over exact reals. */
  predicate InHero(scroll: int, heroHeight: int)
    ensures InHero(scroll, heroHeight) <==> (scroll as real) < (heroHeight as real) * 0.5
  {
    2 * scroll < heroHeight
  }

  /** The index of the last section in document order that is in view: the
      forEach overwrites `currentSection` on every match, so the last one
      wins. */
  function LastInView(scroll: int, sections: seq<Section>): (r: Option<nat>)
    ensures r.Some? ==> r.value < |sections| && InView(scroll, sections[r.value])
    ensures r.Some? ==> forall k :: r.value < k < |sections| ==> !InView(scroll, sections[k])
    ensures r.None? ==> forall k :: 0 <= k < |sections| ==> !InView(scroll, sections[k])
  {
    if sections == [] then None
    else if InView(scroll, sections[|sections| - 1]) then Some(|sections| - 1)
    else LastInView(scroll, sections[..|sections| - 1])
  }

  /** The text `getAttribute('id')` contributes to the template string:
      a missing attribute is `null`, which prints as "null". */
  function IdText(id: Option<string>): (t: string)
    ensures id.Some? ==> t == id.value
    ensures id.None? ==> t == "null"
  {
    match id
    case Some(s) => s
    case None => "null"
  }

  /** The final value of `currentSection`: the id of the last section in
      view, or '' when no section is in view. */
  function ChosenId(scroll: int, sections: seq<Section>): (id: string)
    ensures LastInView(scroll, sections).Some? ==>
      id == IdText(sections[LastInView(scroll, sections).value].id)
    ensures (forall k :: 0 <= k < |sections| ==> !InView(scroll, sections[k])) ==> id == ""
  {
    match LastInView(scroll, sections)
    case Some(j) => IdText(sections[j].id)
    case None => ""
  }

  /** `querySelector('.nav-links a[href="#"]')`: the first link whose href
      is exactly "#", if any, searching from index `from`. */
  function HomeLinkFrom(hrefs: seq<Option<string>>, from: nat): (r: Option<nat>)
    requires from <= |hrefs|
    ensures r.Some? ==> from <= r.value < |hrefs| && hrefs[r.value] == Some("#")
    ensures r.Some? ==> forall k :: from <= k < r.value ==> hrefs[k] != Some("#")
    ensures r.None? ==> forall k :: from <= k < |hrefs| ==> hrefs[k] != Some("#")
    decreases |hrefs| - from
  {
    if from == |hrefs| then None
    else if hrefs[from] == Some("#") then Some(from)
    else HomeLinkFrom(hrefs, from + 1)
  }

  /** The home link: the first link whose href is exactly "#", if any. */
  function HomeLink(hrefs: seq<Option<string>>): (r: Option<nat>)
    ensures r.Some? ==> r.value < |hrefs| && hrefs[r.value] == Some("#")
    ensures r.Some? ==> forall k :: 0 <= k < r.value ==> hrefs[k] != Some("#")
    ensures r.None? <==> forall k :: 0 <= k < |hrefs| ==> hrefs[k] != Some("#")
  {
    HomeLinkFrom(hrefs, 0)
  }

  /** The active flags of the links after an update that ran to completion
      (in the hero branch with no home link the handler throws after
      clearing every flag, which also leaves these flags). */
  function ActiveAfter(hrefs: seq<Option<string>>, scroll: int, heroHeight: int, sections: seq<Section>): (r: seq<bool>)
    ensures |r| == |hrefs|
  {
    if InHero(scroll, heroHeight) then
      seq(|hrefs|, j => HomeLink(hrefs) == Some(j))
    else
      seq(|hrefs|, j requires 0 <= j < |hrefs| => hrefs[j] == Some("#" + ChosenId(scroll, sections)))
  }

  /** Hero rule: above half the hero height the only active link is the
      first one whose href is "#", whatever the sections are. */
  lemma HeroRule(hrefs: seq<Option<string>>, scroll: int, heroHeight: int, sections: seq<Section>, j: nat)
    requires InHero(scroll, heroHeight) && j < |hrefs|
    ensures ActiveAfter(hrefs, scroll, heroHeight, sections)[j]
        <==> hrefs[j] == Some("#") && forall k :: 0 <= k < j ==> hrefs[k] != Some("#")
    ensures ActiveAfter(hrefs, scroll, heroHeight, sections) == ActiveAfter(hrefs, scroll, heroHeight, [])
  {
  }

  /** Section selection: below the hero, the chosen id is that of a section
      in view with no later section in view; earlier matches are
      overwritten. */
  lemma LastMatchWins(scroll: int, sections: seq<Section>, j: nat)
    requires j < |sections| && InView(scroll, sections[j])
    requires forall k :: j < k < |sections| ==> !InView(scroll, sections[k])
    ensures ChosenId(scroll, sections) == IdText(sections[j].id)
  {
  }

  /** Link activation below the hero: a link is active iff its href is '#'
      followed by the id of the last section in view, or is "#" when no
      section is in view; so two links with that href are both active. */
  lemma LinkActivation(hrefs: seq<Option<string>>, scroll: int, heroHeight: int, sections: seq<Section>, j: nat)
    requires !InHero(scroll, heroHeight) && j < |hrefs|
    ensures ActiveAfter(hrefs, scroll, heroHeight, sections)[j] <==>
      || (exists k :: 0 <= k < |sections| && InView(scroll, sections[k])
                      && (forall m :: k < m < |sections| ==> !InView(scroll, sections[m]))
                      && hrefs[j] == Some("#" + IdText(sections[k].id)))
      || ((forall k :: 0 <= k < |sections| ==> !InView(scroll, sections[k])) && hrefs[j] == Some("#"))
  {
    match LastInView(scroll, sections)
    case None =>
      assert "#" + "" == "#";
    case Some(last) =>
      forall k | 0 <= k < |sections| && InView(scroll, sections[k])
        && (forall m :: k < m < |sections| ==> !InView(scroll, sections[m]))
        ensures k == last
      {
      }
      assert InView(scroll, sections[last]);
  }

  /** When no section is in view the chosen id is '' and it is the links with
      href "#" (the home link) that become active, not none. */
  lemma NoMatchActivatesHome(hrefs: seq<Option<string>>, scroll: int, heroHeight: int, sections: seq<Section>)
    requires !InHero(scroll, heroHeight)
    requires forall k :: 0 <= k < |sections| ==> !InView(scroll, sections[k])
    ensures forall j :: 0 <= j < |hrefs| ==>
      ActiveAfter(hrefs, scroll, heroHeight, sections)[j] == (hrefs[j] == Some("#"))
  {
    assert ChosenId(scroll, sections) == "";
    assert "#" + "" == "#";
  }

  /** Links with pairwise distinct hrefs: at most one of them is ever active
      after an update. */
  lemma AtMostOneActive(hrefs: seq<Option<string>>, scroll: int, heroHeight: int, sections: seq<Section>, i: nat, j: nat)
    requires forall a, b :: 0 <= a < b < |hrefs| ==> hrefs[a] != hrefs[b]
    requires i < |hrefs| && j < |hrefs|
    requires ActiveAfter(hrefs, scroll, heroHeight, sections)[i]
    requires ActiveAfter(hrefs, scroll, heroHeight, sections)[j]
    ensures i == j
  {
  }

  /** The navigation links: their hrefs are fixed by the markup, their
      `active` classes are updated in place. */
  class NavLinks {
    const hrefs: seq<Option<string>>
    const active: array<bool>
    /** The home link, looked up once when the tracker is set up. */
    const home: Option<nat>

    ghost predicate Valid()
      reads this
    {
      active.Length == |hrefs| && home == HomeLink(hrefs)
    }

    constructor (hrefs: seq<Option<string>>, initiallyActive: seq<bool>)
      requires |initiallyActive| == |hrefs|
      ensures Valid() && fresh(active)
      ensures this.hrefs == hrefs && active[..] == initiallyActive
    {
      this.hrefs := hrefs;
      this.home := HomeLink(hrefs);
      this.active := new bool[|hrefs|](j requires 0 <= j < |hrefs| => initiallyActive[j]);
    }

    /** One run of `updateActiveState`. `completed` is false when the hero
        branch finds no home link: the handler then throws a TypeError after
        clearing every link. */
    method UpdateActiveState(scroll: int, heroHeight: int, sections: seq<Section>) returns (completed: bool)
      requires Valid()
      modifies active
      ensures Valid()
      ensures completed <==> !InHero(scroll, heroHeight) || home.Some?
      ensures active[..] == ActiveAfter(hrefs, scroll, heroHeight, sections)
    {
      if 2 * scroll < heroHeight {
        for j := 0 to active.Length
          invariant forall m :: 0 <= m < j ==> !active[m]
        {
          active[j] := false;
        }
        if home.None? {
          return false;
        }
        active[home.value] := true;
        return true;
      }

      var current := "";
      for k := 0 to |sections|
        invariant current == ChosenId(scroll, sections[..k])
      {
        assert sections[..k + 1][..k] == sections[..k];
        if sections[k].top - Margin <= scroll < sections[k].top + sections[k].height - Margin {
          current := IdText(sections[k].id);
        }
      }
      assert sections[..|sections|] == sections;

      for j := 0 to active.Length
        invariant forall m :: 0 <= m < j ==> active[m] == (hrefs[m] == Some("#" + current))
      {
        active[j] := false;
        if hrefs[j] == Some("#" + current) {
          active[j] := true;
        }
      }
      return true;
    }
  }
}
