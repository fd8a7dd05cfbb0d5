# Justice Desk page state, modelled in Dafny

The Justice Desk website's `script.js` is mostly DOM and animation glue.
Inside its event handlers a few view-state rules decide what the page shows.
This project lifts those rules out over an abstract page, in which sections,
links and panels are sequences and arrays, and proves what they guarantee:

- **ActiveNav** (`active_nav.dfy`) models `updateActiveState`.
  Above half the hero height it activates only the home link. Below that it
  picks the last section in document order whose window
  `top - 200 <= scroll < top + height - 200` holds. Then it activates exactly
  the links whose href is `'#' + id`. The `NavLinks` class holds the links'
  `active` flags, and its `UpdateActiveState` method runs the two loops of
  the source.
- **Panels** (`panels.dfy`) models the practice "Learn More" and blog
  "Read More" handlers. They are one exclusive state machine instantiated
  with two label pairs (class `ExclusiveGroup`). It also models the FAQ
  accordion, whose items flip independently (class `Accordion`).
- **Navigation** (`navigation.dfy`) models the header's `scrolled` class,
  the mobile menu flag and the hamburger icon (class `Header`).
- **ContactForm** (`contact_form.dfy`) models the pure part of the
  validating submit handler: `trim`, the blank-field check, the JSON
  payload, and the classification of an already-parsed reply.
- **Wrappers** (`wrappers.dfy`) holds `Option`, which stands for a missing
  attribute or JSON field.

Positions and heights are integers. The float test `scrollY < heroHeight * 0.5`
is written `2 * scroll < heroHeight`. The debounce and the one-second
re-check after a link click only decide when the update runs, so
`UpdateActiveState` may be called at any point with the current geometry as
parameters.

Edge cases of the code that the model keeps:

- When no section is in view, `currentSection` stays `''`, so every link with
  href `"#"` becomes active. It is not the case that no link is active.
- The home link of the hero branch is the first link with href `"#"`
  (`querySelector`). If there is none, the handler throws after clearing
  every link. `UpdateActiveState` returns `completed == false` in that case.
- A section with no `id` attribute contributes `null`, which the template
  literal turns into the text `"null"`.
- An exclusive group resets every other panel and its button on every click,
  not only when a panel is being expanded.
- `data.error || 'Server error'` also falls back when the error text is the
  empty string.

## Model

| member | source | states |
|---|---|---|
| ActiveNav.InHero | script.js:176 | the integer test `2 * scroll < heroHeight` agrees with `scrollY < heroHeight * 0.5` over exact reals |
| ActiveNav.InView | script.js:188-189 | a section is in view iff the scroll offset lies less than `height` past `top - 200`, which needs a positive height |
| ActiveNav.IdText | script.js:190-196 | a present id is used as it is, and a missing id prints as `null` in the template literal |
| ActiveNav.ChosenId | script.js:183-192 | the final `currentSection` is the id of the last section in view, or `''` when no section is in view |
| ActiveNav.HomeLink | script.js:148 | the home link is the first link whose href is exactly `"#"`, and there is none iff no link has that href |
| ActiveNav.LastInView | script.js:183-192 | the selected index is in view and no later section is in view; no index means no section is in view |
| ActiveNav.HomeLinkFrom | script.js:148 | the home link is the first link whose href is exactly `"#"`; none means no link has that href |
| ActiveNav.ActiveAfter | script.js:171-200 | the flags after an update have one entry per link |
| ActiveNav.HeroRule | script.js:176-180 | above half the hero height, a link is active iff it is the first link whose href is `"#"`, and the sections make no difference |
| ActiveNav.LastMatchWins | script.js:183-192 | the chosen id is that of a section in view after which no section is in view, so earlier matches are overwritten |
| ActiveNav.LinkActivation | script.js:194-199 | below the hero, a link is active iff its href is `'#'` followed by the id of the last section in view, or is `"#"` when no section is in view; duplicate hrefs are active together |
| ActiveNav.NoMatchActivatesHome | script.js:183-199 | when no section is in view, exactly the links with href `"#"` are active |
| ActiveNav.AtMostOneActive | script.js:176-199 | with pairwise distinct hrefs, at most one link is active after any update |
| ActiveNav.NavLinks.constructor | script.js:146-148 | the links keep their hrefs and initial flags, and the home link is looked up once |
| ActiveNav.NavLinks.UpdateActiveState | script.js:171-200 | the two loops leave the flags equal to `ActiveAfter`; the run completes unless the hero branch finds no home link |
| Panels.LabelFor | script.js:301-306 | a button shows the expanded label (`Show Less` / `Read Less`) iff its panel is expanded, and the default label (`Learn More` / `Read More`) iff it is collapsed |
| Panels.ExclusiveClick | script.js:289-306 | after a click, the clicked panel has flipped on its pre-click state and every other panel is collapsed |
| Panels.ClickLabels | script.js:292-306 | every button's text is the expanded label iff its panel is expanded, otherwise the default label |
| Panels.ClickLeavesAtMostOne | script.js:292-298 | whatever the prior state, at most one panel of the group is expanded after a click |
| Panels.ClickOnExpandedCollapsesAll | script.js:301-303 | clicking an expanded panel leaves the whole group collapsed |
| Panels.ClickOnCollapsedExpandsOnlyIt | script.js:304-306 | clicking a collapsed panel leaves exactly that panel expanded |
| Panels.ClickTwice | script.js:286-306 | two clicks on one panel restore the group iff no other panel was expanded |
| Panels.ExclusiveGroup.constructor | script.js:282-284 | a group starts from whatever flags and texts the markup gives |
| Panels.ExclusiveGroup.Click | script.js:286-313 | the click handler (practice; the blog handler at 324-351 is the same with `Read More`/`Read Less`) updates flags and texts to `ExclusiveClick`/`ClickLabels`, so at most one panel is expanded and the labels agree |
| Panels.FaqToggle | script.js:218-222 | an FAQ click flips that item and leaves every other item unchanged |
| Panels.FaqToggleTwice | script.js:221 | two clicks on the same FAQ item restore the original state |
| Panels.FaqTogglesCommute | script.js:218-222 | clicks on FAQ items are independent, so their order does not matter |
| Panels.Accordion.constructor | script.js:217 | the accordion starts from the markup's flags |
| Panels.Accordion.Click | script.js:220-222 | the question's click listener updates the flags to `FaqToggle` |
| Navigation.Header.constructor | script.js:115-117 | the header starts from the markup's state |
| Navigation.Header.OnScroll | script.js:120-126 | the header is `scrolled` iff `scrollY > 100`, and the menu is untouched |
| Navigation.Header.OnHamburgerClick | script.js:129-133 | the menu flag flips and the icon is "times" iff the menu is open |
| Navigation.Header.OnNavLinkClick | script.js:136-141 | a nav-link click closes the menu and shows the "bars" icon |
| Navigation.HamburgerTwiceRestores | script.js:129-133 | two hamburger clicks restore the menu flag, with the matching icon |
| ContactForm.IsSpace | script.js:364-368 | `trim` strips space, tab, newline, carriage return and NBSP, and keeps NEL, the Mongolian vowel separator and the zero-width characters |
| ContactForm.Trim | script.js:364-368 | the trimmed value is the slice of the field left once leading and trailing whitespace is removed; it is empty iff the field is all whitespace |
| ContactForm.TrimIdempotent | script.js:364-368 | trimming twice is trimming once |
| ContactForm.TrimKeepsInner | script.js:364-368 | a value with no whitespace at either end is unchanged by trimming |
| ContactForm.Submit | script.js:364-379 | a submission is rejected with the fixed alert iff name, email or message is blank; otherwise the payload has trimmed name/email/phone/message, non-empty required fields, and the untrimmed practice |
| ContactForm.SubmitIgnoresSurroundingSpace | script.js:364-373 | submitting the already-trimmed fields gives the same verdict and payload as the raw fields |
| ContactForm.ErrorText | script.js:387 | the server's error text when it is present and non-empty, otherwise `Server error` |
| ContactForm.Classify | script.js:383-388 | a reply is a success iff `res.ok && data.success`; otherwise the alert is `Error: ` followed by the error text |
| ContactForm.ServerErrorShownVerbatim | script.js:386-388 | a `{success: false, error: e}` reply shows `Error: ` + `e` exactly |

## Left out

- Particles (script.js:42-69): random sizes and positions and created DOM nodes, with nothing to state.
- Counter animation (script.js:72-111): a floating-point ramp driven by `setInterval` and a scroll trigger; exact arithmetic would not reproduce the JavaScript step count.
- AOS and GSAP entrance animations (script.js:4-8, 243-267) and the fixed free-consultation alert (script.js:270-278): library calls only.
- Debounce and the 1000 ms re-check after a nav-link click (script.js:151-168, 202-212): timer plumbing. The update is an operation callable at any time, and the smooth scroll to the top for the home link is not modelled.
- Scrolling an expanded card into view (script.js:308-312, 346-350): viewport geometry that changes no modelled state.
- The request, JSON parsing, the alerts, `console.error` and `form.reset()` (script.js:375-392): only the classification of an already-parsed reply is modelled. The network-error branch is not modelled.
- The second submit listener in `setupForm` (script.js:227-240): it alerts and resets unconditionally and is not part of the validating logic.
- Panels.ExclusiveGroup.Click: assumes each card has exactly one trigger button and one details panel; a card without a button (the source's `if (correspondingBtn)` guard) is not modelled.
- ContactForm.IsSpace: the whitespace set is fixed to the code points listed in the function, not to whatever Unicode version the browser uses.
- ContactForm.Classify: `data.success` and `data.error` are a boolean and an optional string; other JSON values and their JavaScript truthiness are not modelled.
- ActiveNav.NavLinks.UpdateActiveState: the hero section is assumed to exist; `scrollY` is an integer although browsers may report a fractional offset.
