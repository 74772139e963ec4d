# Portfolio page script — a Dafny model of its decision logic

The portfolio site's `script.js` is DOM glue around a handful of pure decisions.
This project lifts each of them out as a function over strings, sequences or a
small state record. It then proves what the page promises about them:

- **Contact form**: `isValidEmail` is a regular-expression test.
  `validateForm` applies three ordered rules to the trimmed name, e-mail and
  message and reports the first one that fails.
- **Project filter**: a click on a filter button marks that button as the only
  active one, shows the cards of its category and hides the rest.
- **Active-section highlighting**: the visibility observer's callback processes
  a batch of (section, intersecting) entries. It marks the navigation links that
  point at the last intersecting section.
- **Project overlay**: `openProjectModal` looks the id up in a fixed
  four-project catalog, renders the project, shows the overlay and locks the
  page scroll. `closeModal` hides every overlay and unlocks the scroll. The
  outside-click and Escape listeners both call `closeModal`.
- **Theme toggle**: light/dark, with the icon following the theme.
- **Visitor counters**: page views count every run; visitors count once per
  session.
- **Skill bars**: a one-shot guard, with bar k's width scheduled k × 150 ms
  after the trigger.

Files: `wrappers.dfy` (Option), `dom.dfy` (inline display values),
`jstext.dfy` (JavaScript white space, `trim`, UTF-16 `length`, truthiness),
`email.dfy`, `contact_form.dfy`, `filter.dfy`, `navigation.dfy`, `modal.dfy`,
`theme.dfy`, `visitors.dfy`, `skills.dfy`.

Modelling choices:

- An attribute that `getAttribute` may return as null is an `Option<string>`.
  `===` on two of them is Dafny equality, so a missing `data-filter` selects
  exactly the cards that have no `data-category`.
- `message.length` counts UTF-16 code units, so a character outside the Basic
  Multilingual Plane counts twice.
- The browser (DOM, storage, timers, observers) is replaced by explicit state
  records and entry sequences.
- The page registers `initializePortfolio` for `DOMContentLoaded` twice: at
  script.js:2-4 and again at script.js:1191-1194. Every setup function therefore
  runs twice per load. Where that matters, the model applies the listener once
  per registration:
  - the outside click reaches two listeners;
  - Escape reaches three listeners, including the one at script.js:1054-1070;
  - the theme toggle and the visitor tracker run twice (see Findings).

  Elsewhere the duplication is harmless or lies outside the model:
  - A filter button has two click listeners. By `ProjectFilter.ClickIdempotent`
    the second one changes nothing.
  - The nav observer exists twice. By `Navigation.BatchIdempotent` the second
    delivery changes nothing.
  - The contact form has two submit listeners, so every submit is validated
    twice. A valid form is also sent twice through `emailjs.send`. The sending
    is not modelled (see Left out).

Where the code departs from the site's intended design, the model follows the
code:

- `closeModal` does not clear the overlay's content: `body` survives a close.
- Active-section highlighting does not always leave exactly one link active.
  It leaves none when no `href` matches the section and several when hrefs
  repeat. Exactly one is guaranteed only when the hrefs are pairwise different
  and one of them matches.
- After `closeModal`, "overlay hidden implies scroll unlocked" holds only if
  the document has at least one `.modal` element.

## Model

| member | source | states |
|---|---|---|
| JsText.Utf16Length | script.js:535 | a string's JavaScript `length` lies between its character count and twice that, and equals the character count when every character is in the Basic Multilingual Plane, and twice it when every character lies above U+FFFF (each is a surrogate pair); with `Utf16LengthAppend` this fixes the length of every string |
| JsText.Utf16LengthAppend | script.js:535 | the JavaScript `length` of a concatenation is the sum of the parts' lengths |
| JsText.Trim | script.js:484-486 | the trimmed field is a slice of the raw one with only white space cut from each end, and neither end of a non-empty result is white space |
| JsText.TrimIdempotent | script.js:484-486 | trimming a trimmed field changes nothing |
| JsText.TrimBlank | script.js:484-486 | a field of white space alone trims to the empty string |
| Email.IsValidEmail | script.js:546-549 | `isValidEmail` holds iff the string is three non-empty runs of non-space, non-'@' characters joined by one '@' and then one '.' |
| Email.FirstAtScanMatchesPattern | script.js:546-549 | finding the first '@', then checking its two sides, accepts exactly the strings the regular expression matches |
| Email.ValidEmailHasNoWhitespace | script.js:547 | an accepted address contains no white space |
| Email.ValidEmailHasOneAt | script.js:547 | an accepted address has exactly one '@', with at least one character before it |
| Email.EmptyIsInvalid | script.js:530 | the empty string is refused, so the `!email` test adds nothing |
| Email.AcceptedExamples | script.js:547 | "a@b.c" and "a@b..c" match the pattern |
| Email.RejectsEmptyLocalPart | script.js:547 | "@b.c" does not match: nothing precedes the '@' |
| Email.RejectsDotAfterAt | script.js:547 | "a@.c" does not match: the dot needs a character before it |
| Email.RejectsSecondAt | script.js:547 | "a@@b.c" does not match: a second '@' is refused |
| Email.RejectsWhitespace | script.js:547 | "a b@c.d" does not match: white space is refused |
| ContactForm.ValidateForm | script.js:524-544 | the form is accepted iff the name is non-empty, the e-mail is valid and the message has at least 10 UTF-16 units; a refusal names a failing rule all of whose predecessors pass |
| ContactForm.FirstFailingRule | script.js:524-544 | the form is refused with a given rule exactly when that rule fails and every earlier rule passes |
| ContactForm.ErrorNotification | script.js:524-541 | every refusal is reported as an error notification |
| ContactForm.ValidationNotifications | script.js:524-544 | one validation shows no notification when it accepts and exactly one, the first failing rule's, when it refuses |
| ContactForm.EmptyFieldsFailTheirRules | script.js:530-535 | an empty e-mail fails the e-mail rule and an empty message fails the length rule |
| ContactForm.SubmitValidation | script.js:484-488 | the submit gate accepts iff the trimmed name is non-empty, the trimmed e-mail is valid and the trimmed message has at least 10 UTF-16 units; a raw name of white space alone is refused as missing whatever the other fields hold |
| ContactForm.SubmitGateStable | script.js:484-488 | submitting already trimmed fields gives the same verdict as submitting the raw ones |
| ProjectFilter.ShowCards | script.js:297-305 | each card keeps its place and category and is set to "block" iff the filter is "all" or equals its category, else to "none" |
| ProjectFilter.ActivateOnly | script.js:292-293 | after a click, exactly the clicked button is active and every button keeps its filter |
| ProjectFilter.Click | script.js:289-306 | after a click, exactly the clicked button is active; every card keeps its category, and is on display iff the clicked filter selects it; no card or button is added or lost |
| ProjectFilter.ClickShowsExactlySelected | script.js:289-305 | the visible cards are exactly those the clicked filter selects, all others are hidden but still present, and the active button set is exactly the clicked one |
| ProjectFilter.AllShowsEverything | script.js:299 | the "all" filter shows every card and hides none |
| ProjectFilter.LastClickWins | script.js:289-305 | a click leaves the gallery as if no earlier click had happened |
| ProjectFilter.ClickIdempotent | script.js:289-305 | applying the same filter twice gives the result of applying it once |
| Navigation.Highlight | script.js:92-97 | after an intersecting entry, a link is active iff its `href` is "#" followed by the section id, and no `href` changes |
| Navigation.ProcessBatch | script.js:88-99 | a batch keeps every link and its `href`, and leaves the links unchanged when no entry intersects |
| Navigation.LastIntersecting | script.js:90-91 | the reference for a batch: none iff no entry intersects, otherwise the id of an intersecting entry with none intersecting after it |
| Navigation.BatchLastIntersectingWins | script.js:88-99 | a batch with no intersecting entry leaves the links unchanged; otherwise it ends exactly as highlighting the last intersecting section alone |
| Navigation.HighlightForgetsHistory | script.js:92-97 | which links were active before an intersecting entry does not affect the result |
| Navigation.ActiveAfterBatch | script.js:88-99 | after a batch with an intersecting entry, the active links are exactly those whose `href` targets the last intersecting section, and there are none if no `href` matches |
| Navigation.AtMostOneActive | script.js:92-97 | with pairwise different hrefs, at most one link is active after a batch |
| Navigation.BatchIdempotent | script.js:88-99 | processing the same batch twice ends as processing it once |
| ProjectModal.LinkButtons | script.js:419-428 | the "View Code" button appears iff the repository address is truthy and the "Live Demo" button iff the demo address is; code comes before demo and each points at its address |
| ProjectModal.Render | script.js:415-454 | the overlay shows the project's title, description, technologies as tags and features as items in catalog order, with a link button for each truthy address |
| ProjectModal.OpenProjectModal | script.js:350-463 | the outcome is Opened iff the id is in the catalog. Then the project is rendered, `#project-modal` is open and the scroll locked, and other overlays are untouched. Any other id leaves the page unchanged, with a TypeError exactly for inherited object member names |
| ProjectModal.CloseModal | script.js:465-471 | every `.modal` is hidden; overflow becomes "auto" iff at least one `.modal` exists; the overlay content stays |
| ProjectModal.LockTracksOverlayPreserved | script.js:350-471 | the scroll is locked exactly while the project overlay shows: true on the loaded page and kept by every open and close |
| ProjectModal.CloseIdempotent | script.js:465-471 | closing twice is the same as closing once |
| ProjectModal.ClosedIsReleased | script.js:465-471 | after a close the project overlay is hidden and the scroll is "auto" |
| ProjectModal.CloseWithoutModalsKeepsOverflow | script.js:466-470 | with no `.modal` element, a close leaves the overflow as it was |
| ProjectModal.OnWindowClick | script.js:335-340 | a click on the overlay backdrop, which reaches both registered listeners, ends as one `closeModal`; any other click changes nothing |
| ProjectModal.OnKeyDown | script.js:343-347 | Escape, which reaches all three registered listeners (this one twice and the one at script.js:1067-1069), ends as one `closeModal`; any other key changes nothing |
| ProjectModal.OpenReplaces | script.js:413-457 | opening one project after another ends as opening the second alone: its content replaces the first, and the lock is kept |
| ProjectModal.UnknownIdIsHarmless | script.js:413-414 | an id outside the catalog changes neither the overlay, the lock nor the content |
| ProjectModal.CatalogKeys | script.js:354-411 | the catalog holds exactly todo-golang, amazon-clone, grade-calculator and chat-app, none of them an inherited member name |
| ProjectModal.CatalogLinks | script.js:354-428 | every catalog project renders one "View Code" button and no "Live Demo" button |
| ProjectModal.TodoGolangScenario | script.js:355-368 | opening todo-golang shows the overlay titled "Todo App with Golang" with the tags Golang, REST API and JSON |
| Theme.InitialTheme | script.js:110 | the starting theme is the stored one unless it is null or empty, in which case it is "light" |
| Theme.Toggled | script.js:116-117 | a toggle yields "light" or "dark", and "dark" exactly when the theme was "light" |
| Theme.IconClass | script.js:125-130 | the icon is the moon exactly for "light" and the sun otherwise |
| Theme.Setup | script.js:108-113 | at load the page takes the initial theme, leaves storage alone, and its icon, if any, shows that theme |
| Theme.ToggleListener | script.js:115-122 | a toggle flips the theme, stores the new value and keeps the icon showing it |
| Theme.ToggleInvolution | script.js:117 | two toggles bring "light" and "dark" back to themselves |
| Theme.ClickAsWritten | script.js:1191-1194 | as written, a click runs the toggle listener twice: a light page stays light, a dark page stays dark, any other theme ends dark, and the result is stored |
| Theme.FirstClickAsWrittenStaysLight | script.js:1191-1194 | on a fresh page with nothing stored, the first click leaves the page light as written, where one listener would make it dark |
| Theme.Click | script.js:115-122 | with one listener, a click swaps light and dark, ends in light or dark, and stores the new theme so the next load starts in it; the icon follows |
| Theme.ClickTwiceRestores | script.js:115-122 | two clicks return the page to its theme |
| Visitors.Track | script.js:635-648 | one run adds exactly one page view, adds one visitor iff the session flag was absent, and sets the flag |
| Visitors.OneVisitorPerSession | script.js:641-648 | n runs in a session add n page views and at most one visitor: exactly one iff the flag was absent and n > 0 |
| Visitors.NewSessionCountsVisitor | script.js:637-645 | the first run of a new session counts one visitor and one page view |
| Visitors.PageLoadAsWritten | script.js:1191-1194 | as written, one page load adds two page views and, on the session's first load, one visitor |
| Visitors.FirstLoadAsWrittenCountsTwoViews | script.js:1191-1194 | the first load in a fresh browser shows two page views as written, where one initialisation shows one |
| Visitors.PageLoad | script.js:635-648 | with one initialisation per load, a load adds one page view, plus one visitor only on the session's first load |
| Skills.Observe | script.js:249-258 | a batch runs `animateSkillBars` once if the guard was down and an entry intersects, and otherwise not at all. Such a run schedules exactly the bars' updates. Afterwards the guard is up iff it was up or an entry intersected |
| Skills.SchedulesAtMostOnce | script.js:249-276 | over any sequence of batches, the bars' full schedule is added exactly once if the guard was down and some entry intersected, and nothing is added otherwise |
| Skills.FreshGuardSchedulesOnce | script.js:247-276 | from the guard `setupSkills` creates, the page's schedule is the bars' updates if the section ever intersected, and empty otherwise |
| Skills.ObserveConcat | script.js:251-258 | splitting entries across batches does not change the outcome |
| Skills.AnimatedStaysAnimated | script.js:254-256 | once the bars are animated, no later batch animates them again |
| Skills.WidthValue | script.js:272-273 | a bar's width is its `data-width` followed by "%" ("null%" when the attribute is missing) |
| Skills.AnimateSkillBars | script.js:268-276 | one update per bar with that bar's configured width; the first starts at once and each next one 150 ms after the one before |
| Skills.StaggerIncreases | script.js:274 | bar j starts (j − i) × 150 ms after bar i |

## Left out

- Loading screen (`setupLoading`): random progress and timers.
- Counter animation (`animateCounters`): floating-point increments driven by animation frames.
- Scroll progress bar, back-to-top button, navbar hide/show and parallax: floating-point window geometry.
- Fade-in on scroll (`setupScrollAnimations`): style writes only.
- Hamburger menu toggle: class toggling outside the modelled decisions.
- `emailjs.send` and the submit handler's async flow: a network call to a library that is not part of this model. The model stops at the validation gate.
- `showNotification`'s DOM work and its five-second removal timer. The model keeps only which notification validation shows.
- The "coming soon" notification of future cards (`setupFutureProjects`): not one of the modelled decisions.
- Resume HTML/Blob download and canvas image: I/O and drawing.
- `toggleBlogContent` and `toggleTestimonial` (script.js:602-632): show/hide style toggles on blog and testimonial cards, outside the modelled decisions.
- The CSS injected as style strings (script.js:861-940): presentation only.
- Visitors.Track: JavaScript numbers are doubles, so the counters would lose precision beyond 2^53. The model's counters are unbounded naturals.
- `debounce`/`throttle`, lazy image loading, preloading, form auto-save, print styles, analytics and clipboard copy: timers, storage I/O or style strings.
- The Ctrl+K and Ctrl+H keyboard shortcuts (script.js:1054-1064): they only click other controls.
- Overlay markup beyond its content fields: the title, description, tags, features and link buttons are kept; the HTML text and the slide-in animation are not.
- ProjectModal.OpenProjectModal: requires `#project-modal` to be one of the `.modal` elements. The TypeErrors a page without `#project-modal`, `#modal-body` or `.modal-content` would raise are not modelled. Non-string ids are not modelled.
- Visitors.Track: stored counters are taken to be the decimal strings the script itself writes. A non-numeric stored value, which JavaScript would turn into NaN, is not modelled, and neither is the text written into the counter elements.
- Skills: the second observer the duplicate initialisation creates has its own `hasAnimated` flag, so the bars are scheduled twice per load. Each schedule writes the same widths, so this is not modelled separately.
- ProjectFilter.ShowCards: the `fadeInUp` animation set on shown cards is not modelled.

## Findings

| source | as written | input that shows it | evidently intended | confidence | as-written member | corrected member |
|---|---|---|---|---|---|---|
| script.js:1191-1194 | `initializePortfolio` is registered a second time, so `setupTheme` adds a second click listener to the toggle and each click toggles twice | one click on the toggle of a page whose theme is "light" | the click switches the page to "dark" | not executed; high if the page loads script.js once | Theme.FirstClickAsWrittenStaysLight | Theme.Click |
| script.js:1191-1194 | the second registration also runs `setupVisitorTracking` a second time on every load | one page load with pageViews at 0 | pageViews becomes 1 | not executed; high if the page loads script.js once | Visitors.FirstLoadAsWrittenCountsTwoViews | Visitors.PageLoad |
