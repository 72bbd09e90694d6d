# Portfolio site client logic, in Dafny

This project models the four pieces of client-side logic in a personal
portfolio site built with React. Each is modelled as a state machine or a
selection function, with its behaviour proved:

- **Typewriter title** (`DynamicTitle`, module `DynamicTitle`). The hero
  section rotates through a list of titles. It types one character at a
  time, holds the full title, deletes one character at a time, then moves
  on to the next title.
  - `Step` is one timer-driven transition of the effect and `Wait` is the
    timeout armed before it.
  - Class `TitleRotator` holds the component's four state variables:
    - `Tick` performs one transition.
    - `Run` loops over a number of ticks.
- **Project filter** (`ProjectsSection`, module `ProjectsSection`). The
  category buttons set `activeFilter`. `Filter` is the nested conditional
  that selects the projects shown, and `Selects` is a flat reference
  definition of the same choice. Class `Section` holds `activeFilter`.
- **Active-section tracker** (`Index`, module `IndexPage`). The
  intersection-observer callback walks each batch of entries. Every
  intersecting entry overwrites `activeSection`, and the navigation dots
  highlight the dot equal to it. `AfterBatch` is the specification of one
  callback. `Page.OnIntersection` is the loop itself.
- **Project card** (`ProjectCard`, module `ProjectCard`). A decision table
  over the viewport width, the optional GitHub and demo links and the
  `isHovered`/`isExpanded` flags. It decides what a click does and which
  controls are visible. Class `Card` holds the two flags and the click and
  hover handlers.

How the browser is abstracted:

- Timers become ticks, each with the wait it would have taken.
- `window.innerWidth` is an integer parameter of every handler that reads
  it.
- Opening a link in a new tab is the handler's return value.
- An observer batch is a sequence of `(targetId, isIntersecting)` entries.
- Optional props are `Option` values.
- The JavaScript truthiness of an optional link (absent or `""` are false)
  is `Truthy`.

## Model

| member | source | states |
|---|---|---|
| DynamicTitle.NextIndexIsMod | src/components/DynamicTitle.tsx:46 | the wrap-around successor used by the advance equals `(index + 1) % titles.length` |
| DynamicTitle.Step | src/components/DynamicTitle.tsx:20-50 | a transition never moves the index outside `[0, titles.length)` |
| DynamicTitle.StepKeepsInvariant | src/components/DynamicTitle.tsx:15-50 | every transition keeps the shown text a prefix of the current title, the index in range, and exactly one of `isTyping`/`isDeleting` set |
| DynamicTitle.TypingAppendsNextChar | src/components/DynamicTitle.tsx:24-27 | a typing tick below the title's length appends exactly the title's next character and changes nothing else |
| DynamicTitle.DeletingDropsLastChar | src/components/DynamicTitle.tsx:38-41 | a deleting tick on non-empty text removes exactly its last character, and the index and the phase stay the same |
| DynamicTitle.IndexMovesOnlyWhenEmpty | src/components/DynamicTitle.tsx:43-47 | the index changes only while deleting an empty text. It then moves to the next title (modulo the count), the text stays empty and typing restarts |
| DynamicTitle.StepsKeepInvariant | src/components/DynamicTitle.tsx:15-50 | the invariant holds after any number of ticks, so it holds in every state reachable from the initial one |
| DynamicTitle.TypingTick | src/components/DynamicTitle.tsx:24-27 | typing on a prefix of length j gives the prefix of length j + 1, after a wait of `speed` |
| DynamicTitle.DeletingTick | src/components/DynamicTitle.tsx:38-41 | deleting on a prefix of length j > 0 gives the prefix of length j - 1, after a wait of `speed / 2` |
| DynamicTitle.TypingRun | src/components/DynamicTitle.tsx:24-27 | k typing ticks from the prefix of length j give the prefix of length j + k |
| DynamicTitle.TypingTime | src/components/DynamicTitle.tsx:25-27 | those k typing ticks take k waits of `speed` |
| DynamicTitle.DeletingRun | src/components/DynamicTitle.tsx:38-41 | k deleting ticks from the prefix of length j give the prefix of length j - k |
| DynamicTitle.DeletingTime | src/components/DynamicTitle.tsx:39-41 | those k deleting ticks take k waits of `speed / 2` |
| DynamicTitle.TypedFully | src/components/DynamicTitle.tsx:24-28 | from an empty typing state, `len(title)` ticks show the whole title, still typing |
| DynamicTitle.Held | src/components/DynamicTitle.tsx:29-35 | the next (hold) tick switches to deleting and leaves the full title shown |
| DynamicTitle.Emptied | src/components/DynamicTitle.tsx:37-42 | `len(title)` more ticks empty the text, still deleting, on the same title |
| DynamicTitle.AdvanceTick | src/components/DynamicTitle.tsx:43-47 | deleting on an empty text gives an empty typing state on the next title |
| DynamicTitle.Advanced | src/components/DynamicTitle.tsx:20-50 | one full cycle of `2 * len(title) + 2` ticks ends on a clean start of the next title |
| DynamicTitle.FullCycle | src/components/DynamicTitle.tsx:20-50 | the four phase boundaries of a cycle (typed, held, emptied, advanced), with the new index equal to `(i + 1) % titles.length` |
| DynamicTitle.TypingPhaseTime | src/components/DynamicTitle.tsx:25-27 | the typing phase waits `speed` per character |
| DynamicTitle.HoldPhaseTime | src/components/DynamicTitle.tsx:31-34 | the hold adds exactly `delay` |
| DynamicTitle.DeletingPhaseTime | src/components/DynamicTitle.tsx:39-41 | the deleting phase adds `speed / 2` per character |
| DynamicTitle.AdvancePhaseTime | src/components/DynamicTitle.tsx:43-47 | the advance adds no wait, as it runs without a timer |
| DynamicTitle.CycleDuration | src/components/DynamicTitle.tsx:20-50 | a full cycle on a title of length n takes `n * speed + delay + n * (speed / 2)` |
| DynamicTitle.CyclesRotate | src/components/DynamicTitle.tsx:46 | m full cycles from title i end on a clean start of the title reached by m advances |
| DynamicTitle.Cycles | src/components/DynamicTitle.tsx:20-50 | m full cycles from title i end on a clean start of title `(i + m) % titles.length` |
| DynamicTitle.BackToStart | src/components/DynamicTitle.tsx:46 | `titles.length` full cycles bring the rotator back to its starting state |
| DynamicTitle.TitleRotator.constructor | src/components/DynamicTitle.tsx:10-18 | mounting gives index 0, empty text, typing and not deleting; speed and delay default to 100 and 2000 |
| DynamicTitle.TitleRotator.Tick | src/components/DynamicTitle.tsx:20-50 | the new state is `Step` of the old one, the wait is `Wait` of the old one, and the invariant is kept |
| DynamicTitle.TitleRotator.Run | src/components/DynamicTitle.tsx:20-50 | after k ticks the state is the k-fold `Step` of the old state, and the total time is the sum of the k waits |
| ProjectCard.EffectiveStatus | src/components/ProjectCard.tsx:31 | a missing status is `completed`; a given one is kept |
| ProjectCard.StatusLabel | src/components/ProjectCard.tsx:116 | the badge reads "Active", "Ongoing" or "Completed" exactly when the effective status is active, ongoing or completed |
| ProjectCard.CardClickAction | src/components/ProjectCard.tsx:44-56 | narrow: toggle. Wide with a truthy GitHub link: open it. Wide with only a truthy demo link: open that. Wide with neither: toggle |
| ProjectCard.ExpandButtonIffClickExpands | src/components/ProjectCard.tsx:58-61 | the show-more button is shown exactly when a card click would toggle the expansion |
| ProjectCard.OpenedUrlIsOwnLink | src/components/ProjectCard.tsx:50-51 | a link a click opens is non-empty and is the card's GitHub or demo link |
| ProjectCard.ActionButtonsVisible | src/components/ProjectCard.tsx:142-170 | the action buttons are shown only inside the visible details panel |
| ProjectCard.CodeButtonVisible | src/components/ProjectCard.tsx:170-190 | "Code" is shown only with a truthy GitHub link and visible action buttons |
| ProjectCard.DemoButtonVisible | src/components/ProjectCard.tsx:191-209 | "Demo" is shown only with a truthy demo link and visible action buttons |
| ProjectCard.ActionButtonsByViewport | src/components/ProjectCard.tsx:142-170 | on a phone the action buttons show exactly when expanded; on a wide screen exactly when the details panel does |
| ProjectCard.ExpandButtonLabel | src/components/ProjectCard.tsx:233-243 | the label is "Show less" exactly when expanded and "Show more" exactly when not |
| ProjectCard.Card.constructor | src/components/ProjectCard.tsx:35-36 | a card mounts neither hovered nor expanded |
| ProjectCard.Card.HandleCardClick | src/components/ProjectCard.tsx:44-56 | a toggle decision flips `isExpanded` and opens nothing. An open decision returns that link and keeps `isExpanded`. Hover is untouched |
| ProjectCard.Card.ClickExpandButton | src/components/ProjectCard.tsx:228-231 | the shown button flips `isExpanded` (so two presses restore it) and leaves hover alone |
| ProjectCard.Card.ClickCodeButton | src/components/ProjectCard.tsx:181-184 | the visible "Code" button opens the non-empty GitHub link |
| ProjectCard.Card.ClickDemoButton | src/components/ProjectCard.tsx:200-203 | the visible "Demo" button opens the non-empty demo link |
| ProjectCard.Card.HoverStart | src/components/ProjectCard.tsx:78 | hover is set only on a wide viewport; a phone leaves it as it was |
| ProjectCard.Card.HoverEnd | src/components/ProjectCard.tsx:79 | hover is cleared only on a wide viewport; a phone leaves it as it was |
| ProjectsSection.Where | src/components/ProjectsSection.tsx:72-77 | the array filter keeps an order-preserving subsequence holding each accepted project as often as the input does, and no other |
| ProjectsSection.FilterMeaning | src/components/ProjectsSection.tsx:69-77 | every filter's result is an order-preserving subsequence of the projects holding exactly the projects `Selects` accepts, with their multiplicity |
| ProjectsSection.AllShowsEverything | src/components/ProjectsSection.tsx:69-70 | "All" returns the list unchanged |
| ProjectsSection.HealthcareIsFullStack | src/components/ProjectsSection.tsx:71-76 | "Healthcare" and "Full-Stack" give the same list, which holds exactly the projects titled "FollowUp AI" |
| ProjectsSection.FilterIdempotent | src/components/ProjectsSection.tsx:69-77 | filtering the shown list again with the same filter gives the same list |
| ProjectsSection.ShowsEmptyMessage | src/components/ProjectsSection.tsx:157-167 | the "No projects found" message shows exactly when the filter selects no project |
| ProjectsSection.EveryCategoryShowsSomething | src/components/ProjectsSection.tsx:9-66 | for the shipped projects, every category button yields a non-empty list and no empty message |
| ProjectsSection.Section.constructor | src/components/ProjectsSection.tsx:7 | the section mounts with filter "All", showing every project |
| ProjectsSection.Section.ClickCategory | src/components/ProjectsSection.tsx:125 | a button click makes its category the active filter, and the shown list is non-empty |
| IndexPage.AfterBatch | src/pages/Index.tsx:35-41 | after a batch the active section is the id of the last intersecting entry, or unchanged if none intersect |
| IndexPage.BatchStaysInSections | src/pages/Index.tsx:35-41 | a batch about section ids only keeps the active section a section id |
| IndexPage.StaysInSections | src/pages/Index.tsx:45-46 | if every observed id is a section, the active section stays a section across any sequence of callbacks |
| IndexPage.ObservedIdsHaveDots | src/pages/Index.tsx:94-156 | every `section[id]` the page observes has a navigation dot |
| IndexPage.ExitsNeverClear | src/pages/Index.tsx:37-40 | a non-intersecting entry at the end of a batch changes nothing |
| IndexPage.EnterEnterExit | src/pages/Index.tsx:35-41 | "A enters, B enters, A exits" leaves B active, in one batch or in three |
| IndexPage.AtMostOneDot | src/pages/Index.tsx:76-84 | at most one dot is highlighted, and one is exactly when the active section is a section id |
| IndexPage.Page.constructor | src/pages/Index.tsx:12 | the page mounts with "hero" active |
| IndexPage.Page.OnIntersection | src/pages/Index.tsx:35-41 | the loop over the batch ends with `AfterBatch` of the old active section. With observed ids only, a section stays a section |

## Left out

- Timer scheduling and cancellation are not modelled. The `setTimeout`/`clearTimeout` pairs and the effect cleanup collapse into one tick per fired timer, labelled with its wait. Browser timeout clamping and stale callbacks are not modelled.
- React state batching is assumed. The two or three setters of the hold and advance branches land in one render, which is one tick.
- An empty `titles` list is excluded by the `TitleRotator` constructor's precondition. The component reads the length of `titles[0]` and fails on an empty list.
- A change of the `titles`, `speed` or `delay` props after mounting is not modelled. In the model they are fixed when the rotator is built.
- Text length counts characters. The component's JavaScript strings count UTF-16 code units.
- `DynamicTitle.Step` has a branch that leaves the state unchanged when neither phase flag is set. The component does nothing in that state. The invariant shows it is unreachable.
- Animations (framer-motion variants, transitions, springs, fades) and the blinking cursor are left out. They are presentation only.
- The intersection observer's geometry (threshold, root margin) is not modelled. Which entries a batch holds is an input.
- The anchor-click smooth-scroll handler is left out. It is DOM event plumbing.
- `window.innerWidth` and `window.open` are not called. The width is a parameter and the opened link is a return value.
- The hero section's `scrollToFollowUpProject`, the intro splash and the theme and storage handling are not part of this model. So are the style-class lookups and the static sections (about, skills, awards, contact, header).
- The team-size and logo badges render directly from their props. They hold no logic beyond presence, and are not modelled.
