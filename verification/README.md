# Portfolio site: form validator, section tracker and formatters

This project models the logic inside a personal portfolio web application written
with React. It has two revisions of the page's root component, `App.js` and
`App.tsx`, plus a separate registration page. The model covers:

- **The registration form** (`RegisterPage.tsx`).
  - Three fields, each with its own rule and ordered error messages:
    - the name must trim to at least two characters;
    - the email must match `^[^\s@]+@[^\s@]+\.[^\s@]+$`;
    - the password needs at least eight characters and must pass the lookahead
      pattern for a lower-case letter, an upper-case letter and a digit.
  - The error map those rules maintain.
  - Change and blur handling, where only touched fields are re-validated.
  - The validation step of submit:
    - every check reads the error map as it was when the handler was created;
    - `every` stops at the first failure;
    - the last call's map is the one committed.
  - The status icon shown beside each field.
  - The condition that disables the submit button.
- **The active-section rule.** The intersection-observer callback makes the last
  intersecting entry that has an id the active section. A batch without one leaves
  the active section unchanged. Both revisions of the root component share this rule.
- **The root component's state.**
  - The active section, the selected project shown in the modal, and the Escape key.
  - In `App.tsx` only, the mobile menu, which `scrollToSection` closes.
- **The navigation bar** (`Navbar.js`):
  - the scroll flag, set past 50 pixels;
  - the menu toggle, and the mobile links that close the menu;
  - link highlighting and link labels.
- **The formatters:**
  - the experience phrase (`N+ Years` or `N Year`) and the headline built from it;
  - the skill-category label, made by putting a space before each capital and then trimming;
  - the project-card tags, showing three tags and then `+K more`;
  - the logo text, the first word of the name followed by ` Portfolio`.

JavaScript's built-in behaviour is written out in the `JsBuiltins` module:

- the whitespace set of `trim` and `\s`;
- the line terminators that `.` does not match;
- ASCII `[a-z]`, `[A-Z]` and `\d`;
- `split(' ')[0]`;
- the decimal text of an integer, together with a parser that reads it back.

Modules: `Wrappers` (Option), `JsBuiltins`, `RegisterPage`, `SectionObserver`,
`AppJs`, `AppTsx`, `Navbar`, `PortfolioData`, `Skills` and `Projects`.

Facts the DOM or the clock would supply are parameters of the model:

- the ids of the elements on the page (`existing`);
- the observer's entries;
- the scroll offset;
- the key pressed;
- the current year.

## Model

| member | source | states |
|---|---|---|
| JsBuiltins.IsWhitespace | src/pages/RegisterPage.tsx:35 | the characters `trim` removes and `\s` matches: ECMAScript's WhiteSpace and LineTerminator sets |
| JsBuiltins.IsLineTerminator | src/pages/RegisterPage.tsx:60 | the characters `.` does not match: line feed, carriage return, line separator and paragraph separator |
| JsBuiltins.LeadingWhitespace | src/pages/RegisterPage.tsx:35 | the count is of a prefix that is all whitespace and is followed by a non-whitespace character or the end |
| JsBuiltins.TrailingWhitespace | src/pages/RegisterPage.tsx:35 | the same for the suffix |
| JsBuiltins.Trim | src/pages/RegisterPage.tsx:35-37 | `trim` yields the contiguous slice that starts after the leading whitespace, has no whitespace at either end, and is followed only by whitespace; it is empty exactly when the input is all whitespace |
| JsBuiltins.TrimOfTrimmed | src/components/Skills.js:12 | trimming a string with no whitespace at either end changes nothing |
| JsBuiltins.LineTerminatorIsWhitespace | src/pages/RegisterPage.tsx:60 | every character `.` refuses is also `\s` whitespace |
| JsBuiltins.ToUpperAscii | src/components/Navbar.js:30 | `toUpperCase` maps each lower-case ASCII letter to the upper-case letter at the same alphabet position, and leaves other characters alone |
| JsBuiltins.FirstWord | src/App.tsx:251 | `split(' ')[0]` is the longest space-free prefix: a prefix with no space, followed by a space or the end |
| JsBuiltins.NatToDecimal | src/data/portfolioData.js:6 | the decimal text is non-empty, all digits, and has no leading zero |
| JsBuiltins.IntToString | src/data/portfolioData.js:6 | the template text of an integer is its canonical decimal form: `-` exactly for negatives, then a non-empty run of digits with no leading zero (only zero itself prints as `0`) |
| JsBuiltins.DecimalRoundTrip | src/data/portfolioData.js:6 | reading the digits back gives the number |
| JsBuiltins.IntRoundTrip | src/data/portfolioData.js:6 | reading a signed integer's text back gives the integer, so distinct counts print differently |
| RegisterPage.FormData.Set | src/pages/RegisterPage.tsx:74 | `{...formData, [name]: value}` sets the named field and keeps the other two |
| RegisterPage.NameError | src/pages/RegisterPage.tsx:34-42 | required exactly when the name is all whitespace, too short exactly when it trims to one character, valid exactly when it trims to two or more |
| RegisterPage.MatchesEmailRegex | src/pages/RegisterPage.tsx:45 | the anchored address pattern, defined as a split of the string into a non-empty run without whitespace or `@`, an `@`, a second such run, a `.`, and a third such run |
| RegisterPage.AcceptedEmailIsOneLine | src/pages/RegisterPage.tsx:44-53 | an address the email rule accepts contains no line terminator |
| RegisterPage.RegexToShape | src/pages/RegisterPage.tsx:45 | a match of the address pattern has no whitespace, exactly one `@` and a `.` inside the domain |
| RegisterPage.ShapeToRegex | src/pages/RegisterPage.tsx:45 | every string of that shape matches the address pattern |
| RegisterPage.EmailRegexShape | src/pages/RegisterPage.tsx:45 | the address pattern accepts exactly the strings of that shape, in both directions |
| RegisterPage.EmailError | src/pages/RegisterPage.tsx:44-53 | required exactly when empty, invalid exactly when non-empty and not of the address shape, valid exactly when of that shape |
| RegisterPage.MatchesStrengthRegex | src/pages/RegisterPage.tsx:60 | the unanchored lookahead pattern, defined as some start position from which a lower-case letter, an upper-case letter and a digit can each be reached without crossing a line terminator |
| RegisterPage.StrengthRegexNeedsAllClasses | src/pages/RegisterPage.tsx:60 | a password the lookahead pattern accepts contains a lower-case letter, an upper-case letter and a digit |
| RegisterPage.StrengthRegexOnOneLine | src/pages/RegisterPage.tsx:60 | on a password without line terminators, the pattern accepts exactly the passwords containing all three classes |
| RegisterPage.PasswordError | src/pages/RegisterPage.tsx:55-65 | checked in order of priority: required exactly when empty; too short exactly when 1 to 7 characters; too weak exactly when 8 or more characters that fail the pattern; valid exactly when 8 or more that pass it |
| RegisterPage.FieldError | src/pages/RegisterPage.tsx:33-66 | every error message is a non-empty (truthy) string |
| RegisterPage.Validated | src/pages/RegisterPage.tsx:30-68 | the committed map sets or deletes only the validated field's entry; that entry is present exactly when the field breaks its rule and then holds its message; other entries are unchanged; and the messages stay non-empty |
| RegisterPage.ValidatedEmptyIff | src/pages/RegisterPage.tsx:69 | `validateField` returns true exactly when its field passes and no other field already had an error |
| RegisterPage.EveryFrom | src/pages/RegisterPage.tsx:93-95 | the short-circuiting `every` over the keys from the `i`-th on; its verdict is true exactly when the map it leaves committed is empty |
| RegisterPage.EveryFromMeaning | src/pages/RegisterPage.tsx:93-95 | submit's `every` passes exactly when each of the three `validateField` calls (for name, email and password) reports success, and the committed map is the map of one of those calls |
| RegisterPage.SubmitPassesIff | src/pages/RegisterPage.tsx:92-100 | submit's validation step passes exactly when the starting error map is empty and all three fields pass their rules |
| RegisterPage.SubmitReportsFirstError | src/pages/RegisterPage.tsx:92-100 | from an empty map, a failed submit commits exactly one error: the first invalid field in key order, with its message |
| RegisterPage.GetFieldStatus | src/pages/RegisterPage.tsx:119-122 | no status until the field is touched; after that, error exactly when its entry is a non-empty message, and success otherwise |
| RegisterPage.StatusAfterBlur | src/pages/RegisterPage.tsx:81-85 | after a blur, the field shows error exactly when its value breaks its rule, and success otherwise |
| RegisterPage.SubmitDisabled | src/pages/RegisterPage.tsx:277 | the button is enabled exactly when nothing is loading and the error map is empty |
| RegisterPage.EnabledSubmitChecksFields | src/pages/RegisterPage.tsx:92-100 | when the button is enabled, submit passes exactly when all three fields pass |
| RegisterPage.RegisterForm.constructor | src/pages/RegisterPage.tsx:23-28 | the initial state: empty fields, empty message, password hidden, not loading, no errors, nothing touched |
| RegisterPage.RegisterForm.ValidateField | src/pages/RegisterPage.tsx:30-70 | commits `Validated` of the current map and returns whether the committed map is empty; messages stay non-empty |
| RegisterPage.RegisterForm.HandleChange | src/pages/RegisterPage.tsx:72-79 | stores the value; re-validates the field if and only if it was touched |
| RegisterPage.RegisterForm.HandleBlur | src/pages/RegisterPage.tsx:81-85 | marks the field touched and validates it |
| RegisterPage.RegisterForm.TogglePasswordVisibility | src/pages/RegisterPage.tsx:242 | flips the password's visibility |
| RegisterPage.RegisterForm.HandleSubmit | src/pages/RegisterPage.tsx:87-100 | clears the message; the verdict and the committed map are those of the short-circuiting `every` over the starting map; loading stays set exactly when validation passed |
| SectionObserver.Qualifies | src/App.js:42 | an entry counts when it is intersecting and its id is non-empty (truthy) |
| SectionObserver.LastQualifying | src/App.js:40-46 | the result is none exactly when no entry is intersecting with an id; otherwise it is the id of an entry that qualifies with no later entry qualifying |
| SectionObserver.PrefixFacts | src/App.js:41-45 | an entry at the end of the batch that does not qualify changes neither verdict |
| SectionObserver.BatchOutcome | src/App.tsx:211-219 | after a batch the active section is unchanged if no entry qualifies, and is the last qualifying entry's id otherwise; it is always the old value or some qualifying id |
| SectionObserver.ObserveEntries | src/App.js:40-46 | the `forEach` loop leaves the active section at the last qualifying entry's id, or at the old value when there is none |
| SectionObserver.LastQualifyingUnique | src/App.tsx:212-218 | the last qualifying entry is the one whose id wins |
| SectionObserver.BatchStaysWithin | src/App.js:40-46 | if the old value and all qualifying ids lie in a set of ids, so does the new active section |
| AppJs.App.constructor | src/App.js:18-19 | starts at `hero` with no project selected |
| AppJs.App.OnIntersect | src/App.js:40-46 | the active section becomes the batch's outcome and remains the landing section or an id some entry carried |
| AppJs.App.ScrollToSection | src/App.js:59-64 | scrolls exactly when an element has the id, and changes no state |
| AppJs.App.OpenProject | src/App.js:81 | a card click selects its project |
| AppJs.App.CloseProject | src/App.js:88 | closing clears the selection |
| AppJs.App.OnKeyDown | src/components/ProjectModal.js:6-19 | Escape clears the selection; any other key leaves it |
| AppTsx.LogoText | src/App.tsx:251 | the logo is the name's longest space-free prefix followed by ` Portfolio` |
| AppTsx.NavHighlighting | src/App.tsx:254-262 | this revision's six distinct links, desktop and mobile, highlight at most one section, and `hero` highlights none |
| AppTsx.PortfolioLogo | src/App.tsx:251 | for this portfolio the logo reads `Lav Portfolio` |
| AppTsx.App.constructor | src/App.tsx:186-188 | the menu is closed, the section is `hero`, and no project is selected |
| AppTsx.App.OnIntersect | src/App.tsx:211-219 | the active section becomes the batch's outcome and remains the landing section or an id some entry carried |
| AppTsx.App.ScrollToSection | src/App.tsx:236-242 | scrolls exactly when an element has the id; the menu closes exactly then, and otherwise keeps its state |
| AppTsx.App.ToggleMenu | src/App.tsx:266 | the menu button flips the menu |
| AppTsx.App.OpenProject | src/App.tsx:385 | a card click selects its project |
| AppTsx.App.CloseProject | src/App.tsx:456 | closing clears the selection |
| AppTsx.App.OnKeyDown | src/App.tsx:131-144 | Escape clears the selection; any other key leaves it |
| Navbar.IsHighlighted | src/components/Navbar.js:28 | a link is highlighted when its id equals the active section |
| Navbar.HighlightCount | src/components/Navbar.js:24-28 | no link is highlighted exactly when the active section is not among the links; with distinct links, at most one is highlighted |
| Navbar.NavHighlighting | src/components/Navbar.js:15 | the bar's seven links highlight at most one at a time, and the landing section `hero` highlights none |
| Navbar.Capitalize | src/components/Navbar.js:30 | the label keeps the id's length, upper-cases the first character and keeps the rest |
| Navbar.NavLabels | src/components/Navbar.js:30 | `about`, `experience` and `contact` read `About`, `Experience` and `Contact` |
| Navbar.Navbar.constructor | src/components/Navbar.js:4-5 | the menu is closed and the bar is not scrolled |
| Navbar.Navbar.OnScroll | src/components/Navbar.js:8-10 | the bar is scrolled exactly when the offset exceeds 50 |
| Navbar.Navbar.ToggleMenu | src/components/Navbar.js:36 | the menu button flips the menu |
| Navbar.Navbar.DesktopLinkClick | src/components/Navbar.js:27 | a desktop link scrolls to its own section and leaves the menu alone |
| Navbar.Navbar.MobileLinkClick | src/components/Navbar.js:51-54 | a mobile link scrolls to its own section and closes the menu |
| PortfolioData.ExperienceYears | src/data/portfolioData.js:3-5 | the count is the number of years since joining in 2020 |
| PortfolioData.ExperienceString | src/data/portfolioData.js:6 | the phrase is the count's text followed directly by `+ Years` when the count exceeds one, and by ` Year` otherwise; its length leaves nothing between the two parts |
| PortfolioData.ExperienceStringDeterminesYears | src/data/portfolioData.js:6 | equal phrases come from equal counts |
| PortfolioData.ExperienceStringExamples | src/data/portfolioData.js:6 | the phrases for 6, 1 and 0 are `6+ Years`, `1 Year` and `0 Year` |
| PortfolioData.Title | src/data/portfolioData.js:10 | the headline is the fixed prefix, then exactly the experience phrase for the current year, then ` Experience` |
| PortfolioData.TitleIn2026 | src/data/portfolioData.js:10 | in 2026 the headline ends `6+ Years Experience` |
| PortfolioData.EveryProjectHasMoreThanThreeTags | src/data/portfolioData.js:57-99 | every listed project has more than three technologies |
| Skills.SpaceBeforeCapitals | src/components/Skills.js:12 | the global replacement never shortens the key; what it inserts is stated by the lemmas below |
| Skills.SpacingPutsSpaceBeforeCapitals | src/components/Skills.js:12 | after the replacement, every ASCII capital has a space right before it |
| Skills.CategoryLabel | src/components/Skills.js:12 | the heading has no whitespace at either end |
| Skills.CapitalsFollowSpaces | src/components/Skills.js:12 | inside a heading, every capital except a leading one follows a space |
| Skills.RemoveSpacesUndoesSpacing | src/components/Skills.js:12 | deleting the spaces from the spaced key of a space-free key gives the key back |
| Skills.SpacingOnlyAddsSpaces | src/components/Skills.js:12 | the replacement introduces no whitespace other than spaces |
| Skills.RemoveSpacesIgnoresTrim | src/components/Skills.js:12 | when the only whitespace is the space, trimming does not change what remains after deleting spaces |
| Skills.LabelRemovesToKey | src/components/Skills.js:12 | a key without whitespace is recovered from its heading by deleting spaces, so distinct keys get distinct headings |
| Skills.NoCapitalsNoSpacing | src/components/Skills.js:12 | a key without capitals is not changed by the replacement |
| Skills.LowerCaseKeyUnchanged | src/components/Skills.js:12 | the heading of an all-lower-case key is the key itself |
| Skills.SpacingAppend | src/components/Skills.js:12 | the global replacement works piecewise over concatenation |
| Skills.CloudDevOpsLabel | src/components/Skills.js:12 | `cloudDevOps` is headed `cloud Dev Ops` |
| Skills.SkillCards | src/components/Skills.js:9-17 | one card per entry, in order; each is headed by its key's heading and lists that entry's skills unchanged |
| Skills.PortfolioSkillLabels | src/data/portfolioData.js:19-26 | the portfolio shows six cards, the first headed `frontend` and the fourth `cloud Dev Ops` |
| Projects.ShownTags | src/components/Projects.js:20 | a card shows the first tags in order, at most three, and all of them when there are fewer |
| Projects.HiddenCount | src/components/Projects.js:23-27 | the `+K more` tag appears exactly when there are more than three tags; K is positive, and shown plus K is the whole stack |
| Projects.MoreTagText | src/components/Projects.js:24-26 | the tag text is `+`, then exactly the decimal text of K, then ` more` |
| Projects.Card | src/components/Projects.js:15-27 | a card shows the project's name, its role and its shown tags; it has a tag exactly when more than three tags exist, and that tag is `+K more` with K the number of tags beyond three |
| Projects.MoreTagReadsBack | src/components/Projects.js:20-27 | the number printed in the `+K more` tag reads back as the count of tags the card does not show |
| Projects.ShownThenHidden | src/components/Projects.js:20-27 | shown tags followed by the hidden ones are the whole stack in order, and K counts the hidden ones |
| Projects.ProjectCards | src/components/Projects.js:9-13 | one card per project, in order |
| Projects.ClickedProject | src/components/Projects.js:13 | clicking card `i` hands over `projects[i]` itself, with its full role and stack, and card `i` is that project's card |
| Projects.EveryPortfolioCardShowsMore | src/data/portfolioData.js:57-99 | every card of this portfolio shows a `+K more` tag |

## Left out

- The network step of `handleSubmit` (`src/pages/RegisterPage.tsx:102-116`) is not modelled:
  - the two-second timeout, the random success or failure, the success and error messages, and the final `setLoading(false)`;
  - after a passing validation the model leaves `loading` set, as the page does while the request is pending.
- React's state batching is not modelled in general. Submit is modelled as it behaves under batching:
  - every `validateField` call reads the render-time error map;
  - the last committed map is the one that stays.
- The browser's layout is not modelled:
  - the observer's geometry, `rootMargin` and threshold are abstracted into the entries' `isIntersecting` flags;
  - the smooth scrolling animation of `scrollIntoView` is left out;
  - `document.getElementById` is replaced by a set of existing ids.
- The observer's registration and unregistration, the scroll and keydown listener lifecycles, the backdrop click and `body.style.overflow` are not modelled.
- RegisterPage.RegisterForm.HandleSubmit: runs the three validations in a loop against the starting map, not as three separately batched state updates.
- JavaScript strings count UTF-16 code units. Dafny counts Unicode scalar values, so lengths differ for characters outside the Basic Multilingual Plane. This affects the `length < 8` and `length < 2` checks.
- JsBuiltins.ToUpperAscii: covers ASCII only; the section ids it is applied to are ASCII.
- Navbar.Navbar.OnScroll: the scroll offset is an integer; fractional offsets are not modelled.
- PortfolioData.ExperienceYears: the current year is a parameter rather than read from the clock.
- `App.tsx` repeats the experience phrase, skills heading, tag truncation, modal, and nav-link highlight and label rule. Each is modelled once, in `PortfolioData`, `Skills`, `Projects`, the `OnKeyDown` methods and `Navbar` (`HighlightCount`, `Capitalize`). The `App.tsx` line numbers for these are 4-12, 338, 392-398, 131-144, and 258-260 / 282-284. `AppTsx.NavHighlighting` applies the highlight rule to this revision's own six links.
- The project description and details texts, blogs, education, experience entries and contact data are display-only and not modelled. The same goes for the other presentational components (`Hero`, `About`, `Experience`, `Blogs`, `Education`, `Contact`, `Footer`).
- The following are not part of this model: `LoginPage.tsx`, `services/api.ts` and the animated `TechBackground.jsx`.
