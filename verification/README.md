# Greanium OS terminal and back-end aggregation, modelled in Dafny

Greanium OS is a personal portfolio site styled as an operating system.
This project models three parts of it and proves properties about them.

- **The dashboard's terminal** (`frontend/dashboard.js`):
  - the command history and its cursor, with the Enter/Run handlers and the arrow keys (`Terminal.dfy`);
  - the transcript that `addOutput` appends to and `clear` wipes;
  - the command interpreter `runCmd` (`Commands.dfy`). It is a pure function from the submitted line, the data the page has loaded (projects, bio, link map) and the AI endpoint's answer. Its result is the ordered list of transcript lines and page requests: activate a tab, open a URL, post a prompt;
  - the link-name normaliser `slug` and the link map built from it (`Links.dfy`);
  - the grouping of skills by category, as a loop over a map (`Commands.GroupSkills`).
- **The contact endpoint** (`backend/routes/contact.py`, `Contact.dfy`):
  - stripping and the ordered validation checks;
  - reading the port and the mail configuration;
  - the mail composed from the form;
  - the JSON answer and its status.
- **The GitHub statistics endpoint** (`backend/routes/github.py`, `GitHub.dfy`):
  - star and fork sums;
  - the per-language byte-count merge over the first ten repositories, an imperative nested loop (`GitHub.MergeLanguages`);
  - the stable top-five selection;
  - the projection of the five most recent repositories;
  - the error branches.

`Text.dfy` holds the string primitives both languages rely on:
- JavaScript's and Python's whitespace classes;
- `trim`/`strip`;
- `split(/\s+/)`, `split('\n')` and `join`;
- ASCII lower-casing;
- decimal rendering.

`Wrappers.dfy` holds `Option`.

Three behaviours of the source worth knowing:
- The history cursor starts at -1, not 0 (`frontend/dashboard.js:3`).
  - With an empty history, ArrowDown moves it to 0.
  - It stays -1 only while the history is empty.
- `skills` with a loaded but empty skill list prints no line at all. An empty array is truthy in JavaScript, so the "not available" line is not shown.
- The contact handler reads `SMTP_PORT` before it checks whether mail is configured. An unreadable port therefore makes a valid submission fail with 500, even when mail is not configured (`Contact.BadPortFails`).

## Model

| member | source | states |
|---|---|---|
| Text.TrimEmptyIff | frontend/dashboard.js:280-281 | a line trims to the empty string exactly when it is all whitespace, so the submit guard ignores exactly the blank lines |
| Text.TrimIdempotent | frontend/dashboard.js:280 | trimming a trimmed line changes nothing |
| Text.TrimShape | frontend/dashboard.js:280 | the trimmed line is the input minus a whitespace prefix and a whitespace suffix |
| Text.TrimEdges | frontend/dashboard.js:280 | a non-empty trimmed line neither starts nor ends with whitespace |
| Text.SplitOnSpace | frontend/dashboard.js:319 | `split(/\s+/)` yields at least one piece and no piece holds whitespace |
| Text.SplitJoinSplit | frontend/dashboard.js:426 | rejoining the pieces with single spaces and splitting again gives the same pieces |
| Text.JoinSplitAt | frontend/dashboard.js:442 | the pieces of `split('\n')` contain no line break and rejoined with line breaks give the input back |
| Links.HyphenateIsJoin | frontend/dashboard.js:41 | replacing every whitespace run by one hyphen equals splitting on whitespace runs and joining with hyphens |
| Links.Slug | frontend/dashboard.js:41 | definition: the name lower-cased, each whitespace run replaced by one hyphen (its properties are the `Links.Slug*` lemmas below) |
| Links.SlugShape | frontend/dashboard.js:41 | a slug contains no whitespace and no upper-case letter |
| Links.SlugIdempotent | frontend/dashboard.js:41 | `slug(slug(s)) == slug(s)` |
| Links.SlugIsJoinedWords | frontend/dashboard.js:41 | a slug is the lower-cased words of the name joined by hyphens |
| Links.SlugIgnoresCaseAndSpacing | frontend/dashboard.js:41 | two names with the same words up to case slug the same, however they are spaced |
| Links.SlugOfRejoined | frontend/dashboard.js:455 | rejoining the argument tokens with single spaces, as `open` does, does not change the slug |
| Links.LastWithSlug | frontend/dashboard.js:237 | finds the last link whose name slugs to a key, or reports none |
| Links.LinkMap | frontend/dashboard.js:237 | definition: the items folded into a map keyed by slug, a later item replacing an earlier one (characterised by `Links.LinkMapLastWins`) |
| Links.LinkMapLastWins | frontend/dashboard.js:237 | a key is in the link map exactly when some link slugs to it, and it maps to the last such link |
| Links.LinkLookupIgnoresCaseAndSpacing | frontend/dashboard.js:237 | any spelling of a link's name with the same words up to case and spacing is found in the map |
| Commands.RunCmd | frontend/dashboard.js:317-322 | the empty line produces nothing, and only the empty line; any other line first echoes `> cmd` |
| Commands.Dispatch | frontend/dashboard.js:319-466 | definition: the chain of name tests after the echo, in source order, on the tokens of the line (each command's events: the `*Command` lemmas below) |
| Commands.ClearIff | frontend/dashboard.js:341-345 | the transcript is wiped by a command exactly when its lower-cased name is `clear` or `cls` |
| Commands.UnknownCommand | frontend/dashboard.js:466 | an unrecognised name gives the echo and exactly one `Unknown command: <name>. Type 'help' ...` line |
| Commands.HelpCommand | frontend/dashboard.js:325-338 | `help`/`?` add exactly one entry, the multi-line help text |
| Commands.ClearWipesTranscript | frontend/dashboard.js:341-345 | `clear`/`cls` leave the transcript empty, echo included; every other command only appends its lines |
| Commands.VersionCommand | frontend/dashboard.js:348-352 | `version`/`ver` add exactly the two version lines after the echo |
| Commands.TokensOfCommand | frontend/dashboard.js:319-320 | for `word gap rest` the name is the lower-cased word, an argument exists, and the argument is `rest` with its whitespace runs collapsed |
| Commands.TabCommand | frontend/dashboard.js:355-366 | `tab x` lower-cases x; a valid name activates that tab and confirms, any other lists the four valid names; later tokens are ignored |
| Commands.BareTabOrOpen | frontend/dashboard.js:355 | `tab` or `open` without argument falls through to the unknown-command line naming the lower-cased word |
| Commands.ProjectLines | frontend/dashboard.js:372-375 | as many lines as projects plus projects with a URL (their contents: `Commands.ProjectLinesNumbered`) |
| Commands.ProjectLinesNumbered | frontend/dashboard.js:372-375 | project i is listed as number i + 1, in order, and a project with a URL is followed directly by its `     URL: ` line |
| Commands.ProjectsCommand | frontend/dashboard.js:369-380 | with N > 0 projects: the header `Found N project(s):` followed by exactly the `ProjectLines` (numbered entries, each with its URL line when it has one), 2 + N + (URL count) events in all; otherwise `No projects available.` |
| Commands.CategoriesListed | frontend/dashboard.js:386-391 | categories (missing means `Other`) are distinct, every skill's category is listed, and only categories of some skill |
| Commands.GroupMapContents | frontend/dashboard.js:386-391 | the `byCategory` map has exactly the listed categories as keys, each mapped to the names of its skills in input order |
| Commands.GroupSkills | frontend/dashboard.js:386-391 | the loop filling `byCategory` yields each category in first-appearance order with its skill names in input order |
| Commands.SkillsLines | frontend/dashboard.js:393-396 | two lines per category: `Category:` then the names joined by `, ` |
| Commands.SkillsCommand | frontend/dashboard.js:383-401 | with skill data, the echo followed by exactly the `SkillsLines` of the grouping (a category line and its names per distinct category, in first-seen order); otherwise `Skills data not available.` |
| Commands.AboutCommand | frontend/dashboard.js:404-414 | with a bio, four lines whose missing or empty fields show their fallbacks; otherwise `About information not available.` |
| Commands.PortfolioCommand | frontend/dashboard.js:417-422 | `portfolio` activates the portfolio tab, then says so |
| Commands.AiWithoutQuery | frontend/dashboard.js:425-430 | `ai` alone prints only the usage line and posts no prompt |
| Commands.AiWithQuery | frontend/dashboard.js:425-438 | `ai q` prints `Thinking...`, posts the question once, then shows the answer's lines |
| Commands.ReplyLinesFaithful | frontend/dashboard.js:440-443 | a reply with n line breaks shows as n + 1 non-empty lines, each its piece or a blank for an empty piece |
| Commands.PieceCount | frontend/dashboard.js:442 | n line breaks cut a reply into n + 1 pieces |
| Commands.AiResultCases | frontend/dashboard.js:439-449 | a thrown error gives one connection-error line; a missing or empty reply gives `AI error: ` with the error or `Unknown error` |
| Commands.OpenCommand | frontend/dashboard.js:454-463 | `open name` looks up the slug of the rejoined argument; a hit opens the URL and then confirms, a miss or an unloaded map gives one `No link matched:` line |
| Commands.OpenIgnoresCaseAndSpacing | frontend/dashboard.js:454-458 | `open` with any spelling of a loaded link's name, same words up to case and spacing, opens the URL the map holds for that slug: that of the last link with that slug (`Links.LinkMapLastWins`) |
| Commands.Render | frontend/dashboard.js:469-477 | definition: the transcript after the events in order, a line appended by `addOutput`, a clear emptying it (characterised by `Commands.RenderAppends` and `Commands.ClearWipesTranscript`) |
| Commands.RenderAppends | frontend/dashboard.js:469-477 | without a clear, the transcript only grows by the command's line texts, in order |
| Terminal.Up | frontend/dashboard.js:298-303 | ArrowUp moves back one entry only when the cursor is above 0, and shows that entry; it never wraps |
| Terminal.Down | frontend/dashboard.js:304-312 | ArrowDown moves forward while below the newest entry and shows it; otherwise the cursor goes to the length and the input is cleared |
| Terminal.UpsRecall | frontend/dashboard.js:298-303 | right after a submission, k presses of ArrowUp recall the k-th most recent command |
| Terminal.UpsSaturate | frontend/dashboard.js:300 | pressing ArrowUp more often than there are entries stops at the oldest |
| Terminal.DownUndoesUp | frontend/dashboard.js:298-312 | ArrowDown after ArrowUp returns to the entry the cursor stood on, or to a blank line past the newest |
| Terminal.NavigationShowsHistory | frontend/dashboard.js:298-312 | the arrow keys only ever show a stored command, a blank line, or leave the input alone |
| Terminal.StoredPush | frontend/dashboard.js:280-282 | storing the trimmed form of a non-blank line keeps every stored command non-empty and trimmed |
| Terminal.Terminal.constructor | frontend/dashboard.js:1-3 | empty history, cursor -1, empty input and transcript |
| Terminal.Terminal.Type | frontend/dashboard.js:273 | typing changes only the input line |
| Terminal.Terminal.AddOutput | frontend/dashboard.js:469-477 | one line appended to the transcript, nothing else changes |
| Terminal.Terminal.ClearOutput | frontend/dashboard.js:341-344 | the transcript becomes empty, nothing else changes |
| Terminal.Terminal.Submit | frontend/dashboard.js:279-297 | a blank input changes nothing; otherwise the trimmed line is pushed, the cursor set to the new length, the transcript becomes the command's rendering and the input is cleared; the cursor stays within [-1, length] |
| Terminal.Terminal.Execute | frontend/dashboard.js:281-285 | push, cursor at the new length, run, clear the input |
| Terminal.Terminal.Perform | frontend/dashboard.js:322-466 | carrying out the events in order leaves the transcript as their rendering and returns the page requests in order |
| Terminal.Terminal.ArrowUp | frontend/dashboard.js:298-303 | the new cursor and input are those of `Up`; the history and transcript are unchanged |
| Terminal.Terminal.ArrowDown | frontend/dashboard.js:304-312 | the new cursor and input are those of `Down`; the history and transcript are unchanged |
| Contact.Field | backend/routes/contact.py:22-24 | a stripped field is empty exactly when it is missing or only whitespace |
| Contact.Validate | backend/routes/contact.py:22-35 | definition: the stripped fields checked in source order, required, then `@`, then length (each check: the three `*Iff` lemmas below) |
| Contact.RequiredIff | backend/routes/contact.py:22-28 | the form is refused with `All fields are required` exactly when some field is missing or blank |
| Contact.AtSurvivesStrip | backend/routes/contact.py:30 | stripping never removes an `@` |
| Contact.EmailIff | backend/routes/contact.py:30-31 | a complete form is refused with `Invalid email address` exactly when the address has no `@` |
| Contact.LengthIff | backend/routes/contact.py:34-35 | a complete form with an `@` is refused with `Message too long` exactly when the stripped message exceeds 5000 characters; 5000 is accepted |
| Contact.AcceptedFields | backend/routes/contact.py:22-35 | accepted fields are non-empty, stripped, the address has an `@`, the message at most 5000 characters |
| Contact.Port | backend/routes/contact.py:41 | an unset `SMTP_PORT` means 587 |
| Contact.ParseInt | backend/routes/contact.py:41 | definition: `int()` in base 10, the whitespace `int()` skips stripped (Python whitespace except U+001C to U+001F), an optional sign, digits with single underscores between them and at most 4300 digits, otherwise no value |
| Contact.ParseIntRoundTrip | backend/routes/contact.py:41 | `int()` reads back a decimal rendering of at most 4300 digits surrounded by any whitespace `int()` skips |
| Contact.ParseIntNegativeRoundTrip | backend/routes/contact.py:41 | the same with a leading minus sign |
| Contact.ParseIntRefusesLong | backend/routes/contact.py:41 | a rendering of more than 4300 digits, signed or not, does not parse (`int()` raises `ValueError`) |
| Contact.ParseIntRejectsSeparators | backend/routes/contact.py:41 | a port with one of U+001C to U+001F before or after it does not parse, although `str.strip()` would remove those characters |
| Contact.BodyCarriesFields | backend/routes/contact.py:57-65 | the mail body carries the name, then the address, then the message |
| Contact.SendContact | backend/routes/contact.py:20-80 | the status is 200, 400 or 500; success exactly with 200; no mail is attempted for a 400 |
| Contact.RejectedNeverSends | backend/routes/contact.py:27-35 | a refused form gets 400 with its error and nothing is sent |
| Contact.BadPortFails | backend/routes/contact.py:41 | an unreadable port fails an accepted form with 500 before the configuration is looked at |
| Contact.UnconfiguredAcknowledges | backend/routes/contact.py:45-49 | without all four settings a valid form gets `Message received (not configured for email)` and nothing is sent |
| Contact.ConfiguredSends | backend/routes/contact.py:52-76 | with configuration the mail goes from the SMTP user to the contact address with subject `Contact Form: Message from <name>`; 200 exactly when the server accepted it |
| Contact.AttemptIff | backend/routes/contact.py:37-80 | mail is attempted exactly for accepted forms with a readable port and complete configuration |
| GitHub.TotalStars | backend/routes/github.py:32 | definition: the sum of the repositories' star counts, a missing count as 0 |
| GitHub.TotalForks | backend/routes/github.py:33 | definition: the sum of the repositories' fork counts, a missing count as 0 |
| GitHub.TotalsAdditive | backend/routes/github.py:32-33 | star and fork sums split over any division of the list, so each repository counts once |
| GitHub.TotalsNonNegative | backend/routes/github.py:32-33 | with non-negative counts the sums are non-negative; a missing count adds 0 |
| GitHub.LanguageSources | backend/routes/github.py:37 | only the first ten repositories are asked for languages |
| GitHub.FirstSeen | backend/routes/github.py:44-45 | the merged keys are distinct, in first-seen order, and exactly the languages that occur |
| GitHub.TallyStep | backend/routes/github.py:45 | one `languages[lang] = get + bytes` step keeps keys in first-seen order and totals equal to the sums |
| GitHub.AddUsages | backend/routes/github.py:44-45 | adding one repository's items keeps the keys in first-seen order and every total equal to its sum over all items so far |
| GitHub.MergeLanguages | backend/routes/github.py:36-47 | the nested loop yields the first-seen key order and, for each key, the sum of its byte counts over the first ten repositories that answered 200 |
| GitHub.FailedFetchContributesNothing | backend/routes/github.py:39-47 | a languages request that raised or did not answer 200 contributes nothing |
| GitHub.SumForAppend | backend/routes/github.py:44-45 | a language's total over several repositories is the sum of its totals over each |
| GitHub.SumForAbsent | backend/routes/github.py:45 | a language that does not occur has total 0 |
| GitHub.InsertSorted | backend/routes/github.py:50 | one insertion step keeps the order descending and the entries a permutation |
| GitHub.SortDesc | backend/routes/github.py:50 | definition: insertion sort by descending count, each entry inserted after every entry with an equal or larger count; the same number of entries |
| GitHub.SortDescSorted | backend/routes/github.py:50 | the sort orders by non-increasing count and is a permutation |
| GitHub.SortDescStable | backend/routes/github.py:50 | entries with equal counts keep their relative order |
| GitHub.SortDescDistinct | backend/routes/github.py:50 | sorting keeps the language names distinct |
| GitHub.TopLanguages | backend/routes/github.py:64 | min(5, number of languages) names |
| GitHub.TopLanguagesRanked | backend/routes/github.py:50 | at most five distinct occurring languages, each with a total at least that of every language left out |
| GitHub.RankedEntriesAreTotals | backend/routes/github.py:50 | every ranked entry is an occurring language with its total, and every occurring language is ranked |
| GitHub.TopLanguagesTies | backend/routes/github.py:50 | languages with equal totals are ranked in first-seen order |
| GitHub.RecentRepos | backend/routes/github.py:65-75 | the first min(5, n) repositories in order, each projected to name, description, url, stars (0 if missing), language, updated_at |
| GitHub.GetGithubStats | backend/routes/github.py:13-80 | the request fails exactly when the user request raised or did not answer 200 or the repository request raised, and then with 500 and `Failed to fetch GitHub data`; a success carries the configured or default user name |
| GitHub.UserFailureFails | backend/routes/github.py:18-21 | a user request that raised or did not answer 200 gives the 500 error |
| GitHub.ReposNotOkIsEmpty | backend/routes/github.py:28 | a non-200 repository answer counts as no repositories: zero stars and forks, no languages, no recent repositories; user counts default to 0 |
| GitHub.StatsOfAnswers | backend/routes/github.py:31-76 | with both answers 200 the statistics are the sums, the top languages of the merged counts, the projected first five repositories, and the user's repository, follower and following counts, 0 when absent |

## Left out

- Text.LowerStr: lower-cases ASCII letters only. JavaScript's `toLowerCase` also folds non-ASCII letters, so `slug` and command names are modelled exactly only for ASCII letters.
- Asynchrony: `runCmd` is `async` and the AI answer arrives later. The model appends the answer's lines right after `Thinking...`, and it clears the input line after the whole command. Other commands that run while a request is outstanding are not interleaved.
- The DOM:
  - rendering of projects, bio, skills and portfolio markup;
  - tabs, the intro typewriter and timers, and the welcome line;
  - `scrollIntoView`.
  - A tab button's `click()`, `window.open` and the POST to `/ai` are recorded as events, not performed.
- Terminal.Terminal.AddOutput: assumes the transcript element exists. When it is missing the source appends nothing.
- JSON values of unexpected types are not modelled:
  - a `null` contact field, whose `strip()` raises outside the handler's `try`;
  - a project without a `name`, which prints `undefined`;
  - a skill without a `name`, which joins as an empty string;
  - non-integer counts from GitHub.
  - Every field is a string or absent, and every count an integer or absent.
- GitHub.MergeLanguages: a languages answer is its items in order. The keys are taken as distinct, as a decoded JSON object has them.
- Commands.GroupSkills: a category named like a property every JavaScript object inherits (`constructor`, `toString`, `valueOf`, `hasOwnProperty`, `__proto__`) finds a non-array in `byCategory`, and the source's `push` throws, so `skills` shows only the echo; the model groups such a category like any other.
- The ordering `Object.keys` gives integer-like category names: categories are kept in first-appearance order.
- Contact.ParseInt: accepts ASCII digits only. Python's `int()` also accepts other Unicode decimal digits. The 4300-digit limit is CPython's default; the model does not follow a limit changed through `PYTHONINTMAXSTRDIGITS` or `sys.set_int_max_str_digits`.
- I/O:
  - the SMTP conversation is a parameter, the server's verdict;
  - the `print` logging;
  - the `requests` calls and their timeouts are inputs: the answers and a lookup from languages URL to answer.
- The `resume`/`cv`, `contact` and `github` terminal commands: `runCmd` has no branch for them.
- `backend/routes/auth.py`, `backend/routes/portfolio.py`, `backend/routes/files.py`, `backend/routes/links.py`, `backend/app.py` and `backend/config.py` are not part of this model.
