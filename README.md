# Portfolio site: the data rules behind three components

This project models, in Dafny, the few rules of a single-page portfolio site that
are more than markup, and proves what they promise.

- **Projects gallery** (`src/components/Projects.tsx`). On mount the component
  fetches the owner's public repositories. It drops forks and sorts the rest by
  creation time, newest first, with a stable sort. A three-way state (`loading`,
  `error`, `repositories`) records the outcome of the fetch and picks one of three
  views: loading, error, or the card list. Each card falls back to placeholder text
  for a missing description. It shows the language badge and the homepage link
  only when those fields are non-empty.
- **Blog listing** (`src/components/Blog.tsx`). The search box keeps the posts
  whose title or some tag contains the term, ignoring case. Each card shows at most
  its first two tags as chips, coloured from a fixed table with a default. A
  message appears when nothing matches.
- **Navigation bar** (`src/components/Navbar.tsx`). The initial theme comes from
  the saved `theme` entry and the system's dark-mode preference. An effect writes
  the theme back to storage and to the `dark` class of the document. Two toggles
  flip the theme and the mobile menu, and clicking a mobile link closes the menu.

Files:

- `js.dfy`, module `Js`: the JavaScript semantics the components rely on. It holds
  nullable values, string truthiness, ASCII `toLowerCase` and `includes`.
- `sequences.dfy`, module `Subsequences`: what a `filter` returns relative to its
  input.
- `projects.dfy`, module `Projects`: the derivation (fork filter and stable
  insertion sort, as functions), the cards, the render branches, and a class
  `ProjectsSection` for the state that the fetch updates.
- `blog.dfy`, module `Blog`: the search filter, the no-results condition and the
  tag chips.
- `navbar.dfy`, module `Navbar`: the pure theme resolution, and a class
  `NavbarState` for `isOpen`, `isDark`, the saved theme and the class list.

Inputs the source gets from outside are parameters:

- the HTTP response, with its body already parsed (`Projects.Response`);
- the published posts and the search term;
- whether a `window` exists;
- what local storage holds under `theme`;
- the `prefers-color-scheme: dark` match.

Creation times are integers: the millisecond timestamps that `new Date(...).getTime()`
yields for valid dates.

Behaviour of the code worth spelling out:

- `Projects.tsx` has no scroll controller. The two edge gradients at lines 167-168
  are static styling.
- A response whose `ok` flag is clear throws `'Failed to fetch repositories'`. A
  rejection carries its own `Error` message, and a thrown non-`Error` becomes
  `'Failed to fetch projects'`.
- An `Error` whose message is empty leaves `error` falsy. The section then renders
  the (empty) card list, not the error view. `Projects.LoadProjects` states this case.

## Model

| member | source | states |
|---|---|---|
| `Projects.NonForks` | src/components/Projects.tsx:42 | the result has no fork, is a subsequence of the listing, and holds each non-fork record exactly as often as the listing does (forks zero times) |
| `Projects.Insert` | src/components/Projects.tsx:43-45 | one insertion step adds exactly the new record (multiset), keeps a newest-first list newest first, and puts the record first or behind the old head |
| `Projects.SortNewestFirst` | src/components/Projects.tsx:43-45 | the sort returns a permutation of its input in which no repository is older than the next one |
| `Projects.Derive` | src/components/Projects.tsx:41-45 | the derived list has no fork, is newest first, holds every non-fork record exactly as often as the listing, contains a record iff the listing does and it is not a fork, and is a permutation of the non-fork subsequence |
| `Projects.InsertKeepsTies` | src/components/Projects.tsx:43-45 | an inserted record goes ahead of every record with the same creation time and leaves their order alone |
| `Projects.SortIsStable` | src/components/Projects.tsx:43-45 | for every creation time, the records with that time appear in the same order before and after the sort |
| `Projects.DeriveIsStable` | src/components/Projects.tsx:41-45 | in the derived list, records with equal creation times keep the relative order of the fork-free listing |
| `Projects.NonForksOfForkFree` | src/components/Projects.tsx:42 | filtering a list without forks returns it unchanged |
| `Projects.SortOfSorted` | src/components/Projects.tsx:43-45 | sorting a list that is already newest first returns it unchanged |
| `Projects.DeriveIdempotent` | src/components/Projects.tsx:41-45 | deriving an already derived list returns it unchanged |
| `Projects.ThreeRepositoryExample` | src/components/Projects.tsx:41-45 | records created in 2023, 2024 (a fork) and 2022 derive to the 2023 one followed by the 2022 one |
| `Projects.CardOf` | src/components/Projects.tsx:92-159 | the card shows the description, or "No description available" when it is null or empty; a language badge iff the language is non-empty; a homepage link iff the homepage is non-empty; the topics, or none when they are missing; the other fields as given |
| `Projects.Render` | src/components/Projects.tsx:57-92 | the loading view iff `loading`; otherwise the error view, with the error text, iff `error` is truthy; otherwise one card per repository, in list order |
| `Projects.ProjectsSection.constructor` | src/components/Projects.tsx:20-22 | the section starts with no repositories, `loading` set and no error |
| `Projects.ProjectsSection.FetchRepositories` | src/components/Projects.tsx:33-51 | `loading` ends false in every outcome; an ok response stores the derived list and leaves `error` alone; a clear `ok` flag stores "Failed to fetch repositories" and leaves the list alone; a rejection stores the `Error` message, or "Failed to fetch projects" for a non-`Error`, and leaves the list alone |
| `Projects.CaughtMessage` | src/components/Projects.tsx:48 | the message the catch block stores: a thrown `Error` gives its own message, whatever that is (the empty string included); any other thrown value gives "Failed to fetch projects" |
| `Projects.ProjectsSection.View` | src/components/Projects.tsx:57-68 | the section shows the loading view exactly while `loading` is set |
| `Projects.LoadProjects` | src/components/Projects.tsx:32-83 | after mount and the fetch, the view is never the loading one; an ok response shows the cards of the derived list; a clear `ok` flag shows "Failed to fetch repositories" and no cards; a thrown non-`Error` shows "Failed to fetch projects"; an `Error` with a non-empty message shows that message; one with an empty message shows an empty card list |
| `Js.ToLowerCase` | src/components/Blog.tsx:100-101 | lower-casing keeps the length, leaves no upper-case ASCII letter, keeps every other character, and moves each upper-case letter 32 code points up |
| `Js.ToLowerCaseAppend` | src/components/Blog.tsx:100-101 | lower-casing a concatenation is concatenating the lower-cased parts |
| `Js.ToLowerCaseIdempotent` | src/components/Blog.tsx:100-101 | lower-casing twice is lower-casing once |
| `Js.Includes` | src/components/Blog.tsx:100-101 | `includes` is true iff the needle occurs at some index of the string |
| `Js.ShiftOccurrence` | src/components/Blog.tsx:100-101 | when the needle is not at index 0, it occurs in the string iff it occurs in the string's tail |
| `Js.IncludesEmpty` | src/components/Blog.tsx:100 | every string includes the empty string |
| `Js.IncludesPrefix` | src/components/Blog.tsx:100-101 | a string that includes `needle + more` includes `needle` |
| `Blog.MatchesSearch` | src/components/Blog.tsx:100-101 | a post matches exactly when the lower-cased term occurs at some position of the lower-cased title, or at some position of some lower-cased tag |
| `Blog.FilteredPosts` | src/components/Blog.tsx:99-102 | the result is a subsequence of the posts (order kept, nothing added); a post is in it iff its lower-cased title, or some lower-cased tag, contains the lower-cased term; and each matching post occurs as often as in the store, each other post not at all |
| `Blog.NoResults` | src/components/Blog.tsx:243 | the no-results message shows iff no post matches the term |
| `Blog.EmptySearchKeepsAll` | src/components/Blog.tsx:99-102 | an empty search term keeps every post, in order |
| `Blog.LongerTermMatchesLess` | src/components/Blog.tsx:99-102 | a post that matches a term extended by more characters matches the term |
| `Blog.RefiningNarrows` | src/components/Blog.tsx:99-102 | searching for a longer term is searching the result of its prefix again |
| `Blog.RefiningIsSubsequence` | src/components/Blog.tsx:99-102 | extending the search term never adds posts: the new result is a subsequence of the old |
| `Blog.SearchIgnoresCase` | src/components/Blog.tsx:99-102 | lower-casing the search term does not change the result |
| `Blog.ColorsFor` | src/components/Blog.tsx:34-97 | a tag that is a key of the colour table gets that entry, any other tag the default colours, so every chip has a defined style (the intended lookup; for the code as written see ## Findings) |
| `Blog.ColorsAsWritten` | src/components/Blog.tsx:222 | the lookup as written: a key of the colour table gets its entry; a name every object inherits from `Object.prototype` (such as `constructor`) gets four `undefined` class names; any other tag gets the default colours (see ## Findings) |
| `Blog.ConstructorTagIsUnstyled` | src/components/Blog.tsx:222 | as written, the lookup styles a tag named `constructor` with four `undefined` class names, not the default |
| `Blog.LookupsAgreeOnOwnKeys` | src/components/Blog.tsx:222 | the written and the intended lookup agree on every tag that names no inherited object member |
| `Blog.TagChips` | src/components/Blog.tsx:221-222 | a card shows two chips, or one per tag when the post has fewer than two tags: the first tags in their order, each with its table colours (the intended lookup; for the code as written see ## Findings) |
| `Navbar.ResolveInitialTheme` | src/components/Navbar.tsx:6-12 | without a `window` the theme is light; a saved "dark" gives dark; any other non-empty saved value gives light; a missing or empty saved value follows the system preference |
| `Navbar.StoredValue` | src/components/Navbar.tsx:15-21 | the saved value is "dark" iff the theme is dark, and it is never empty |
| `Navbar.ThemeRoundTrip` | src/components/Navbar.tsx:9-20 | resolving the value the effect saved gives back the same theme, under any system preference |
| `Navbar.NavbarState.constructor` | src/components/Navbar.tsx:5-12 | on mount the menu is closed and the theme is the resolved one; storage and the class list are untouched |
| `Navbar.NavbarState.PersistTheme` | src/components/Navbar.tsx:14-22 | saves "dark" or "light" to match the theme, adds the `dark` class iff dark and removes it otherwise, leaving the other classes and the toggles alone |
| `Navbar.NavbarState.ThemeOnReload` | src/components/Navbar.tsx:9-20 | once the effect has run, a fresh load resolves to the current theme |
| `Navbar.NavbarState.ToggleMenu` | src/components/Navbar.tsx:24-26 | negates `isOpen` and changes nothing else |
| `Navbar.NavbarState.ToggleTheme` | src/components/Navbar.tsx:28-30 | negates `isDark` and changes nothing else |
| `Navbar.NavbarState.MobileLinks` | src/components/Navbar.tsx:86-112 | the mobile menu lists some link iff the menu is open, and while open it lists the same three section anchors as the desktop menu, in order |
| `Navbar.NavbarState.ClickMobileLink` | src/components/Navbar.tsx:86-109 | clicking one of the listed mobile links closes the menu, so no link is left, and leaves the theme alone |
| `Navbar.ToggleThemeTwice` | src/components/Navbar.tsx:14-30 | two theme toggles, each followed by the effect, restore the theme, the saved value and the class list and leave the menu alone |
| `Navbar.ToggleMenuTwice` | src/components/Navbar.tsx:24-26 | two menu toggles restore the menu and leave the theme, storage and the class list alone |
| `Navbar.ReloadKeepsTheme` | src/components/Navbar.tsx:6-22 | mounting, running the effect and mounting again, under any later system preference, starts with the first mount's theme |

## Left out

- The HTTP request and JSON parsing (`src/components/Projects.tsx:35,39`) are asynchronous I/O. The outcome is the input `Projects.Response`, and the thrown value's message is an input too.
- Date parsing (`src/components/Projects.tsx:44`): creation times are integer timestamps of valid dates. An invalid date gives `NaN`, a floating-point value whose comparisons are not modelled.
- Date formatting (`src/components/Projects.tsx:24-30`, `src/components/Blog.tsx:105-112`) is locale-library behaviour. Cards carry the raw timestamps or date strings.
- `getPublishedBlogPosts` (`src/components/Blog.tsx:4,29-30`) is not part of this model. Its posts are an input sequence. The empty list before the first load is not modelled separately: it is `FilteredPosts([], term)`.
- The search term's updates from the input box (`src/components/Blog.tsx:139`) are a parameter of `Blog.FilteredPosts`.
- Js.ToLowerCase: folds only the ASCII letters A-Z. JavaScript's `toLowerCase` also folds other Unicode letters, and a few of them change length.
- Concurrent or repeated fetches are not modelled. The effect runs once per mount, and `Projects.LoadProjects` models one mount.
- `localStorage` is modelled only through its `theme` entry, and the document's class list as a set of class names. The token order of the class list is not modelled. Storage access that throws (a blocked storage) is not modelled.
- React's scheduling is not modelled. A caller runs `PersistTheme` after a theme change, as React runs the effect after the render. Effects never run without a `window`.
- `src/components/Home.tsx`, `src/components/About.tsx`, `src/components/Footer.tsx`, `src/App.tsx` and `vite.config.ts` are out of scope. Home is a profile fetch with an avatar fallback; the others are static markup or build configuration.
- JSX, Tailwind classes, icons and router links are presentation only.

## Findings

| source | as written | input that shows it | evidently intended | confidence | as-written member | corrected member |
|---|---|---|---|---|---|---|
| src/components/Blog.tsx:222 | `techColors[tag] \|\| defaultColors` also finds members that every object inherits from `Object.prototype`. Those are truthy, so the default is skipped, and each of the four class names reads `undefined` | a post tagged `constructor` (likewise `toString`, `__proto__`, ...) | tags that are not own keys of the table get `defaultColors` | not executed; follows from JavaScript's property lookup | `Blog.ConstructorTagIsUnstyled` (over `Blog.ColorsAsWritten`) | `Blog.ColorsFor` (used by `Blog.TagChips`) |
