# Job portal pages: feed, course catalog and project catalog

This project models, in Dafny, the logic behind three pages of a job-portal
web client, and proves what those pages promise.

- **Jobs page.** This is the job feed. It covers:
  - the tab filter over search text, location text and the active tab
    ("all", "fresher", "experienced", "expired");
  - the closing-date expiry test;
  - the "posted N hours/days ago" label;
  - the WhatsApp, Telegram and clipboard share actions;
  - the skill badges;
  - the target of the "Apply Now" button;
  - the page state: the three filter inputs and the list of job ids the user
    has applied to. The state is a class, and its setters and
    `UpdateApplications` are methods.
- **Courses page.** This is a fixed catalog of 18 free courses. It covers:
  - the search and category filter;
  - the level colour classes;
  - the condition under which the "popular courses" section is shown.
- **Projects page.** This is a fixed list of 8 practice projects. It covers:
  - the category filter and the featured subset;
  - the difficulty colour and category icon lookups;
  - the heading of the project grid;
  - technology badges capped at three.

Shared modules:

- `Sequences` holds `Array.prototype.filter` as `Filter`, together with
  subsequence, multiplicity, congruence, idempotence and partition lemmas.
- `Text` holds:
  - ASCII `toLowerCase` and `includes`;
  - decimal rendering of numbers as in template literals;
  - `split` on one character and `trim` with the ECMAScript white-space set.
- `Uri` holds `encodeURIComponent`, with the UTF-8 and percent-escape layers
  and a decoder that inverts them (`decodeURIComponent`).
- `Badges` holds the "first N, then +M more" badge row used by two pages.

Times are integers in milliseconds since the epoch. A date string that does
not parse is `Instant.Invalid`, the model of `NaN`.

Where the code and a natural reading differ, the model follows the code:

- An unparseable closing date is never expired, because every comparison
  with NaN is false.
- An unparseable posting date gives the label "NaN days ago".
- The "fresher" and "experienced" tabs do not look at `isActive`.
- The 48-hour "expired recently" value has no expiry conjunct, and no tab
  reads it.
- Any unknown tab behaves as "all".
- One hour gives "1 hours ago". Only days have a singular form.

## Model

| member | source | states |
|---|---|---|
| Sequences.Filter | client/src/pages/jobs.tsx:64-88 | `.filter` keeps exactly the elements that pass the predicate, never adds one, and is no longer than its input |
| Sequences.FilterIsSubsequence | client/src/pages/jobs.tsx:64-88 | the filtered list is a subsequence of the input: order is kept |
| Sequences.FilterCount | client/src/pages/jobs.tsx:64-88 | every element occurs in the result as often as in the input when it passes, and not at all otherwise |
| Sequences.FilterKeepsAll | client/src/pages/courses.tsx:85-94 | when every element passes, the filter returns its input unchanged |
| Sequences.FilterCongruent | client/src/pages/jobs.tsx:78-87 | two predicates that agree on the input give the same filtered list |
| Sequences.FilterIdempotent | client/src/pages/jobs.tsx:64-88 | filtering a filtered list again with the same predicate changes nothing |
| Sequences.FilterPartition | client/src/pages/jobs.tsx:84-86 | two filters whose predicates split a third one divide its result between them, with nothing in both |
| Text.Lower | client/src/pages/jobs.tsx:65-71 | lower-casing keeps the length and folds each character on its own |
| Text.LowerIdempotent | client/src/pages/jobs.tsx:65-71 | lower-casing twice is lower-casing once, and no upper-case ASCII letter is left |
| Text.ContainsAt | client/src/pages/jobs.tsx:65-71 | `includes` holds exactly when the part occurs at some index |
| Text.Decimal | client/src/pages/jobs.tsx:125-127 | the rendering of a natural number is non-empty, all digits, and has no leading zero unless the number is 0 |
| Text.DecimalRoundTrip | client/src/pages/jobs.tsx:125-127 | reading back the digits of a rendered number gives the number |
| Text.DecimalInjective | client/src/pages/jobs.tsx:125-127 | different numbers render differently |
| Text.Split | client/src/pages/jobs.tsx:293 | `split` gives at least one part and no part contains the separator |
| Text.JoinSplit | client/src/pages/jobs.tsx:293 | joining the parts with the separator gives back the string |
| Text.SplitJoin | client/src/pages/jobs.tsx:293 | splitting a join of separator-free parts gives back the parts |
| Text.SplitPrefix | client/src/pages/jobs.tsx:293 | a separator-free prefix followed by the separator is the first part |
| Text.SplitWhole | client/src/pages/jobs.tsx:293 | a string without the separator splits into itself alone |
| Text.SplitLength | client/src/pages/jobs.tsx:298-299 | the number of parts is the number of separators plus one |
| Text.TrimStart | client/src/pages/jobs.tsx:295 | the result is a suffix, everything dropped is white space, and it does not start with white space |
| Text.TrimEnd | client/src/pages/jobs.tsx:295 | the result is a prefix, everything dropped is white space, and it does not end with white space |
| Text.Trim | client/src/pages/jobs.tsx:295 | the result is a slice of the input surrounded only by white space, with no white space at either end |
| Uri.HexDigit | client/src/pages/jobs.tsx:101 | each nibble of an escaped octet becomes an upper-case hexadecimal digit (0-9, A-F), itself a character left unescaped |
| Uri.HexRoundTrip | client/src/pages/jobs.tsx:101 | a hexadecimal digit reads back as its value |
| Uri.Utf8 | client/src/pages/jobs.tsx:101 | every character becomes 1 to 4 octets |
| Uri.Utf8RoundTrip | client/src/pages/jobs.tsx:101 | the lead octet announces the length, and decoding the octets of a character gives back the character |
| Uri.Escape | client/src/pages/jobs.tsx:101 | each octet becomes three characters, '%' and two hexadecimal digits |
| Uri.EscapeRoundTrip | client/src/pages/jobs.tsx:101 | unescaping an escaped octet sequence gives back the octets |
| Uri.EncodeIsSafe | client/src/pages/jobs.tsx:101 | `encodeURIComponent` (`Uri.Encode`) output has only '%' and unreserved characters |
| Uri.EncodeOmits | client/src/pages/jobs.tsx:104 | a reserved character such as '&' never occurs in encoded text |
| Uri.EncodeKeepsUnescaped | client/src/pages/jobs.tsx:101 | `Uri.Encode` copies a string of unescaped characters (letters, digits and `-_.!~*'()`) unchanged |
| Uri.EncodeAppend | client/src/pages/jobs.tsx:101 | encoding a concatenation is concatenating the encodings |
| Uri.DecodeEscape | client/src/pages/jobs.tsx:101 | decoding at a '%' consumes at least one whole escape and no more than the input |
| Uri.DecodeEncode | client/src/pages/jobs.tsx:101-104 | decoding the output of `Uri.Encode` gives back exactly the text |
| Badges.Truncate | frontend/src/pages/projects.tsx:220-229 | at most `limit` badges, a prefix of the items; a "more" badge exactly when items were cut, counting exactly the cut items |
| Badges.MoreLabel | frontend/src/pages/projects.tsx:227 | the overflow label is "+", the decimal digits of the count with no leading zero, then " more" |
| Badges.Captions | frontend/src/pages/projects.tsx:220-229 | the rendered captions are the shown items, then one "+N more" caption exactly when the row has an overflow count, N reading back as that count |
| Jobs.ExpiryFacts | client/src/pages/jobs.tsx:73-76 | about `IsExpired` and `IsExpiredRecently`: expiry is strict and stays true as time passes; an unparseable date never expires; an open closing date counts as "expired recently" |
| Jobs.FilterJobs | client/src/pages/jobs.tsx:64-88 | a non-array input gives []; otherwise the result is an order-keeping subsequence containing exactly the listed jobs, each as often as in the input |
| Jobs.TabMembership | client/src/pages/jobs.tsx:78-87 | the per-tab clause `InTab`, on the filter's result: for a job matching search and location, "all" needs open and active, "fresher"/"experienced" need the level and open, "expired" needs closed or inactive |
| Jobs.InactiveOpenFresherJob | client/src/pages/jobs.tsx:80-86 | an inactive, still open fresher job is listed under "fresher" and "expired" but not under "all" |
| Jobs.UnknownTabIsAll | client/src/pages/jobs.tsx:85-86 | any other tab value lists exactly what "all" lists |
| Jobs.AllAndExpiredPartition | client/src/pages/jobs.tsx:84-86 | "all" and "expired" divide the search- and location-matching jobs between them with no overlap |
| Jobs.FilterJobsIdempotent | client/src/pages/jobs.tsx:64-88 | filtering the feed's own output again with the same inputs changes nothing |
| Jobs.SearchIsSubstringMatch | client/src/pages/jobs.tsx:65-68 | `MatchesSearch` with a non-empty term holds iff the lower-cased term occurs in the lower-cased title, company name or skills |
| Jobs.LocationIsSubstringMatch | client/src/pages/jobs.tsx:65-71 | an empty search or location term matches every job; `MatchesLocation` with a non-empty term holds iff the lower-cased term occurs in the lower-cased location |
| Jobs.SkillSearchExample | client/src/pages/jobs.tsx:65-68 | "react" and "NODE" both find a job whose skills are "React, Node.js" |
| Jobs.HoursThenDays | client/src/pages/jobs.tsx:121-122 | floor of whole hours by 24 equals floor of milliseconds by a day |
| Jobs.TimeAgo | client/src/pages/jobs.tsx:117-128 | under one hour (negative included), under a day in whole hours, "1 day ago" for one day, else whole days; NaN for a bad date |
| Jobs.TimeAgoHourExamples | client/src/pages/jobs.tsx:124-125 | 59 minutes is "Less than 1 hour ago"; 90 minutes is "1 hours ago" |
| Jobs.TimeAgoDayExamples | client/src/pages/jobs.tsx:126-127 | 25 hours is "1 day ago"; 50 hours is "2 days ago" |
| Jobs.WhatsAppQuery | client/src/pages/jobs.tsx:101 | the text parameter of a WhatsApp link decodes to the message |
| Jobs.TelegramQuery | client/src/pages/jobs.tsx:104 | a Telegram query splits at '&' into exactly two parameters that decode to the link and the message |
| Jobs.Share | client/src/pages/jobs.tsx:94-115 | WhatsApp opens the prefix followed by the encoding of message plus detail URL, which decodes back to them; Telegram opens the encoded detail URL and `&text=` with the encoded message, which split and decode back to them; every other platform copies the detail URL, with Instagram's notice or the default "Link copied to clipboard!" |
| Jobs.WhatsAppLinkEndsWithEncodedJobUrl | client/src/pages/jobs.tsx:96-101 | the WhatsApp link ends with the encoded detail URL |
| Jobs.SkillBadges | client/src/pages/jobs.tsx:293-300 | min(tokens, 6) badges, each the trimmed comma-separated token; a "more" badge iff there are more than 6 tokens, counting the rest |
| Jobs.SkillOverflowCaption | client/src/pages/jobs.tsx:298-299 | with seven or more tokens the row has seven captions, the last "+N more" with N the number of tokens after the sixth |
| Jobs.ApplyTarget | client/src/pages/jobs.tsx:363-369 | "Apply Now" opens the apply URL when it is a non-empty string, else goes to the job's detail path |
| Jobs.JobIds | client/src/pages/jobs.tsx:59 | one id per application, in order (the i-th id is the i-th application's job id); an id is present iff some application is for it |
| Jobs.JobsPage.constructor | client/src/pages/jobs.tsx:33-36 | the page starts with no search, no location, the "all" tab and no applied jobs |
| Jobs.JobsPage.SetSearchTerm | client/src/pages/jobs.tsx:33 | the search input changes and nothing else does |
| Jobs.JobsPage.SetLocationFilter | client/src/pages/jobs.tsx:34 | the location input changes and nothing else does |
| Jobs.JobsPage.SetActiveTab | client/src/pages/jobs.tsx:35 | the active tab changes and nothing else does |
| Jobs.JobsPage.UpdateApplications | client/src/pages/jobs.tsx:57-62 | a non-empty application list replaces the applied ids, so `IsApplied` holds for a job iff some application names it; a missing or empty list leaves them as they were |
| Jobs.JobsPage.Listed | client/src/pages/jobs.tsx:64-88 | the page lists the feed filter of its current inputs, so input order and repeats are kept, and a job is listed iff its inputs select it |
| Jobs.JobsPage.ApplyButtonStaysHidden | client/src/pages/jobs.tsx:210-360 | `ShowsApplyButton` is not `IsApplied` and not expired; once hidden (applied, or closed) the button stays hidden at every later instant |
| Courses.SelectCourses | client/src/pages/courses.tsx:85-94 | the kept courses are a subsequence of the catalog and are exactly those matching both search and category; each kept entry occurs as often as in the catalog, so repeats are kept |
| Courses.UnfilteredKeepsAll | client/src/pages/courses.tsx:86-91 | no search text and "all" keep every course, in order |
| Courses.UnfilteredIsCatalog | client/src/pages/courses.tsx:53-94 | `FilteredCourses` with the default inputs lists the whole free-course catalog |
| Courses.CategorySelection | client/src/pages/courses.tsx:91-93 | for a named category, a course is kept iff it is in the catalog, matches the search and has that category |
| Courses.SearchIsSubstringMatch | client/src/pages/courses.tsx:86-89 | a non-empty search matches iff it occurs, case-folded, in the title, the description or a present non-empty instructor |
| Courses.ListedUnderOwnCategory | client/src/pages/courses.tsx:91 | with no search text every course appears under its own category button |
| Courses.CategoryIdsAreButtons | client/src/pages/courses.tsx:42-50 | the six ids are exactly the button ids other than "all" |
| Courses.CatalogCategoriesListed | client/src/pages/courses.tsx:42-83 | every catalog course has the category of some button other than "all" |
| Courses.FirstOfEachCategory | client/src/pages/courses.tsx:53-83 | each button category has a course in the catalog |
| Courses.LevelColor | client/src/pages/courses.tsx:100-107 | beginner, intermediate and advanced get green, yellow and red; exactly every other level gets gray |
| Courses.LevelBadgeClass | client/src/pages/courses.tsx:205 | a missing level is coloured as "beginner"; the badge class adds " text-xs" |
| Courses.PopularOnlyUnderAll | client/src/pages/courses.tsx:271 | `ShowsPopularSection` holds under "all" and under no other button |
| Projects.SelectProjects | frontend/src/pages/projects.tsx:152-154 | the kept projects are an order-keeping subsequence; each project in the selection keeps its multiplicity, every other one is gone |
| Projects.AllSelectsEverything | frontend/src/pages/projects.tsx:153 | under "all" the list is the whole input |
| Projects.UnfilteredIsCatalog | frontend/src/pages/projects.tsx:152-154 | `FilteredProjects` under "all" is the whole project list, in page order |
| Projects.CategorySelection | frontend/src/pages/projects.tsx:152-154 | under any other selection a project is kept iff its category equals the selection |
| Projects.FeaturedOf | frontend/src/pages/projects.tsx:156 | the featured list (`FeaturedProjects` is it applied to the project list) is the order-keeping subsequence of exactly the featured projects, multiplicities kept |
| Projects.FeaturedListedUnderAll | frontend/src/pages/projects.tsx:152-156 | every featured project is also listed under "all" |
| Projects.DifficultyColor | frontend/src/pages/projects.tsx:158-165 | the three difficulties get green, yellow and red; exactly every other string gets gray |
| Projects.DifficultyColorIsLevelColor | frontend/src/pages/projects.tsx:158-165 | the projects page colours difficulties exactly as the courses page colours levels |
| Projects.CategoryIcon | frontend/src/pages/projects.tsx:167-176 | each of the five categories gets its own icon; exactly every other string gets the folder icon |
| Projects.CardIconMatchesButton | frontend/src/pages/projects.tsx:143-176 | a card's category icon is the icon of the button for that category |
| Projects.FindCategory | frontend/src/pages/projects.tsx:284 | `find` returns the first category with the id, or nothing exactly when no category has it |
| Projects.FindUnique | frontend/src/pages/projects.tsx:284 | among categories with distinct ids, `find` returns the one carrying the id |
| Projects.HeadingIsCaption | frontend/src/pages/projects.tsx:284 | the grid `Heading` is the caption of the selected button ("All Projects" for "all"); an unknown id gives no heading |
| Projects.TechnologyBadges | frontend/src/pages/projects.tsx:220-229 | the first min(3, n) technologies, and "+(n-3) more" exactly when n > 3 |
| Projects.TechnologyOverflowCaption | frontend/src/pages/projects.tsx:220-229 | with more than three technologies a card shows the first three, then "+N more" with N the number not shown |

## Left out

- Rendering, styling and icons as components. The lookups return the class
  strings and an `Icon` value.
- The login redirect through `localStorage` on all three pages. This is
  browser storage and navigation.
- Data fetching. This covers `useQuery` for jobs and applications, their
  loading states, and the courses page's `/api/courses` query, whose result
  the page never reads. The fetched job list and application list are
  inputs. A value that is not an array is `None`.
- `window.open`, `navigator.clipboard.writeText` and `alert`. Only the URL,
  the payload and the alert text are modelled, as a `ShareAction`.
- Date parsing and `toLocaleDateString`. Times are integer milliseconds. The
  range limits of `Date` are not modelled.
- Jobs.FilterJobs: takes one `now` for the whole list. The source reads the
  clock once per job, so a list filtered across a millisecond boundary may
  mix two instants.
- Text.Lower: folds only ASCII letters. Full Unicode `toLowerCase`, which
  can change the length of a string, is not modelled.
- Text.Decimal: renders every natural number in plain digits. JavaScript
  switches to exponent notation from 10^21, a count no label reaches.
- Uri.Encode: takes strings of Unicode scalar values. A lone surrogate, for
  which `encodeURIComponent` throws `URIError`, cannot occur in a Dafny
  string.
- Jobs.TimeAgo: takes the posting time as an `Instant`. The fallback the
  page uses when `createdAt` is not a string is not modelled.
- Course records from the database, including their `createdAt`. The page
  shows only its built-in catalog.
- The `createdAt` timestamp each built-in catalog entry is given when the
  page loads: the `Course` datatype drops it, because nothing on the page
  reads it.
- Courses.CatalogCategoriesListed and Courses.FirstOfEachCategory are stated
  over catalog groups of one category each. Together with
  `ListedUnderOwnCategory` they give that every button lists at least one
  course. That fact is not stated as a single lemma over the filter applied
  to the catalog.
- frontend/src/pages/course-details.tsx, client/src/pages/companies.tsx,
  client/src/components/job-portal/navbar.tsx and
  frontend/src/lib/queryClient.ts are not part of this model. They hold
  mock data, form glue, a static navigation list and the fetch wrapper.
