# Résumé page layouts and the DOCX section converter, modelled in Dafny

The repository publishes a single-page résumé. A Python tool
(`tools/docx_to_sections.py`) converts a Word document into résumé sections:
paragraphs with a heading style open a section. Numbered paragraphs are
gathered into bullet lists and the other paragraphs become text blocks. The
sections are then written out as HTML. `script.js` defines the functions that
would read a section back and rewrite its details container into "entries". An
entry is an article with a title, an optional meta caption and a body. There
are three layouts in `buildEntries`:

- the generic layout, where one title-like paragraph opens a single entry;
- the industry layout, where every title-like list item opens an entry;
- the education layout (`formatEducationSchools`), where every list opens a
  school.

A fourth layout, `buildEducationByColon`, groups the lines that carry a
"Title: ..." prefix.

None of these functions runs on the page as the code stands. The page's load
handler tests the section name, but both of its branches are empty
(script.js:472-477), so neither `buildEntries` nor `buildEducationByColon` is
called anywhere. The only call among the layouts is the one from
`buildEntries` to `formatEducationSchools` for education sections
(script.js:198). The model states what each function does when it is called.

This project models those layouts and the converter, and proves what the code
promises about them.

The modules follow the source:

- `JsText` (`js_text.dfy`) holds the JavaScript string operations the layouts rely
  on. These are the ECMAScript whitespace set and `trim`, ASCII
  case-insensitive matching, `includes`, `indexOf`, `replace` of the first
  occurrence of a string, the dash and `\s{2,}` cleanups, and `join`. It also
  defines the `Option` datatype in module `Opt`.
- `Patterns` (`patterns.dfy`) holds the three regular expressions of
  `script.js`. Each is written out as a matcher for exactly that pattern:
  - `ORG_RE`, behind `isTitleCandidate`;
  - `LOCATION_RE`, behind `parseTitleAndLocation`;
  - `DATE_RE`, with the clean-up of the text a date is taken from.
- `Tree` (`tree.dfy`) holds the container's children (`<p>` and `<ul>`) and the
  articles that replace them, as an abstract tree rather than DOM nodes.
- `SchoolText` (`school_text.dfy`) holds `boldGPA` and the split of a school line
  on dotted leaders.
- `Entries` (`entries.dfy`) holds the generic and industry reducers of
  `buildEntries`. Each is a specification fold plus a method that runs the
  source's loop. The module also renders the entries.
- `Colon` (`colon.dfy`) holds `buildEducationByColon`: segments, entries and the
  grouping of bullet details into lists.
- `Schools` (`schools.dfy`) holds the loop of `formatEducationSchools`.
- `Resume` (`container.dfy`) holds the container as a class. Its methods replace its
  content the way the three layouts do. `buildEntries` dispatches on the section
  name: names containing `education` go to the school layout, and names
  containing `industry`, `work` or `professional` go to the industry layout.
- `GenericExample` (`generic_example.dfy`) works one input through the generic
  layout: a heading with a place, a line with a degree and a date, and a list
  of coursework become one entry.
- `PyText` (`py_text.dfy`) holds Python's `str.isspace`, `strip()`, argument-less
  `split()` and `' '.join`.
- `DocxSections` (`docx_sections.dfy`) holds the converter:
  - `get_paragraph_style`, `extract_paragraph_text`, `is_heading` and
    `is_list_paragraph`;
  - the grouping loop of `convert_docx_to_sections`;
  - `sections_to_html` with `html.escape`.

A Word paragraph is modelled as its runs' `w:t` texts plus its paragraph
properties. The properties are the attribute map of `w:pStyle`, if there is one,
and whether the paragraph has `w:numPr`.

Some behaviour of the code that is easy to miss, all of it modelled as written:

- The title that `parseTitleAndLocation` leaves can end with a comma. The
  location is the leftmost suffix that `LOCATION_RE` matches, so in
  "A, B, C" the title is "A,".
- After a date is taken, the dash replacement applies to the whole remaining
  text, not only next to the date.
- The date is removed by its first occurrence (`String.replace` with a string).
  The remaining text can still hold another date.
- `get_paragraph_style` returns a style only when the `w:pStyle` element has an
  attribute whose key is literally `val`. ElementTree stores `w:val` under its
  namespaced key, so this is never the case for a document Word writes. The
  model keeps this as written. As a result, an unstyled document gives at most
  one section, "Summary".

## Model

| member | source | states |
|---|---|---|
| JsText.Trim | script.js:23-25 | the result has no whitespace at either end, is no longer than the text, and is empty exactly when the text is all whitespace |
| JsText.TrimSlice | script.js:23-25 | the trimmed text is a slice of the text with only whitespace before and after it |
| JsText.TrimKeepsWords | script.js:23-25 | trimming keeps the whitespace-separated words of the text |
| JsText.CollapseSpaces | script.js:257 | replacing runs of two or more whitespace characters by one space leaves no two adjacent spaces, keeps every non-space character, keeps whether the text starts with whitespace, and changes nothing in a text without such a run |
| JsText.CollapseKeepsWords | script.js:257 | collapsing whitespace runs keeps the words of the text |
| JsText.WordsSplit | script.js:257 | a whitespace character splits the words: the words of `a`, a space and `b` are the words of `a` followed by those of `b` |
| JsText.NonEmptyIsFilter | script.js:144 | `filter(Boolean)` keeps exactly the non-empty parts, in their order: the same multiset less the empty strings, as a subsequence of the input |
| JsText.NonEmptyAppend | script.js:144 | filtering distributes over concatenation |
| Patterns.KeywordMakesTitle | script.js:13-18 | any `ORG_RE` keyword occurring in any ASCII letter case makes the text a title candidate |
| Patterns.TitleHasKeyword | script.js:13-18 | conversely, a title candidate holds some `ORG_RE` keyword, in some letter case, at some position |
| Patterns.LocationStart | script.js:14 | the leftmost position from which the text's suffix matches `LOCATION_RE` (letters, dashes and spaces, one comma, more of them, to the end); no earlier position matches |
| Patterns.ParseTitleAndLocation | script.js:20-26 | title and location are trimmed; the location is non-empty exactly when some suffix matches `LOCATION_RE`; with a match at the leftmost `i` the title is the trimmed text before `i` and the location the trimmed suffix; with none, the title is the whole text trimmed and the location empty |
| Patterns.LocationExtends | script.js:14 | a location suffix preceded by a location character other than a comma could have started one position earlier |
| Patterns.TitleEndsBeforeLocation | script.js:20-23 | before the leftmost location comes a comma or a character outside the location class, and the title is the trimmed text before it and keeps that character as its last |
| Patterns.YearRangeNeverWins | script.js:12 | wherever the year-range alternative of `DATE_RE` matches, the plain-year alternative already matches at the same position, so the range alternative never decides the match |
| Patterns.FindDateFrom | script.js:12 | the leftmost position at or after the start where `DATE_RE` matches, with the length of that match; none before it; none anywhere when absent |
| Patterns.MonthAt | script.js:12 | a month name matches at a position exactly when it is there in some letter case and is followed by at least one whitespace character and four digits; the match spans the name, the spaces and the digits |
| Patterns.MatchDate | script.js:12 | `text.match(DATE_RE)` fails exactly when no position matches; otherwise it gives the text of the leftmost match |
| Patterns.MonthFromNeedsLetter | script.js:12 | no month-year alternative matches at a character that is not an ASCII letter, so there the bare-year and year-range alternatives decide the match |
| Patterns.LeadingYearIsTheDate | script.js:12 | a text starting with four digits followed by a non-word character or the end yields those four digits as its date |
| Patterns.DateResidual | script.js:257 | the text left after the date is taken is trimmed, has no dash and no double whitespace, and has the same words as the text with the first occurrence of the date removed and dashes turned into spaces |
| Patterns.CleanSpaceYear | script.js:257 | the clean-up turns a space and a year into just the year |
| Patterns.ResidualCanHoldAnotherDate | script.js:253-257 | for "Y1 Y2" the date is Y1 and the text left is Y2, which is itself a date: the clean-up does not make the text date-free |
| SchoolText.GpaAt | script.js:126 | a GPA match starts only at "gpa" in some letter case, is at least four characters long and stays inside the text |
| SchoolText.BoldFromFlatten | script.js:129 | the global replace inserts tags only: deleting them gives back the text scanned |
| SchoolText.BoldFromRuns | script.js:126-130 | there is a bold run exactly when a GPA match starts somewhere in the scanned text, and every bold run starts with "gpa" in some case |
| SchoolText.BoldFromMarks | script.js:126-130 | scanning left to right, every bold run is exactly the GPA match starting where it starts, and no character of a plain run starts a GPA match |
| SchoolText.GpaOnwardIff | script.js:126 | the position-by-position scan finds a GPA match from a position on exactly when a match starts at some position from there on |
| SchoolText.BoldGpa | script.js:124-134 | `boldGPA` on one paragraph keeps its wording, makes a run bold exactly when the text mentions a GPA, bolds only runs starting with "GPA", and leaves a text without a match unchanged |
| SchoolText.BoldGpaMarksMatches | script.js:124-134 | the runs of `boldGPA` are the leftmost, non-overlapping GPA matches of the text, in bold, with the text between them plain |
| SchoolText.GpaOutOfStopsAtInteger | script.js:126 | "GPA: 3.8 out of 4.0" bolds "GPA: 3.8 out of 4" and leaves ".0" plain, because the scale takes whole digits only |
| SchoolText.SplitLeaders | script.js:144 | splitting on runs of dots or ellipses with the whitespace around them gives at least one part, and no part holds a leader |
| SchoolText.SplitRejoin | script.js:144 | there is one more part than separators, every separator is a run of leaders with its whitespace, and the parts and separators interleaved give back the text |
| SchoolText.SplitTight | script.js:144 | a non-empty part before a separator does not end in whitespace, and one after a separator (or at the start of a text not starting with whitespace) does not start with it: the separators take all the whitespace around the leaders |
| SchoolText.ParseSchoolHeader | script.js:142-146 | the school name holds no leader unless the line had no non-empty part (then it is the whole line); the trailing text is trimmed |
| SchoolText.SchoolNameBeforeLeader | script.js:144-146 | for a line that does not start with a leader, the name is the trimmed text before the first leader, and the trailing text is the other non-empty parts joined by spaces and trimmed |
| SchoolText.SchoolNameAfterLeadingLeader | script.js:144-146 | for a line that starts with a leader, the empty first part is dropped: the name is the first non-empty part after it, trimmed, or the whole line when there is none, and the trailing text is the parts after that one |
| SchoolText.StateCollegeExample | script.js:141-146 | "State College ..... Springfield" gives the school "State College" and the trailing text "Springfield" |
| Entries.TrimmedItems | script.js:204 | the list items kept are non-empty and trimmed, no more than the list has, and none are kept exactly when every item is blank |
| Entries.TrimmedItemsIdempotent | script.js:204 | trimming and filtering the items twice is the same as once |
| Entries.TrimmedItemsFilter | script.js:204 | the items kept are the trimmed items less the empty ones, in order |
| Entries.AbsorbParagraph | script.js:252-266 | a detail paragraph keeps the entry's title and sets the date only while the entry has none; the text left after the date is cut out (`LineText`) gives the entry its location when it has none and the text ends in one, and what remains of it, if non-empty, is appended to the body |
| Entries.PlaceText | script.js:259-266 | after the date step, the title and date stay; an entry without a location takes the location the text ends in, and then the title part of the text is what is appended; otherwise the whole text is; an empty remainder appends nothing |
| Entries.SettledStep | script.js:231-266 | once an entry has a date and a location, a paragraph or list only appends its trimmed contribution to the body |
| Entries.GenericBodySettled | script.js:231-266 | from then on the body is extended by every later child's contribution in order: a non-blank paragraph's trimmed text, a list's non-empty trimmed items |
| Entries.DateStep | script.js:253-258 | a step keeps a date once set, and an undated entry takes the date of the paragraph, if any |
| Entries.GenericTakesFirstDate | script.js:253-258 | an undated open entry ends up dated by the first paragraph whose trimmed text holds a date, or stays undated |
| Entries.GenericTakesFirstLocation | script.js:259-265 | an open entry without a location ends up with the location of the first later non-blank paragraph whose text, with the entry's date cut out where that paragraph supplies it, ends in one; later locations are ignored |
| Entries.GenericEntries | script.js:231-270 | the generic layout yields at most one entry |
| Entries.GenericStaysClosed | script.js:247-252 | the generic layout opens no entry exactly when no paragraph is a non-blank title candidate |
| Entries.GenericOpensAtFirstOpener | script.js:247-251 | the entry is opened by the first title-like paragraph, and everything before it is ignored |
| Entries.GenericKeepsEntry | script.js:231-266 | once open, the entry stays open, keeps its title, date and location once set, and its body only grows at the end |
| Entries.GenericScenario | script.js:231-266 | a place-bearing heading, a dated line and a list give one entry: the heading's title and place, the line's date, and as body the rest of the line followed by the list |
| GenericExample.ExampleEntry | script.js:231-266 | "Example University, Springfield, USA", "BSc Computer Science Jan 2010" and a coursework list give one entry titled "Example University," placed "Springfield, USA", dated "Jan 2010", with the degree and the list as body |
| Entries.GenericRunAppend | script.js:202-268 | the reducer over two runs of children is the reducer over the second, started from its state after the first |
| Entries.IndustryFacts | script.js:207-245 | in the industry layout every committed entry ends with a list, and there are no more entries than title-like list items |
| Entries.IndustryParagraphs | script.js:241-245 | in the industry layout paragraphs only extend the open entry's body, and are dropped when no entry is open |
| Entries.DetailItems | script.js:209-223 | list items that are not title candidates become bullets of the open entry, and are dropped when none is open |
| Entries.HeadingWithDetails | script.js:207-228 | a list whose first kept item is a title and the rest are not opens that entry with the rest as its one list, replacing any open entry |
| Entries.IndustryListByJobs | script.js:207-228 | for a list whose kept items are details followed by jobs (a title item and the details after it): the first details go to the entry open before the list, which is then committed if there were any; every job but the last is committed, with its details as a list, when it has details, and lost when it has none; the last job's entry stays open holding its details |
| Entries.ItemRunJobs | script.js:209-224 | within a list, each title item commits the open entry when it gathered bullets, and the items after a title become its bullets |
| Entries.TwoJobsInOneList | script.js:207-228 | the list `A, a1, B, b1` commits `A` with the list `[a1]` and leaves `B` open with the list `[b1]` |
| Entries.HeadingListDropsOpen | script.js:207-228 | a list of a heading and a detail replaces whatever entry was open with a new one holding that detail as its list |
| Entries.HeadingThenDetail | script.js:209-223 | a heading opens an entry and the next non-heading item becomes its bullet |
| Entries.LostEntry | script.js:208-216 | an entry whose bullets came in an earlier list is dropped when a later list opens another: two lists of heading and detail give one entry only |
| Entries.CollectListItems | script.js:207-228 | the loop over a list's items gives the committed entries and open entry of the industry fold |
| Entries.AbsorbLine | script.js:252-266 | the handling of one detail paragraph gives the entry `AbsorbParagraph` describes |
| Entries.PlaceLine | script.js:259-266 | the location test and the append give the entry `PlaceText` describes |
| Entries.CollectEntries | script.js:202-270 | the loop over the children gives the industry entries or the generic entries, as the flag says |
| Entries.Caption | script.js:284-291 | the meta caption is absent exactly in industry sections or when there is neither location nor date; otherwise it is the location, the date, or both joined by an em dash |
| Entries.RenderEntry | script.js:274-311 | an article has the entry's title, not in bold, the caption as its meta and one body node per body item |
| Entries.RenderEntryReadsBack | script.js:295-309 | reading the body nodes back gives the entry's body items in order |
| Colon.BlockSegments | script.js:30-40 | each segment of a child is non-empty and trimmed, is a bullet exactly when it comes from a list, and the segments' texts are the child's trimmed texts less the empty ones |
| Colon.SegmentsWellFormed | script.js:30-40 | all segments of the container are non-empty and trimmed |
| Colon.SegmentsTexts | script.js:29-40 | the segments' texts are all the children's trimmed texts less the empty ones, in order |
| Colon.FirstColon | script.js:52 | the first colon at or after the start, with no colon before it, or none at all |
| Colon.SplitColon | script.js:52-55 | a text without a colon has no sides; otherwise the sides are the trimmed texts around its first colon |
| Colon.OpenColonEntry | script.js:54-66 | a heading segment opens an entry titled by its left side, a title candidate; the meta is the date of the right side, or empty; the body is the right side (less its date, cleaned, when there is one) as a segment of the heading's kind, or nothing when that is empty |
| Colon.ColonStepFacts | script.js:50-72 | each segment adds one entry exactly when it is a heading, and every entry keeps a title candidate as its title |
| Colon.ColonEntriesCount | script.js:42-73 | there are exactly as many entries as heading segments |
| Colon.NoHeadingNoEntry | script.js:42-75 | without a heading segment no entry is ever opened |
| Colon.DetailsAttach | script.js:69-71 | segments without a heading append to the open entry's body in order |
| Colon.HeadingAttach | script.js:52-71 | a heading commits the open entry and opens its own, to which the following non-heading segments attach |
| Colon.AttachedAt | script.js:50-73 | the k-th entry of a grouped run is the k-th heading with its details attached |
| Colon.ColonEntriesByGroup | script.js:42-75 | for segments split into leading non-headings and groups of one heading with its details, the entries are exactly the groups, each a heading with its details; the leading segments are dropped |
| Colon.CollectSegments | script.js:29-40 | the loop over the children gives the container's segments |
| Colon.CollectColonEntries | script.js:42-73 | the loop over the segments gives the colon entries |
| Colon.GroupDetailsFacts | script.js:96-112 | grouping the details loses and reorders nothing, and never puts two lists side by side |
| Colon.RenderDetails | script.js:96-112 | the loop that builds the body gives the grouped details |
| Colon.ColonArticle | script.js:78-113 | an article has the entry's title in bold, a meta exactly when the entry has a date, and a body that ungroups to the entry's details and has no two adjacent lists |
| Schools.HeaderText | script.js:141-142 | the header is the first item trimmed, or empty without an item |
| Schools.LeadingParas | script.js:169-175 | the details of a school are the paragraphs up to the next list or the end |
| Schools.SkipParas | script.js:179-181 | paragraphs before a list add no school |
| Schools.SchoolPerList | script.js:136-182 | there is one school per list, titled by the name parsed from its header line, in bold and with no meta |
| Schools.DetailsKeepWording | script.js:169-175 | the details read back as the paragraphs they came from, one per paragraph |
| Schools.SchoolBodyWording | script.js:160-175 | a school's body reads back as the trailing header text, when there is one, followed by the paragraphs after its list |
| Schools.SchoolAt | script.js:139-178 | one school: the paragraphs after a list up to the next list, and that school's article |
| Schools.TakeDetails | script.js:169-175 | the inner loop stops at the next list or the end, passes only paragraphs, and appends them in order, each with its GPA bolded |
| Schools.FormatSchools | script.js:136-182 | the outer loop gives one article per list, as the school fold describes |
| Resume.BuildEntriesIdempotent | script.js:189-313 | running `buildEntries` again on a container it already laid out changes nothing |
| Resume.ColonIdempotent | script.js:28-117 | running `buildEducationByColon` again changes nothing |
| Resume.ColonRewritesIffHeading | script.js:42-77 | the colon layout rewrites the container exactly when some item or paragraph has a title candidate before its first colon |
| Resume.IndustryLayoutShape | script.js:207-272 | when the industry layout rewrites the container, there are no more articles than title-like items, and every article but the last ends with a list |
| Resume.RenderColonEntries | script.js:78-115 | the rendering loop gives one article per colon entry |
| Resume.RenderEntryList | script.js:272-312 | the rendering loop gives one article per entry |
| Resume.Container.FormatEducationSchools | script.js:119-187 | the container holds the schools when there is at least one and is otherwise unchanged |
| Resume.Container.BuildEntries | script.js:189-313 | education names go to the school layout; other names replace the content with the industry or generic entries when there are any |
| Resume.Container.BuildEducationByColon | script.js:28-117 | the result is true exactly when there is a colon entry, and then the entries replace the content |
| PyText.PyStrip | tools/docx_to_sections.py:27 | the result has no whitespace at either end, is no longer than the input, and is empty exactly when the input is all whitespace |
| PyText.StripSlice | tools/docx_to_sections.py:27 | the stripped text is a slice of the text with only whitespace before and after it |
| PyText.Words | tools/docx_to_sections.py:28 | every word of `split()` is non-empty and holds no whitespace |
| PyText.WordsSplit | tools/docx_to_sections.py:28 | a whitespace character splits the words: the words of `a`, a space and `b` are the words of `a` followed by those of `b` |
| PyText.WordsOfStrip | tools/docx_to_sections.py:27-28 | stripping before splitting changes no word |
| PyText.WordsOfJoin | tools/docx_to_sections.py:28 | splitting words joined by single spaces gives the same words back |
| PyText.JoinNormalised | tools/docx_to_sections.py:28 | non-empty words joined by single spaces give a text with no outer whitespace and single spaces between words only |
| DocxSections.GetParagraphStyle | tools/docx_to_sections.py:12-19 | a style exists exactly when there are paragraph properties with a `pStyle` that has an unnamespaced `val` attribute; it is the namespaced `w:val` value when that key is present too, and the `val` value otherwise |
| DocxSections.QualifiedKeysHaveNoStyle | tools/docx_to_sections.py:16-18 | a `pStyle` whose attribute keys all carry a namespace yields no style |
| DocxSections.NamespacedValueWins | tools/docx_to_sections.py:18 | with both keys present the namespaced `w:val` is the style returned |
| DocxSections.ExtractParagraphText | tools/docx_to_sections.py:22-28 | the text is normalised (no outer whitespace, single spaces between words only) and has the same words as the runs' texts joined, with non-breaking spaces made spaces |
| DocxSections.ExtractIdempotent | tools/docx_to_sections.py:22-28 | extracting the text of a paragraph holding an extracted text gives that text back |
| DocxSections.HeadingStyles | tools/docx_to_sections.py:31-35 | "Heading1", "Title" and "TITLE" are headings; "Subtitle", the empty style and no style are not |
| DocxSections.Flush | tools/docx_to_sections.py:55-59 | flushing empties the pending list, keeps every section but the last, and appends the pending items as one list to the last section; with no section the items are dropped, and an empty pending list changes nothing |
| DocxSections.Classify | tools/docx_to_sections.py:61-71 | a paragraph is skipped exactly when its text is empty; otherwise it is a heading when its style is one, else a list item when numbered, else a text block, carrying its normalised text |
| DocxSections.Absorb | tools/docx_to_sections.py:61-81 | the loop body moves the converter's state as one step of the grouping fold |
| DocxSections.FlushList | tools/docx_to_sections.py:55-59 | `flush_list_into_current` gives the state `Flush` describes |
| DocxSections.ConvertSections | tools/docx_to_sections.py:51-84 | the loop over the paragraphs and the final flush give the sections of the grouping fold |
| DocxSections.BlanksIgnored | tools/docx_to_sections.py:62-64 | paragraphs with no text change nothing |
| DocxSections.StepTitles | tools/docx_to_sections.py:66-81 | one loop step adds the title "Summary" when a text block comes with no section open, and the heading's text for a heading; other paragraphs add no title |
| DocxSections.ConvertTitles | tools/docx_to_sections.py:61-81 | the section titles are "Summary" when a text block comes before every heading, followed by the headings' texts in order |
| DocxSections.StepKeepsSections | tools/docx_to_sections.py:66-81 | once there is a section there always is one, and a step from no section leaves none exactly when the paragraph is blank or a list item |
| DocxSections.RunSectionsEmpty | tools/docx_to_sections.py:61-81 | the loop ends with no section exactly when it started with none and every paragraph was blank or a list item |
| DocxSections.OnlyListItemsGiveNothing | tools/docx_to_sections.py:55-81 | a document gives no section exactly when every paragraph is blank or a list item: list items before any section are dropped |
| DocxSections.UnstyledDocument | tools/docx_to_sections.py:65-81 | when no paragraph yields a style there is at most one section, titled "Summary" |
| DocxSections.ConvertWellFormed | tools/docx_to_sections.py:51-84 | every block of every section is non-empty and normalised, and no two lists are neighbours |
| DocxSections.StepGood | tools/docx_to_sections.py:61-81 | each loop step keeps every block non-empty and normalised, every pending item non-empty and normalised, and the last section not ending in a list, so that no two lists become neighbours |
| DocxSections.StepHeld | tools/docx_to_sections.py:61-81 | with a section open, a step appends the paragraph's text (a heading's is none) to the texts the sections and pending list hold |
| DocxSections.ConvertGroups | tools/docx_to_sections.py:45-84 | the sections equal those of an independent description that cuts the non-blank paragraphs at the headings: each heading starts a section whose blocks are one paragraph block per plain paragraph and one list block per maximal run of list items up to the next heading; plain text before the first heading opens a "Summary" section; list items before the first heading or plain paragraph are lost |
| DocxSections.SectionsRun | tools/docx_to_sections.py:61-84 | from a state with a current section, the paragraphs before the next heading go to that section and each later heading starts a section holding what follows it |
| DocxSections.BodyRun | tools/docx_to_sections.py:55-81 | within a section, pending items and the following heading-free paragraphs add exactly their grouped blocks to the current section |
| DocxSections.GroupAfterItems | tools/docx_to_sections.py:71-81 | list items followed by a non-item form a single list block |
| DocxSections.GroupedExample | tools/docx_to_sections.py:61-84 | under one heading, two list items and a paragraph give one list of both items, then the paragraph block |
| DocxSections.ConvertKeepsTexts | tools/docx_to_sections.py:51-84 | the sections hold, in order, the texts of every text block and list item from the first heading or text block on; the list items before it are the only texts lost |
| DocxSections.Escape | tools/docx_to_sections.py:91 | the escaped text holds none of `< > " '`; each becomes an entity |
| DocxSections.EscapeRoundTrip | tools/docx_to_sections.py:91-101 | unescaping the escaped text gives it back |
| DocxSections.HtmlLineCount | tools/docx_to_sections.py:87-106 | the page has two lines for the wrapper, five per section, one per paragraph and two plus one per item for each list |
| DocxSections.SectionsToHtml | tools/docx_to_sections.py:87-106 | the HTML is the page's lines joined by newlines |
| DocxSections.EmitSection | tools/docx_to_sections.py:90-104 | the loop over a section's blocks gives that section's lines |
| DocxSections.EmitBlock | tools/docx_to_sections.py:95-102 | one line for a paragraph; an opening line, one line per item and a closing line for a list |

## Left out

- DOM construction is out: element creation, class names, `innerHTML` assignment and re-parsing, and `cloneNode`. The articles are an abstract tree with the same titles, captions and bodies.
- The `innerHTML` round trip of `boldGPA` is out: the text is inserted unescaped. The model keeps the text runs, not the HTML string.
- `querySelectorAll('li')` descending into nested lists is out: a list's items are the list's own `li` texts.
- Container children that are neither `<p>` nor `<ul>` are out: the converter emits only those two.
- `boldGPA` descending into elements other than paragraphs is out, for the same reason.
- The early return of `formatEducationSchools` on an empty container is not modelled separately: it gives the same result as the loop finding no list.
- Reading the DOCX file is out: the ZIP archive, the XML parse, `findall` over the element tree, the command line and file writing (`main`). A paragraph is given as its `w:t` texts and its properties.
- `DocxSections.IsHeading` uses ASCII lower-casing where Python's `str.lower` lower-cases all of Unicode. Two non-ASCII characters lower-case to ASCII letters. U+212A (Kelvin sign) becomes "k", which is in neither "heading" nor "title". U+0130 becomes "i" followed by U+0307, so that "i" is never followed by the "n" or "t" both words need. The substring tests therefore give the same answer, and what is not modelled is only the lower-casing of the other characters of the style name.
- The browser page around the layouts is out: the `fetch` pipeline, the toggle, keyboard and focus handlers, `onMouseMove`, the footer year, `splitTechnicalSkills` and `splitAdditionalInfo`. These are event handling and DOM moves outside the layouts.
- `tools/cloudflare-worker.js` is not part of this model: it is a network proxy.
- The regular expressions are not run by a general regex engine. Each one is a hand-written matcher for its one pattern, and `buildEducationByColon`'s `\s{2,}` and dash replacements are written out the same way.
- `Resume.AfterSchools`, `Resume.AfterBuildEntries`, `Resume.AfterColon`: their own contracts only say that the content is either unchanged or replaced by rendered articles. What the articles are is stated by `Schools.SchoolPerList`, `Resume.IndustryLayoutShape`, `Resume.ColonRewritesIffHeading` and the lemmas behind them.
- `Entries.GenericEntries` only states that there is at most one entry. Its content is stated by `Entries.GenericBodySettled`, `Entries.GenericTakesFirstDate`, `Entries.GenericScenario` and `GenericExample.ExampleEntry`; `Entries.GenericStaysClosed`, `Entries.GenericOpensAtFirstOpener` and `Entries.GenericKeepsEntry` state when it opens and what it keeps.
