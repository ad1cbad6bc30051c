# Regulatory compliance assistant — verified model of its core logic

This project is a Dafny model of the logic under the regulatory-compliance web app for medical-device makers. It covers five pieces:

- **The regulatory catalog** (`Standards`). It holds three standards: FDA QSR (21 CFR 820), ISO 13485:2016 and the EU MDR, each with its ordered sections. It also has the three lookups: `getStandardById`, `findSection` and the case-insensitive `searchStandards`.
- **The citation extractor of the chat assistant** (`Scanning`, `ComplianceChat`). Three global, case-insensitive regular-expression passes run over the model's answer:
  - `21 CFR 820.N`;
  - `ISO 13485[:2016] Section N.N`;
  - `[EU] MDR Article N`.

  Each pass is written out as a left-to-right scanner. Each hit is resolved through `findSection`, and hits with no section are dropped. The result holds all FDA citations, then the ISO ones, then the EU MDR ones.
- **The chat hook** (`ChatHook`). `sendMessage` turns a model outcome into an assistant message and manages the `isLoading` flag.
- **The audit-simulation store** (`Simulation`). It covers create, update, delete, add-finding and the `simulation` lookup, over the stored list of simulations. The list functions are pure; a class with one `seq` field holds the stored list.
- **The dashboard data and the sample generator** (`ComplianceData`, `Sorting`, `SampleData`):
  - the score, status and severity colour functions and the sample metrics;
  - the generators of sample alerts and activities: loops that fill an array, then an in-place sort by the source's comparators;
  - the " - OVERDUE" title rule, the id rule and the date windows.

The shared records of `src/types/index.ts` are the datatypes of `Types`. Generic helpers live in `Seqs` and `Text`:
- `Seqs` has subsequences, distinctness, `find`, `filter` and a filter-map.
- `Text` has ASCII case folding, the JavaScript `\s` class, `includes` and decimal rendering.

Random draws, clocks, fresh UUIDs and the model call are parameters:
- a random pick is a bounded index;
- a date is a day number, or a millisecond count for activity timestamps;
- the model call is an `Ok(text) | Err` outcome.

## Model

| member | source | states |
|---|---|---|
| Standards.Sections | src/data/standards.ts:3-126 | A standard's sections are its headings paired in order with their texts, with no subsections. |
| Standards.OutlineOfCatalog | src/data/standards.ts:3-126 | The id/title outline used for lookups is exactly the catalog's standard ids and section ids and titles, position by position. |
| Standards.OutlineKeysAreDistinct | src/data/standards.ts:3-126 | Standard ids are pairwise distinct, and so are section ids within each standard. |
| Standards.CatalogKeysAreDistinct | src/data/standards.ts:3-126 | The same distinctness, stated on the full catalog. |
| Standards.SectionTitle | src/data/standards.ts:144-147 | The title lookup yields a title the outline lists for that standard and section, or nothing exactly when no title is listed. |
| Standards.GetStandardById | src/data/standards.ts:128-130 | The result is nothing iff no catalog standard has the id exactly; otherwise it is a catalog entry with that id. |
| Standards.FindSection | src/data/standards.ts:144-147 | An unknown standard gives nothing; otherwise the result is the first top-level section with the id (subsections are never searched), or nothing if none has it. |
| Standards.GetStandardByIdExact | src/data/standards.ts:128-130 | Every catalog standard is found by its own id, as exactly that entry. |
| Standards.FindSectionExact | src/data/standards.ts:144-147 | Every (standard, section) pair of the catalog is found as exactly that section. |
| Standards.SectionLookupExact | src/data/standards.ts:144-147 | Any standard that getStandardById returns has each of its sections found by findSection. |
| Standards.FindSectionIff | src/data/standards.ts:144-147 | findSection succeeds iff the catalog holds the pair, and what it finds has the requested id. |
| Standards.SectionTitleAgrees | src/data/standards.ts:144-147 | The outline's title lookup agrees with findSection followed by `.title`. |
| Standards.ListedFromCatalog | src/data/standards.ts:3-126 | Every catalog section is listed in the outline with its title. |
| Standards.CatalogFromListed | src/data/standards.ts:3-126 | Every outline entry is a section of the catalog. |
| Standards.ListedUnique | src/data/standards.ts:3-126 | A standard id and a section id name at most one title. |
| Standards.SearchStandards | src/data/standards.ts:132-142 | The result is a subsequence of the catalog (declaration order kept). It keeps a standard iff the lowercased query occurs in its lowercased name, its description, or some section's title or content. |
| Standards.SearchNoDuplicates | src/data/standards.ts:134-141 | The search never lists a standard twice. |
| Standards.SearchIgnoresCase | src/data/standards.ts:133 | Searching for `q` and for `lower(q)` gives the same result. |
| Standards.SearchEmptyQuery | src/data/standards.ts:132-142 | The empty query returns the whole catalog. |
| Standards.MentionsIgnoresIdAndAuthority | src/data/standards.ts:135-140 | Changing a standard's id or authority never changes whether it matches. |
| Text.Lower | src/data/standards.ts:133 | Lowercasing keeps the length and lowercases each character. |
| Text.LowerIdempotent | src/data/standards.ts:133 | Lowercasing twice is lowercasing once. |
| Text.Includes | src/data/standards.ts:136-140 | `includes` holds iff the needle occurs at some position. |
| Text.IncludesEmpty | src/data/standards.ts:132-142 | The empty string is included in every string. |
| Text.Decimal | src/data/sampleDataGenerator.ts:21 | A number's decimal rendering is a non-empty string of digits. |
| Text.DecimalRoundTrip | src/data/sampleDataGenerator.ts:21 | Reading the decimal rendering back gives the number. |
| Text.DecimalInjective | src/data/sampleDataGenerator.ts:179 | Different numbers render differently. |
| ComplianceChat.SkipWhile | src/hooks/use-compliance-chat.ts:67 | A greedy `\s*`-style run ends at the first character outside the class, and every character it skips is in the class. |
| ComplianceChat.SkipWhileStops | src/hooks/use-compliance-chat.ts:67 | A run of the class that no class character follows ends exactly where the greedy run stops. |
| ComplianceChat.FdaAt | src/hooks/use-compliance-chat.ts:67-70 | `/21\s*CFR\s*820\.(\d+)/i` tried at a position yields a non-empty match starting there, whose key is `820.` followed by digits, or no match. |
| ComplianceChat.IsoAt | src/hooks/use-compliance-chat.ts:85-88 | `/ISO\s*13485[:\s]*(?:2016)?[,\s]*Section\s*(\d+\.?\d*)/i` tried at a position yields a non-empty match whose key has the shape `\d+\.?\d*`, or no match. |
| ComplianceChat.SectionAt | src/hooks/use-compliance-chat.ts:85-88 | The `Section\s*(\d+\.?\d*)` tail of the ISO pattern yields a match from the pattern's start whose key has the shape `\d+\.?\d*`, or no match. |
| ComplianceChat.EditionEnd | src/hooks/use-compliance-chat.ts:85 | What is consumed is exactly `[:\s]*(?:2016)?[,\s]*`: a colon-or-space run, then "2016" or nothing, then a comma-or-space run. The last run is greedy: no comma or space follows. |
| ComplianceChat.EditionEndReaches | src/hooks/use-compliance-chat.ts:85 | Wherever the edition part can end with "Section" next, the greedy reading ends there too, so no citation is lost to the greedy choice. |
| ComplianceChat.DottedNumberEnd | src/hooks/use-compliance-chat.ts:85-88 | The capture is empty iff no digit is at its start. A non-empty capture has the shape `\d+\.?\d*`, no digit follows it, and a dot follows only when the capture already has its dot. |
| ComplianceChat.DottedPrefixExtends | src/hooks/use-compliance-chat.ts:85-88 | A proper prefix of a `\d+\.?\d*` number can always be extended, by a digit or by the number's only dot. |
| ComplianceChat.DottedNumberGreedy | src/hooks/use-compliance-chat.ts:85-88 | Any `\d+\.?\d*` number that nothing extends is exactly the capture, so "4.5" is taken whole. |
| ComplianceChat.MdrAt | src/hooks/use-compliance-chat.ts:103-106 | `/(?:EU\s*MDR\|MDR)\s*Article\s*(\d+)/i` tried at a position yields a non-empty match whose key is the article's digits, or no match. |
| ComplianceChat.MatchAt | src/hooks/use-compliance-chat.ts:67-106 | Any of the three patterns tried at a position fails or yields a match of the key shape that starts there and ends inside the text. |
| ComplianceChat.FdaComplete | src/hooks/use-compliance-chat.ts:67-70 | "21", any spaces, "CFR", any spaces, "820." and digits that no digit follows are always matched there, keyed `820.` plus all the digits. |
| ComplianceChat.IsoComplete | src/hooks/use-compliance-chat.ts:85-88 | "ISO", any spaces, "13485", any edition part, "Section", any spaces and a `\d+\.?\d*` number that nothing extends are always matched there, keyed by that number. |
| ComplianceChat.MdrComplete | src/hooks/use-compliance-chat.ts:103-106 | "MDR", any spaces, "Article", any spaces and digits that no digit follows are always matched there, keyed by the digits. |
| ComplianceChat.EuMdrComplete | src/hooks/use-compliance-chat.ts:103-106 | "EU", any spaces, "MDR", any spaces, "Article", any spaces and digits that no digit follows are always matched there, keyed by the digits. |
| ComplianceChat.MatcherAdvances | src/hooks/use-compliance-chat.ts:67-106 | Every pattern, tried anywhere, fails or consumes a non-empty stretch of text. |
| Scanning.ScanFrom | src/hooks/use-compliance-chat.ts:67 | A global match yields hits inside the text, in order and non-overlapping. |
| Scanning.HitsAreMatches | src/hooks/use-compliance-chat.ts:67 | Every hit is what the matcher yields at the hit's start. |
| Scanning.Covers | src/hooks/use-compliance-chat.ts:67 | No match is skipped: every position where the matcher succeeds lies inside some hit. |
| Scanning.NoMatchFromHere | src/hooks/use-compliance-chat.ts:67-68 | Where the matcher never succeeds, the global match is empty. |
| ComplianceChat.Scan | src/hooks/use-compliance-chat.ts:67-103 | `text.match(re)` with the `g` flag: hits inside the text, in text order, non-overlapping. |
| ComplianceChat.ScanHitsAreMatches | src/hooks/use-compliance-chat.ts:67-103 | Each hit of a pass is the pattern's match at that hit's start. |
| ComplianceChat.ScanCovers | src/hooks/use-compliance-chat.ts:67-103 | Each pass misses no match: every matching position lies inside a hit. |
| ComplianceChat.ScanTake | src/hooks/use-compliance-chat.ts:67-103 | Where the pattern matches, the pass takes that match and resumes at its end. |
| ComplianceChat.ScanSkip | src/hooks/use-compliance-chat.ts:67-103 | Where the pattern fails, the pass moves on by one character. |
| ComplianceChat.ScanEnd | src/hooks/use-compliance-chat.ts:67-103 | A pass from the end of the text finds nothing. |
| ComplianceChat.MatchHasLead | src/hooks/use-compliance-chat.ts:67-103 | Every match contains its pattern's leading literal ("21", "ISO" or "MDR"). |
| ComplianceChat.ScanHasLead | src/hooks/use-compliance-chat.ts:67-103 | A non-empty pass implies that the text shows the start of the leading literal. |
| ComplianceChat.ScanWithoutLead | src/hooks/use-compliance-chat.ts:68 | A text without the start of the leading literal gives an empty pass (the `if (matches)` branch is skipped). |
| ComplianceChat.Cite | src/hooks/use-compliance-chat.ts:70-79 | A hit yields a citation iff the catalog lists its section. The citation carries the pattern's standard label, the section label and the listed title. |
| ComplianceChat.CiteFollowsFindSection | src/hooks/use-compliance-chat.ts:72-78 | Citing is exactly `findSection(standard, key)` followed by a citation carrying the found section's title; nothing when it is not found. |
| ComplianceChat.CiteListed | src/hooks/use-compliance-chat.ts:90-96 | A hit whose key the catalog lists is cited with exactly the listed title. |
| ComplianceChat.Resolve | src/hooks/use-compliance-chat.ts:69-81 | Resolving a pass's hits gives at most one citation per hit. |
| Seqs.FilterMap | src/hooks/use-compliance-chat.ts:69-81 | Mapping through a partial function gives at most one result per element. |
| Seqs.FilterMapConcat | src/hooks/use-compliance-chat.ts:69-81 | Filter-mapping distributes over concatenation. |
| Seqs.FilterMapSources | src/hooks/use-compliance-chat.ts:69-81 | Every result is the defined value of the function on some element. |
| ComplianceChat.ResolveCites | src/hooks/use-compliance-chat.ts:70-118 | Every resolved citation names a catalog section with that section's title; unresolved hits are dropped. |
| ComplianceChat.ResolveLabels | src/hooks/use-compliance-chat.ts:74-115 | Every resolved citation carries its pattern's standard label. |
| ComplianceChat.ResolveConcat | src/hooks/use-compliance-chat.ts:69-81 | Resolving runs of hits one after the other gives the citations in text order; repeated references give repeated citations. |
| ComplianceChat.ResolveOne | src/hooks/use-compliance-chat.ts:69-81 | One hit gives its citation, or nothing when its section is missing. |
| ComplianceChat.ExtractCitations | src/hooks/use-compliance-chat.ts:63-122 | No more citations than pattern matches. Every citation names a catalog section with its title. FDA citations come before ISO ones, and ISO before EU MDR. |
| ComplianceChat.GroupsInOrder | src/hooks/use-compliance-chat.ts:64-121 | Concatenating the three groups keeps every citation valid, ranked FDA, then ISO, then EU MDR. |
| ComplianceChat.ExtractCitationsGroups | src/hooks/use-compliance-chat.ts:64-121 | The output is the FDA group, then the ISO group, then the EU MDR group. |
| ComplianceChat.ExtractGroup | src/hooks/use-compliance-chat.ts:64-121 | Keeping the output's citations of one standard gives exactly that pass's resolved hits, in text order. |
| ComplianceChat.PickGroup | src/hooks/use-compliance-chat.ts:64-121 | Filtering the three labelled groups by one standard's label gives that standard's group. |
| ComplianceChat.GroupFilter | src/hooks/use-compliance-chat.ts:64-121 | Filtering one labelled group keeps all of it or none of it. |
| ComplianceChat.NoMatchEmptyScan | src/hooks/use-compliance-chat.ts:67-68 | A pattern that matches nowhere gives an empty pass. |
| ComplianceChat.NoMatchNoCitations | src/hooks/use-compliance-chat.ts:63-122 | A text in which no pattern matches yields no citations. |
| ComplianceChat.SingleGroup | src/hooks/use-compliance-chat.ts:63-122 | When only one pattern matches, the output is that pass's resolved hits. |
| ComplianceChat.ConcatGroups | src/hooks/use-compliance-chat.ts:63-122 | With two empty passes, the output is the third group. |
| ComplianceChat.FdaRecognized | src/hooks/use-compliance-chat.ts:67-70 | "21 CFR 820." followed by digits is one FDA match over the whole text, with key `820.` plus all the digits. |
| ComplianceChat.FdaReferenceAlone | src/hooks/use-compliance-chat.ts:67-81 | Such a text yields exactly the citation of that one match, if any. |
| ComplianceChat.FdaExample | src/hooks/use-compliance-chat.ts:67-79 | "21 CFR 820.30" yields {FDA QSR, 820.30, Design Controls}. |
| ComplianceChat.FdaUnknownExample | src/hooks/use-compliance-chat.ts:72-73 | "21 CFR 820.999" yields nothing: the section does not exist. |
| ComplianceChat.IsoExample | src/hooks/use-compliance-chat.ts:85-97 | "ISO 13485:2016 Section 7.3" yields {ISO 13485:2016, 7.3, Design and Development}. |
| ComplianceChat.IsoNestedExample | src/hooks/use-compliance-chat.ts:85-91 | "ISO 13485 Section 8.2.1" captures only "8.2", which is not in the catalog, so nothing is cited. |
| ComplianceChat.IsoNestedNotListed | src/data/standards.ts:3-126 | ISO 13485 has no section "8.2" in the catalog. |
| ComplianceChat.MdrExample | src/hooks/use-compliance-chat.ts:103-115 | "MDR Article 61" looks up `article-61` and yields {EU MDR, Article 61, Clinical Evaluation}. |
| ComplianceChat.MdrExampleCite | src/hooks/use-compliance-chat.ts:106-115 | An EU MDR hit with key "61" is cited as "Article 61", "Clinical Evaluation". |
| ChatHook.AssistantReply | src/hooks/use-compliance-chat.ts:30-51 | On success the reply's content is the model's text and its citations are those extracted from it. On failure it is the fixed apology with no citations property. |
| ChatHook.ReplyCitesItsContent | src/hooks/use-compliance-chat.ts:32-39 | A reply that has citations has exactly those its own content yields, each naming a catalog section. |
| ChatHook.ReplyHasCitationsIffOk | src/hooks/use-compliance-chat.ts:35-51 | A reply has a citations list iff the model call succeeded. |
| ChatHook.ChatSession.constructor | src/hooks/use-compliance-chat.ts:6 | `isLoading` starts false. |
| ChatHook.ChatSession.SendMessage | src/hooks/use-compliance-chat.ts:8-54 | The reply is the one for the outcome. The loading flag is set true and then false on both paths, and ends false. |
| Simulation.Merge | src/hooks/use-simulation.ts:22 | Spreading a patch over a record: each supplied property replaces the record's, and each absent one keeps it. |
| Simulation.MergeIdempotent | src/hooks/use-simulation.ts:22 | Applying a patch twice is applying it once. |
| Simulation.MergeEmpty | src/hooks/use-simulation.ts:22 | An empty patch changes nothing. |
| Simulation.Ids | src/hooks/use-simulation.ts:5 | The ids of the list, position by position. |
| Simulation.NewSimulation | src/hooks/use-simulation.ts:7-14 | The created record has the given title, description and standard, status draft, no findings, and the supplied id and creation time. |
| Simulation.Updated | src/hooks/use-simulation.ts:20-24 | Every record with the id is patched in place. Every other record, the length and the order are unchanged. |
| Simulation.Deleted | src/hooks/use-simulation.ts:26-30 | Exactly the records with another id are kept, in their original order, each as many times as it occurred. |
| Simulation.NewFinding | src/hooks/use-simulation.ts:32-36 | The new finding has the draft's fields and the supplied fresh id. |
| Simulation.WithFinding | src/hooks/use-simulation.ts:38-44 | Every record with the id gets the finding appended to its findings; all others and the length are unchanged. |
| Simulation.Lookup | src/hooks/use-simulation.ts:49 | No id (or the empty id) gives null. Otherwise the result is the first record with the id, or undefined when none has it. |
| Simulation.LookupUnique | src/hooks/use-simulation.ts:49 | With unique ids, the lookup finds the record with that id. |
| Simulation.CreateThenLookup | src/hooks/use-simulation.ts:7-18 | A record created with a new non-empty id is found by it afterwards. |
| Simulation.CreateKeepsUnique | src/hooks/use-simulation.ts:16 | Creating with an unused id keeps ids unique. |
| Simulation.DeleteThenLookup | src/hooks/use-simulation.ts:26-30 | After deleting an id, looking it up finds nothing. |
| Simulation.DeleteIdempotent | src/hooks/use-simulation.ts:26-30 | Deleting twice is deleting once. |
| Simulation.DeleteUnknown | src/hooks/use-simulation.ts:26-30 | Deleting an unknown id leaves the list identical. |
| Simulation.DeleteKeepsUnique | src/hooks/use-simulation.ts:28 | Deleting keeps ids unique. |
| Simulation.IdsOfSubsequence | src/hooks/use-simulation.ts:28 | The ids of a subsequence form a subsequence of the ids. |
| Simulation.UpdateUnknown | src/hooks/use-simulation.ts:20-24 | Updating an unknown id leaves the list identical. |
| Simulation.UpdateIdempotent | src/hooks/use-simulation.ts:20-24 | Updating twice with a patch that keeps the id is updating once. |
| Simulation.UpdateSetsAnyStatus | src/hooks/use-simulation.ts:22 | No status transition is refused: any status replaces any other (for example completed to draft). |
| Simulation.UpdateKeepsUnique | src/hooks/use-simulation.ts:20-24 | An update that keeps the id keeps ids unique. |
| Simulation.AddFindingUnknown | src/hooks/use-simulation.ts:32-47 | Adding a finding for an unknown id leaves the list identical. |
| Simulation.AddFindingKeepsUnique | src/hooks/use-simulation.ts:38-44 | Adding a finding keeps ids unique. |
| Simulation.AddFindingIsUpdate | src/hooks/use-simulation.ts:38-44 | Adding a finding is the update that supplies the extended findings list. |
| Simulation.SimulationStore.constructor | src/hooks/use-simulation.ts:5 | The store starts empty. |
| Simulation.SimulationStore.CreateSimulation | src/hooks/use-simulation.ts:7-18 | Appends exactly the new record at the end and returns it; earlier records are unchanged. |
| Simulation.SimulationStore.UpdateSimulation | src/hooks/use-simulation.ts:20-24 | The new list is the old one updated. |
| Simulation.SimulationStore.DeleteSimulation | src/hooks/use-simulation.ts:26-30 | The new list is the old one without the id. |
| Simulation.SimulationStore.AddFinding | src/hooks/use-simulation.ts:32-47 | Returns the new finding whether or not a record matched; the new list has it appended to the matching records. |
| ComplianceData.SampleMetricsAddUp | src/data/complianceData.ts:46-54 | Compliant + non-compliant + in-progress (215 + 18 + 14) is the total of 247, and the score is a percentage. |
| ComplianceData.ScoreColor | src/data/complianceData.ts:233-238 | Green iff the score is at least 90, yellow iff 80 to below 90, orange iff 70 to below 80, red iff below 70. |
| ComplianceData.ScoreColorMonotone | src/data/complianceData.ts:233-238 | Raising the score never moves it to a worse band. |
| ComplianceData.ScoreColorsDistinct | src/data/complianceData.ts:234-237 | The four bands have four different classes. |
| ComplianceData.StatusColor | src/data/complianceData.ts:240-253 | The four statuses map to their fixed classes; any other string gives gray. |
| ComplianceData.StatusColorsDistinct | src/data/complianceData.ts:240-253 | The four statuses and the default get five different classes. |
| ComplianceData.SeverityColor | src/data/complianceData.ts:255-268 | The four severities map to their fixed classes; any other string gives the gray default. |
| ComplianceData.AlertSeveritiesColoured | src/data/complianceData.ts:255-268 | No alert severity gets the gray default, and different severities get different classes. |
| Sorting.SortInPlace | src/data/sampleDataGenerator.ts:191-201 | The array sorted in place is ordered by the comparator's preorder and is a permutation of the original. |
| SampleData.AlertTemplates | src/data/sampleDataGenerator.ts:205-270 | Critical and high have three templates; medium and low have four. |
| SampleData.AlertContent | src/data/sampleDataGenerator.ts:272-278 | The title is the template's title, followed by " - OVERDUE" exactly when the alert is overdue (its length fixes which). The description is the template's, unchanged. |
| SampleData.TemplateTitleNotOverdue | src/data/sampleDataGenerator.ts:205-270 | No template title already ends in " - OVERDUE". |
| SampleData.CompareAlerts | src/data/sampleDataGenerator.ts:191-201 | Overdue before not overdue. Then critical, high, medium, low. Then ascending due date. A missing due date compares as equal. |
| SampleData.CompareAntisymmetric | src/data/sampleDataGenerator.ts:191-201 | Swapping the arguments negates the comparison. |
| SampleData.AlertBeforeTotalPreorder | src/data/sampleDataGenerator.ts:191-201 | The sort order is a total preorder. |
| SampleData.AlertBeforeIsComparator | src/data/sampleDataGenerator.ts:191-201 | For alerts with due dates, the order is exactly "comparator at most zero". |
| SampleData.MakeAlert | src/data/sampleDataGenerator.ts:162-186 | The alert built in iteration `i` carries the drawn severity, standard and overdue flag, and the id `alert-<now>-<i>`. Its content follows the title rule and its dates lie in their windows. |
| SampleData.BuiltAlerts | src/data/sampleDataGenerator.ts:159-189 | The loop pushes one alert per iteration, in iteration order. |
| SampleData.GenerateSampleAlerts | src/data/sampleDataGenerator.ts:146-202 | Returns exactly `count` alerts (none for a count of 0 or less), a permutation of those built. They are sorted by the comparator (overdue first), and every alert's dates lie in their windows: overdue due 1–10 days back, others due 1–30 days ahead, created 1–7 days back. |
| SampleData.AlertIdsDiffer | src/data/sampleDataGenerator.ts:179 | Ids of different iterations differ, whatever the clock read. |
| SampleData.DashedNumbersSplit | src/data/sampleDataGenerator.ts:179 | An id `prefix<digits>-<rest>` determines both parts. |
| SampleData.GeneratedAlertIdsDistinct | src/data/sampleDataGenerator.ts:179-201 | No two alerts of a generated batch share an id. |
| SampleData.SortedAlertsFollowComparator | src/data/sampleDataGenerator.ts:191-201 | A batch sorted by the order is in comparator order, with every overdue alert first. |
| SampleData.PermutedAlertsInWindow | src/data/sampleDataGenerator.ts:165-176 | Reordering a batch keeps every alert's dates in their windows. |
| SampleData.ActivityTitles | src/data/sampleDataGenerator.ts:35-135 | Every activity type has five titles. |
| SampleData.ActivityDescriptions | src/data/sampleDataGenerator.ts:35-135 | Every activity type has five descriptions. |
| SampleData.MakeActivity | src/data/sampleDataGenerator.ts:12-27 | The activity built in iteration `i` has the id `activity-<now>-<i>`, the drawn type and user, and a title and description of its type. It has a standard iff drawn, and a timestamp a whole number of days, 0 to 29, before the clock. |
| SampleData.BuiltActivities | src/data/sampleDataGenerator.ts:9-30 | The loop pushes one activity per iteration, in iteration order. |
| SampleData.GenerateSampleActivities | src/data/sampleDataGenerator.ts:4-33 | Returns exactly `count` activities, a permutation of those built, newest first, all dated within the last 30 days. |
| SampleData.ActivityIdsDiffer | src/data/sampleDataGenerator.ts:21 | Activity ids of different iterations differ, whatever the clock read. |
| SampleData.GeneratedActivityIdsDistinct | src/data/sampleDataGenerator.ts:21-32 | No two activities of a generated batch share an id. |
| SampleData.PermutedActivitiesInWindow | src/data/sampleDataGenerator.ts:17-18 | Reordering a batch keeps every activity within the last 30 days. |
| Seqs.FirstIndex | src/data/standards.ts:128-130 | `find`: the first index satisfying the predicate, or none iff no element does. |
| Seqs.Filter | src/data/standards.ts:134 | `filter`: an order-keeping subsequence holding exactly the elements that satisfy the predicate. |
| Seqs.FilterCounts | src/data/standards.ts:134 | `filter` keeps each element that satisfies the predicate as many times as it occurs, and drops every other. |
| Seqs.FilterIdempotent | src/data/standards.ts:134 | Filtering twice by one predicate is filtering once. |
| Seqs.FilterConcat | src/hooks/use-compliance-chat.ts:64-121 | Filtering distributes over concatenation. |
| Seqs.SubsequenceOfDistinct | src/data/standards.ts:134 | A subsequence of a sequence without duplicates has none. |
| Seqs.PermutationOfDistinct | src/data/sampleDataGenerator.ts:191 | A permutation of a sequence without duplicates has none. |
| Seqs.PermutationKeysDistinct | src/data/sampleDataGenerator.ts:191 | A permutation of a sequence whose keys are pairwise different has pairwise different keys. |

## Left out

- Unicode case mapping in `searchStandards`: `toLowerCase` is modelled on ASCII letters only. The regular expressions' `i` flag is modelled exactly, because without the `u` flag it never maps non-ASCII characters to ASCII ones.
- The LLM call and its prompt (`spark.llmPrompt`, `spark.llm`, `JSON.stringify` of the catalog) are outside the model. The answer arrives as an `Ok(text) | Err` outcome, and the user's message only feeds the prompt.
- `crypto.randomUUID()`, `new Date().toISOString()` and `Date.now()` are parameters (ids, timestamps, clock readings). `Math.random()` draws are bounded integer parameters.
- Calendar arithmetic and `toISOString().split('T')[0]`: alert dates are day numbers and activity timestamps are milliseconds. All dates of a batch count from one reading of today (or of the clock), where the source builds a `new Date()` in each iteration; the `Date.now()` in each id is still drawn per iteration.
- `generateSampleAlerts` and `generateSampleActivities` with a count that is not an integer: `count` is an `int`, and a count of 0 or less gives an empty batch, as the loop does.
- SampleData.CompareAlerts: a missing due date makes the source compare `NaN`, which `Array.prototype.sort` treats as equal. The model gives 0 in that case. The generator always sets a due date, so the sort is proved for batches with due dates.
- SampleData.GenerateSampleAlerts: the sort used is an insertion sort, so the model does not reproduce the engine's sorting algorithm or the tie order among alerts that compare equal. It promises ordered and a permutation only.
- SampleData.GenerateSampleActivities: the same holds for the activity sort.
- SampleData.GenerateSampleAlerts: the default of the optional `count` parameter (8 alerts) is not modelled. The caller always passes the count, together with the random draws for that many alerts.
- SampleData.GenerateSampleActivities: the default of the optional `count` parameter (10 activities) is not modelled. The caller always passes the count, together with the random draws for that many activities.
- The `default` branch of `getActivityContent` cannot be reached with a typed activity type and is not modelled.
- `useKV` persistence and its key `'audit-simulations'` are replaced by the store's field. Functional updates that React would batch are applied one call at a time.
- Simulation.Merge: a patch property written as explicit `undefined` overwrites the field in the source. The model treats it like an absent property, since every field of the record is required.
- `console.error` in the failure path, and all rendering, dialogs and navigation of the components, are not modelled.
- ComplianceChat.IsoAt: a key followed by a sentence period, as in "Section 4." at the end of a sentence, is captured as "4." by `\d+\.?\d*`. It is then not found and dropped; the model keeps this behaviour as written.
