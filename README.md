# agentic-site widget logic in Dafny

A model of the three interactive widgets of the agentic-site marketing page,
with proofs of what they promise.

- **AI Playbook** (`ai-roadmap.tsx`, module `Roadmap`). The widget holds a persona
  (growth, product or content) and a window of three indexes into that persona's
  pool of four recommendations. "Refresh ideas" advances every index by one
  modulo 4. A persona button swaps the pool and keeps the window. The list shown
  is `pool[index % pool.length]` for each index of the window. The state is the
  class `AIRoadmap`. The pools, badge texts and persona profiles are constants.
- **Experience Scorecard** (`performance-scorecard.tsx`, modules `LcpMatcher`
  and `Scorecard`). `calculateAverages` does three steps:
  - finds the leftmost match of `/LCP\s([\d.]+)s/` in each record's performance
    note;
  - converts the capture with `Number` and drops the records without a match;
  - averages the rest.

  The matcher is a recursive scanner. It is proved equal to a declarative
  statement of the pattern. `Number` of the captured digits and dots is modelled
  with exact reals. The pipeline appears twice:
  - `AverageAsWritten` is the pipeline as the code computes it, with JavaScript's
    NaN;
  - `AverageLcp` closes the code's two gaps: it reports "no data" explicitly, and
    it skips malformed figures. The rest of the model uses this one.

  Lemmas relate the two pipelines.
- **Competitor tabs** (`competitor-tabs.tsx`, module `Tabs`). The only state is
  the active index, initially 0, which a click on a tab sets. Everything else is
  derived from it and the records:
  - the record shown;
  - which tab is highlighted;
  - each tab's label, the URL with its first `"https://"` removed;
  - the "Experience Score" and "Mobile & SEO" pills.

  The state is the class `CompetitorTabs`.

Shared modules:
- `Wrappers`: the `Option` type.
- `Flags`: counts highlighted buttons.
- `Text`: JavaScript's `indexOf`, and `replace` with a string pattern and a replacement free of `$` patterns.
- `Decimal`: decimal spellings of integers and their values.
- `Competitors`: the shape of a competitor record, declared from the fields the
  widgets read.

## Model

| member | source | states |
|---|---|---|
| Roadmap.ShippedPoolsWellFormed | agentic-site/src/app/components/ai-roadmap.tsx:43-120 | each persona's shipped pool has exactly four entries, the modulus the rotation hard-codes |
| Roadmap.ImpactLabelInjective | agentic-site/src/app/components/ai-roadmap.tsx:123-127 | the impact badge map covers all three levels and gives each its own text (two levels share a badge iff they are the same level) |
| Roadmap.RecommendationsFor | agentic-site/src/app/components/ai-roadmap.tsx:133-136 | the derived list has one entry per window index, each an entry of the active pool |
| Roadmap.WindowPicksDistinctSlots | agentic-site/src/app/components/ai-roadmap.tsx:135-139 | with a four-entry pool and a window of three distinct indexes in [0, 4), `index % pool.length` is the index itself; the list is the pool entries at the window's indexes, in order, taken from three different slots |
| Roadmap.Rotated | agentic-site/src/app/components/ai-roadmap.tsx:139 | one rotation keeps the window's length and puts every index in [0, 4) |
| Roadmap.RotatedTimes | agentic-site/src/app/components/ai-roadmap.tsx:138-140 | repeated rotation keeps the length; after at least one rotation every index is in [0, 4) |
| Roadmap.RotatedTimesAt | agentic-site/src/app/components/ai-roadmap.tsx:139 | after n rotations an index v in [0, 4) has become (v + n) mod 4 |
| Roadmap.RotationPeriod | agentic-site/src/app/components/ai-roadmap.tsx:139 | four rotations return any window with indexes in [0, 4) to itself |
| Roadmap.RotationFromInitial | agentic-site/src/app/components/ai-roadmap.tsx:130-140 | after n rotations from [0, 1, 2] the window is [n mod 4, (n+1) mod 4, (n+2) mod 4] |
| Roadmap.RotatedKeepsWindow | agentic-site/src/app/components/ai-roadmap.tsx:139 | rotation is injective on [0, 4), so three distinct in-range indexes stay three distinct in-range indexes |
| Roadmap.RotatedTimesKeepsWindow | agentic-site/src/app/components/ai-roadmap.tsx:138-140 | the same holds after any number of rotations |
| Roadmap.InitialAndFirstRotation | agentic-site/src/app/components/ai-roadmap.tsx:130-140 | the opening list is the pool's first three entries; after one rotation it is the last three |
| Roadmap.RotationIgnoresSlotsBeyondFour | agentic-site/src/app/components/ai-roadmap.tsx:135-139 | after a rotation every index is below 4, so for a pool of four or more entries the lookup reads `pool[index]` and never reaches an entry past the fourth |
| Roadmap.ExactlyOnePersonaActive | agentic-site/src/app/components/ai-roadmap.tsx:169-170 | exactly one persona button is highlighted, and button k is highlighted iff its key is the active persona |
| Roadmap.AIRoadmap.constructor | agentic-site/src/app/components/ai-roadmap.tsx:130-131 | the widget starts on the growth persona with window [0, 1, 2] and the shipped pools |
| Roadmap.AIRoadmap.Recommendations | agentic-site/src/app/components/ai-roadmap.tsx:133-136 | the list is recomputed from the persona and the window: three entries, entry k being the active pool's entry at window index k, from distinct slots |
| Roadmap.AIRoadmap.SetPersona | agentic-site/src/app/components/ai-roadmap.tsx:175 | switching persona replaces only the persona; the window is untouched, and the list becomes the new pool read through the old window |
| Roadmap.AIRoadmap.RotateIdeas | agentic-site/src/app/components/ai-roadmap.tsx:138-140 | "Refresh ideas" keeps the persona and replaces the window by its rotation, which is again three distinct indexes in [0, 4) |
| LcpMatcher.RunEnd | agentic-site/src/app/components/performance-scorecard.tsx:99 | `[\d.]+` is greedy: the run it takes is all digits and dots and is followed by neither |
| LcpMatcher.MatchAtIff | agentic-site/src/app/components/performance-scorecard.tsx:99 | the scanner finds capture `cap` at a position iff that position holds "LCP", one whitespace character, `cap` (digits and dots), then "s"; so a position has at most one capture |
| LcpMatcher.LeftmostMatch | agentic-site/src/app/components/performance-scorecard.tsx:99 | the search returns the first position at which the pattern matches, and nothing when it matches nowhere |
| LcpMatcher.ExtractLcp | agentic-site/src/app/components/performance-scorecard.tsx:99-100 | a returned capture is one or more digits and dots |
| LcpMatcher.ExtractLcpSpec | agentic-site/src/app/components/performance-scorecard.tsx:99-100 | the extractor returns `cap` iff the pattern matches with capture `cap` at some position and nowhere before it; it returns nothing iff the pattern matches nowhere |
| LcpMatcher.ExtractLcpOfToken | agentic-site/src/app/components/performance-scorecard.tsx:99 | a note that opens with "LCP <cap>s" yields `cap`, whatever follows it |
| LcpMatcher.ParseDecimal | agentic-site/src/app/components/performance-scorecard.tsx:100 | a number read from a capture is never negative |
| LcpMatcher.ParseDecimalDefined | agentic-site/src/app/components/performance-scorecard.tsx:100 | a capture has a numeric value iff it holds at most one dot and at least one digit |
| LcpMatcher.TwoDotsNotANumber | agentic-site/src/app/components/performance-scorecard.tsx:100 | a capture holding two dots, such as "1.2.3", has no decimal value |
| LcpMatcher.ParseDecimalOfNat | agentic-site/src/app/components/performance-scorecard.tsx:100 | the decimal spelling of n reads back as n |
| LcpMatcher.ParseFixedCapture | agentic-site/src/app/components/performance-scorecard.tsx:100 | "<n>.<digits>" is a capture and reads back as exactly n + digits / 10^(number of digits) |
| LcpMatcher.ParseDecimalOfFixed | agentic-site/src/app/components/performance-scorecard.tsx:100 | the same reading stated through the whole-part and fraction-part values |
| LcpMatcher.NumberOf | agentic-site/src/app/components/performance-scorecard.tsx:100 | `Number(capture)` is NaN exactly when the capture has no decimal value |
| Scorecard.Present | agentic-site/src/app/components/performance-scorecard.tsx:102 | the `!== null` filter never yields more values than it is given |
| Scorecard.PresentAppend | agentic-site/src/app/components/performance-scorecard.tsx:102 | filtering keeps order: the filter of a concatenation is the concatenation of the filters |
| Scorecard.PresentCount | agentic-site/src/app/components/performance-scorecard.tsx:102 | the filter keeps exactly one value per non-null entry |
| Scorecard.PresentEmpty | agentic-site/src/app/components/performance-scorecard.tsx:102 | nothing survives the filter iff every entry is null |
| Scorecard.PresentKeeps | agentic-site/src/app/components/performance-scorecard.tsx:102 | every non-null entry survives the filter |
| Scorecard.Mean | agentic-site/src/app/components/performance-scorecard.tsx:104-105 | the mean is absent exactly for an empty list |
| Scorecard.MeanBetweenMinAndMax | agentic-site/src/app/components/performance-scorecard.tsx:104-105 | the mean of a non-empty list lies between its smallest and largest value |
| Scorecard.MeanOfThree | agentic-site/src/app/components/performance-scorecard.tsx:104-105 | the mean of three figures x, y and z is exactly (x + y + z) / 3 |
| Scorecard.LcpOfEach | agentic-site/src/app/components/performance-scorecard.tsx:97-101 | the map step yields one entry per record |
| Scorecard.AverageLcp | agentic-site/src/app/components/performance-scorecard.tsx:96-108 | the average reports "no data" iff no record carries a readable LCP figure |
| Scorecard.LcpValuesAppend | agentic-site/src/app/components/performance-scorecard.tsx:97-102 | the figures of `a + b` are those of `a` followed by those of `b`, in record order |
| Scorecard.SkippedRecordIsNeutral | agentic-site/src/app/components/performance-scorecard.tsx:100-102 | a record without a figure changes neither the figures nor the average, wherever it stands: it never counts as 0 |
| Scorecard.ReadableRecordAppends | agentic-site/src/app/components/performance-scorecard.tsx:97-102 | a record with a figure appends exactly that figure after those of the records before it |
| Scorecard.LcpValuesCount | agentic-site/src/app/components/performance-scorecard.tsx:97-102 | the number of figures equals the number of records that yield one |
| Scorecard.AverageLcpBetween | agentic-site/src/app/components/performance-scorecard.tsx:104-107 | when there is an average, it lies between the smallest and the largest figure |
| Scorecard.JsSum | agentic-site/src/app/components/performance-scorecard.tsx:105 | the `reduce` sum is NaN iff some value is NaN |
| Scorecard.AsWrittenPoisoned | agentic-site/src/app/components/performance-scorecard.tsx:100-105 | as written, a single record whose capture is not a number makes the whole average NaN |
| Scorecard.RecordAgrees | agentic-site/src/app/components/performance-scorecard.tsx:97-101 | for a record whose capture is not malformed, the as-written map step gives nothing iff the corrected one does, and otherwise the same figure as a number |
| Scorecard.PresentAgree | agentic-site/src/app/components/performance-scorecard.tsx:102 | two lists that agree entry by entry (null for null, number for figure) filter to lists of equal length that agree value for value |
| Scorecard.AsWrittenValuesAgree | agentic-site/src/app/components/performance-scorecard.tsx:97-102 | when no capture is malformed, the as-written map and filter give the same values as the corrected ones, position by position |
| Scorecard.JsSumOfNumbers | agentic-site/src/app/components/performance-scorecard.tsx:105 | on plain numbers the JavaScript sum is the exact sum |
| Scorecard.AsWrittenAgreesWhenWellFormed | agentic-site/src/app/components/performance-scorecard.tsx:96-108 | when no capture is malformed, the code as written computes the corrected average, with NaN in place of "no data" |
| Scorecard.NoFigureGap | agentic-site/src/app/components/performance-scorecard.tsx:104-105 | when no note carries an LCP token, the code as written yields 0 / 0 = NaN, while the corrected average reports "no data" |
| Scorecard.LcpOfFixedToken | agentic-site/src/app/components/performance-scorecard.tsx:99-100 | a note opening with "LCP <n>.<digits>s" contributes n + digits / 10^(number of digits) |
| Scorecard.LcpOfDigitToken | agentic-site/src/app/components/performance-scorecard.tsx:99-100 | a note "LCP <w>.<f>s" with single digits contributes w + f / 10 |
| Scorecard.ExampleNotesRead | agentic-site/src/app/components/performance-scorecard.tsx:99-100 | "LCP 1.8s", "LCP 3.1s" and "LCP 2.6s" read as 1.8, 3.1 and 2.6 |
| Scorecard.ThreeFigures | agentic-site/src/app/components/performance-scorecard.tsx:97-102 | three records that each carry a figure give exactly their three figures, in record order |
| Scorecard.ThreeRecordExample | agentic-site/src/app/components/performance-scorecard.tsx:96-108 | records with those three notes give the figures [1.8, 3.1, 2.6] and the average 2.5 |
| Scorecard.MalformedNoteRead | agentic-site/src/app/components/performance-scorecard.tsx:99-100 | "LCP 1.2.3s" matches, but its capture is not a number: NaN as written, no figure once corrected |
| Scorecard.MalformedRecordPoisons | agentic-site/src/app/components/performance-scorecard.tsx:100-105 | as written, one record with a malformed capture anywhere in the list makes the average NaN |
| Scorecard.SingleFigureAverage | agentic-site/src/app/components/performance-scorecard.tsx:100-107 | a record without a figure beside one with a figure averages to that figure |
| Scorecard.MalformedBesideReadable | agentic-site/src/app/components/performance-scorecard.tsx:100-105 | a malformed record beside a readable one: NaN as written, the readable figure once corrected |
| Scorecard.AsWrittenGaps | agentic-site/src/app/components/performance-scorecard.tsx:96-108 | notes "LCP 1.2.3s" and "LCP 2.5s" average to NaN as written and to 2.5 corrected |
| Tabs.TabFlagsAt | agentic-site/src/app/components/competitor-tabs.tsx:29 | tab `index` is highlighted iff `index === active` |
| Tabs.ExactlyOneTabActive | agentic-site/src/app/components/competitor-tabs.tsx:28-29 | among n tabs exactly one is highlighted when the active index is below n, none otherwise |
| Text.ReplaceFirstSpec | agentic-site/src/app/components/competitor-tabs.tsx:46 | `replace` with a string pattern and a replacement free of `$` patterns (the tab label's is empty) leaves a string without the pattern unchanged, and otherwise cuts out only the leftmost occurrence and puts the replacement there |
| Tabs.TabLabelSpec | agentic-site/src/app/components/competitor-tabs.tsx:46 | the tab label equals the URL iff the URL holds no "https://"; otherwise it is the URL with the first "https://" cut out, 8 characters shorter |
| Tabs.TabLabelOfHttpsUrl | agentic-site/src/app/components/competitor-tabs.tsx:46 | "https://" + rest is labelled rest, even when rest holds another "https://" |
| Decimal.IntToDecimal | agentic-site/src/app/components/competitor-tabs.tsx:168 | a template literal prints an integer with a leading minus sign exactly when it is negative |
| Decimal.IntToDecimalRoundTrip | agentic-site/src/app/components/competitor-tabs.tsx:168 | the printed form of an integer reads back as that integer |
| Decimal.NatToDecimalRoundTrip | agentic-site/src/app/components/competitor-tabs.tsx:168 | the digits printed for a natural number read back as that number |
| Decimal.SingleDigit | agentic-site/src/app/components/competitor-tabs.tsx:168 | a digit character is printed as itself and reads back as its value |
| Tabs.ScorePillRoundTrip | agentic-site/src/app/components/competitor-tabs.tsx:168 | the score pill ends in "/100", and the text before it reads back as exactly the score |
| Tabs.ScorePillInjective | agentic-site/src/app/components/competitor-tabs.tsx:168 | different scores give different pills |
| Tabs.MobileSeoPillSplits | agentic-site/src/app/components/competitor-tabs.tsx:170 | when the mobile note is one line, the pill's first line break comes right after it, and the mobile and SEO notes are recovered on either side |
| Tabs.CompetitorTabs.constructor | agentic-site/src/app/components/competitor-tabs.tsx:17 | the first tab starts active |
| Tabs.CompetitorTabs.ActiveCompetitor | agentic-site/src/app/components/competitor-tabs.tsx:19 | the record shown is derived from the index, not stored: it exists iff there is at least one record, and it is `data[active]` |
| Tabs.CompetitorTabs.Highlights | agentic-site/src/app/components/competitor-tabs.tsx:28-29 | one highlight per record; tab `index` is highlighted iff `index === active`; exactly one is highlighted unless there are no records |
| Tabs.CompetitorTabs.Select | agentic-site/src/app/components/competitor-tabs.tsx:39 | a click on a rendered tab sets the active index to exactly that tab and shows its record; the records are a constant and cannot change |

## Left out

- Markup, styling classes and the styling branches of the three widgets are not modelled. Only the predicates that choose a highlight (`isActive`) are kept.
- page.tsx and layout.tsx are not part of this model. They hold static content, JSON-LD serialisation, a clock read for the copyright year, font loading and metadata.
- React's hook machinery is left out: `useState` scheduling, `useMemo` caching and re-render timing. State is plain fields, and derived views are functions of them.
- Floating point is left out: numbers are exact reals. `Number`'s rounding and the `toFixed(1)` display of the average are not modelled. NaN appears only where the code produces it: 0 / 0, and `Number` of a malformed capture.
- The competitor dataset lives outside the widgets and is not part of this model. Only the record's shape is declared.
- Records whose fields are `undefined` at run time are not modelled, and neither is a tab index that is not a natural number.
- A structure item's `label` field is named `heading` here, and a persona profile's `label` is named `caption`, because `label` is a Dafny keyword.
- The rotation keeps the hard-coded modulus 4 of the code. A generalised rotation would wrap with the active pool's length instead. The two agree because every pool has four entries (`Roadmap.ShippedPoolsWellFormed`). What a longer pool would do under the code's rule is stated in `Roadmap.RotationIgnoresSlotsBeyondFour`.
- Roadmap.Profile and Roadmap.RecommendationPool: the persona texts and recommendation texts are carried as constants. No property is claimed about their wording.
- Tabs.ScorePill: the experience score is modelled as an integer. A fractional score's JavaScript spelling is not modelled, and neither is the exponent form JavaScript prints for magnitudes of 10^21 and above (`Decimal.IntToDecimal` spells every integer in plain digits); the scores shown are 0 to 100.
- Text.ReplaceFirst: the replacement is inserted literally. JavaScript's `$` substitution patterns (`$&`, `$1`, `$$` and the like) are not modelled. The only use, the tab label, replaces with the empty string, where the two agree.
- Tabs.CompetitorTabs.Select: requires an index below the number of records, because only rendered tabs can be clicked. With no records nothing can be clicked, and `ActiveCompetitor` is `None` where the code would read a field of `undefined` and fail.
- Tabs.MobileSeoPillSplits: recovering the two notes is proved only for a mobile note without a line break; otherwise the pill does not determine where the notes meet.

## Findings

| source | as written | input that shows it | evidently intended | confidence | as-written member | corrected member |
|---|---|---|---|---|---|---|
| agentic-site/src/app/components/performance-scorecard.tsx:104-105 | the sum of the figures is divided by their count even when there are none, giving 0 / 0 = NaN | a list of records none of whose notes carries an "LCP <number>s" token, e.g. the empty list | an explicit "no data" result | not executed | Scorecard.NoFigureGap | Scorecard.AverageLcp |
| agentic-site/src/app/components/performance-scorecard.tsx:100-102 | `Number(match[1])` of a capture such as "1.2.3" or "." is NaN, which the `!== null` filter keeps, so the whole average becomes NaN | notes "LCP 1.2.3s" and "LCP 2.5s" | skip the malformed figure and average the rest, giving 2.5 | not executed | Scorecard.AsWrittenGaps | Scorecard.AverageLcp |
