# Visa eligibility matcher — a Dafny model of its core

The Visa-Eligibility-Matcher backend keeps applicant profiles and visa
petitions in two JSON stores. To check one profile, it sends the profile
and the selected petitions to a reasoning service in a single request. It
reads back the service's JSON verdict and turns it into one result record
per petition, each with a score, an eligible flag and reasoning. It ranks
those records. If the service or its reply fails, it returns one error
record per petition instead. The frontend formats petitions and displays
the ranked results.

This project models that core in Dafny and proves the properties the code
promises:

- **Stores** (`profiles.dfy`, `petitions.dfy`). Each store is a class whose
  field holds the sequence of stored records. `create`, `update` and
  `delete` change that field in place. New ids are generated as the code
  does: `"P"` plus the number zero-padded to three digits for profiles,
  and one more than the largest id for petitions. Proved: a new id is well
  formed, reads back as its number, and no stored record already uses it.
- **Reply parsing** (`response_parser.dfy`, `strings.dfy`). Trimming uses
  the exact ECMAScript whitespace set. Code-fence stripping first splits
  the text into lines, then drops the first and last line. Then comes the
  `matching_results` check, and every error is re-thrown with the
  "Failed to check eligibility: " prefix. Proved: a reply wrapped in a
  fence parses exactly like the same reply without it.
- **Transformation** (`result_transform.dfy`). The two `forEach` loops over
  the matched and rejected entries are modelled as a method with loops,
  proved equal to a recursive specification. Lemmas about that
  specification state what the code does:
  - the output is laid out as the matched entries whose petition is known,
    then the rejected ones, each group in reply order;
  - every output id is a stored petition's id;
  - a score is set by the fixed strength table;
  - a reasoning that is truthy but not an array makes `join` throw.
- **Ranking** (`ranking.dfy`). `results.sort` is an in-place insertion
  sort on an array, using the comparator as written. Proved:
  - the result is a permutation of the input;
  - when every element carries a `tie_breaker_rank`, the order ascends by
    rank;
  - when none does, the order descends by score.
- **Orchestration** (`eligibility_service.dfy`). `checkEligibility` is
  modelled with its two "not found" errors and its fallback list. The
  reasoning service and `JSON.parse` are function parameters.
- **Display** (`petitions_tab.dfy`, `results_section.dfy`). The modelled
  pieces are:
  - requirement values and labels;
  - the one-line petition summary;
  - the score classes;
  - the default used when a score or the `eligible` flag is missing;
  - the progress-bar clamp;
  - the rule that a result carrying an error shows no details.

Shared modules:

- `json.dfy`: JavaScript values, truthiness, `||`, `??` and `String(v)`.
- `records.dfy`: stored objects, `find`, `findIndex` and object spread.
- `decimal.dfy`: decimal digits and `padStart`.
- `eligibility_types.dfy`: the reply and the result records.
- `wrappers.dfy`: `Option` and `Result`.

**What the code does, not what the display expects.** Some behaviour of
the code is easy to miss. The model follows the code as written:

- frontend/src/components/ResultsSection.jsx:22-35 and 78-87 render
  `points_earned`, `total_points`, `match_percentage` and per-criterion
  points. `transformMatchingResults`
  (backend/services/eligibilityService.js:115-176) never sets any of these
  fields. Every score comes from the fixed strength table: Very Strong 90,
  Strong 75, Weak 45, Rejected 0, anything else 50.
- The petition lookup inside the transformation is a `Map` built from the
  petition list, so with duplicate ids it keeps the **last** petition.
  `getById` uses `find` and so takes the **first**. Both are modelled as
  written.
- Duplicate petition ids in the reply are kept. The same id may appear
  twice in `matched_petitions`, or in both `matched_petitions` and
  `rejected_petitions`, and each occurrence gives its own result record.
- A reasoning that is truthy but not an array (a string, say) makes
  `match.reasoning.join` throw. This sends `checkEligibility` to its
  fallback. The whole check then returns error records, not a partial
  list.

## Model

| member | source | states |
|---|---|---|
| `ResultTransform.MapMatchStrengthToScore` | backend/services/eligibilityService.js:178-191 | eligible exactly when the strength is not "Rejected"; score 0 exactly when ineligible; the score is 90/75/45 for Very Strong/Strong/Weak, 50 for every other value, and always one of {0,45,50,75,90} |
| `ResultTransform.CreateBreakdownFromReasoning` | backend/services/eligibilityService.js:193-210 | a non-array reasoning gives the empty breakdown; an array gives exactly the keys normalization and evaluation, both worth 0 of 0, normalization carrying the items joined with spaces and evaluation the fixed text |
| `ResultTransform.PetitionLookup` | backend/services/eligibilityService.js:117-123 | the `Map` lookup finds nothing for an array or object id or an id no petition has; otherwise it returns the **last** petition with that id |
| `ResultTransform.MatchedToResult` | backend/services/eligibilityService.js:128-145 | a matched entry's result throws exactly when its reasoning is truthy and not an array, with the `join` TypeError; otherwise it has the entry's id, its country and visa type falling back to the stored petition's, the stored category, score and eligibility from the strength table, its strength, confidence and rank, the reasoning or [], the reasoning joined with spaces as overall reason, the breakdown built from the reasoning, and empty disqualifiers and recommendations |
| `ResultTransform.RejectedToResult` | backend/services/eligibilityService.js:155-171 | a rejected entry's result has its id, the stored country and category, its visa type falling back to the stored one, score 0, not eligible, strength Rejected, confidence High, no rank, the reason as sole reasoning item, as overall reason and as sole disqualifier, an empty breakdown and no recommendations |
| `ResultTransform.PushMatched` | backend/services/eligibilityService.js:120-147 | the matched `forEach` loop, pushing one result per entry whose petition is known, returns exactly the specification `MatchedResults` |
| `ResultTransform.PushRejected` | backend/services/eligibilityService.js:150-173 | the rejected `forEach` loop appends to the results so far exactly the specification `RejectedResults` |
| `ResultTransform.TransformMatchingResults` | backend/services/eligibilityService.js:115-176 | the two push loops return exactly the specification `Transform`: the matched results, then the rejected results, or the error thrown by the first matched entry whose reasoning cannot be joined |
| `ResultTransform.MatchedFailureSticks` | backend/services/eligibilityService.js:121-146 | once a matched entry has thrown, the later entries change nothing: the whole loop ends with that error |
| `ResultTransformProperties.KnownMatched` | backend/services/eligibilityService.js:121-123 | the matched entries kept: exactly those whose petition the lookup finds, in reply order, duplicates included |
| `ResultTransformProperties.KnownRejected` | backend/services/eligibilityService.js:151-153 | the rejected entries kept: exactly those whose petition the lookup finds, in reply order |
| `ResultTransformProperties.MatchedResultsFailure` | backend/services/eligibilityService.js:121-141 | the matched loop throws exactly when some kept entry has a truthy non-array reasoning, and then with the `join` TypeError |
| `ResultTransformProperties.MatchedResultsOutputs` | backend/services/eligibilityService.js:121-146 | when the matched loop does not throw, it pushes one result per kept entry, output i built from kept entry i |
| `ResultTransformProperties.MatchedResultsLayout` | backend/services/eligibilityService.js:120-147 | the matched loop fails exactly when some kept entry has a truthy non-array reasoning, with the `join` TypeError; otherwise output i is built from kept entry i: the id, the reply's country and visa type falling back to the stored ones, the stored category, score and eligibility from the strength table, the rank, the reasoning or [], the joined reasoning as overall reason, the breakdown built from the reasoning, and empty disqualifiers and recommendations |
| `ResultTransformProperties.RejectedResultsLayout` | backend/services/eligibilityService.js:150-173 | output i is built from kept rejected entry i: score 0, not eligible, strength Rejected, confidence High, no rank, the reason as reasoning, overall reason and sole disqualifier, and an empty breakdown |
| `ResultTransformProperties.TransformLayout` | backend/services/eligibilityService.js:115-176 | the transformation fails exactly when the matched part does; on success its output is the matched part followed by the rejected part, with a missing or non-array list contributing nothing |
| `ResultTransformProperties.TransformResults` | backend/services/eligibilityService.js:115-191 | every output has the id of a petition in the input list, is eligible exactly when its strength is not Rejected and exactly when its score is positive, scores in {0,45,50,75,90}, and only matched outputs carry a rank |
| `Ranking.Compare` | backend/services/eligibilityService.js:35-40 | when both results carry a rank, negative, zero or positive exactly as the first rank is below, equal to or above the second; otherwise negative exactly when the first score is higher and zero exactly when the scores are equal |
| `Ranking.SortResults` | backend/services/eligibilityService.js:35-40 | sorting in place with the comparator gives a permutation of the results; with every result ranked, ascending by rank; with none ranked, descending by score |
| `Ranking.SortedResults` | backend/services/eligibilityService.js:35-40 | the list returned after `results.sort` is a permutation of the results, ordered as `SortResults` promises |
| `Ranking.RankedOrderElements` | backend/services/eligibilityService.js:35-40 | every element of the sorted list is an element of the list before sorting |
| `Strings.Split` | backend/services/eligibilityService.js:92 | `split('\n')` gives at least one piece and no piece contains the separator |
| `Strings.JoinSplit` | backend/services/eligibilityService.js:92-95 | joining the pieces of a split with the separator gives back the text |
| `Strings.Trim` | backend/services/eligibilityService.js:88 | `trim` removes only leading and trailing whitespace: the result is a contiguous slice of the text with only JavaScript whitespace before and after it; a non-empty result neither starts nor ends with whitespace, and a text that does neither is unchanged |
| `ResponseParser.DropFirstAndLast` | backend/services/eligibilityService.js:93-94 | `shift` then `pop` leave the lines strictly between the first and the last, and nothing when there is one line |
| `ResponseParser.StripFence` | backend/services/eligibilityService.js:88-99 | a reply that does not start with a fence is only trimmed; the text handed to the parser never starts or ends with whitespace |
| `ResponseParser.TrimIdempotent` | backend/services/eligibilityService.js:88-99 | trimming twice is trimming once, so the second trim changes nothing for an unfenced reply |
| `ResponseParser.FenceLinesDropped` | backend/services/eligibilityService.js:91-96 | after a first line that starts with a fence, the first and the last line are removed whatever the last line holds, and the rest is passed on trimmed |
| `ResponseParser.FenceTransparent` | backend/services/eligibilityService.js:88-99 | a reply wrapped in one fence pair, with any tag after the opening fence, yields the same text for the parser as the bare reply |
| `ResponseParser.ReadReply` | backend/services/eligibilityService.js:85-111 | every error carries the "Failed to check eligibility: " prefix, a service error and a parse error keep their message after it, the read succeeds exactly when the reply parses and has a non-empty `matching_results`, and then yields its first element; otherwise the missing-results error |
| `EligibilityService.SelectPetitions` | backend/services/eligibilityService.js:16-22 | a falsy petition id selects all petitions; a truthy one selects the first petition with that id, or nothing exactly when no petition has it |
| `EligibilityService.Fallback` | backend/services/eligibilityService.js:46-56 | one error record per evaluated petition, in order, with its id, its country, visa type and category, the error's message, score 0 and not eligible |
| `EligibilityService.Evaluate` | backend/services/eligibilityService.js:29-32 | the try block, reading the reply as in lines 85-111 and transforming it: a service error comes back as that error with the "Failed to check eligibility: " prefix; every error has that prefix or is the `join` TypeError; every result is an evaluated record with a score in 0..100 and the id of a petition in the list |
| `EligibilityService.CheckEligibility` | backend/services/eligibilityService.js:10-58 | a missing profile and a missing requested petition give their "not found" errors; otherwise the call succeeds, with the fallback list for the first failing step's message, or else the transformed results permuted and ranked as the sort promises; every returned score lies in 0..100 and is positive exactly when the result is eligible |
| `Profiles.MaxIdNumber` | backend/data/profileRepository.js:19 | the largest number among the profile ids, or 0: no id exceeds it, and it is 0 or some profile's number |
| `Profiles.FormatProfileIdRoundTrip` | backend/data/profileRepository.js:21 | `P${String(n).padStart(3, '0')}` is a well-formed id of at least three digits that reads back as n |
| `Profiles.NextProfileId` | backend/data/profileRepository.js:19-21 | the next profile id is well formed, at least four characters long, and numbered one above the largest stored number |
| `Profiles.NextProfileIdFresh` | backend/data/profileRepository.js:19-21 | the new profile id is well formed, numbered above every stored id, and equal to no stored profile's id |
| `Profiles.FirstProfileId` | backend/data/profileRepository.js:19-21 | an empty store gives the first profile the id "P001" |
| `Profiles.CreatedProfileStored` | backend/data/profileRepository.js:19-23 | appending the profile with the next id keeps every stored id well formed, and looking the new id up in the new store finds the new profile |
| `Profiles.ProfileRepository.GetById` | backend/data/profileRepository.js:12-15 | the first stored profile whose id equals the argument, and nothing exactly when none does |
| `Profiles.ProfileRepository.Create` | backend/data/profileRepository.js:17-26 | the new profile is the argument with the next id set; it is appended to the store; every stored id stays well formed; looking the new id up finds the new profile |
| `Profiles.ProfileRepository.Update` | backend/data/profileRepository.js:28-35 | with no profile of that id, nothing changes and null is returned; otherwise the first match is replaced by its shallow merge with the updates and returned; updates without an id leave every id in place |
| `Profiles.ProfileRepository.Delete` | backend/data/profileRepository.js:37-44 | true exactly when a profile has that id; the first such profile is spliced out and nothing else changes |
| `Petitions.MaxPetitionId` | backend/data/petitionRepository.js:19 | `Math.max(...ids, 0)`: at least 0, no id exceeds it, and it is 0 or some petition's id |
| `Petitions.NextPetitionId` | backend/data/petitionRepository.js:19 | the new petition id is positive, 1 for an empty store, and above every stored id |
| `Petitions.PetitionRepository.GetById` | backend/data/petitionRepository.js:12-15 | the first stored petition whose id is that number, and nothing exactly when none is |
| `Petitions.PetitionRepository.Create` | backend/data/petitionRepository.js:17-24 | the new petition is the argument with the next id set; it is appended; every stored id stays numeric; looking the new id up finds the new petition |
| `Petitions.PetitionRepository.Update` | backend/data/petitionRepository.js:26-33 | with no petition of that id, nothing changes and null is returned; otherwise the first match is replaced by its shallow merge with the updates and returned; updates without an id leave every id in place |
| `Petitions.PetitionRepository.Delete` | backend/data/petitionRepository.js:35-42 | true exactly when a petition has that id; the first such petition is spliced out and nothing else changes |
| `Records.Merge` | backend/data/profileRepository.js:32 | the spread `{...base, ...updates}` has the keys of both, the value from `updates` where both have one and the value from `base` elsewhere |
| `Records.FindIndex` | backend/data/profileRepository.js:30 | `findIndex`: -1 exactly when no record matches, otherwise a matching index with no match before it |
| `Records.Find` | backend/data/profileRepository.js:14 | `find`: nothing exactly when no record matches, otherwise the record at the first matching index |
| `Records.FindLastIndex` | backend/services/eligibilityService.js:117 | the index a `Map` built from the list keeps for a key: a matching index with no match after it, or -1 when there is none |
| `Decimal.NatToString` | backend/data/profileRepository.js:21 | `String(n)`: only decimal digits, no leading zero, and reads back as n |
| `Decimal.PadStartZeros` | backend/data/profileRepository.js:21 | `padStart(width, '0')`: as long as the text or the width, whichever is larger, with zeros before the original text, which is kept as the suffix |
| `Decimal.PaddedValue` | backend/data/profileRepository.js:21 | zero-padding the decimal text of n keeps its value n |
| `PetitionsTab.FormatRequirementValue` | frontend/src/components/PetitionsTab.jsx:6-11 | null or undefined show as "—"; an array shows as its elements joined with ", "; a boolean as "Yes" exactly when true and "No" exactly when false; anything else as `String(value)` |
| `PetitionsTab.FormatStringList` | frontend/src/components/PetitionsTab.jsx:8 | a list of strings shows as those strings separated by ", " |
| `PetitionsTab.FormatLabel` | frontend/src/components/PetitionsTab.jsx:13-17 | same length as the key; no underscore left; each underscore becomes a space; a word character that starts a word is upper-cased, and every other character is unchanged |
| `PetitionsTab.FormatLabelIdempotent` | frontend/src/components/PetitionsTab.jsx:13-17 | formatting a formatted label changes nothing |
| `PetitionsTab.ShortSummary` | frontend/src/components/PetitionsTab.jsx:71-76 | the truthy ones of `target_profile_type` and `category`, in that order, joined with " · ", and "Employment-based visa" when neither is truthy |
| `ResultsSection.GetScoreClass` | frontend/src/components/ResultsSection.jsx:4-8 | "score-high" exactly when the score is at least 70, "score-medium" exactly from 40 up to below 70, "score-low" exactly below 40 |
| `ResultsSection.GetScoreClassMonotone` | frontend/src/components/ResultsSection.jsx:4-8 | a higher score never gets a lower class |
| `ResultsSection.StrengthClass` | frontend/src/components/ResultsSection.jsx:4-8 | of the backend's strength scores, exactly Very Strong and Strong are high and exactly Rejected is low |
| `ResultsSection.DisplayScore` | frontend/src/components/ResultsSection.jsx:201-203 | a present score is shown as is; a missing one as 0, classed "score-low" |
| `ResultsSection.DisplayEligible` | frontend/src/components/ResultsSection.jsx:200 | a missing `eligible` counts as false; otherwise its truthiness decides |
| `ResultsSection.ProgressWidth` | frontend/src/components/ResultsSection.jsx:19 | the bar width never exceeds 100, equals the score up to 100, and is 100 above |
| `ResultsSection.ShowsDetails` | frontend/src/components/ResultsSection.jsx:291-299 | details appear exactly for an expanded result without a truthy `error` |

## Left out

- The reasoning-service call (backend/services/eligibilityService.js:63-85) is network I/O on a foreign library. `CheckEligibility` takes it as a function parameter that returns the reply text or an error message.
- `JSON.parse` is a foreign call. Its result is a typed reply from a parameter `parse`, which may fail with a message.
- `JSON.parse` can also produce things the typed reply cannot hold, and the model does not cover them:
  - a top level that is not an object;
  - a `matching_results[0]` that is null or not an object;
  - reply entries that are not objects;
  - a `tie_breaker_rank` that is not an integer.
- `buildPrompt` (backend/services/eligibilityService.js:212-380) is a fixed prompt text around `JSON.stringify`. The service parameter receives the profile and the petitions in its place.
- Ranking.SortResults: nothing beyond the permutation is stated when some results carry a rank and others do not. The comparator is then not a consistent order, and the engine's order is implementation-defined.
- Ranking.SortResults: stability is not claimed. The model sorts with an insertion sort.
- The points and percentage fields shown in frontend/src/components/ResultsSection.jsx:22-35 and 78-87 are never produced by the backend, so they have no model.
- File reads and writes of both stores (`fs.readJson` and `fs.writeJson`) are not modelled. Each store is the in-memory sequence its class holds.
- Profiles.ProfileRepository.Create requires every stored id to be well formed: `"P"` followed by decimal digits. In the code, some malformed ids give `NaN` in the maximum and others a number (`"P12abc"` counts as 12, `"P-3"` as -3). The model does not cover them.
- Petitions.PetitionRepository.Create requires every stored id to be an integer. In the code, `Math.max` converts other ids: `"5"` counts as 5 and `null` as 0, while a missing or non-numeric id gives `NaN`. The model does not cover them.
- `parseInt(petitionId)` in backend/data/petitionRepository.js is not modelled: `petitionId` is an integer argument.
- EligibilityService.CheckEligibility takes the petition id as an optional integer. `None` stands for null, undefined and `NaN`.
- EligibilityService.CheckEligibility omits the "not found" message text for non-integer petition ids.
- The filter on null petitions (backend/services/eligibilityService.js:25) is not modelled. The model's store cannot hold null, and a requested petition that is missing already raises the "not found" error.
- Numbers are unbounded integers. JavaScript's floating-point numbers are not modelled. That covers fractional scores and ranks, exponent notation in `String(n)`, and precision above 2^53.
- The `RangeError` of `Math.max(...ids)` on very large stores is not modelled.
- `ResultTransform.JoinTypeError` is the V8 wording of the TypeError's message. Other engines word it differently.
- Express routes, the server, the frontend API client and async/await are not modelled. There is no concurrency to model.
- Logging (`console.error`) is not modelled.
- React rendering, state, timers and effects are not modelled, beyond the display rules listed above.
- ResultsSection.DisplayScore takes a score that is a number or missing. A non-numeric score is not modelled.
- The `getScoreClass` of frontend/src/components/EligibilityResults.jsx:8-12 is the same table as `ResultsSection.GetScoreClass`, so that model covers it.
- `getAll` is not modelled as a separate operation. It is the store's field of records.
