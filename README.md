# Horse-race dashboard, modelled in Dafny

This project models the logic of a horse-racing management dashboard. The dashboard
keeps horses, races, race results and notifications in one in-memory store. Owners
register horses for races after an eligibility check. Judges enter results.
Organisers and owners edit races and horses through forms. A statistics page ranks
horses and owners, and a sidebar shows the pages each role may open.

Layout, one module per file:

- `wrappers.dfy` (`Wrappers`): `Option`.
- `seqs.dfy` (`Seqs`): the list operations the program uses, each proved once:
  - `filter` and `map`, the first-match `find`, and de-duplication in first-occurrence order;
  - a stable insertion sort, plus an in-place array version of it;
  - `reverse` and `slice(0, n)`.
- `object_keys.dfy` (`ObjectKeys`): the order in which JavaScript lists an object's keys (`Object.values`, `Object.entries`).
- `domain.dfy` (`Domain`): the record types and the four-value race status.
- `auth.dfy` (`Auth`): demo accounts, login, logout, mock registration and `hasRole`.
- `store.dfy` (`Store`): the store as a class, its append and update operations, the capacity-guarded roster append, and the seed data.
- `registration.dfy` (`Registration`): the eligibility check and the registration page.
- `results.dfy` (`Results`): draft rows, editing them, the submit guard, saving results in position order, and results per race.
- `statistics.dfy` (`Statistics`): per-horse counts, the win rate, rankings, owner groups, recent results, races per month and performance tiers.
- `race_admin.dfy` (`RaceAdmin`) and `horse_admin.dfy` (`HorseAdmin`): the race and horse forms and pages.
- `schedule.dfy` (`Schedule`): status badges, the schedule tabs, the roster lookup, the in-place date sort and the countdown.
- `sidebar.dfy` (`Sidebar`): the role-filtered menu.

Modelling choices:

- Every operation that updates component or store state is a method of a class with `modifies`. The pages are `RegistrationPage`, `ResultsPage`, `RaceManagementPage`, `HorseManagementPage` and `SchedulePage`; the store is `DataStore` and the session is `Session`. Each such method states the whole new state.
- The pure rules are functions, and lemmas state their properties.
- Fresh ids and timestamps, normally read from the clock, are parameters (`freshId`, `Stamp`).
- The start time of a race, the creation time of a result and the month label of a race are abstract key functions (`when`, `createdAt`, `monthOf`).
- `parseInt` and `toString` on form fields are the parameters `parse` and `show`.
- The store appends once per `addResult` call, so submitting results for n rows with known horses adds n results.
- Win rates are exact `real` ratios.
- Dictionaries built with `reduce` are read back in JavaScript's key order (section 10.1.11.1 of ECMA-262, OrdinaryOwnPropertyKeys). Keys that are array indices come first, in ascending numeric order. All other keys follow in creation order.

Two details of the code that the model follows:

- Seed race '1' already lists horse '3' (src/hooks/useData.ts:56), so horse '3' is refused as a duplicate (`Registration.SeedHorsesAlreadyRegistered`).
- The age check's `else if` tests "the category includes the pattern and the age violates it", so a category that includes a pattern the age satisfies goes on to the later patterns (`Registration.AgeRejectedIff`).

## Model

| member | source | states |
|---|---|---|
| Auth.LookUp | src/contexts/AuthContext.tsx:25-44 | a login matches iff some demo account has exactly that email and password; the user found is the first such account's |
| Auth.HasRole | src/contexts/AuthContext.tsx:72-74 | false without a user, otherwise true iff the user's role is listed |
| Auth.IsAuthenticated | src/contexts/AuthContext.tsx:81 | `!!user`: true whenever some role check passes, and only for a signed-in user whose own role passes |
| Auth.Session.constructor | src/contexts/AuthContext.tsx:34 | the session starts without a user |
| Auth.Session.Restore | src/contexts/AuthContext.tsx:36-41 | a saved user becomes current; without one the session is unchanged |
| Auth.Session.Login | src/contexts/AuthContext.tsx:43-52 | succeeds iff the credentials match; success makes the found user (which has no password) current; failure leaves the user unchanged |
| Auth.Session.Logout | src/contexts/AuthContext.tsx:54-57 | afterwards there is no user and the session is not authenticated (`isAuthenticated` is `!!user`, line 81) |
| Auth.Session.Register | src/contexts/AuthContext.tsx:59-70 | always succeeds; the current user gets the fresh id and the given name, email and role |
| Auth.DemoLogins | src/contexts/AuthContext.tsx:25-44 | each demo account logs in with its own credentials and becomes that user |
| Auth.DemoEmailsDistinct | src/contexts/AuthContext.tsx:25-30 | no two demo accounts share an email |
| Auth.WrongPasswordRefused | src/contexts/AuthContext.tsx:44-51 | the admin email with another account's password is refused |
| Store.EmptyHorsePatch | src/hooks/useData.ts:139-141 | spreading an empty update over a horse leaves it unchanged |
| Store.ApplyHorsePatch | src/hooks/useData.ts:140 | the `{ ...horse, ...updates }` spread: no contract of its own; `Store.EmptyHorsePatch` and `Store.HorsePatchTwice` state its properties |
| Store.HorsePatchTwice | src/hooks/useData.ts:140 | spreading the same update twice gives what spreading it once gives |
| Store.ApplyRacePatch | src/hooks/useData.ts:156 | the `{ ...race, ...updates }` spread: no contract of its own; `Store.EmptyRacePatch` and `Store.RacePatchTwice` state its properties |
| Store.EmptyRacePatch | src/hooks/useData.ts:156 | spreading an empty update over a race leaves it unchanged |
| Store.RacePatchTwice | src/hooks/useData.ts:156 | spreading the same update twice gives what spreading it once gives |
| Store.FindRace | src/hooks/useData.ts:163 | none iff no race has the id; otherwise the race at the first index with the id |
| Store.FindHorse | src/components/Registration/HorseRegistration.tsx:23 | none iff no horse has the id; otherwise the horse at the first index with the id |
| Store.RacesWithStatus | src/components/Schedule/RaceSchedule.tsx:13-14 | exactly the races whose status is one of the given ones, all taken from the store |
| Store.UpdatedHorses | src/hooks/useData.ts:138-144 | same length; horses with the id are patched, all others are unchanged; with the id absent the collection is unchanged |
| Store.UpdatedRaces | src/hooks/useData.ts:154-160 | same length; races with the id are patched, all others are unchanged; with the id absent the collection is unchanged |
| Store.Register | src/hooks/useData.ts:162-175 | succeeds iff a race has the id and its roster is shorter than `maxHorses`; failure changes nothing; success appends the horse id to the roster of the races with that id; other races and the length are unchanged |
| Store.RegisterWithinCapacity | src/hooks/useData.ts:164-168 | on success the checked race's roster is the old roster plus the horse id, and it is within `maxHorses` |
| Store.RegisterKeepsCapacity | src/hooks/useData.ts:162-175 | with unique race ids, a store within capacity stays within capacity, and no roster loses an entry |
| Store.RegisterAcceptsDuplicate | src/hooks/useData.ts:164-167 | there is no duplicate check: horse '1', already on race '1', is appended a second time (the seed roster is on line 56) |
| Store.DataStore.constructor | src/hooks/useData.ts:108-111 | the four collections start empty |
| Store.DataStore.Load | src/hooks/useData.ts:113-124 | each saved collection is used if present, otherwise the seed data (no notifications) |
| Store.DataStore.AddHorse | src/hooks/useData.ts:130-136 | appends the horse with the fresh id at the end and returns it; nothing else changes |
| Store.DataStore.UpdateHorse | src/hooks/useData.ts:138-144 | the horses become `UpdatedHorses`; nothing else changes |
| Store.DataStore.AddRace | src/hooks/useData.ts:146-152 | appends the race with the fresh id and returns it; nothing else changes |
| Store.DataStore.UpdateRace | src/hooks/useData.ts:154-160 | the races become `UpdatedRaces`; nothing else changes |
| Store.DataStore.RegisterHorseToRace | src/hooks/useData.ts:162-175 | the result and the new races are those of `Register`; nothing else changes |
| Store.DataStore.AddResult | src/hooks/useData.ts:177-183 | appends the result with the fresh id and returns it; nothing else changes |
| Store.DataStore.AddNotification | src/hooks/useData.ts:185-194 | appends the notification with the fresh id and creation time; nothing else changes |
| Registration.MissingCharacter | src/components/Registration/HorseRegistration.tsx:41-50 | a text lacking one of a pattern's characters does not include the pattern |
| Registration.IncludesItself | src/components/Registration/HorseRegistration.tsx:41-50 | every text includes itself |
| Registration.AgeRejectedIff | src/components/Registration/HorseRegistration.tsx:40-51 | the age check rejects iff some pattern the category includes does not admit the age |
| Registration.SinglePatternCategory | src/components/Registration/HorseRegistration.tsx:40-51 | a category including exactly one pattern rejects exactly the ages that pattern does not admit |
| Registration.OpenCategory | src/components/Registration/HorseRegistration.tsx:40-51 | a category including no pattern never rejects an age |
| Registration.Flagged | src/components/Registration/HorseRegistration.tsx:27-56 | each of the capacity, duplicate and age reasons appears iff its check failed; never invalid data; in the order capacity, duplicate, age |
| Registration.Reasons | src/components/Registration/HorseRegistration.tsx:27-56 | for a known race and horse: full iff the roster has at least `maxHorses` entries, duplicate iff the horse id is on the roster, age iff the category rejects the horse's age; in that order |
| Registration.CheckEligibility | src/components/Registration/HorseRegistration.tsx:21-57 | eligible iff there are no reasons; an unknown race or horse gives exactly the invalid-data reason; otherwise the capacity, duplicate and age reasons each appear iff their condition holds; reasons come in the order capacity, duplicate, age, each at most once |
| Registration.EligibleRegisters | src/components/Registration/HorseRegistration.tsx:30-32 | an eligible pair always passes the store's capacity guard (src/hooks/useData.ts, line 164) |
| Registration.EligibleKeepsRosterDistinct | src/components/Registration/HorseRegistration.tsx:35-37 | registering only eligible horses keeps a duplicate-free roster duplicate-free |
| Registration.FourAndOverIsLowerBound | src/components/Registration/HorseRegistration.tsx:47-48 | the category "4 and over" rejects exactly the ages below 4, so age 4 passes |
| Registration.ThreeToFiveIsOpen | src/components/Registration/HorseRegistration.tsx:40-51 | the seed category "3-5 years" includes no pattern and admits every age (the category of seed race '2', src/hooks/useData.ts line 69) |
| Registration.TwoToThreeIsInclusive | src/components/Registration/HorseRegistration.tsx:41-42 | the range "2-3" is inclusive at both ends |
| Registration.SeedHorsesAlreadyRegistered | src/components/Registration/HorseRegistration.tsx:21-57 | seed horses '1' and '3' against seed race '1' fail for duplication only (the seed roster is on src/hooks/useData.ts line 56) |
| Registration.OnlyDuplicate | src/components/Registration/HorseRegistration.tsx:27-56 | a pair failing only the duplicate check is refused for that reason alone |
| Registration.AvailableRaces | src/components/Registration/HorseRegistration.tsx:18 | exactly the upcoming races |
| Registration.OwnHorses | src/components/Registration/HorseRegistration.tsx:19 | none without a user; otherwise exactly the horses the user owns |
| Registration.IsEligible | src/components/Registration/HorseRegistration.tsx:67-78 | the check's verdict, and an eligible pair registers |
| Registration.RegistrationPage.constructor | src/components/Registration/HorseRegistration.tsx:15-16 | nothing is selected |
| Registration.RegistrationPage.SelectRace | src/components/Registration/HorseRegistration.tsx:15 | the race is selected; the horse selection is kept |
| Registration.RegistrationPage.SelectHorse | src/components/Registration/HorseRegistration.tsx:16 | the horse is selected; the race selection is kept |
| Registration.RegistrationPage.HandleRegistration | src/components/Registration/HorseRegistration.tsx:59-100 | with a selection missing or the pair ineligible, nothing changes and the reasons are reported; an eligible pair is registered in the store and the selection is cleared |
| Results.SelectableRaces | src/components/Results/ResultsManagement.tsx:31-33 | exactly the upcoming and active races |
| Results.BuildDrafts | src/components/Results/ResultsManagement.tsx:39-47 | one row per known horse on the roster, row i holding `RegisteredHorses(...)[i]`, positions 1..n, time, jockey, penalties and notes empty |
| Results.DraftsInStoreOrder | src/components/Results/ResultsManagement.tsx:39-47 | the rows follow store order: for rows i < j, row i's horse id occurs in the store's id list before row j's, so position 1 goes to the first stored horse on the roster |
| Results.ApplyEdit | src/components/Results/ResultsManagement.tsx:53 | only the named field changes; the horse never does |
| Results.EditDraft | src/components/Results/ResultsManagement.tsx:51-55 | same length; only the row at the index is edited; an index out of range changes nothing |
| Results.AllCompleteIff | src/components/Results/ResultsManagement.tsx:64-68 | the submit guard passes iff every row has a time and a jockey |
| Results.FreshDraftsIncomplete | src/components/Results/ResultsManagement.tsx:43-68 | freshly built rows can never be submitted unchanged |
| Results.RecordRoundTrip | src/components/Results/ResultsManagement.tsx:83-95 | a saved result gives back the row it was made from |
| Results.RecordsFrom | src/components/Results/ResultsManagement.tsx:80-97 | at most one result per row; each carries the race id, race name and judge id |
| Results.LastRecord | src/components/Results/ResultsManagement.tsx:81-96 | one result iff the row's horse is known, made from the row and that horse |
| Results.RecordsAreKnownRows | src/components/Results/ResultsManagement.tsx:80-97 | the saved results, read back as rows, are exactly the rows whose horse is known, in row order |
| Results.LastRecordRow | src/components/Results/ResultsManagement.tsx:81-96 | one row's result, read back as a row, is the row itself if its horse is known, else nothing |
| Results.RecordsSnoc | src/components/Results/ResultsManagement.tsx:80-97 | one more row adds that row's result |
| Results.AllKnownAllSaved | src/components/Results/ResultsManagement.tsx:81-82 | when every row's horse is known, no row is dropped |
| Results.RecordsOrdered | src/components/Results/ResultsManagement.tsx:78-80 | rows in position order give results in position order |
| Results.ResultsByRace | src/components/Results/ResultsManagement.tsx:122-125 | as many entries as the race has results, each a stored result of that race; its order and tie order are `Results.ResultsByRaceSpec` |
| Results.ResultsByRaceSpec | src/components/Results/ResultsManagement.tsx:122-125 | the race's results, reordered: each has the race id, positions ascend, and equal positions keep their saved order |
| Results.ResultsPage.constructor | src/components/Results/ResultsManagement.tsx:19-28 | no race, no rows, dialog closed |
| Results.ResultsPage.SetDialogOpen | src/components/Results/ResultsManagement.tsx:19 | only the dialog flag changes (its setter is called on lines 140 and 326) |
| Results.ResultsPage.HandleRaceSelect | src/components/Results/ResultsManagement.tsx:35-49 | the race is always selected; rows are rebuilt only when the race exists |
| Results.ResultsPage.UpdateResult | src/components/Results/ResultsManagement.tsx:51-55 | the rows become `EditDraft` of the old rows |
| Results.ResultsPage.HandleSubmitResults | src/components/Results/ResultsManagement.tsx:57-107 | nothing happens without a selected existing race or a user; incomplete rows add nothing; otherwise the rows sorted by position are saved and the page is reset; the rows themselves are not reordered before the reset |
| Results.SaveRows | src/components/Results/ResultsManagement.tsx:80-97 | the loop appends exactly `RecordsFrom` of the rows to the results; nothing else changes |
| Results.SaveRowsStep | src/components/Results/ResultsManagement.tsx:80-97 | after one more turn of the loop, the results hold those of one more row |
| Results.SaveRow | src/components/Results/ResultsManagement.tsx:81-96 | one turn: the row's result is appended iff its horse is known; nothing else changes |
| Results.SubmissionOrdered | src/components/Results/ResultsManagement.tsx:78-97 | a submission saves results in non-decreasing position order |
| Statistics.TotalOwners | src/components/Statistics/StatisticsDashboard.tsx:16 | at most the number of horses |
| Statistics.TotalOwnersIsDistinctCount | src/components/Statistics/StatisticsDashboard.tsx:16 | equals the number of distinct owner ids |
| Statistics.WinRate | src/components/Statistics/StatisticsDashboard.tsx:23 | 0 without races; otherwise rate × races = wins × 100; never negative for non-negative wins; at most 100 when wins ≤ races |
| Statistics.StatOf | src/components/Statistics/StatisticsDashboard.tsx:19-31 | wins count the horse's results in position 1 and podiums those in position 3 or better, over the whole result list; participations count all the horse's results; wins ≤ podiums ≤ participations; the rate is `WinRate` of wins over the horse's recorded races |
| Statistics.HorseStats | src/components/Statistics/StatisticsDashboard.tsx:19-32 | one entry per horse, each the `StatOf` entry of one of the store's horses; `Statistics.HorseStatsPermutes`, `Statistics.HorseStatsByWins` and `Statistics.HorseStatsStable` state the ranking |
| Statistics.HorseStatsPermutes | src/components/Statistics/StatisticsDashboard.tsx:19-32 | the ranking is a permutation of the horses' entries |
| Statistics.HorseStatsByWins | src/components/Statistics/StatisticsDashboard.tsx:32 | the ranking is non-increasing in wins |
| Statistics.HorseStatsStable | src/components/Statistics/StatisticsDashboard.tsx:32 | horses with equal wins keep their store order |
| Statistics.TopHorses | src/components/Statistics/StatisticsDashboard.tsx:34 | the first min(5, n) entries of the ranking |
| Statistics.OwnedHorsesSnoc | src/components/Statistics/StatisticsDashboard.tsx:46-47 | one more horse joins its owner's horses and no other owner's |
| Statistics.OwnedHorsesMembers | src/components/Statistics/StatisticsDashboard.tsx:37-51 | an owner's horses are exactly the store's horses with that owner id |
| Statistics.OwnedHorsesNone | src/components/Statistics/StatisticsDashboard.tsx:37-51 | an owner without horses has an empty list |
| Statistics.GroupMembers | src/components/Statistics/StatisticsDashboard.tsx:37-51 | a group holds exactly its owner's horses, and its totals are the sums of their win and race counters |
| Statistics.OwnerGroupsCoverOwners | src/components/Statistics/StatisticsDashboard.tsx:37-53 | every horse's owner has a group, every group belongs to the owner of some horse, and no owner has two |
| Statistics.SizeSumSnoc | src/components/Statistics/StatisticsDashboard.tsx:47 | one more horse adds one to the group sizes of the owners listed once |
| Statistics.SizeSumFresh | src/components/Statistics/StatisticsDashboard.tsx:38-46 | listing one more owner adds that owner's group size |
| Statistics.GroupSizesSum | src/components/Statistics/StatisticsDashboard.tsx:37-51 | group sizes add up to the number of horses |
| Statistics.SizeSumGrows | src/components/Statistics/StatisticsDashboard.tsx:37-51 | one more horse adds exactly one to the group sizes summed over the owners |
| Statistics.FirstHorseOfOwner | src/components/Statistics/StatisticsDashboard.tsx:38-47 | a horse whose owner has no earlier horse forms a group of one |
| Statistics.OwnerIdsSnoc | src/components/Statistics/StatisticsDashboard.tsx:38-46 | a new owner id is added at the end, a known one changes nothing |
| Statistics.GroupOfOther | src/components/Statistics/StatisticsDashboard.tsx:47-49 | a horse leaves other owners' groups unchanged |
| Statistics.SumsSnoc | src/components/Statistics/StatisticsDashboard.tsx:48-49 | one more horse adds its counters to the sums |
| Statistics.GroupFromSnoc | src/components/Statistics/StatisticsDashboard.tsx:47-49 | adding a horse to a non-empty group keeps its owner name and adds the horse's counters |
| Statistics.GroupGrows | src/components/Statistics/StatisticsDashboard.tsx:47-49 | an existing group receives the horse and its counters |
| Statistics.GroupOpens | src/components/Statistics/StatisticsDashboard.tsx:38-49 | a new group is opened under this horse's owner name and then receives the horse |
| Statistics.GroupOfOwn | src/components/Statistics/StatisticsDashboard.tsx:38-49 | the owner's group grows by the horse, opening it if needed |
| Statistics.StepKeys | src/components/Statistics/StatisticsDashboard.tsx:38-46 | one step opens a group exactly for an owner not seen before, appended to the owner order |
| Statistics.StepValues | src/components/Statistics/StatisticsDashboard.tsx:38-49 | one step adds the horse to its owner's group and leaves every other group alone |
| Statistics.StepKeepsGroups | src/components/Statistics/StatisticsDashboard.tsx:37-51 | one `reduce` step keeps the dictionary equal to the groups of the horses seen |
| Statistics.GroupsMapHolds | src/components/Statistics/StatisticsDashboard.tsx:37-51 | after any prefix of the horses, the dictionary holds exactly the groups of the horses seen, opened in order of first horse |
| Statistics.ReadInOrder | src/components/Statistics/StatisticsDashboard.tsx:53 | the dictionary read in insertion order gives the groups in creation order (`OwnerGroups`), which `Object.values` then reorders |
| Statistics.OwnerValues | src/components/Statistics/StatisticsDashboard.tsx:53 | `Object.values(ownerStats)`: no contract of its own; `Statistics.OwnerValuesSpec` states its order |
| Statistics.OwnerValuesSpec | src/components/Statistics/StatisticsDashboard.tsx:53 | `Object.values` lists the same groups; owner ids that are array indices come first, in ascending order; the other owners keep the order of their first horse |
| Statistics.ComputeOwnerStats | src/components/Statistics/StatisticsDashboard.tsx:37-53 | the `reduce` loop fills one group per distinct owner, and the groups are listed in the object's key order (`OwnerValues`) |
| Statistics.TopOwners | src/components/Statistics/StatisticsDashboard.tsx:53-55 | the first min(5, n) groups of the stable ranking by total wins of `Object.values`, non-increasing |
| Statistics.TwoOwnerGroups | src/components/Statistics/StatisticsDashboard.tsx:37-51 | a horse of owner '6' stored before a horse of owner '3' gives group '6' and then group '3', one horse each |
| Statistics.TiedOwnersInKeyOrder | src/components/Statistics/StatisticsDashboard.tsx:53-55 | two owners tied on wins are ranked in key order: owner '3' comes before owner '6' even when '6''s horse is stored first |
| Statistics.RecentResults | src/components/Statistics/StatisticsDashboard.tsx:58-60 | the store's results are sorted in place, newest first, and the first ten are returned |
| Statistics.RecentResultsSpec | src/components/Statistics/StatisticsDashboard.tsx:58-60 | the sort is a permutation; the list has min(10, n) entries and is non-increasing in creation time |
| Statistics.StepKeepsCounts | src/components/Statistics/StatisticsDashboard.tsx:64-65 | one `reduce` step keeps each month's count equal to the number of races seen in it |
| Statistics.CountKeys | src/components/Statistics/StatisticsDashboard.tsx:63-67 | one step adds exactly the race's month to the months seen |
| Statistics.CountValues | src/components/Statistics/StatisticsDashboard.tsx:65 | one step keeps every count equal to the number of races seen in its month |
| Statistics.CountsMapHolds | src/components/Statistics/StatisticsDashboard.tsx:63-67 | after any prefix of the races, each month seen is counted once per race in it, and no other month has an entry |
| Statistics.FilterNoMonth | src/components/Statistics/StatisticsDashboard.tsx:65 | a month no race falls in has no races |
| Statistics.MonthsMetSnoc | src/components/Statistics/StatisticsDashboard.tsx:63-67 | one more race adds its month at the end of the months met, unless that month was already met |
| Statistics.CountStepMeetsMonth | src/components/Statistics/StatisticsDashboard.tsx:64-65 | one `reduce` step counts the race, and adds its month to the months met exactly when the month had no count yet |
| Statistics.CountRacesByMonth | src/components/Statistics/StatisticsDashboard.tsx:63-67 | a month has an entry iff some race falls in it, and its count is the number of such races; the months come in the order `Object.entries` lists them (line 274) |
| Statistics.MonthEntriesSpec | src/components/Statistics/StatisticsDashboard.tsx:274 | `Object.entries` lists each race month exactly once; numeric labels come first; the other labels keep the order of their first race |
| Statistics.TierOf | src/components/Statistics/StatisticsDashboard.tsx:69-74 | excellent iff the rate is ≥ 70, very good iff it lies in [50, 70), good iff it lies in [30, 50), average iff it is below 30 |
| Statistics.TierMonotone | src/components/Statistics/StatisticsDashboard.tsx:69-74 | a higher win rate never gives a lower tier |
| Statistics.SeedHorseOneIsAverage | src/components/Statistics/StatisticsDashboard.tsx:19-74 | seed horse '1' has one win over 20 recorded races: a 5% rate, average tier (seed data in src/hooks/useData.ts) |
| RaceAdmin.WithField | src/components/Races/RaceManagement.tsx:33-35 | the named field takes the value; every other field is unchanged |
| RaceAdmin.RaceData | src/components/Races/RaceManagement.tsx:42-55 | always upcoming; the selected race's roster, else none; the organizer is the current user; the other fields come from the form |
| RaceAdmin.AsRacePatch | src/components/Races/RaceManagement.tsx:57-58 | applying the update to any race gives the race data under that race's id |
| RaceAdmin.FormOf | src/components/Races/RaceManagement.tsx:92-102 | the form `handleEdit` fills: no contract of its own; `RaceAdmin.EditThenSubmit` proves that submitting it unchanged gives back the race |
| RaceAdmin.EditThenSubmit | src/components/Races/RaceManagement.tsx:42-55 | edit then unchanged submit gives back the race; only the status (upcoming) and the organizer (current user) change (the form `handleEdit` fills, lines 90-103) |
| RaceAdmin.EditReplacesSelected | src/components/Races/RaceManagement.tsx:57-58 | an edit replaces the races with the selected id by the form's race under that id; all other races are unchanged (the store update of src/hooks/useData.ts lines 154-160) |
| RaceAdmin.RaceManagementPage.constructor | src/components/Races/RaceManagement.tsx:19-31 | nothing selected, blank form, dialog closed |
| RaceAdmin.RaceManagementPage.HandleInputChange | src/components/Races/RaceManagement.tsx:33-35 | the form becomes `WithField` of the old form; nothing else changes |
| RaceAdmin.RaceManagementPage.ResetForm | src/components/Races/RaceManagement.tsx:75-88 | every field is cleared and nothing is selected |
| RaceAdmin.RaceManagementPage.SetDialogOpen | src/components/Races/RaceManagement.tsx:124 | the dialog's `onOpenChange` sets only the open flag; selection and form are unchanged |
| RaceAdmin.RaceManagementPage.HandleEdit | src/components/Races/RaceManagement.tsx:90-104 | the race is selected, its fields fill the form, and the dialog opens |
| RaceAdmin.RaceManagementPage.HandleSubmit | src/components/Races/RaceManagement.tsx:37-73 | without a user nothing changes; otherwise the selected race is updated or a new race is appended, then the form is reset and the dialog closes |
| HorseAdmin.ManagedHorses | src/components/Horses/HorseManagement.tsx:30 | an admin sees every horse; another user sees exactly their own horses; no user sees none |
| HorseAdmin.ManagedHorsesInOrder | src/components/Horses/HorseManagement.tsx:30 | a user's list keeps the store order |
| HorseAdmin.WithField | src/components/Horses/HorseManagement.tsx:32-34 | the named field takes the value; every other field is unchanged |
| HorseAdmin.HorseData | src/components/Horses/HorseManagement.tsx:41-52 | the owner is the current user; wins and races come from the selected horse, else 0; the trainer name comes from the form; there is no trainer id or image |
| HorseAdmin.AsHorsePatch | src/components/Horses/HorseManagement.tsx:54-55 | applying the update to any horse gives the horse data, keeping that horse's id, trainer id and image |
| HorseAdmin.FormOf | src/components/Horses/HorseManagement.tsx:86-93 | the form `handleEdit` fills: no contract of its own; `HorseAdmin.EditThenSubmit` proves what submitting it unchanged keeps |
| HorseAdmin.EditThenSubmit | src/components/Horses/HorseManagement.tsx:41-52 | edit then unchanged submit keeps name, breed, age, colour, weight, counters, trainer id and image; a missing trainer name becomes empty; the owner becomes the current user (the form `handleEdit` fills, lines 84-95) |
| HorseAdmin.HorseWinRate | src/components/Horses/HorseManagement.tsx:97-100 | 0 without races; otherwise rate × races = wins × 100 |
| HorseAdmin.WinRatesAgree | src/components/Horses/HorseManagement.tsx:97-100 | the horse page and the statistics compute the same rate for every non-negative race count (the statistics rate is src/components/Statistics/StatisticsDashboard.tsx line 23) |
| HorseAdmin.HorseBadge | src/components/Horses/HorseManagement.tsx:292-293 | "distinguished" (default variant) iff wins > 5, otherwise "active" (secondary) |
| HorseAdmin.HorseManagementPage.constructor | src/components/Horses/HorseManagement.tsx:19-28 | nothing selected, blank form, dialog closed |
| HorseAdmin.HorseManagementPage.HandleInputChange | src/components/Horses/HorseManagement.tsx:32-34 | the form becomes `WithField` of the old form; nothing else changes |
| HorseAdmin.HorseManagementPage.ResetForm | src/components/Horses/HorseManagement.tsx:72-82 | every field is cleared and nothing is selected |
| HorseAdmin.HorseManagementPage.SetDialogOpen | src/components/Horses/HorseManagement.tsx:109 | the dialog's `onOpenChange` sets only the open flag; selection and form are unchanged |
| HorseAdmin.HorseManagementPage.HandleEdit | src/components/Horses/HorseManagement.tsx:84-95 | the horse is selected, its fields fill the form, and the dialog opens |
| HorseAdmin.HorseManagementPage.HandleSubmit | src/components/Horses/HorseManagement.tsx:36-70 | without a user nothing changes; otherwise the selected horse is updated or a new horse is appended, then the form is reset and the dialog closes |
| Schedule.StatusBadge | src/components/Schedule/RaceSchedule.tsx:28-37 | secondary iff completed, destructive iff cancelled (the same map as src/components/Races/RaceManagement.tsx:106-115) |
| Schedule.StatusLabelsDistinct | src/components/Schedule/RaceSchedule.tsx:29-34 | different statuses never share a label |
| Schedule.RacesToShow | src/components/Schedule/RaceSchedule.tsx:13-26 | the upcoming and completed tabs hold exactly the races with that status; the all tab holds every race |
| Schedule.RegisteredHorses | src/components/Schedule/RaceSchedule.tsx:39-41 | exactly the store's horses whose id is on the roster, as a subsequence of the store's horse list (store order) |
| Schedule.RosterAsSet | src/components/Schedule/RaceSchedule.tsx:39-41 | only the set of roster ids matters, so repeated ids add nothing |
| Schedule.RegisteredHorsesUnique | src/components/Schedule/RaceSchedule.tsx:39-41 | with unique horse ids, each horse is listed at most once |
| Schedule.SortRacesByDate | src/components/Schedule/RaceSchedule.tsx:43-49 | the array is sorted in place: its new contents are the stable ascending sort of the old contents |
| Schedule.UpcomingListing | src/components/Schedule/RaceSchedule.tsx:103 | the upcoming races sorted by start time (the filter is on line 13) |
| Schedule.CompletedListing | src/components/Schedule/RaceSchedule.tsx:213 | the completed races sorted by start time, then reversed (the filter is on line 14) |
| Schedule.AllListing | src/components/Schedule/RaceSchedule.tsx:300 | the store's own race list is re-ordered by the sort (`allRaces` is line 15) |
| Schedule.UpcomingListingOrdered | src/components/Schedule/RaceSchedule.tsx:103 | the upcoming tab is a permutation of the upcoming races, earliest first |
| Schedule.CompletedListingOrdered | src/components/Schedule/RaceSchedule.tsx:213 | the completed tab is a permutation of the completed races, latest first |
| Schedule.AllCompleted | src/components/Schedule/RaceSchedule.tsx:213 | a reordering of completed races holds only completed races |
| Schedule.ReversePermutes | src/components/Schedule/RaceSchedule.tsx:213 | reversing only reorders |
| Schedule.TimeUntil | src/components/Schedule/RaceSchedule.tsx:67-84 | none iff the race is past; whole days when at least a day remains, else whole hours (1-23), else "under an hour" |
| Schedule.CountdownText | src/components/Schedule/RaceSchedule.tsx:77-83 | the plural word is added iff the count is above one |
| Schedule.SchedulePage.constructor | src/components/Schedule/RaceSchedule.tsx:11 | the upcoming tab is selected |
| Schedule.SchedulePage.SelectView | src/components/Schedule/RaceSchedule.tsx:11 | the chosen tab is selected |
| Sidebar.VisibleItems | src/components/Layout/Sidebar.tsx:40-42 | an entry is shown iff it is in the menu and lists the viewer's role; at most ten entries |
| Sidebar.VisibleInMenuOrder | src/components/Layout/Sidebar.tsx:40-42 | the shown entries are a subsequence of the menu |
| Sidebar.ShownIffListed | src/components/Layout/Sidebar.tsx:40-42 | a menu entry is shown iff it lists the viewer's role |
| Sidebar.EveryRoleListed | src/components/Layout/Sidebar.tsx:28-37 | every role is one of the five listed on the entries open to all |
| Sidebar.NoUserSeesPublicMenu | src/components/Layout/Sidebar.tsx:41 | without a user the menu is the public viewer's |
| Sidebar.CommonPagesShownToAll | src/components/Layout/Sidebar.tsx:28-37 | home, schedule and contact are shown to every viewer |
| Sidebar.SingleRolePages | src/components/Layout/Sidebar.tsx:31-36 | registration is shown iff the viewer is a horse owner; browse iff the viewer is a public viewer |
| ObjectKeys.PropertyOrderSpec | src/components/Statistics/StatisticsDashboard.tsx:53 | an object's listing holds the same properties; array-index keys come before all others, in ascending numeric order; the other keys keep their creation order |
| ObjectKeys.IndicesListedFirst | src/components/Statistics/StatisticsDashboard.tsx:53 | keys created as "6", "u1", "10", "3" are listed as "3", "6", "10", "u1" |
| ObjectKeys.SmallIndexRanks | src/components/Statistics/StatisticsDashboard.tsx:53 | "10", "6" and "3" are array indices ranked by their values |
| Seqs.NoDupPermutation | src/components/Statistics/StatisticsDashboard.tsx:274 | reordering a list without repeats leaves it without repeats |
| Seqs.SortByStable | src/components/Statistics/StatisticsDashboard.tsx:32 | the sort keeps the input order of elements with equal keys, as `Array.prototype.sort` does |
| Seqs.SortByPermutes | src/components/Schedule/RaceSchedule.tsx:44 | the sort is a permutation |
| Seqs.SortBySorted | src/components/Schedule/RaceSchedule.tsx:44 | the sort's output is non-decreasing in the key |
| Seqs.SortInPlace | src/components/Schedule/RaceSchedule.tsx:44 | the in-place insertion sort leaves the array equal to `SortBy` of its old contents |
| Seqs.Filter | src/components/Registration/HorseRegistration.tsx:18-19 | at most as long as the input; an element is kept iff it is in the input and satisfies the predicate |
| Seqs.FilterFilter | src/components/Statistics/StatisticsDashboard.tsx:20-22 | filtering by one predicate and then another keeps exactly what both accept |
| Seqs.FilterSubsequence | src/components/Layout/Sidebar.tsx:40-42 | filtering keeps the input order of what it keeps |
| Seqs.SubsequenceOrder | src/components/Schedule/RaceSchedule.tsx:39-41 | a subsequence lists any two of its elements in the order they occur in the sequence |
| Seqs.FindIndex | src/components/Registration/HorseRegistration.tsx:22-23 | the first index whose element satisfies the predicate; none iff no element does |
| Seqs.Distinct | src/components/Statistics/StatisticsDashboard.tsx:16 | the same elements as the input, each once |
| Seqs.Take | src/components/Statistics/StatisticsDashboard.tsx:34 | the first min(n, length) elements |
| Seqs.SortDescStable | src/components/Statistics/StatisticsDashboard.tsx:32 | the descending sort keeps the input order of elements with equal keys |
| Seqs.SortDescNonIncreasing | src/components/Statistics/StatisticsDashboard.tsx:32 | the descending sort's output is non-increasing in the key |
| Seqs.InsertIntoPrefix | src/components/Schedule/RaceSchedule.tsx:44 | one step of the in-place sort moves the next element into place in the sorted prefix and leaves the rest of the array alone |

## Left out

- Persistence: writes to and reads from `localStorage` are not modelled. Loading takes the saved collections as optional parameters (`DataStore.Load`, `Session.Restore`).
- Clock: `Date.now()` ids, `new Date().toISOString()` stamps and the current time in the countdown are not modelled. They are parameters: `freshId`, `Stamp`, and the millisecond difference in `TimeUntil`.
- Date parsing and locale formatting (`new Date(date + time)`, `toLocaleDateString`, month labels) are foreign library behaviour. They are the key functions `when`, `createdAt` and `monthOf`.
- Statistics.ComputeOwnerStats: an owner id that names a property inherited from `Object.prototype` (such as "constructor") finds that property in `acc`, so no group is opened and the following `push` throws. The model treats every owner id as an ordinary key.
- React: hook plumbing and the per-component `useData()` instances are not modelled.
- React stale closure: the repeated `addResult` calls inside one `forEach` each rebuild the array from the same captured snapshot, so under React only the last result would survive. The model appends once per call.
- Floating-point display: `toFixed` and progress bars are not modelled; win rates are exact ratios.
- Form parsing: `parseInt` is the parameter `parse`, so NaN from invalid text is not modelled. The round-trip lemmas assume `parse(show(n)) == n`.
- Login is modelled synchronously; its `Promise` wrapper is dropped.
- The role gate on the results dialog (`hasRole(['judge', 'admin'])`) is presentation around `HandleSubmitResults` and is not modelled. `Auth.HasRole` states the rule itself.
- `penalties` and `notes` are stored as the row's strings (`Some("")` when left blank), which is what the page passes to `addResult`.
- The plain counts at src/components/Statistics/StatisticsDashboard.tsx:12-15 (number of races, horses, completed and upcoming races) are lengths and are not modelled separately. `Store.RacesWithStatus` gives the filtered lists.
- JSX, toasts, dialogs, icons, the login form, contact page, navbar, app shell, home and not-found pages are presentation and are not modelled.
