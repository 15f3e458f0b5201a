# ModelYard in Dafny

ModelYard is a gateway and a control plane for AI model providers. Workspaces get virtual keys; the gateway
routes a request of a key to a provider connection, checks budgets before and charges usage after it, and
inspects prompts; the control plane keeps a catalog of models, alerts, reports and exports. This project
models the parts of it whose behaviour is not plain from reading one function, and proves what they promise.

| file | what it models |
|---|---|
| CatalogSpec.dfy, CatalogRepair.dfy | the start-up repair of the workspace model catalog, as one transaction over three tables: what it must leave behind, what follows from that, and the imperative repair itself |
| Routing.dfy, Conflicts.dfy, Readiness.dfy | which models a connection serves, how a request is routed, the static analysis that predicts ambiguous models, and the lists of ready models in the gateway and the control plane |
| Budget.dfy | which usage counts towards a policy, summaries, and concurrent requests against a budget |
| Pricing.dfy, RequestEstimation.dfy | token pricing, and the estimate that a request is admitted with |
| Alerts.dfy | dedupe keys and the life of budget alerts |
| Forecast.dfy | the usage ledger and the daily aggregates written with it |
| Calendar.dfy, Scheduler.dfy | the calendar, budget periods, scheduled reports, claims and triggers |
| ExportQueue.dfy | the export queue with several workers, and the pruning of files |
| ContextStore.dfy, TextWalk.dfy, PhraseHits.dfy | prompt inspection: recent events, the budgeted walk over a request, phrase hits |
| CredentialCache.dfy | the cache of decrypted provider credentials |
| Shared.dfy | common types, normalisation of names, filtering, the key order of a JavaScript Map |

Conventions. A database table is a map by id, or a sequence when rows are only appended; a transaction is one
step or one method. Money is in integer micro-dollars, since the code rounds to six decimals; rates are reals.
Times are integers; a clock does not go back, but times that were read from it may be used out of order. Trimming and lower-casing work on ASCII characters.
Functions that the model cannot see into are parameters: decryption, text normalisation for phrases, the
collation of rule ids, the escaping of JSON strings, the calendar text of a date in the ledger.

Where the code does less than one might expect, a lemma or a method shows it with a concrete input, and
another states exactly when it does what is wanted:

- The estimate that a request is admitted with can be too low for the built-in Anthropic prices, because cache
  writes cost more than input (`Pricing.CacheWritesExceedEstimate`, `Pricing.DominanceExact`).
- Budgets can be taken over their limits: by requests at the same time (`BudgetRuns.TwoRequestsReachBound`), and by
  one request that costs more than its estimate, since a charge is not compared with it
  (`BudgetRuns.OneRequestOverspends`). For given bounds on estimates, on requests at a time and on what they cost
  beyond their estimates, `BudgetRuns.LimitHoldsExactly` says exactly when the limit holds, and
  `BudgetRuns.BoundReached` how far it can be exceeded. At prices that meet the condition above, no usage within the
  estimated tokens costs more than its estimate.
- An exact-model conflict leaves prefix matches out, so its resolution need not be that of selection
  (`ConflictExample.ResolutionDiffers`, `Conflicts.ExactModelPredictsSelection`).
- Two export workers can delete the file of a completed job (`ExportQueue.TwoWorkersLoseFile`), and one alone
  cannot (`ExportQueue.FilesStayExactly`).
- The alert of a missing price stays open when it is resolved with other spaces around the model or another
  spelling of the provider, although its key ignores them (`AlertTables.PaddedModelStaysOpen`,
  `AlertTables.PricingResolvedExactly`).
- The credential cache serves a value decrypted with an earlier encryption key until it expires
  (`CredentialCache.ServeAfterKeyChange`, `CredentialCache.ServedOwnExactly`).
- Two manual triggers within 15 seconds can both make a job when an event has set the last run back between them
  (`Scheduler.TriggerAroundEventExample`, `Scheduler.SpacedExactly`).
- An alert whose policy has been patched is not closed any more when its limit is no longer reached
  (`AlertTables.AlertTable.PatchAndRefresh`, `AlertTables.AlertTable.RefreshBudgetAlerts`).
- A blank key stops the trimming of the context store (`ContextStores.TouchBounded`). Ids of virtual keys are
  never blank.
- Forecast keys of dimensions with colons can collide (`Forecast.ColonsCollide`, `Forecast.RowSharedExactly`).
- A key whose environment differs from that of its bound environment is charged to other policies than those it is
  checked against (`Budgets.CountsWhereApplies`).

## Model

| member | source | states |
|---|---|---|
| CatalogSpec.AccessPreserved | packages/database/src/index.ts:738-1009 | A workspace assigned to a row before the repair is assigned after it to a row of the same organization, protocol and model for every source of that row: its own, or for a legacy row each candidate |
| CatalogSpec.AccessNotInvented | packages/database/src/index.ts:738-1009 | An assignment after the repair goes back to one of the same workspace and family before it, or is to an active discovered source of the workspace's own organization that no row asked for |
| CatalogSpec.FamiliesPreserved | packages/database/src/index.ts:738-1009 | Every (organization, protocol, model) present before a repair that does not throw is present after it |
| CatalogSpec.DiscoveredSourcesCovered | packages/database/src/index.ts:901-953 | Every active discovered source ends with exactly one row, listed in the mapping table |
| CatalogSpec.NoLegacyRowsLeft | packages/database/src/index.ts:738-743 | With non-empty connection labels, no row of a repaired catalog is legacy |
| CatalogSpec.SettledKeys | packages/database/src/index.ts:864-881 | In a catalog without legacy rows, the keys that rows ask for and the keys that rows have are the same, for rows and for access |
| CatalogSpec.RowsStable | packages/database/src/index.ts:639-1040 | A second repair leaves the rows of the first one as they are, given non-empty connection labels |
| CatalogSpec.RepairIdempotent | packages/database/src/index.ts:639-1040 | With non-empty connection labels, a second repair changes no row, no assignment and no mapping |
| CatalogSpec.EmptyLabelBreaksIdempotence | packages/database/src/index.ts:738-743 | A concrete catalog in which an empty connection label makes a second repair change the rows; the input schema asks for two characters (packages/contracts/src/index.ts, line 1032) |
| CatalogRepair.CatalogDatabase.Repair | packages/database/src/index.ts:639-1040 | Without the unique index of an earlier repair, the repair fails, with every table as before, exactly when some legacy row has no candidate; otherwise the result meets the whole specification of a repaired catalog: sources everywhere, unique keys, exact keys, exact access, kept and explained rows, exact mapping |
| CatalogRepair.CatalogDatabase.FillSources | packages/database/src/index.ts:745-862 | All legacy rows are filled with their first candidate and copied once for each further one, with their assignments; fails exactly when a row has no candidate |
| CatalogRepair.CatalogDatabase.FillRow | packages/database/src/index.ts:800-861 | One legacy row keeps its id and its first candidate, and each further candidate gets a copy with the same assignments |
| CatalogRepair.CatalogDatabase.InsertCopy | packages/database/src/index.ts:819-860 | One copy for one further candidate, with the assignments of the row |
| CatalogRepair.CollectCandidates | packages/database/src/index.ts:746-791 | The sorted candidates of a row are exactly its sources, in their order |
| CatalogRepair.SortCandidates | packages/database/src/index.ts:783-791 | Candidates are sorted by priority, age and id, and none is lost |
| CatalogRepair.CatalogDatabase.InsertDiscovered | packages/database/src/index.ts:901-953 | Every active discovered key has a row afterwards; old rows and assignments stay, and a new row is granted to all workspaces of its organization |
| CatalogRepair.CatalogDatabase.InsertDiscoveredOf | packages/database/src/index.ts:901-953 | The same for the models of one connection |
| CatalogRepair.CatalogDatabase.InsertDiscoveredRow | packages/database/src/index.ts:915-952 | One inserted row, for a key that no row has |
| CatalogRepair.CatalogDatabase.MergeDuplicates | packages/database/src/index.ts:976-1009 | Exactly the earliest row of each key is left, with the assignments of all rows of that key |
| CatalogRepair.CatalogDatabase.DeleteDuplicate | packages/database/src/index.ts:997-1009 | One duplicate hands its assignments to the earliest row and is deleted |
| CatalogRepair.FindWinners | packages/database/src/index.ts:979-996 | The canonical row of each row is the earliest of its key |
| CatalogRepair.MergedKeys | packages/database/src/index.ts:976-1009 | Merging makes keys unique and changes neither the set of keys nor anyone's access by key |
| CatalogRepair.FilledKeys | packages/database/src/index.ts:745-862 | After filling, the catalog has exactly the keys that its rows asked for |
| CatalogRepair.FilledAccess | packages/database/src/index.ts:850-860 | After filling, access by key is exactly what the old assignments carry |
| CatalogRepair.PhasesRepair | packages/database/src/index.ts:745-1019 | The four phases one after another meet the specification of a repaired catalog |
| Text.NormalFixed | packages/contracts/src/index.ts:2915-2917 | The normal forms are exactly the fixed points, so normalising twice changes nothing |
| Targets.CollectTokens | packages/contracts/src/index.ts:2905-2913 | Tokens are normal, not blank and distinct |
| Targets.GetTargets | packages/contracts/src/index.ts:3041-3060 | Exact names and prefixes of a connection are normal tokens |
| Selection.SelectionOrderIrrelevant | packages/contracts/src/index.ts:3279-3429 | The outcome and the chosen provider do not depend on the order of providers with distinct ids; candidate lists agree up to order |
| Selection.AmbiguousNeedsDefault | packages/contracts/src/index.ts:3356-3396 | Without hints, a model that several candidates match is routed exactly when one of them is a default, and to that one |
| Conflicts.AnalyzeConflicts | packages/contracts/src/index.ts:3125-3277 | The report lists each warranted conflict once and nothing else, in order of resolution and kind, and without manual pricing rules it is empty exactly when no model is matched by two candidates |
| Conflicts.AnalysisExact | packages/contracts/src/index.ts:3125-3277 | For providers with distinct ids and no manual pricing rules, an exact report is empty if and only if no model name is matched by two protocol candidates |
| Conflicts.WarrantedIsAmbiguous | packages/contracts/src/index.ts:3192-3258 | Each warranted conflict, of any of the three kinds, gives a model that two candidates match |
| Conflicts.AmbiguousIsWarranted | packages/contracts/src/index.ts:3084-3104 | Each model that two candidates match, by name or by prefix, is behind a warranted conflict |
| Conflicts.OverlapIsAmbiguous | packages/contracts/src/index.ts:3227-3257 | The longer of two comparable prefixes is itself a model that both owners match |
| Conflicts.SharedPrefixWarranted | packages/contracts/src/index.ts:3228-3239 | Comparable prefixes of two providers warrant an overlap at the longer one |
| Conflicts.ExactVsPrefixComplete | packages/contracts/src/index.ts:3202-3216 | An exact-versus-prefix conflict lists exactly the candidates that match its sample model |
| Conflicts.ExactVsPrefixPredictsSelection | packages/contracts/src/index.ts:3168 | An exact-versus-prefix conflict is resolved by a default if and only if unhinted selection of its model succeeds, with that default |
| Conflicts.ExactModelPredictsSelection | packages/contracts/src/index.ts:3193-3200 | An exact-model conflict leaves prefix matches out, so its resolution agrees with selection if and only if no default matches by prefix, or two match by name, or none by name and two by prefix; where both succeed, they have the same default |
| ConflictExample.ResolutionDiffers | packages/contracts/src/index.ts:3193-3200 | Three providers for which the conflict counts as resolved and the request is refused, or the other way around without the mark on one of them |
| Conflicts.SameKeySameConflict | packages/contracts/src/index.ts:3158 | Conflicts of different kind or token have different map keys, so none overwrites another |
| Conflicts.AloneNoConflict | packages/contracts/src/index.ts:3132-3134 | A single candidate warrants no conflict, so the early return loses nothing |
| Conflicts.CollectOwners | packages/contracts/src/index.ts:3175-3185 | The table of owners holds, for each exact name, the providers with that name in order |
| Conflicts.AddConflict | packages/contracts/src/index.ts:3141-3170 | A conflict of at least two providers is recorded under its key; others are not |
| Conflicts.AnalyzeNames | packages/contracts/src/index.ts:3192-3225 | The two checks over all exact names record exactly the warranted conflicts of these kinds |
| Conflicts.AnalyzePrefixes | packages/contracts/src/index.ts:3227-3258 | The check over all prefixes records exactly the warranted overlaps |
| Conflicts.SortConflicts | packages/contracts/src/index.ts:3260-3276 | Sorting keeps every conflict once and puts ambiguous ones first, then exact names before prefixes |
| Conflicts.ReportComplete | packages/contracts/src/index.ts:3139-3170 | A map that records exactly the warranted conflicts gives an exact report |
| Readiness.ListedModelRoutes | apps/gateway/src/routes.ts:1245-1303 | A request without hints is routed exactly when its model is listed, up to case and space, and then to a provider that supports the protocol, matches the model and has a price; no ambiguity and no missing price can surface |
| Readiness.ListedExactly | apps/gateway/src/routes.ts:165-198 | The gateway lists a model exactly when it has one priced match, or exactly one default among its priced matches |
| Readiness.ControlPlaneAgrees | apps/control-api/src/workspace-model-catalog.ts:17-94 | The control plane calls a model ready under exactly the condition under which the gateway lists it, and its other labels say which part of the condition fails |
| Readiness.SelectionAmongPriced | apps/gateway/src/routes.ts:1293-1302 | Among priced matches, unhinted selection succeeds exactly when there is one, or one default, and picks a priced match |
| Readiness.OnlyNormalNameMatters | packages/contracts/src/index.ts:699-724 | Matching and pricing depend on the normalised name only |
| Budgets.AppliedEqualsReread | apps/gateway/src/routes.ts:545-557 | Folding costs into a summary one by one gives the summary that is created from the new total |
| Budgets.CountsWhereApplies | packages/database/src/index.ts:1254-1279 | A key's usage counts towards exactly the active policies that apply to its scope, if and only if its environment is the runtime of the environment it is bound to |
| Budgets.SumUsageAppend | packages/database/src/index.ts:4916-4957 | An appended event raises the sum of a policy by its cost exactly if it counts and lies in the period |
| Budgets.ChargeEqualsReread | packages/database/src/index.ts:5034-5054 | For a settled key, the summary adjusted in memory after a charge is the one that a fresh read gives, for the policies that apply, and no other summary changes |
| Budgets.PassesExactly | apps/gateway/src/routes.ts:1391-1433 | A summary lets a request pass exactly when the limit is not reached and the estimate fits under it |
| BudgetRuns.SpendBounded | apps/gateway/src/routes.ts:1330-1616 | In every reachable state of concurrent requests of settled keys, spend plus what admitted requests may still cost is, for a policy, at most the larger of the limit and what was spent at the start, plus D, plus (K-1) * (min(E, limit) + D), for K requests at a time, estimates up to E, and costs up to D beyond the estimate; with E = 0 and D > 0 it is one less, and a limit of zero is never exceeded; the same holds for the spend of every past period, also when a request reads the sum of a period that has ended |
| BudgetRuns.LimitHoldsExactly | apps/gateway/src/routes.ts:1330-1616 | From any start, no run takes a policy over its limit, or over what was spent at the start, if and only if the limit is zero, or requests come one at a time and never cost more than their estimates, or estimates are zero and K * D is at most one micro-dollar |
| BudgetRuns.BoundReached | apps/gateway/src/routes.ts:1330-1616 | For every limit above zero, and all E, K and D that let requests cost anything, some run from any start spends the whole bound |
| BudgetRuns.SequentialOverrun | apps/gateway/src/routes.ts:1544-1616 | With one request at a time, spend exceeds the limit by at most what a request may cost beyond its estimate, from any start within the limit |
| BudgetRuns.OneRequestOverspends | apps/gateway/src/routes.ts:1330-1616 | Whenever a usage costs more than its estimate, one request at a time with this usage passes a limit of just the estimate and spends the whole cost |
| BudgetRuns.TwoRequestsReachBound | apps/gateway/src/routes.ts:1330-1616 | For every limit, a run of two requests at a time spends twice the limit, from any start, although neither costs more than its estimate |
| BudgetRuns.StepKeepsInv | apps/gateway/src/routes.ts:1330-1616 | Every step of a run, charges beyond the estimate included, keeps the bound for every policy |
| Pricing.EstimateDominates | apps/gateway/src/pricing.ts:144-236 | For estimates of at least 24 prompt tokens and one of output: if reported tokens stay within the estimate, caches are part of the prompt, long contexts are no cheaper, and caches are no dearer than input where usage and estimate have the same rates, then the rounded cost is at most the rounded estimate, across the threshold |
| Pricing.EstimateDominatesExactly | apps/gateway/src/pricing.ts:144-221 | The same before rounding |
| Pricing.DominanceExact | apps/gateway/src/pricing.ts:144-221 | Over all estimates that a request can have, an estimate is never too low before rounding if and only if no cache rate is above the input rate at the rates of the least estimate and of the least long one, output is no cheaper in long contexts, and the longest short prompt at its dearest rate, with one token of output, is no dearer than the shortest long estimate |
| Pricing.ChargeDominanceExact | apps/gateway/src/pricing.ts:188-236 | Without long-context rates, over all estimates that a request can have, rounded charges stay within rounded estimates if and only if no cache rate is above the input rate |
| Pricing.CacheWritesExceedEstimate | packages/contracts/src/index.ts:394-404 | The built-in price of claude-opus-4-1 does not meet the condition: 1000 tokens written to the cache and one answered cost 18825 micro-dollars against an estimate of 15075 |
| Pricing.BaseCompletesPrompt | apps/gateway/src/pricing.ts:198-205 | Base and cache tokens make up the prompt exactly when the caches do not exceed it |
| Pricing.RoundedMonotone | apps/gateway/src/pricing.ts:226 | Rounding to six decimals keeps order, and a difference of a micro-dollar survives it |
| Pricing.DominanceNeedsCheapCaches | apps/gateway/src/pricing.ts:207-214 | If no estimate is too low, the cache rates at which a prompt of 24 tokens or more is estimated are at most the input rate |
| Pricing.DominanceNeedsDearOutput | apps/gateway/src/pricing.ts:166-186 | If no estimate is too low, long-context output is at least as dear as short-context output |
| Pricing.DominanceNeedsDearPrompts | apps/gateway/src/pricing.ts:166-186 | If no estimate is too low, the longest short prompt is no dearer than the shortest long estimate, at the dearest of its rates |
| RequestEstimation.EstimatePromptTokens | apps/gateway/src/request-estimation.ts:92-99 | For a JSON text that is at least as long as its structure and escaped strings, the estimate is a quarter of its length, rounded up, and at least 24; the walk over the strings never makes a difference |
| RequestEstimation.EstimatesEstimable | apps/gateway/src/request-estimation.ts:92-126 | Every estimate has at least 24 prompt tokens and one of output |
| RequestEstimation.Fragments.Collect | apps/gateway/src/request-estimation.ts:28-65 | The strings that the walk collects never take more room than the JSON text of the value |
| RequestEstimation.CompletionEstimatePositive | apps/gateway/src/request-estimation.ts:101-126 | With a positive cap in the request, the estimate is at least one token, and it is the first positive cap exactly when that cap is at least one |
| RequestEstimation.FirstGivenAt | apps/gateway/src/request-estimation.ts:67-86 | The first positive field wins, even when it is truncated to zero |
| RequestEstimation.ChargeWithinEstimate | apps/gateway/src/request-estimation.ts:128-149 | At prices that meet the condition, what a provider reports within the estimated tokens costs no more than the estimate of the request |
| AlertKeys.KeysIdentify | packages/database/src/index.ts:1196-1238 | Keys are equal exactly for the same policy, kind and period, or model and provider up to case and surrounding space; models may contain the separator |
| AlertKeys.KeyMissing | packages/database/src/index.ts:1203-1236 | A key cannot be built exactly when a segment that its kind needs is missing |
| AlertKeys.LimitKeysDiffer | packages/database/src/index.ts:1231-1236 | Keys of limits are equal only for the same policy, limit and period, and never equal a seed key |
| AlertKeys.SeedKeysDiffer | packages/database/src/index.ts:8019-8024 | Seed keys are equal only for the same policy, limit and period |
| AlertTables.AlertTable.Upsert | packages/database/src/index.ts:7997-8117 | For every input, exactly one row is opened: the one with the key, else the one with the seed key of the same alert, else a new one; a reopened row keeps its workspace and the metadata that the input does not replace; the seed row of an existing alert is resolved and every other row is unchanged; keys stay unique and an alert is open exactly when it has no resolved time; rows stay recognisable if the input is about what its key says |
| AlertTables.AlertTable.Supersede | packages/database/src/index.ts:8038-8054 | The seed row of an alert that has its own row is resolved and keeps its first resolved time |
| AlertTables.AlertTable.Update | packages/database/src/index.ts:8137-8166 | A status or metadata update changes one row and keeps keys unique and open rows without resolved time; it keeps rows recognisable unless the patch changes policy or period |
| AlertTables.AlertTable.Sync | packages/database/src/index.ts:8214-8252 | A sync resolves exactly the listed open alerts that the summary no longer supports, all of them when the policy is gone or inactive, and returns their number |
| AlertTables.AlertTable.ResolvePricingUnavailable | packages/database/src/index.ts:8254-8278 | Exactly the open alerts for a missing price of this policy, provider and model are resolved |
| AlertTables.AlertTable.UpsertPricingUnavailable | apps/gateway/src/routes.ts:692-736 | The alert of a missing price is opened under its key, or nothing happens without a provider or a model; it is then resolved for exactly the same text of the provider and the same model up to case |
| AlertTables.PricingResolvedExactly | packages/database/src/index.ts:8254-8278 | Resolving closes only what has its key; it misses an alert of its key exactly when the provider was written differently or the model has other spaces around it, although the key ignores both |
| AlertTables.PaddedModelStaysOpen | packages/database/src/index.ts:1204-1216 | Any model with a space before it has the key of the model without, and is not resolved with it |
| AlertTables.AlertTable.RefreshBudgetAlerts | apps/gateway/src/routes.ts:1602-1617 | After a sync followed by the threshold upsert, on any table, the current alert of each limit is open if and only if the limit is reached or an open alert under its key was out of date for no policy of the list; if the rows under the keys of the limits say what their keys say, it is open if and only if the limit is reached; no open alert of these policies belongs to another month |
| AlertTables.AlertTable.PatchAndRefresh | packages/database/src/index.ts:8137-8166 | An open alert of a limit whose policy is patched to anything else stays open in a refresh, whether the limit is reached or not |
| AlertTables.PatchedSurvives | packages/database/src/index.ts:8214-8252 | Such an alert is closed by no summary of any list that does not hold the other policy |
| AlertTables.RecognisedReached | packages/database/src/index.ts:8186-8212 | An open alert under the key of a limit that says what the key says is left open by the syncs only if the limit is reached |
| AlertTables.AlertTable.UpsertThresholdAlerts | apps/gateway/src/routes.ts:559-637 | Afterwards the alert of each limit of the list is open if and only if the limit is reached or the alert was open; nothing of another period opens |
| AlertTables.AlertTable.UpsertThresholds | apps/gateway/src/routes.ts:573-635 | The same for one policy, and no limit of another policy is touched |
| AlertTables.LimitOpened | packages/database/src/index.ts:7997-8117 | Opening the alert of one limit opens or closes no other limit's alert and opens nothing of another period |
| AlertTables.CanonicalConsistent | packages/database/src/index.ts:8056-8083 | The row of a seed key, once renamed, is in the workspace of the policy of its new key |
| Forecast.UsageStore.Append | packages/database/src/index.ts:5595-5956 | An append adds one event and one ledger entry of equal cost and tokens; the forecast stays the ledger grouped by key, with count, sums, first and last time; and mappings stay what the last entry of each provider and model says |
| Forecast.GroupsAppend | packages/database/src/index.ts:5875-5933 | One more entry makes or adds to its own forecast row and changes no other |
| Forecast.AddedSummarises | packages/database/src/index.ts:5923-5931 | Adding to a row gives the count, sums, earliest and latest time of the larger group |
| Forecast.RemembersAppend | packages/database/src/index.ts:5632-5661 | One more entry keeps mappings equal to the last entry of each provider and model |
| Forecast.DimensionKeyInjective | packages/database/src/index.ts:5895-5905 | Among dimensions without colons, but for the model, and without the word for a missing part, the key tells dimensions apart |
| Forecast.GroupedByDimensions | packages/database/src/index.ts:5895-5905 | For such dimensions, grouping by key is grouping by dimensions |
| Forecast.ColonsCollide | packages/database/src/index.ts:5895-5905 | Wherever an owner has a colon, its rows are those of a shorter owner and a longer model, for all texts before and after it |
| Forecast.RowSharedExactly | packages/database/src/index.ts:5875-5933 | With the other parts plain, dimensions as an append makes them share their row with another owner if and only if owner and model, joined, can also be parted at another colon into a trimmed owner and a trimmed lower-case model, or the owner is missing or the word for a missing one |
| Forecast.PlainNotShared | packages/database/src/index.ts:5875-5933 | In particular, an owner and a model without colons share their row with no other owner, unless the owner is the word for a missing one |
| Forecast.PartsMade | packages/database/src/index.ts:5619-5627 | The owners and models that an append makes are exactly the trimmed texts, models in lower case |
| Calendar.CivilOfNumber | packages/database/src/index.ts:6958-6973 | The date of a day number is a valid date with that number |
| Calendar.CivilUnique | packages/database/src/index.ts:6958-6973 | A valid date is the only one with its day number |
| Calendar.AddMonthAdds | packages/database/src/index.ts:6971 | A month step adds as many days as the month has, 28 to 31, with the day of the month carrying over |
| Calendar.AddDaysAdds | packages/database/src/index.ts:6961-6969 | A day or week step adds exactly 1 or 7 days |
| Calendar.PeriodsTile | packages/database/src/index.ts:1180-1188 | Budget periods tile time: an instant lies in its own period and in no other |
| Calendar.PeriodKeysDiffer | packages/database/src/index.ts:1180-1188 | Different months have different period keys, and no key is blank or has a colon |
| Scheduler.NextRunLater | packages/database/src/index.ts:6958-6973 | Every cadence moves the next run at least a day past the given time |
| Scheduler.ReportStore.ClaimNextDue | packages/database/src/index.ts:7463-7520 | Whatever time it has read, a claim takes the report that is due for longest among those that no one else holds, moves it past that time and makes one job; it returns nothing only if no other is due; the new run is the latest exactly when no job of the report was asked for after it |
| Scheduler.ReportStore.DrainDueReports | packages/export-jobs/src/index.ts:1018-1044 | However the clock moves on, the drain makes exactly one job per claim, leaves unclaimed reports alone, and ends with no report due, other than held ones, unless it was told to stop; if the clock moves by less than a day meanwhile, it claims no report twice, and without a stop each report that was due at its start and is not held at its end |
| Scheduler.ReportStore.Trigger | packages/database/src/index.ts:7522-7604 | A manual trigger makes a job exactly when the last run is more than 15 seconds before it; if the last run was the latest, no job of the report was then asked for within these 15 seconds or later, and the new run is the latest; otherwise it returns a reusable job and changes nothing |
| Scheduler.SpacedExactly | packages/database/src/index.ts:7536-7552 | Jobs that are made by hand are 15 seconds apart from all earlier ones, at whatever time, if and only if no job of the report was asked for after its last run |
| Scheduler.TriggerAroundEvent | packages/database/src/index.ts:7680-7783 | An event that read the clock before a manual trigger and gets hold of the report after it sets the last run back, so a second manual trigger within 15 seconds of the first makes a job, for all such times |
| Scheduler.TriggerAroundEventExample | packages/database/src/index.ts:7680-7783 | The same for an event at 0 and triggers at 1000 and 15500 milliseconds |
| Scheduler.ReportStore.SetActive | packages/database/src/index.ts:7814-7968 | Starting, finishing or putting back a job changes no schedule, and keeps the runs of every report recorded |
| Scheduler.ReportStore.TriggerByEvent | packages/database/src/index.ts:7723-7783 | Whatever time it has read, an event makes a job at once, records the run and leaves the schedule alone; the run is the latest exactly when no job of the report was asked for after it |
| Scheduler.ReportStore.UpdateCadence | packages/database/src/index.ts:7408-7461 | A new cadence puts the next run at least a day off, even of a report that was due |
| Scheduler.ReportStore.FindReusable | packages/database/src/index.ts:7305-7336 | A job is found exactly if the report has an unfinished or recent one |
| Scheduler.LastJobReusable | packages/database/src/index.ts:7538-7551 | If the last run lies within the window, its job can be reused |
| ExportQueue.AttemptsBounded | packages/database/src/index.ts:7814-7968 | For any number of workers, a job is attempted at most once more than it was recovered and retried, at most that often while pending, and a completed job has its object key |
| ExportQueue.StepKeepsGoodJobs | packages/database/src/index.ts:7814-7968 | Every step keeps the bound on attempts and the key of completed jobs, although completing and failing ignore the current status |
| ExportQueue.OneWorkerKeepsFiles | packages/export-jobs/src/index.ts:978-1085 | With at most one worker, the file of every completed job is on disk after every step of every run |
| ExportQueue.FilesStayExactly | packages/export-jobs/src/index.ts:588-627 | No run of a set of workers, with a set of managed names, ever loses the file of a completed job if and only if there is at most one worker or no managed name |
| ExportQueue.TwoWorkersLoseFile | packages/export-jobs/src/index.ts:588-627 | For any two workers, in any set of workers, and any managed name, a run in which the file of a completed job is deleted |
| ExportQueue.StepKeepsFiles | packages/export-jobs/src/index.ts:978-1085 | Every undisturbed step keeps the files of completed jobs |
| ExportFiles.ExportsDirectory.PruneOrphanedExportFiles | packages/export-jobs/src/index.ts:588-627 | Exactly the managed files of the listing that no key refers to are deleted, and both counts are right |
| ExportFiles.ObjectKeyProtects | packages/export-jobs/src/index.ts:584-586 | The key of a job's file is a managed name and its own base name |
| ContextWindow.BufferedWindow | apps/gateway/src/prompt-inspection.ts:318-343 | What a window sees of the buffered events is the end, at most 64 events, of what it sees of the whole history |
| ContextWindow.BufferedAgain | apps/gateway/src/prompt-inspection.ts:324-329 | Buffering again later is buffering the whole history then |
| ContextWindow.BufferedAppend | apps/gateway/src/prompt-inspection.ts:351-362 | Appending to the buffer is appending to the history and buffering that |
| ContextWindow.BufferedCountAtMost | apps/gateway/src/prompt-inspection.ts:331-342 | A buffered count is never above the exact one, and equal to it exactly when at most 64 events fall in the window or none that answers was pushed out |
| ContextWindow.CountsFromBuffer | apps/gateway/src/prompt-inspection.ts:318-343 | The four counts are each over the last 64 events of their window, and exact when at most 64 events fall in a day |
| ContextWindow.WithinOfLast | apps/gateway/src/prompt-inspection.ts:324-329 | In time order, keeping the last events and restricting to a window commute |
| ContextStores.ContextStore.LoadContextCounts | apps/gateway/src/prompt-inspection.ts:318-343 | The counts returned are the counts over the last 64 events of each window of the key's history since its last eviction; the key becomes the most recently touched |
| ContextStores.ContextStore.RecordContext | apps/gateway/src/prompt-inspection.ts:345-365 | One event is appended to the history that the buffer stands for; other keys that stay keep theirs |
| ContextStores.ContextStore.SetContextBucket | apps/gateway/src/prompt-inspection.ts:310-316 | A written key goes last; keys that go were touched before all keys that stay |
| ContextStores.ContextStore.TrimContextStore | apps/gateway/src/prompt-inspection.ts:300-308 | The oldest keys go while there are too many; a blank key ends the deleting |
| ContextStores.TouchBounded | apps/gateway/src/prompt-inspection.ts:300-316 | From a store within 2048 keys, a touch leaves it within them exactly when the key was there, or the store was not full, or its oldest key is not blank |
| ContextStores.TouchNew | apps/gateway/src/prompt-inspection.ts:300-316 | Touching a new key evicts exactly the oldest key of a full store, if that is not blank |
| ContextStores.TouchNumbers | apps/gateway/src/prompt-inspection.ts:300-316 | The order of the keys is the order of their last touches, and evicted keys have the lowest |
| KeyOrder.TrimmedWithinLimit | apps/gateway/src/prompt-inspection.ts:300-308 | The limit holds after trimming exactly when no key that has to go is blank |
| TextWalk.VisibleText | apps/gateway/src/prompt-inspection.ts:130-191 | The walk reports truncation exactly when the value is too deep, has too many nodes or too much text; without truncation its parts are exactly the pre-order list of visible strings; the parts stay within 16384 characters and are, joined, a beginning of the text that is not too deep |
| TextWalk.TextBudget.Collect | apps/gateway/src/prompt-inspection.ts:130-191 | From any budget: truncation is reported exactly when the value does not fit; what fits is added completely, and otherwise a beginning of it; bytes equals the total length of the parts and visited stays at most 256 |
| TextWalk.TextBudget.CollectChildren | apps/gateway/src/prompt-inspection.ts:168-190 | The same for the members of an array or an object, whose strings may not fill the budget up |
| TextWalk.FitsFirst | apps/gateway/src/prompt-inspection.ts:168-190 | Members fit exactly when the first fits without filling the budget and the others fit in the remainder |
| TextWalk.ReachableIsVisible | apps/gateway/src/prompt-inspection.ts:137-140 | In a value that is not too deep, all visible text is reachable |
| TextWalk.SizeIsLength | apps/gateway/src/prompt-inspection.ts:145-163 | The size of a value is the total length of its visible strings |
| PhraseHits.MatchPhraseRules | apps/gateway/src/prompt-inspection.ts:371-419 | Every kept hit is the first occurrence of a phrase of an enabled rule; every genuine hit is covered by a kept one of its category that sorts no later; no kept hit covers another |
| PhraseHits.KeptAntichain | apps/gateway/src/prompt-inspection.ts:410-418 | No kept hit covers another kept hit of its category, although the filter also compares with dropped hits |
| PhraseHits.KeptCovers | apps/gateway/src/prompt-inspection.ts:404-418 | Every hit is covered by a kept one that is wider, or as wide and at least as heavy |
| PhraseHits.KeptAreMaximal | apps/gateway/src/prompt-inspection.ts:404-418 | A range is kept for a category exactly when no wider hit of the category covers it |
| PhraseHits.IndexFrom | apps/gateway/src/prompt-inspection.ts:384 | The index is that of the first occurrence |
| PhraseHits.DedupeHits | apps/gateway/src/prompt-inspection.ts:564-580 | Kept hits have distinct rules and ranges, cover every rule and range of the input with the most severe of its hits, and are in order |
| Thinning.CoveredByKept | apps/gateway/src/prompt-inspection.ts:410-418 | Every element is covered by one that is kept and stands no later |
| CredentialCache.ProviderCredentialCache.Get | apps/gateway/src/provider-credentials-cache.ts:43-69 | A hit returns an unexpired cached value and a miss the decryption, whose success is cached and whose failure is not; the new contents are exact; if calls with one cache key agree on candidate and encryption key, every result equals direct decryption; at most 512 entries are left |
| CredentialCache.ProviderCredentialCache.EvictExpiredEntries | apps/gateway/src/provider-credentials-cache.ts:22-30 | Exactly the unexpired entries are left, in their order, although entries are deleted during the walk |
| CredentialCache.ProviderCredentialCache.EnforceCacheLimit | apps/gateway/src/provider-credentials-cache.ts:32-41 | The newest 512 entries are left |
| CredentialCache.ProviderCredentialCache.Store | apps/gateway/src/provider-credentials-cache.ts:60-66 | A new entry goes last, at the cost of the oldest one when the cache is full |
| CredentialCache.CacheKeyInjective | apps/gateway/src/provider-credentials-cache.ts:18-20 | The key string is equal exactly for equal id, timestamp and ciphertext, when ids have no colon and timestamps one length |
| CredentialCache.OneKeyConsistent | apps/gateway/src/provider-credentials-cache.ts:18-20 | One encryption key, and candidates that id, timestamp and ciphertext determine, make calls agree |
| CredentialCache.ServedConsistently | apps/gateway/src/provider-credentials-cache.ts:53-57 | Among calls that agree, a cached value is the decryption of the last call's own candidate |
| CredentialCache.ServeAfterKeyChange | apps/gateway/src/provider-credentials-cache.ts:43-69 | The cache key leaves the encryption key out: until expiry, a call with another encryption key gets the old decryption, and after it a new one |
| CredentialCache.ServedOwnExactly | apps/gateway/src/provider-credentials-cache.ts:18-69 | For every set of requests, each a candidate with an encryption key: all calls get their own decryption, for every decryption function and all runs and times, if and only if different requests have different cache keys |
| CredentialCache.CallSound | apps/gateway/src/provider-credentials-cache.ts:43-69 | A call keeps keys distinct, entries at most 512 and each entry explained by an earlier call, and among calls that agree it gets its own decryption |
| Scheduler.ReportStore.Create | packages/database/src/index.ts:7351-7371 | A new report is due at once, and stays due until it is claimed |
| Scheduler.CreateAndDrain | packages/export-jobs/src/index.ts:1018-1044 | The drain that follows the making of a report claims it if no one else holds it, it is allowed one claim for each report and takes less than a day |
| Scheduler.ReportStore.RunReport | packages/database/src/index.ts:7479-7518 | A run records its time and makes one job, and the jobs of every report stay recorded up to its last run |
| AlertTables.AlertTable.UpsertLimit | apps/gateway/src/routes.ts:576-635 | The alert of one limit is open afterwards, under the key that the key builder gives, and no other limit's alert has changed |

## Left out

- HTTP handling, streaming, headers, authentication, sessions, roles and audit logs: they move data around what is modelled here.
- The web admin, the desktop shell, demo data and production scripts: user interface and configuration.
- SQL as text, JSON parsing, Zod schemas and row mapping: statements are modelled by what they do to tables, and model configurations and prices are given as parsed.
- Encryption, hashing and random tokens: decryption is a function that may fail; nothing is said about its strength.
- Unicode: trimming, lower-casing and NFKC normalisation beyond ASCII, and string lengths in UTF-16 units; strings are sequences of characters.
- Locale-dependent orders: the collation of ids is a parameter in PhraseHits and left out where it only orders a display, as in the candidate lists and the last sort key of routing conflicts.
- Keys that the source joins from ids with separators are tuples in the catalog repair and the conflict map; alert keys, cache keys, mapping keys and forecast keys are modelled as text.
- Floating-point noise in sums and products of dollars before rounding, and the widths of integer and numeric columns.
- Fractions of a millisecond: a database time that is copied through a JavaScript date keeps its value in the model.
- Different clocks: the database and all processes read one clock. In Scheduler, the time at which a job's row is written may be later than the time at which it was asked for, and spacing is about the latter.
- Changes of policies, prices and limits while requests are under way.
- Price snapshots of ledger entries, and the pricing columns copied from them.
- Titles and bodies of alerts, reports triggered by alerts, and the order in which evidence lists policies.
- Cascades other than those of a deleted catalog row, and jobs or reports that are deleted.
- Cooldowns and scopes of event triggers: the model makes the job of a report that has been found to match.
- markExportJobRunning (packages/database/src/index.ts:7899-7919): nothing calls it.
- Temporary files of a write in progress: their names are not managed, so pruning never touches them.
- The contents of exports, deliveries and follow-up reports of failed exports.
- Regular-expression, structural and co-occurrence rules of prompt inspection, evidence, redaction and scores; phrase hits carry ranges, weights and categories only.
- The timers of the export worker: its drain loop is modelled with its stop flag, but not what starts it.
- CatalogRepair.CatalogDatabase.Repair: the unique index that a repair ends with (packages/database/src/index.ts:1035-1038) is not part of the tables, so with an index from an earlier run and a row whose connection label is empty, the source may also throw on copying to an occupied key. The input schema asks for labels of two characters (packages/contracts/src/index.ts:1032), and then the index makes no difference: no row of a repaired catalog is legacy (CatalogSpec.NoLegacyRowsLeft). What an empty label would do without the index is shown by CatalogSpec.EmptyLabelBreaksIdempotence.
- BudgetRuns.SpendBounded: is about keys whose environment is that of their bound environment; other keys are charged to other policies than they are checked against (Budgets.CountsWhereApplies).
