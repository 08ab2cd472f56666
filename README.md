# BuildingAI service rules in Dafny

This project models the rule-bearing TypeScript and JavaScript core of the
BuildingAI platform (the FastbuildAI repository) and proves properties of it.
The platform is an AI-application server with a web console, an extension
CLI and membership billing. Each module models one source file:

- **Versions and identifiers.** `Versions` covers `BdVersion` validate, format and compare, range normalisation and the engine compatibility check. `ExtensionIdentifier` covers the npm-style identifier validator and its normalising transform. `CliExtension` covers the CLI's identifier rules, schema name, default display name, version pick and prompt loops.
- **Request parsing.** `RequestUtil` covers host and port normalisation, protocol selection, the client IP and extension ids in paths. `AuthGuard` covers bearer-token extraction and the guard's decision. `ThirdParty` covers the server-sent-event line buffer and the Dify and Coze event accumulation. `ToolCalls` covers the MCP tool-call outcomes.
- **Chat context.** `MessageContext` covers clearing reasoning content and the context window that keeps the system message. `AgentChat` covers the title, the quick command, the configuration merge and the message limit.
- **Membership and billing.** The modules are `Pay`, `MembershipGift`, `MembershipOrders`, `CreatePlans`, `MembershipValidation`, `ExtensionFeatures` and `MemberOnlyGuard`. They use `CivilDate`, the part of JavaScript's `Date` those services rely on, and `Records`, the database rows they read and write.
- **Small stateful tables.**
  - `StorageStore` is the storage-type cache of the upload package, a class.
  - `StorageConfigs` is the single-active storage-configuration update and the dictionary upsert.
  - `PayConfigMigration` is the 25.3.0 payment-configuration migration, both directions.
  - `UploadUtils` is `omit`.
- **Routing.** `RouteMiddleware` covers the web route middleware and the console comparator. `ExtensionMarket` covers the merged application list.

`Wrappers` holds `Option` and `Result`. `Text` holds the JavaScript string
built-ins the services use, stated on `seq<char>`. The model takes the
source's form:
- Pure helpers are functions with lemmas.
- Loops are methods with invariants, proved against a specification function. Examples: the read loop of the event stream, the padding loop of `format`, the prompt loops, the migration and the gift run.
- Objects whose fields change are classes. Examples: the storage store and the feature service with its caches.

Database, cache, HTTP, `JSON.parse` and the semver library are parameters of
the operations that use them.

## Model

| member | source | states |
|---|---|---|
| AgentChat.CheckResponseMode | packages/api/src/modules/ai/agent/services/ai-agent-chat.service.ts:80-82 | the call fails exactly in streaming mode without a response object, with that message |
| AgentChat.UserMessages | packages/api/src/modules/ai/agent/services/ai-agent-chat.service.ts:122 | the filtered list is no longer than the input and holds only user messages taken from it |
| AgentChat.LastUserIndex | packages/api/src/modules/ai/agent/services/ai-agent-chat.service.ts:122 | reference definition: the index of a user message after which no user message follows, or none when there is no user message |
| AgentChat.UserMessagesSnoc | packages/api/src/modules/ai/agent/services/ai-agent-chat.service.ts:122 | filtering an extended list extends the filtered list by the new message exactly when it is a user message |
| AgentChat.LastUserMessage | packages/api/src/modules/ai/agent/services/ai-agent-chat.service.ts:122 | the last message whose role is user, none when there is no such message (LastUserMessageAtIndex) |
| AgentChat.LastUserMessageAtIndex | packages/api/src/modules/ai/agent/services/ai-agent-chat.service.ts:122 | `filter(...).slice(-1)[0]` is the message at the last user index, and undefined when there is none |
| AgentChat.ApplyQuickCommand | packages/api/src/modules/ai/agent/services/ai-agent-chat.service.ts:428-443 | without a match or content the request is unchanged; otherwise the last message is replaced by a user message with the content and the rest of the request is kept |
| AgentChat.MergeConfigurations | packages/api/src/modules/ai/agent/services/ai-agent-chat.service.ts:499-515 | the merged configuration has exactly the agent's keys plus the request's defined keys |
| AgentChat.MergeConfigurationsMeaning | packages/api/src/modules/ai/agent/services/ai-agent-chat.service.ts:499-515 | defined request fields override the agent's, undefined ones leave the agent's value, and `mcpServers` lands in `mcpServerIds` |
| AgentChat.ConversationTitle | packages/api/src/modules/ai/agent/services/ai-agent-chat.service.ts:520-522 | a title is at most 23 characters: short messages are kept, longer ones are their first 20 characters and "..." |
| AgentChat.ConversationTitleIdempotent | packages/api/src/modules/ai/agent/services/ai-agent-chat.service.ts:520-522 | cutting a title again changes nothing |
| AgentChat.InitialTitle | packages/api/src/modules/ai/agent/services/ai-agent-chat.service.ts:468-470 | a new conversation is titled from its first message's text, or "新对话" when it has none; the title is never empty |
| AgentChat.LimitMessagesByContext | packages/api/src/modules/ai/agent/services/ai-agent-chat.service.ts:527-530 | no limit, a zero limit or a short list keeps the list; a positive limit keeps the last `maxContext` messages; a negative one drops that many from the front |
| AuthGuard.ExtractToken | packages/api/src/common/guards/auth.guard.ts:121-124 | the token of a `Bearer <token>` header (ExtractTokenOf); a token found is space-free and follows the prefix (ExtractTokenShape) |
| AuthGuard.ExtractTokenOf | packages/api/src/common/guards/auth.guard.ts:121-124 | a header `Bearer <token>` followed by the end or a space yields that token |
| AuthGuard.ExtractTokenShape | packages/api/src/common/guards/auth.guard.ts:121-124 | a token found is space-free and the header starts with `Bearer ` and the token |
| AuthGuard.TokenError | packages/api/src/common/guards/auth.guard.ts:67-92 | only an expired token gets TOKEN_EXPIRED, every other failure TOKEN_INVALID, always with a message (TokenErrorCodes) |
| AuthGuard.TokenErrorCodes | packages/api/src/common/guards/auth.guard.ts:67-92 | only an expired token gets TOKEN_EXPIRED, every other failure TOKEN_INVALID, and the message is never empty |
| AuthGuard.Verdict | packages/api/src/common/guards/auth.guard.ts:49-95 | public routes pass; other routes need a token and pass exactly when it validates, failing otherwise with the mapped error (VerdictMeaning) |
| AuthGuard.VerdictMeaning | packages/api/src/common/guards/auth.guard.ts:49-95 | public routes always pass; other routes need a token and then pass exactly when it validates, failing otherwise with the mapped error |
| AuthGuard.CanActivate | packages/api/src/common/guards/auth.guard.ts:37-113 | the guard's outcome is the verdict; the request's user is attached as the source does; refresh headers are set only for a valid token with a token record and a user on a protected route |
| AuthGuard.HandleTokenRefresh | packages/api/src/common/guards/auth.guard.ts:129-158 | a refreshed token is exposed in `x-new-token` with the expose and no-store headers; no refresh leaves the headers unchanged |
| CliExtension.Prompt | packages/cli/src/commands/extension.js:59-66 | the answer is the trimmed input when that is non-empty, else the default |
| CliExtension.ValidateIdentifier | packages/cli/src/commands/extension.js:73-103 | valid exactly for the prefix, only [a-z0-9-] and at least 12 characters, with each refusal's message in order (ValidateIdentifierMeaning) |
| CliExtension.ValidateIdentifierMeaning | packages/cli/src/commands/extension.js:73-103 | an identifier is valid iff it starts with "buildingai-", has only [a-z0-9-] and at least 12 characters; an empty one is "Identifier is required" |
| CliExtension.ReleaseIdentifier | packages/cli/src/commands/extension.js:227-229 | the result always starts with the prefix, which is added only when missing |
| CliExtension.ReleaseIdentifierIdempotent | packages/cli/src/commands/extension.js:227-229 | release normalisation applied twice is applied once |
| CliExtension.StripLeading | packages/cli/src/commands/extension.js:730 | what the regular expression leaves never starts with the prefix |
| CliExtension.StripLeadingIsSuffix | packages/cli/src/commands/extension.js:730 | what it leaves is a suffix of the answer: only leading text goes |
| CliExtension.StripLeadingOfPrefixed | packages/cli/src/commands/extension.js:730 | one more leading prefix is stripped away too |
| CliExtension.StripLeadingRepeats | packages/cli/src/commands/extension.js:730 | any number of leading repeats of the prefix is stripped |
| CliExtension.CreateIdentifier | packages/cli/src/commands/extension.js:730-731 | the identifier starts with the prefix exactly once: after it no second prefix follows |
| CliExtension.CreateIdentifierRepeats | packages/cli/src/commands/extension.js:730-731 | typing the prefix any number of times gives the same identifier as typing none |
| CliExtension.CreateIdentifierIdempotent | packages/cli/src/commands/extension.js:730-731 | create normalisation applied twice is applied once |
| CliExtension.SchemaName | packages/cli/src/commands/extension.js:561-563 | the schema name has the identifier's length, no "-", and each "-" replaced by "_" with every other character kept |
| CliExtension.PrefixFirst | packages/cli/src/commands/extension.js:753-754 | `replace("buildingai-", "")` on a prefixed identifier removes exactly that prefix |
| CliExtension.DefaultName | packages/cli/src/commands/extension.js:753-757 | the display name from the identifier's words; turning spaces back into "-" and lower-casing gives the identifier without its prefix (DefaultNameRoundTrip) |
| CliExtension.DefaultNameRoundTrip | packages/cli/src/commands/extension.js:753-757 | the default name, with spaces turned back into "-" and lower-cased, gives back the identifier without its prefix |
| CliExtension.UndoWords | packages/cli/src/commands/extension.js:755-757 | capitalising hyphen-free words and joining them with spaces is undone by turning spaces into "-" and lower-casing |
| CliExtension.CurrentVersion | packages/cli/src/commands/extension.js:247-252 | the version offered is package.json's when non-empty, else the manifest's, else "0.0.1"; it is never empty |
| CliExtension.Decide | packages/cli/src/commands/extension.js:264-271 | y/yes decide true and n/no decide false; everything else asks again |
| CliExtension.RebuildAnswer | packages/cli/src/commands/extension.js:262-271 | the yes/no answer of the rebuild prompt, read from its trimmed lower-cased input (NormalizedRebuildAnswer, RebuildAnswerOfPrompt) |
| CliExtension.NormalizedRebuildAnswer | packages/cli/src/commands/extension.js:262-263 | an empty answer becomes "y"; any other is trimmed and lower-cased |
| CliExtension.RebuildAnswerOfPrompt | packages/cli/src/commands/extension.js:262-271 | the one-answer decision is the source's prompt, trim, lower-case and comparison in that order |
| CliExtension.AskUntil | packages/cli/src/commands/extension.js:261-273 | the loop returns the outcome of the first answer that yields one, having re-prompted on every earlier answer; none when every answer is refused |
| CliExtension.AskRebuild | packages/cli/src/commands/extension.js:261-273 | the rebuild loop returns the decision of the first deciding answer, every earlier one having been re-prompted |
| CliExtension.ReleaseOutcome | packages/cli/src/commands/extension.js:222-243 | an answer is accepted iff its release identifier validates and its directory exists; the accepted identifier starts with the prefix and has at least 12 characters |
| CliExtension.AskReleaseIdentifier | packages/cli/src/commands/extension.js:221-244 | the release loop returns the identifier of the first accepted answer, every earlier answer having been refused |
| CliExtension.CreateOutcome | packages/cli/src/commands/extension.js:728-749 | an answer is accepted iff its create identifier validates and is neither an existing directory nor in the config |
| CliExtension.AskCreateIdentifier | packages/cli/src/commands/extension.js:727-750 | the create loop returns the identifier of the first accepted answer, every earlier answer having been refused |
| CreatePlans.DefinedCount | packages/api/src/modules/membership/dto/create-plans.dto.ts:42-44 | filtering out null and undefined keeps every defined level id exactly as often as it occurs |
| CreatePlans.ElementsSize | packages/api/src/modules/membership/dto/create-plans.dto.ts:46-47 | a list's `Set` has its length exactly when no entry repeats |
| CreatePlans.UniqueLevelIdMeaning | packages/api/src/modules/membership/dto/create-plans.dto.ts:37-48 | an array is accepted exactly when no defined level id occurs twice |
| CreatePlans.NoRepeatsIsPairwise | packages/api/src/modules/membership/dto/create-plans.dto.ts:42-47 | "no defined id occurs twice" is the same as "no two positions hold the same defined id" |
| CreatePlans.UniqueLevelIdPairwise | packages/api/src/modules/membership/dto/create-plans.dto.ts:37-48 | an array is accepted exactly when no two items share a defined level id |
| CreatePlans.UniqueLevelIdPermutation | packages/api/src/modules/membership/dto/create-plans.dto.ts:42-47 | reordering the items does not change the verdict |
| CreatePlans.UniqueLevelIdTrivial | packages/api/src/modules/membership/dto/create-plans.dto.ts:37-48 | a non-array, the empty array and an array of items without level ids are accepted |
| CreatePlans.RepeatedLevelIdRefused | packages/api/src/modules/membership/dto/create-plans.dto.ts:42-47 | two items with the same level id are refused wherever they stand |
| ExtensionFeatures.FindFeature | packages/api/src/common/modules/auth/services/extension-feature.service.ts:50-53 | a feature found has the code and is enabled; none found means no enabled feature has the code |
| ExtensionFeatures.RequiredLevelIds | packages/api/src/common/modules/auth/services/extension-feature.service.ts:68-76 | the ids of the feature's levels in order; none for a missing feature or one without levels |
| ExtensionFeatures.RequiredLevelNames | packages/api/src/common/modules/auth/services/extension-feature.service.ts:143-151 | the names of the feature's levels in order; none for a missing feature or one without levels |
| ExtensionFeatures.ActiveLevelIds | packages/api/src/common/modules/auth/services/extension-feature.service.ts:92-103 | a level id is listed iff one of the user's subscriptions with that level ends after `now` |
| ExtensionFeatures.CanAccess | packages/api/src/common/modules/auth/services/extension-feature.service.ts:123-135 | access is allowed when the feature requires no level or the user holds one of them (CanAccessMeaning) |
| ExtensionFeatures.CanAccessMeaning | packages/api/src/common/modules/auth/services/extension-feature.service.ts:123-135 | access iff nothing is required or the required and held level sets intersect |
| ExtensionFeatures.OpenFeature | packages/api/src/common/modules/auth/services/extension-feature.service.ts:126-129 | a missing feature, or one without levels, is open to everybody |
| ExtensionFeatures.AccessByLevel | packages/api/src/common/modules/auth/services/extension-feature.service.ts:131-134 | for a feature with levels, access iff the user holds one of them |
| ExtensionFeatures.ExtensionFeatureService.constructor | packages/api/src/common/modules/auth/services/extension-feature.service.ts:28-34 | a new service reads the given feature and subscription tables, starts with empty caches and is coherent |
| ExtensionFeatures.ExtensionFeatureService.GetFeatureByCode | packages/api/src/common/modules/auth/services/extension-feature.service.ts:42-60 | a hit is returned as cached; a miss reads the table and caches only a found feature; a coherent cache stays coherent and answers as the table does |
| ExtensionFeatures.ExtensionFeatureService.GetFeatureRequiredLevelIds | packages/api/src/common/modules/auth/services/extension-feature.service.ts:68-76 | through a coherent cache, the required level ids of the table's feature |
| ExtensionFeatures.ExtensionFeatureService.GetFeatureRequiredLevelNames | packages/api/src/common/modules/auth/services/extension-feature.service.ts:143-151 | through a coherent cache, the required level names of the table's feature |
| ExtensionFeatures.ExtensionFeatureService.GetUserActiveLevelIds | packages/api/src/common/modules/auth/services/extension-feature.service.ts:84-109 | the cached list when there is one, else the levels of the subscriptions ending after `now` |
| ExtensionFeatures.ExtensionFeatureService.CheckUserCanAccessFeature | packages/api/src/common/modules/auth/services/extension-feature.service.ts:123-135 | through a coherent cache, the access rule on the table's feature and the user's levels |
| ExtensionFeatures.ExtensionFeatureService.ClearFeatureCache | packages/api/src/common/modules/auth/services/extension-feature.service.ts:158-160 | exactly that feature's entry goes, and the cache stays coherent |
| ExtensionFeatures.ExtensionFeatureService.ClearUserLevelCache | packages/api/src/common/modules/auth/services/extension-feature.service.ts:167-169 | exactly that user's entry goes, so the user's levels are read from the subscriptions again |
| ExtensionIdentifier.PatternChars | packages/core/src/modules/extension/validators/extension-identifier.validator.ts:47-51 | a name matching the pattern starts with "@" or an alphanumeric, ends alphanumeric and has no upper-case letter or space |
| ExtensionIdentifier.Validate | packages/core/src/modules/extension/validators/extension-identifier.validator.ts:19-59 | the checks in source order; together they accept exactly the names of 1 to 214 characters matching the pattern (ValidateIsPattern), and the early guards refuse on their own (ValidateRejects) |
| ExtensionIdentifier.MatchesPattern | packages/core/src/modules/extension/validators/extension-identifier.validator.ts:44-50 | the scoped or unscoped package-name pattern; the validator accepts exactly what it matches within the length bound (ValidateIsPattern) |
| ExtensionIdentifier.ValidateIsPattern | packages/core/src/modules/extension/validators/extension-identifier.validator.ts:19-59 | the validator accepts exactly the names of 1 to 214 characters that match the scoped or unscoped pattern: the other guards are implied by it |
| ExtensionIdentifier.ValidateRejects | packages/core/src/modules/extension/validators/extension-identifier.validator.ts:20-42 | empty names, names over 214 characters, a leading "." or "_", an upper-case letter and a leading or trailing "-" are rejected |
| ExtensionIdentifier.NormalizeIdentifier | packages/core/src/modules/extension/validators/extension-identifier.validator.ts:108-124 | an empty value is kept; otherwise the result is the trimmed value, prefixed with "buildingai-" exactly when that occurs nowhere in it, and always contains it |
| ExtensionIdentifier.NormalizeIdentifierIdempotent | packages/core/src/modules/extension/validators/extension-identifier.validator.ts:108-124 | normalising twice is normalising once |
| ExtensionMarket.IsVersionInRange | packages/api/src/modules/extension/services/extension-market.service.ts:91-97 | a version is in range exactly when version and range are both valid and the version satisfies the range; anything invalid is out of range |
| ExtensionMarket.MarketVersion | packages/api/src/modules/extension/services/extension-market.service.ts:345-347 | a market version is found exactly when some market item has the identifier, and it is the version of the last such item |
| ExtensionMarket.MarketOnly | packages/api/src/modules/extension/services/extension-market.service.ts:349-374 | the market part of the list holds exactly the market items whose identifier is not installed, each as a not-installed entry |
| ExtensionMarket.MixedApplicationList | packages/api/src/modules/extension/services/extension-market.service.ts:322-420 | the installed extensions in order, then the market items not installed (MixedListShape); without the market only the installed ones (NoMarketListsInstalledOnly); every market item appears (MarketItemsListed) |
| ExtensionMarket.MixedListShape | packages/api/src/modules/extension/services/extension-market.service.ts:322-420 | the merged list is the installed extensions in order, all marked installed, then market entries that are not installed, disabled, without update and with their own version as latest |
| ExtensionMarket.NoMarketListsInstalledOnly | packages/api/src/modules/extension/services/extension-market.service.ts:331-340 | without a platform secret, or when the market request fails, only the installed extensions are listed and none shows an update |
| ExtensionMarket.MarketItemsListed | packages/api/src/modules/extension/services/extension-market.service.ts:349-374 | with a secret and a market answer, every market item that is not installed appears in the list |
| ExtensionMarket.InstalledEntry | packages/api/src/modules/extension/services/extension-market.service.ts:376-415 | an installed extension's entry: its update flag and status as InstalledEntryMeaning states |
| ExtensionMarket.HasUpdate | packages/api/src/modules/extension/services/extension-market.service.ts:379-391 | an update exists exactly for a non-local extension whose non-empty market version is valid and greater than a valid installed version (InstalledEntryMeaning) |
| ExtensionMarket.InstalledEntryMeaning | packages/api/src/modules/extension/services/extension-market.service.ts:376-415 | an installed extension has an update iff it is not local, the market has a non-empty version for it, both versions are valid and the market's is greater; a null enabled flag keeps the stored status, true enables and false disables |
| MembershipGift.DiffDaysAtMidnight | packages/api/src/modules/schedule/services/membership-gift.service.ts:185-189 | at midnight the floored millisecond difference is the number of calendar days since the start day |
| MembershipGift.GrantCadence | packages/api/src/modules/schedule/services/membership-gift.service.ts:184-192 | points are due on the day 30·k after the start day exactly when k ≥ 1: never on the start day itself |
| MembershipGift.NoGrantBetween | packages/api/src/modules/schedule/services/membership-gift.service.ts:184-192 | on a day whose distance from the start day is not a multiple of 30 nothing is due |
| MembershipGift.Next30Days | packages/api/src/modules/schedule/services/membership-gift.service.ts:294-299 | the expiry of a gift is a valid moment at midnight |
| MembershipGift.Next30DaysMeaning | packages/api/src/modules/schedule/services/membership-gift.service.ts:294-299 | the expiry falls on the calendar day 30 days after the given one, across month and year ends |
| MembershipGift.ProcessExpired | packages/api/src/modules/schedule/services/membership-gift.service.ts:119-155 | expiring one gift log: skipped for a missing, unexpired or empty log (ProcessExpiredSkips), otherwise the log is emptied and exactly its remaining points are deducted with one log (ProcessExpiredEffect), and a second run changes nothing (ProcessExpiredOnce) |
| MembershipGift.ProcessExpiredSkips | packages/api/src/modules/schedule/services/membership-gift.service.ts:119-131 | expiring a log changes nothing exactly when the log is missing, has no expiry, has not expired or has nothing left |
| MembershipGift.ProcessExpiredEffect | packages/api/src/modules/schedule/services/membership-gift.service.ts:133-152 | an expiry empties the log, keeps the other logs, appends one deduction log and lowers exactly that user's points by exactly the amount left |
| MembershipGift.ProcessExpiredOnce | packages/api/src/modules/schedule/services/membership-gift.service.ts:119-155 | expiring the same log a second time changes nothing |
| MembershipGift.ExpiredLogIds | packages/api/src/modules/schedule/services/membership-gift.service.ts:90-96 | the cleanup query returns exactly the logs that have expired with points left |
| MembershipGift.CleanupExpired | packages/api/src/modules/schedule/services/membership-gift.service.ts:83-113 | the cleanup expires the selected logs one after the other, and afterwards no expired log has points left |
| MembershipGift.ExpireEachFrame | packages/api/src/modules/schedule/services/membership-gift.service.ts:100-106 | a log not selected is left as it was, and a selected one is emptied or left as it was |
| MembershipGift.ProcessExpiredRows | packages/api/src/modules/schedule/services/membership-gift.service.ts:133-152 | one expiry changes only the processed log row, and the deduction log it appends has no expiry |
| MembershipGift.CleanupLeavesNothingExpired | packages/api/src/modules/schedule/services/membership-gift.service.ts:83-113 | processing every log that has expired with points left leaves no expired log with points |
| MembershipGift.CountGrants | packages/api/src/modules/schedule/services/membership-gift.service.ts:243-256 | no gift log of the user and order falls in the day exactly when the count of them is zero |
| MembershipGift.DayEnd | packages/api/src/modules/schedule/services/membership-gift.service.ts:218-221 | the end of the day is a valid moment |
| MembershipGift.DayEndLength | packages/api/src/modules/schedule/services/membership-gift.service.ts:218-221 | the end of the day is 24 hours after its start |
| MembershipGift.DaysDisjoint | packages/api/src/modules/schedule/services/membership-gift.service.ts:218-221 | two days starting at midnight that share an instant are the same day |
| MembershipGift.ProcessGrant | packages/api/src/modules/schedule/services/membership-gift.service.ts:217-290 | one day's gift for one subscription: skipped when any guard fails (ProcessGrantSkips), otherwise the level's points with one gift log expiring 30 days on (ProcessGrantEffect), and never a second gift for the same order that day (ProcessGrantKeepsOnePerDay) |
| MembershipGift.ProcessGrantSkips | packages/api/src/modules/schedule/services/membership-gift.service.ts:230-263 | each guard on its own leaves the database unchanged: a missing subscription, one not in force at the day's midnight, a level giving no points, an order without a number, and an order that already got its gift that day |
| MembershipGift.ProcessGrantEffect | packages/api/src/modules/schedule/services/membership-gift.service.ts:264-281 | once every guard passes, exactly that user's points rise by the level's gift points, one `MEMBERSHIP_GIFT_INC` log is appended with the order number as association and an expiry at midnight 30 days after the day granted, and every other table is kept |
| MembershipGift.ProcessGrantKeepsOnePerDay | packages/api/src/modules/schedule/services/membership-gift.service.ts:217-290 | a grant run on the day it is for keeps at most one gift log per user, order and day |
| MembershipGift.DueSubscriptions | packages/api/src/modules/schedule/services/membership-gift.service.ts:174-192 | the daily query returns exactly the subscriptions active at midnight whose start day is a positive multiple of 30 days back |
| MembershipGift.RunIsSameDay | packages/api/src/modules/schedule/services/membership-gift.service.ts:171-172 | the run's moment lies in the day its midnight starts |
| MembershipGift.GrantEachKeepsOnePerDay | packages/api/src/modules/schedule/services/membership-gift.service.ts:196-205 | any sequence of grants for the current day keeps at most one gift per user, order and day |
| MembershipGift.DailyGrant | packages/api/src/modules/schedule/services/membership-gift.service.ts:166-211 | the daily run grants to the due subscriptions one after the other (each grant as ProcessGrantSkips and ProcessGrantEffect state), and keeps at most one gift per user, order and day |
| MemberOnlyGuard.FirstDenied | packages/api/src/common/guards/member-only.guard.ts:86-111 | no position is returned exactly when every code is accessible; otherwise the position is that of the first inaccessible code |
| MemberOnlyGuard.DecideAllFeatures | packages/api/src/common/guards/member-only.guard.ts:82-113 | a marked route and an authenticated non-root user: access is allowed exactly when every feature code is accessible |
| MemberOnlyGuard.DecideFirstDenied | packages/api/src/common/guards/member-only.guard.ts:92-110 | the route is forbidden exactly when some code is inaccessible, and the message names the levels of the first such code, all codes before it being accessible |
| MemberOnlyGuard.Decide | packages/api/src/common/guards/member-only.guard.ts:62-113 | undecorated routes and root users pass (DecideBypasses); otherwise the user passes exactly when every listed feature is accessible (DecideAllFeatures), and a refusal names the first denied one (DecideFirstDenied) |
| MemberOnlyGuard.DecideBypasses | packages/api/src/common/guards/member-only.guard.ts:62-80 | an unmarked route passes, a marked route without a user is unauthorized, and a root user passes |
| MemberOnlyGuard.CanActivate | packages/api/src/common/guards/member-only.guard.ts:54-114 | the guard changes no feature, subscription or level-cache table, and with a coherent feature cache its answer is the decision on the service's tables |
| MembershipOrders.RemoveSubscriptionsOf | packages/api/src/modules/membership/services/order.service.ts:301-304 | exactly the subscriptions of other orders are kept |
| MembershipOrders.Refund | packages/api/src/modules/membership/services/order.service.ts:263-322 | a refund is refused for a missing, unpaid or refunded order (RefundErrors); otherwise it marks the order refunded, removes its subscriptions and deducts the gift points (RefundEffect), and it cannot be applied twice (RefundOnce) |
| MembershipOrders.RefundErrors | packages/api/src/modules/membership/services/order.service.ts:263-276 | a missing order, an unpaid one and a refunded one are refused in that order with their messages, and a refund is accepted exactly for a found, paid, unrefunded order |
| MembershipOrders.RefundEffect | packages/api/src/modules/membership/services/order.service.ts:278-322 | an accepted refund marks exactly that order refunded, removes exactly its subscriptions, and deducts the gift points from the buyer only, logging it only when there were points; the recharge tables and the level gifts are kept |
| MembershipOrders.RefundOnce | packages/api/src/modules/membership/services/order.service.ts:274-276 | a second refund of the same order is refused as already refunded |
| MembershipOrders.DurationText | packages/api/src/modules/membership/services/order.service.ts:383-397 | a plan's own duration shows as number and unit and reads back (CustomDurationText); otherwise the preset text, and "未知" for an unknown preset (UnknownDurationText) |
| MembershipOrders.CustomDurationText | packages/api/src/modules/membership/services/order.service.ts:384-386 | a plan's own duration is shown as its number followed by its unit, and the number reads back from the text |
| MembershipOrders.PresetTextAgreesWithEndTime | packages/api/src/modules/membership/services/order.service.ts:387-397 | the preset text of configurations 1 to 4 names the same number of months the payment callback adds to the subscription |
| MembershipOrders.UnknownDurationText | packages/api/src/modules/membership/services/order.service.ts:397 | a configuration outside 1 to 6 without its own duration is shown as unknown |
| MembershipOrders.FindPlan | packages/api/src/modules/membership/services/order.service.ts:362-367 | the first enabled plan with the id: a plan found has the id and is enabled and no earlier one is, and none found means no enabled plan has the id |
| MembershipOrders.FindLevel | packages/api/src/modules/membership/services/order.service.ts:370-375 | the first enabled level with the id: a level found has the id and is enabled and no earlier one is, and none found means no enabled level has the id |
| MembershipOrders.FindBilling | packages/api/src/modules/membership/services/order.service.ts:378 | a price item found belongs to the plan and the level; none found means the plan has no item for the level |
| MembershipOrders.SubmitOrder | packages/api/src/modules/membership/services/order.service.ts:338-449 | the guards refuse in order with their messages, and an order passing them all is created with the first matching price item's prices, the duration text and the level's points (SubmitOrderErrors, SubmitOrderAccepted) |
| MembershipOrders.SubmitOrderAccepted | packages/api/src/modules/membership/services/order.service.ts:338-449 | an order is created only with memberships on and WeChat pay, for an enabled plan and level whose first matching price item is enabled, and carries that item's prices, the plan's duration text and the level's gift points |
| MembershipOrders.SubmitOrderErrors | packages/api/src/modules/membership/services/order.service.ts:346-381 | each guard, in order, refuses with its own message; the price guard looks at the first price item of the level and refuses when there is none or it is disabled; an order passing every guard is accepted |
| MembershipOrders.Paging | packages/api/src/modules/membership/services/order.service.ts:521-547 | the defaults give the first ten rows, and pages of one size neither overlap nor leave gaps (PagingDefaults) |
| MembershipOrders.PagingDefaults | packages/api/src/modules/membership/services/order.service.ts:521-547 | without parameters the first ten rows are shown; a given non-zero page and size are kept and a missing or zero one falls back, so the size is never zero; the first page skips nothing, and consecutive pages of one size neither overlap nor leave a gap |
| MembershipOrders.SourceDesc | packages/api/src/modules/membership/services/order.service.ts:37-40 | the source is described as unknown exactly when it is neither a system gift nor an order purchase |
| MembershipOrders.IsExpired | packages/api/src/modules/membership/services/order.service.ts:571 | a subscription is listed as expired once its end is before now, and stays so at every later moment (IsExpiredStays) |
| MembershipOrders.IsExpiredStays | packages/api/src/modules/membership/services/order.service.ts:571 | a subscription expired at one moment is expired at every later moment |
| MembershipValidation.ValidLevels | packages/api/src/modules/ai/chat/handlers/membership-validation.handler.ts:43-57 | the valid levels are exactly the loaded levels of the user's subscriptions that end after now |
| MembershipValidation.MaxRank | packages/api/src/modules/ai/chat/handlers/membership-validation.handler.ts:67 | the maximum is at least every level's rank and is the rank of one of them |
| MembershipValidation.GetUserMembershipInfo | packages/api/src/modules/ai/chat/handlers/membership-validation.handler.ts:40-70 | the level ids of the running subscriptions and their highest rank, or nothing and 0 (MembershipInfoMeaning) |
| MembershipValidation.MembershipInfoMeaning | packages/api/src/modules/ai/chat/handlers/membership-validation.handler.ts:40-70 | the ids are exactly those of the levels held through a running subscription, and the rank is the highest of them, or 0 when there is none |
| MembershipValidation.ValidateModelAccess | packages/api/src/modules/ai/chat/handlers/membership-validation.handler.ts:79-102 | a model without levels is open; otherwise access is allowed exactly when the user holds one of its levels (ValidateModelAccessMeaning) |
| MembershipValidation.ValidateModelAccessMeaning | packages/api/src/modules/ai/chat/handlers/membership-validation.handler.ts:79-102 | a model without required levels is open and reports nothing; otherwise access is granted exactly when some required level is held through a running subscription |
| MembershipValidation.ValidateModelAccessOrThrow | packages/api/src/modules/ai/chat/handlers/membership-validation.handler.ts:111-123 | the forbidden error, with its message and code, is raised exactly when access is refused |
| MessageContext.ClearReasoningAsWritten | packages/api/src/modules/ai/chat/handlers/message-context.handler.ts:21-29 | as written, one message comes back per message |
| MessageContext.ClearReasoningAsWrittenKeepsReasoning | packages/api/src/modules/ai/chat/handlers/message-context.handler.ts:23-25 | as written, the list comes back unchanged: an assistant message keeps its reasoning |
| MessageContext.ClearReasoning | packages/api/src/modules/ai/chat/handlers/message-context.handler.ts:21-29 | every message keeps its role and content, non-assistant messages are unchanged, and no assistant message keeps reasoning |
| MessageContext.ClearReasoningIdempotent | packages/api/src/modules/ai/chat/handlers/message-context.handler.ts:21-29 | clearing twice is clearing once |
| MessageContext.FirstSystem | packages/api/src/modules/ai/chat/handlers/message-context.handler.ts:53 | the index found is that of the first system message, and none is found exactly when there is no system message |
| MessageContext.Without | packages/api/src/modules/ai/chat/handlers/message-context.handler.ts:59 | taking one message out keeps the messages before it and shifts those after it down by one |
| MessageContext.ContextWindowAsWritten | packages/api/src/modules/ai/chat/handlers/message-context.handler.ts:46-72 | the window as the source computes it; for maxContext 1 with a system message it keeps every message (WindowOfOneAsWritten) |
| MessageContext.WindowOfOneAsWritten | packages/api/src/modules/ai/chat/handlers/message-context.handler.ts:61-65 | as written, maxContext 1 with a system message keeps every message |
| MessageContext.LimitMessageContext | packages/api/src/modules/ai/chat/handlers/message-context.handler.ts:39-79 | the method returns the intended window of the cleared list |
| MessageContext.KeptAgrees | packages/api/src/modules/ai/chat/handlers/message-context.handler.ts:62-65 | from maxContext 2 on, keeping the last maxContext - 1 other messages is exactly what the slice as written keeps |
| MessageContext.WindowAgreesAsWritten | packages/api/src/modules/ai/chat/handlers/message-context.handler.ts:46-72 | the intended window differs from the written one only for maxContext 1 with a system message |
| MessageContext.WindowBound | packages/api/src/modules/ai/chat/handlers/message-context.handler.ts:46-72 | a positive maxContext bounds the window, and a list that is cut keeps its first system message in front |
| MessageContext.WindowUnlimited | packages/api/src/modules/ai/chat/handlers/message-context.handler.ts:46-48 | with no maxContext, a non-positive one or a list that fits, the cleared list comes back whole |
| MessageContext.WindowWithoutSystem | packages/api/src/modules/ai/chat/handlers/message-context.handler.ts:69-72 | without a system message the window is the last maxContext messages, in order |
| MessageContext.ContextWindow | packages/api/src/modules/ai/chat/handlers/message-context.handler.ts:46-72 | the intended window: the whole list when unlimited (WindowUnlimited), the last maxContext messages without a system message (WindowWithoutSystem), the system message and the last maxContext - 1 others with one (WindowWithSystem), never more than maxContext (WindowBound) |
| MessageContext.WindowWithSystem | packages/api/src/modules/ai/chat/handlers/message-context.handler.ts:55-68 | with a system message the window is that message followed by the last maxContext - 1 other messages, in order |
| MessageContext.WindowFromList | packages/api/src/modules/ai/chat/handlers/message-context.handler.ts:39-79 | the window is never longer than the list and holds only messages of the list |
| Pay.NextMonthSameDay | packages/api/src/modules/pay/services/pay.service.ts:364-383 | the expiry of the purchase gift is a valid moment at midnight |
| Pay.NextMonthSameDayMeaning | packages/api/src/modules/pay/services/pay.service.ts:364-383 | December rolls into January of the next year, and the day of the month is kept when the next month has it, otherwise it is that month's last day |
| Pay.NextMonthSameDayDistance | packages/api/src/modules/pay/services/pay.service.ts:364-383 | the purchase gift expires between 28 and 31 days after the purchase day |
| Pay.Extend | packages/api/src/modules/pay/services/pay.service.ts:271-318 | moving the end time by a span gives a valid moment at the same time of day |
| Pay.MembershipEndTime | packages/api/src/modules/pay/services/pay.service.ts:262-318 | the end time is the start moved by the plan's span: 1, 3 or 6 months, 1 or 100 years, the custom span in days, months or years, and one month otherwise |
| Pay.SpanOf | packages/api/src/modules/pay/services/pay.service.ts:271-318 | the length a plan adds to a subscription: positive for every preset and for a custom span that is not negative (SpanOfPositive) |
| Pay.SpanOfPositive | packages/api/src/modules/pay/services/pay.service.ts:271-318 | every span of the plan table is positive except a custom span with a negative value |
| Pay.ExtendLater | packages/api/src/modules/pay/services/pay.service.ts:271-318 | a positive span ends strictly after it starts |
| Pay.EndTime | packages/api/src/modules/pay/services/pay.service.ts:262-318 | the membership's end time is a valid moment at the start's time of day |
| Pay.EndTimeLater | packages/api/src/modules/pay/services/pay.service.ts:262-318 | a membership ends after it starts, unless its custom duration is negative |
| Pay.Prepay | packages/api/src/modules/pay/services/pay.service.ts:49-90 | a missing order, a paid one and an unknown source are refused with their messages; an unpaid order goes out with its number and amount |
| Pay.PrepayAccepts | packages/api/src/modules/pay/services/pay.service.ts:55-84 | a pay order goes out exactly for an existing unpaid order of a known source |
| Pay.RechargeCallback | packages/api/src/modules/pay/services/pay.service.ts:169-235 | the first callback for an unpaid recharge order marks it paid and credits the points with their logs (RechargeCallbackEffect); a replay changes nothing (RechargeCallbackReplay) |
| Pay.RechargeCallbackEffect | packages/api/src/modules/pay/services/pay.service.ts:169-235 | a missing or paid order changes nothing; otherwise the order is marked paid with the callback's time and transaction id, the others are kept, the buyer gains the positive power and gift power, a `RECHARGE_INC` and a `RECHARGE_GIVE_INC` log are appended for whichever is positive, the total recharge grows by both, no other user changes and the membership tables are kept |
| Pay.RechargeCallbackReplay | packages/api/src/modules/pay/services/pay.service.ts:175-181 | replaying the recharge callback changes nothing |
| Pay.MembershipCallback | packages/api/src/modules/pay/services/pay.service.ts:238-353 | the first callback for an unpaid membership order marks it paid, adds one subscription from now to the end time and credits a positive gift expiring a month on (MembershipCallbackEffect); a replay changes nothing (MembershipCallbackReplay) |
| Pay.MembershipCallbackEffect | packages/api/src/modules/pay/services/pay.service.ts:238-353 | a missing or paid order changes nothing; otherwise exactly that order is marked paid with the callback's time and transaction id, one subscription from now to the end time is added, and a positive gift is credited to the buyer only, logged and expiring on the same day next month; the recharge tables and the level gifts are kept |
| Pay.MembershipCallbackReplay | packages/api/src/modules/pay/services/pay.service.ts:244-250 | replaying the membership callback changes nothing |
| PayConfigMigration.ParsedConfig | packages/@buildingai/db/src/migrations/1767451213607-25.3.0-move-pay-config-fields.ts:42-51 | an empty column, or text that does not parse, starts from an empty configuration; an object column is taken as it is |
| PayConfigMigration.Overlay | packages/@buildingai/db/src/migrations/1767451213607-25.3.0-move-pay-config-fields.ts:56-69 | the configuration gains exactly the truthy legacy fields, each with the legacy value, and keeps every other key and value |
| PayConfigMigration.OverlayLegacy | packages/@buildingai/db/src/migrations/1767451213607-25.3.0-move-pay-config-fields.ts:56-69 | the eight field-by-field copies compute the overlay |
| PayConfigMigration.UpOne | packages/@buildingai/db/src/migrations/1767451213607-25.3.0-move-pay-config-fields.ts:41-77 | one row's update is the row as `up` rewrites it |
| PayConfigMigration.Up | packages/@buildingai/db/src/migrations/1767451213607-25.3.0-move-pay-config-fields.ts:12-88 | every row is rewritten, in order, one result per row |
| PayConfigMigration.UpRow | packages/@buildingai/db/src/migrations/1767451213607-25.3.0-move-pay-config-fields.ts:41-77 | moves a WeChat row's truthy legacy fields into its configuration (UpRowMeaning); the down step gives them back (DownAfterUp) |
| PayConfigMigration.UpRowMeaning | packages/@buildingai/db/src/migrations/1767451213607-25.3.0-move-pay-config-fields.ts:41-77 | a WeChat row's configuration holds each truthy legacy field under its name and otherwise what the old configuration held; other rows keep the old configuration, empty when it was empty or unparsable |
| PayConfigMigration.Restore | packages/@buildingai/db/src/migrations/1767451213607-25.3.0-move-pay-config-fields.ts:131-139 | only legacy fields with a non-empty value in the configuration come back, with that value, and every such field comes back |
| PayConfigMigration.Down | packages/@buildingai/db/src/migrations/1767451213607-25.3.0-move-pay-config-fields.ts:90-164 | every row, in order, gets the legacy columns its configuration restores |
| PayConfigMigration.DownRow | packages/@buildingai/db/src/migrations/1767451213607-25.3.0-move-pay-config-fields.ts:120-160 | takes the truthy legacy fields back out of the configuration (DownRowMeaning), giving back what the up step moved (DownAfterUp) |
| PayConfigMigration.DownRowMeaning | packages/@buildingai/db/src/migrations/1767451213607-25.3.0-move-pay-config-fields.ts:120-160 | only truthy legacy fields come back, none at all for an empty or unparsable configuration |
| PayConfigMigration.DownAfterUp | packages/@buildingai/db/src/migrations/1767451213607-25.3.0-move-pay-config-fields.ts:12-164 | down after up gives a WeChat row back every truthy legacy field with its value; a field that was empty or null comes back only when the old configuration held it |
| PayConfigMigration.DownAfterUpOther | packages/@buildingai/db/src/migrations/1767451213607-25.3.0-move-pay-config-fields.ts:12-164 | a row of another payment type gets back only the legacy fields its old configuration held |
| RequestUtil.NormalizeHost | packages/core/src/modules/upload/utils/request.util.ts:145-158 | under https exactly a trailing ":443" is removed, under any other protocol exactly a trailing ":80"; a host without it is unchanged |
| RequestUtil.NormalizeHostNotIdempotent | packages/core/src/modules/upload/utils/request.util.ts:145-158 | a host ending in the default port twice loses one port per call, so normalising is not idempotent |
| RequestUtil.NormalizeHostIdempotentOnce | packages/core/src/modules/upload/utils/request.util.ts:145-158 | normalising twice is normalising once unless the host ends with the default port twice |
| RequestUtil.LeadingDigits | packages/core/src/modules/upload/utils/request.util.ts:54 | the count is the length of the run of digits at the front |
| RequestUtil.ProtocolFor | packages/core/src/modules/upload/utils/request.util.ts:50-69 | the protocol is always http or https, and a production domain is always served under https |
| RequestUtil.PortOverridesProduction | packages/core/src/modules/upload/utils/request.util.ts:51-69 | a host naming port 443 or 80 is never a production domain, so the explicit port alone decides the protocol |
| RequestUtil.ResolveDomain | packages/core/src/modules/upload/utils/request.util.ts:10-72 | a domain is found exactly when a truthy host header is present; its protocol is the one the host calls for and its host is normalised for that protocol |
| RequestUtil.StripMapped | packages/core/src/modules/upload/utils/request.util.ts:173-181 | an IPv4-mapped address loses exactly its "::ffff:" prefix, and any other address is unchanged |
| RequestUtil.StripMappedRoundTrip | packages/core/src/modules/upload/utils/request.util.ts:173-181 | stripping the prefix from a mapped address gives back the address mapped |
| RequestUtil.ClientIP | packages/core/src/modules/upload/utils/request.util.ts:166-182 | a non-empty first forwarded entry wins, else the socket address or request IP, else "unknown", the mapped prefix stripped either way |
| RequestUtil.ClientIPFirstForwarded | packages/core/src/modules/upload/utils/request.util.ts:168-174 | a forwarded list picks its first entry, whatever follows it |
| RequestUtil.ExtensionIdFromPath | packages/core/src/modules/upload/utils/request.util.ts:204-222 | the first path segment when "/api/" or "/consoleapi/" follows it (ExtensionIdFromPathMeaning), and every such path yields it (ExtensionIdFromPathComplete) |
| RequestUtil.ExtensionIdFromPathMeaning | packages/core/src/modules/upload/utils/request.util.ts:204-222 | an id found is a non-empty, slash-free first segment other than api or consoleapi, followed by "/api/" or "/consoleapi/" |
| RequestUtil.ExtensionIdFromPathComplete | packages/core/src/modules/upload/utils/request.util.ts:204-222 | every path of that shape yields its first segment |
| RequestUtil.PathPieces | packages/core/src/modules/upload/utils/request.util.ts:208 | the first segment of such a path is the id, and what follows it is the marker and the rest |
| RequestUtil.EffectiveExtensionId | packages/core/src/modules/upload/utils/request.util.ts:231-241 | an explicit non-empty id wins; otherwise the id is the one the path gives |
| RouteMiddleware.DefaultHandleAuth | packages/web/@buildingai/nuxt/src/middleware.ts:119-141 | redirects exactly the logged-out visit to a protected page and the logged-in visit to login (DefaultHandleAuthRedirects); fetches user info first when missing (FetchUserFirst) |
| RouteMiddleware.DefaultHandleAuthRedirects | packages/web/@buildingai/nuxt/src/middleware.ts:119-141 | a redirect happens exactly for a logged-out visit to a protected page other than login, which goes to login remembering the target, and for a logged-in user with user info opening login, who goes back where they came from or home |
| RouteMiddleware.FetchUserFirst | packages/web/@buildingai/nuxt/src/middleware.ts:124-127 | a logged-in user only has the user info fetched exactly when it is missing |
| RouteMiddleware.LoggedOutOpenPages | packages/web/@buildingai/nuxt/src/middleware.ts:128-132 | a logged-out visit to the login page or to a page without authentication passes |
| RouteMiddleware.ConsoleGuard | packages/web/@buildingai/nuxt/src/middleware.ts:235-255 | forbids exactly a non-root user lacking any permission or the page's non-empty code, and a failed load (ConsoleGuardMeaning, RootPasses); an empty code asks for nothing (EmptyCodeIsNoCode) |
| RouteMiddleware.ConsoleGuardMeaning | packages/web/@buildingai/nuxt/src/middleware.ts:235-255 | once permissions are at hand, a user is forbidden exactly when non-root and lacking any permission or the page's non-empty code; a failed load forbids |
| RouteMiddleware.EmptyCodeIsNoCode | packages/web/@buildingai/nuxt/src/middleware.ts:247-250 | a page whose permission code is empty is guarded exactly like a page without one, since `Boolean("")` is false |
| RouteMiddleware.RootPasses | packages/web/@buildingai/nuxt/src/middleware.ts:245-254 | a root user, or one without user info, passes whenever the permissions can be had |
| RouteMiddleware.StringCompare | packages/web/@buildingai/nuxt/src/middleware.ts:285 | the comparison is -1, 0 or 1, and 0 exactly for equal paths |
| RouteMiddleware.StringCompareFlip | packages/web/@buildingai/nuxt/src/middleware.ts:285 | swapping the paths negates the comparison |
| RouteMiddleware.StringCompareTransitive | packages/web/@buildingai/nuxt/src/middleware.ts:285 | the path comparison is transitive |
| RouteMiddleware.CompareRoutes | packages/web/@buildingai/nuxt/src/middleware.ts:270-286 | the console-route order: by order key with 0 first, then by path; antisymmetric and transitive (CompareRoutesOrder, OrderZeroFirst) |
| RouteMiddleware.CompareRoutesOrder | packages/web/@buildingai/nuxt/src/middleware.ts:270-286 | the route comparator is antisymmetric and transitive, and says equal only for the same order key and path |
| RouteMiddleware.OrderZeroFirst | packages/web/@buildingai/nuxt/src/middleware.ts:275-277 | order 0 comes before a missing order and every positive order |
| RouteMiddleware.Least | packages/web/@buildingai/nuxt/src/middleware.ts:286-290 | the first route of the sorted list is one of the routes and no other route precedes it |
| RouteMiddleware.ConsoleRoutes | packages/web/@buildingai/nuxt/src/middleware.ts:265-269 | the console routes are exactly the registered routes under the console path |
| RouteMiddleware.FirstConsolePage | packages/web/@buildingai/nuxt/src/middleware.ts:260-295 | the first console route in that order, or the console root when there is none (FirstConsolePageMeaning) |
| RouteMiddleware.FirstConsolePageMeaning | packages/web/@buildingai/nuxt/src/middleware.ts:260-295 | the page chosen is under the console path, and when console routes exist it is the path of one that no other console route precedes |
| RouteMiddleware.Navigate | packages/web/@buildingai/nuxt/src/middleware.ts:207-295 | the middleware's steps in order: a failed initialisation check is a fatal 404, an initialisation redirect comes first (NavigateInitialization), then authentication, the console guard and the first console page; a non-root user without permissions is forbidden every console page (NonRootWithoutPermissionsForbidden), and an empty permission code asks for nothing (NavigateEmptyCode) |
| RouteMiddleware.NavigateInitialization | packages/web/@buildingai/nuxt/src/middleware.ts:207-220 | the outcome is fatal exactly when the initialisation check fails, and then it is status 404 "System not Connected"; a non-empty initialisation redirect is followed before every other step |
| RouteMiddleware.NavigateEmptyCode | packages/web/@buildingai/nuxt/src/middleware.ts:235-255 | the whole middleware gives the same answer for an empty permission code as for none |
| RouteMiddleware.NonRootWithoutPermissionsForbidden | packages/web/@buildingai/nuxt/src/middleware.ts:192-255 | a logged-in non-root user without any permission is sent to the forbidden page from every console page |
| StorageConfigs.FindDict | packages/api/src/modules/system/services/storage-config.service.ts:104-106 | the row found is the first with the key and group, and none is found exactly when no row has them |
| StorageConfigs.CountKeyZero | packages/api/src/modules/system/services/storage-config.service.ts:104-106 | a key and group have no row exactly when no row carries them |
| StorageConfigs.UpsertDict | packages/api/src/modules/system/services/storage-config.service.ts:94-125 | leaves exactly one row for the key and group, holding the value, when there was at most one, and keeps every other key's rows (UpsertDictKeepsOne) |
| StorageConfigs.UpsertDictKeepsOne | packages/api/src/modules/system/services/storage-config.service.ts:94-125 | after an upsert the key and group have exactly one row, holding the value, when they had at most one; every other key keeps its rows |
| StorageConfigs.SyncToDict | packages/api/src/modules/system/services/storage-config.service.ts:67-92 | writes the active engine and the domain into the dictionary, one row each, and leaves every other key alone (SyncToDictMeaning) |
| StorageConfigs.SyncToDictMeaning | packages/api/src/modules/system/services/storage-config.service.ts:67-92 | the dictionary then holds exactly one engine row with the active engine, one domain row with the domain when the configuration has one, and every other key is untouched |
| StorageConfigs.FindDictUnchanged | packages/api/src/modules/system/services/storage-config.service.ts:94-125 | an upsert of another key leaves a row where it was |
| StorageConfigs.FindActive | packages/api/src/modules/system/services/storage-config.service.ts:34-36 | the row found is active, and none is found exactly when no row is active |
| StorageConfigs.FindConfig | packages/api/src/modules/system/services/storage-config.service.ts:52-54 | the row found has the id, and none is found exactly when no row has it |
| StorageConfigs.UpdateWhere | packages/api/src/modules/system/services/storage-config.service.ts:44-45 | every row matching the id and storage type gets the dto's fields, and every other row is unchanged |
| StorageConfigs.Deactivate | packages/api/src/modules/system/services/storage-config.service.ts:38-42 | deactivating changes no row's id or storage type |
| StorageConfigs.DeactivateLeavesOnlyId | packages/api/src/modules/system/services/storage-config.service.ts:38-42 | after the deactivation an activating update finds only rows with its own id active |
| StorageConfigs.UpdateWhereActivates | packages/api/src/modules/system/services/storage-config.service.ts:44-48 | an activating update of an existing row makes exactly the rows with that id active |
| StorageConfigs.UpdateWhereNoActivation | packages/api/src/modules/system/services/storage-config.service.ts:44-48 | an update that does not activate keeps at most one row active |
| StorageConfigs.UpdateConfig | packages/api/src/modules/system/services/storage-config.service.ts:32-61 | refused without an active configuration (UpdateConfigNeedsActive) or a matching one (UpdateConfigUnmatched); otherwise keeps exactly one active configuration (UpdateConfigKeepsOneActive) and mirrors it into the dictionary (UpdateConfigDict) |
| StorageConfigs.UpdateConfigKeepsOneActive | packages/api/src/modules/system/services/storage-config.service.ts:32-61 | an update keeps the ids unique and at most one configuration active, and activating makes the updated configuration the only active one |
| StorageConfigs.UpdateConfigUnmatched | packages/api/src/modules/system/services/storage-config.service.ts:44-48 | an update that matches no row fails, whatever else it asked for |
| StorageConfigs.UpdateConfigNeedsActive | packages/api/src/modules/system/services/storage-config.service.ts:34-39 | without an active configuration the update fails before changing anything |
| StorageConfigs.UpdateConfigDict | packages/api/src/modules/system/services/storage-config.service.ts:50-59 | the dictionary changes only when a configuration is activated, and then holds exactly one engine row, with the engine of the row with the id |
| StorageStore.StorageTypeName | packages/@buildingai/constants/src/shared/storage-config.constant.ts:1-6 | every engine is stored under one of the four names |
| StorageStore.StorageTypeNameInjective | packages/@buildingai/constants/src/shared/storage-config.constant.ts:1-6 | different engines are stored under different names |
| StorageStore.Store.constructor | packages/web/@buildingai/upload/src/store.ts:7-9 | a new store does not know the storage type |
| StorageStore.Store.UpdateStorageType | packages/web/@buildingai/upload/src/store.ts:18-20 | the store then holds exactly the given type |
| StorageStore.Store.ClearCache | packages/web/@buildingai/upload/src/store.ts:22-24 | the store then forgets the type |
| StorageStore.Store.CheckStorageType | packages/web/@buildingai/upload/src/store.ts:26-34 | the server is asked exactly when no type is known; a known type is returned and kept, otherwise the server's answer is remembered and returned |
| ToolCalls.ExecuteToolCall | packages/api/src/modules/ai/chat/handlers/tool-call.handler.ts:30-116 | one tool call: a non-function call, an unknown tool, arguments that do not parse, or a record of the tool's output, as ExecuteToolCallOutcomes states case by case |
| ToolCalls.ExecuteToolCallOutcomes | packages/api/src/modules/ai/chat/handlers/tool-call.handler.ts:30-116 | a non-function call gives two nulls; an unknown tool gives a not-found error and no record; for a known tool the call fails as a whole exactly when its arguments do not parse, and otherwise yields a record of that call id, server and tool whose output is the tool result, a success exactly when the tool returned |
| ToolCalls.FailedCallRecorded | packages/api/src/modules/ai/chat/handlers/tool-call.handler.ts:85-114 | a tool that throws gives the message and its connection-error flag as the result and an error record carrying the message |
| ToolCalls.SucceededNeedsKnownTool | packages/api/src/modules/ai/chat/handlers/tool-call.handler.ts:38-51 | only a function call on a mapped tool can be recorded as a success |
| ToolCalls.ExecuteToolCalls | packages/api/src/modules/ai/chat/handlers/tool-call.handler.ts:125-146 | one result per call, in order, each the single call's result; the used names are exactly the names of function calls recorded as successes; a call that fails as a whole fails the run |
| UploadUtils.KeySet | packages/web/@buildingai/upload/src/utils.ts:2 | a single key gives the set of that key, an array the set of its members |
| UploadUtils.Without | packages/web/@buildingai/upload/src/utils.ts:3-5 | no longer than the input; holds exactly the entries whose key is not omitted |
| UploadUtils.Omit | packages/web/@buildingai/upload/src/utils.ts:1-6 | the entries whose keys are not omitted, in order (OmitMeaning); a bare key acts as the one-element array (OmitSingleKey); omitting twice is omitting once (OmitIdempotent) |
| UploadUtils.OmitMeaning | packages/web/@buildingai/upload/src/utils.ts:1-6 | no omitted key survives, every other entry survives with its value, nothing new appears |
| UploadUtils.OmitSingleKey | packages/web/@buildingai/upload/src/utils.ts:2 | a bare key and the one-element array of it omit the same entries |
| UploadUtils.WithoutNothing | packages/web/@buildingai/upload/src/utils.ts:3-5 | when no entry's key is omitted the object comes back unchanged, order included |
| UploadUtils.OmitIdempotent | packages/web/@buildingai/upload/src/utils.ts:1-6 | omitting the same keys twice equals omitting them once |
| Versions.Show | packages/@buildingai/utils/src/version.ts:149 | `String(n)` is a non-empty digit string, one digit below 10, no leading zero from 10 on, at most three digits up to 999 |
| Versions.ValueShow | packages/@buildingai/utils/src/version.ts:145-149 | parsing the printed form of a number gives the number back |
| Versions.ShowValue | packages/@buildingai/utils/src/version.ts:145-149 | a numeral without a leading zero is exactly the printed form of its value |
| Versions.ShowInjective | packages/@buildingai/utils/src/version.ts:149 | different numbers print differently |
| Versions.ValidSegmentIsShow | packages/@buildingai/utils/src/version.ts:119 | a segment `0\|[1-9]\d{0,2}` is exactly the printed form of a number from 0 to 999 |
| Versions.ShowValidSegment | packages/@buildingai/utils/src/version.ts:119 | every number up to 999 prints as a valid segment |
| Versions.Validate | packages/@buildingai/utils/src/version.ts:118-121 | accepts exactly three valid segments joined by two dots (ValidateIsPattern) |
| Versions.ValidateIsPattern | packages/@buildingai/utils/src/version.ts:118-121 | validate accepts exactly three valid segments joined by two dots |
| Versions.Padded | packages/@buildingai/utils/src/version.ts:139 | the padded parts are three, begin with the original parts and are "0" after them |
| Versions.FirstBadNone | packages/@buildingai/utils/src/version.ts:141-150 | no segment is rejected exactly when every segment is a numeral of value at most 999 |
| Versions.Normalized | packages/@buildingai/utils/src/version.ts:141-150 | one output per segment, each the segment's value printed without leading zeros |
| Versions.Format | packages/@buildingai/utils/src/version.ts:133-153 | the padding loop and the per-segment loop return or throw exactly what the format function does |
| Versions.FormatOf | packages/@buildingai/utils/src/version.ts:133-153 | succeeds exactly for at most three numerals of value at most 999 (FormatSucceeds) and names the offending part otherwise (FormatErrors); its output passes validate (FormatOutput) and formats to itself (FormatIdempotent) |
| Versions.FormatSucceeds | packages/@buildingai/utils/src/version.ts:133-153 | format succeeds exactly when there are at most three parts, each a numeral of value at most 999 |
| Versions.FormatErrors | packages/@buildingai/utils/src/version.ts:135-148 | more than three parts throws the segment-count error; otherwise a "not a number" or "exceeds 999" error names a part that is indeed not a numeral or is a numeral above 999 |
| Versions.FirstBadInRange | packages/@buildingai/utils/src/version.ts:141-148 | the segment an error names lies in range and is one the map rejects, for the reason the error gives |
| Versions.FormatOutput | packages/@buildingai/utils/src/version.ts:133-153 | a successful format prints the three padded values, each at most 999, without leading zeros, and its output passes validate |
| Versions.FormatValid | packages/@buildingai/utils/src/version.ts:118-153 | a version that passes validate is its own formatted form |
| Versions.FormatIdempotent | packages/@buildingai/utils/src/version.ts:133-153 | formatting a formatted version changes nothing |
| Versions.NumbersOfFormatted | packages/@buildingai/utils/src/version.ts:133-153 | the numbers read back from a formatted version are the numbers of the input |
| Versions.NumbersOfShown | packages/@buildingai/utils/src/version.ts:168-177 | three printed numbers joined by dots read back as those numbers |
| Versions.FormatPadsExample | packages/@buildingai/utils/src/version.ts:128-129 | "5" formats to "5.0.0" |
| Versions.FormatThreeSegments | packages/@buildingai/utils/src/version.ts:127-128 | three numeral segments format to their values without leading zeros, as "01.002.0003" to "1.2.3" |
| Versions.Compare | packages/@buildingai/utils/src/version.ts:167-183 | fails exactly when a version does not format, and otherwise orders the number triples lexicographically (CompareMeaning); swapping negates it (CompareAntisymmetric), and it is 0 exactly for versions that format alike (CompareZero) |
| Versions.CompareMeaning | packages/@buildingai/utils/src/version.ts:167-183 | compare fails exactly when either version fails to format, the first one's error first; otherwise it is 1, -1 or 0 as the (major, minor, patch) triples compare lexicographically |
| Versions.CompareNumbersIsLex | packages/@buildingai/utils/src/version.ts:179-182 | the three-step cascade is the lexicographic order on the triples |
| Versions.CompareAntisymmetric | packages/@buildingai/utils/src/version.ts:167-183 | swapping the arguments negates the result |
| Versions.CompareZero | packages/@buildingai/utils/src/version.ts:167-183 | compare is 0 exactly when both versions format to the same string |
| Versions.NormalizeRange | packages/@buildingai/utils/src/version.ts:25-27 | no "≥" or "≤" is left, and a range without them is unchanged |
| Versions.NormalizeRangeLocal | packages/@buildingai/utils/src/version.ts:25-27 | the rewrite distributes over concatenation and maps "≥" to ">=", "≤" to "<=" and every other character to itself |
| Versions.CheckCompatibility | packages/@buildingai/utils/src/version.ts:42-83 | no requirement means compatible; an invalid platform version is reported as such; compatible exactly when there is no requirement or the platform version is valid, the normalised range parses and is satisfied; a range-syntax reason quotes the requirement as written |
| Versions.IsValidVersionRange | packages/@buildingai/utils/src/version.ts:91-97 | an empty range is invalid; a non-empty range is valid exactly when its normalised form parses |
| Versions.CompatibleNeedsValidRange | packages/@buildingai/utils/src/version.ts:42-97 | a met requirement is a valid range, and for a valid platform version an invalid range is reported as a range-syntax error |
| ThirdParty.IsThirdPartyIntegrationEnabled | packages/api/src/modules/ai/agent/handlers/third-party-integration.handler.ts:340-343 | enabled exactly when the agent has a non-empty create mode other than "direct" |
| ThirdParty.GetThirdPartyConfig | packages/api/src/modules/ai/agent/handlers/third-party-integration.handler.ts:618-624 | the request's configuration is taken when present, else the agent's; it is returned exactly when it has a non-empty key and URL |
| ThirdParty.ExtractUserMessage | packages/api/src/modules/ai/agent/handlers/third-party-integration.handler.ts:629-635 | the content of the last user message, refused with its message when there is none (ExtractUserMessageMeaning) |
| ThirdParty.ExtractUserMessageMeaning | packages/api/src/modules/ai/agent/handlers/third-party-integration.handler.ts:629-635 | refused exactly when no message is a user message; otherwise the text of the last user message |
| ThirdParty.CompleteLines | packages/api/src/modules/ai/agent/handlers/third-party-integration.handler.ts:816-817 | no complete line contains a newline |
| ThirdParty.Rest | packages/api/src/modules/ai/agent/handlers/third-party-integration.handler.ts:817 | the kept remainder contains no newline |
| ThirdParty.ReadLines | packages/api/src/modules/ai/agent/handlers/third-party-integration.handler.ts:811-820 | after the read loop the lines handled are the complete lines of the whole stream, however it was split into chunks, the buffer is what follows the last newline, and the two join back into the stream |
| ThirdParty.HandleLines | packages/api/src/modules/ai/agent/handlers/third-party-integration.handler.ts:819-820 | the inner loop hands the lines to the handler one by one, in order |
| ThirdParty.FoldLinesAppend | packages/api/src/modules/ai/agent/handlers/third-party-integration.handler.ts:811-820 | handling two runs of lines in turn is handling their concatenation |
| ThirdParty.LinesOfBuffer | packages/api/src/modules/ai/agent/handlers/third-party-integration.handler.ts:815-817 | lines without newlines that join to the text are its complete lines, and the buffer its remainder |
| ThirdParty.DataPayload | packages/api/src/modules/ai/agent/handlers/third-party-integration.handler.ts:821-830 | a payload is taken only from a trimmed line starting with "data:", and is never empty or "[DONE]" |
| ThirdParty.ChunkTextSnoc | packages/api/src/modules/ai/agent/handlers/third-party-integration.handler.ts:842-856 | one more frame adds its text to the chunk text exactly when it is a chunk frame |
| ThirdParty.LineEvent | packages/api/src/modules/ai/agent/handlers/third-party-integration.handler.ts:821-833 | a line yields an event exactly when it is a data line with a payload that parses, and then the parsed payload |
| ThirdParty.DifyFold | packages/api/src/modules/ai/agent/handlers/third-party-integration.handler.ts:811-940 | the Dify stream folded over its lines equals the line-by-line fold (DifyFoldIsFoldLines), with the content, chunks and conversation id it accumulates (DifyFoldContent, DifyFoldChunks, DifyFoldConversation) |
| ThirdParty.DifyFoldIsFoldLines | packages/api/src/modules/ai/agent/handlers/third-party-integration.handler.ts:819-940 | the Dify handler used in the read loop is the line-by-line fold of the Dify line step |
| ThirdParty.DifyEvents | packages/api/src/modules/ai/agent/handlers/third-party-integration.handler.ts:819-833 | no more events than lines |
| ThirdParty.DifyIgnoresOtherLines | packages/api/src/modules/ai/agent/handlers/third-party-integration.handler.ts:821-830 | a blank line, a line that is not a data line, or an empty or "[DONE]" payload changes nothing |
| ThirdParty.DifyEventStep | packages/api/src/modules/ai/agent/handlers/third-party-integration.handler.ts:840-936 | one Dify event adds its answer to the answer text and the chunk frames, keeps the conversation id and only appends frames (DifyEventStepMeaning) |
| ThirdParty.DifyEventStepMeaning | packages/api/src/modules/ai/agent/handlers/third-party-integration.handler.ts:840-936 | one event adds its answer, if it answers, to both the answer text and the chunk frames, keeps the conversation id and only appends frames |
| ThirdParty.DifyAnswerStep | packages/api/src/modules/ai/agent/handlers/third-party-integration.handler.ts:841-857 | a "message" or "agent_message" event with an answer appends it to the answer and sends it as a chunk |
| ThirdParty.DifyThoughtStep | packages/api/src/modules/ai/agent/handlers/third-party-integration.handler.ts:858-921 | an "agent_thought" event adds no answer text and no chunk text and only appends frames |
| ThirdParty.DifyQuietStep | packages/api/src/modules/ai/agent/handlers/third-party-integration.handler.ts:923-936 | any other event leaves the answer, the frames and the conversation id alone |
| ThirdParty.DifyLineMeaning | packages/api/src/modules/ai/agent/handlers/third-party-integration.handler.ts:821-940 | one line changes nothing unless its payload parses; then the answer and the chunk text grow by the same text, the conversation id becomes the event's when non-empty, and frames are only appended |
| ThirdParty.DifyFoldContent | packages/api/src/modules/ai/agent/handlers/third-party-integration.handler.ts:811-940 | after any lines the answer is the starting answer followed by the answers of the answering events in order |
| ThirdParty.DifyFoldChunks | packages/api/src/modules/ai/agent/handlers/third-party-integration.handler.ts:811-940 | after any lines the chunk frames spell out exactly the added answer |
| ThirdParty.DifyFoldConversation | packages/api/src/modules/ai/agent/handlers/third-party-integration.handler.ts:835-837 | after any lines the conversation id is the last non-empty one seen, else the starting one |
| ThirdParty.DifyLineConversation | packages/api/src/modules/ai/agent/handlers/third-party-integration.handler.ts:835-837 | one line sets the conversation id exactly when its event carries a non-empty one |
| ThirdParty.DifyEventsIds | packages/api/src/modules/ai/agent/handlers/third-party-integration.handler.ts:835-837 | the conversation ids of the lines' events grow by the last line's non-empty id, if any |
| ThirdParty.NoChunks | packages/api/src/modules/ai/agent/handlers/third-party-integration.handler.ts:858-921 | frames that are not chunk frames add nothing to the chunk text |
| ThirdParty.DifyStream | packages/api/src/modules/ai/agent/handlers/third-party-integration.handler.ts:756-975 | the stream's answer, conversation id, usage, message id and frames are those of handling the complete lines of the whole stream from the request's conversation id |
| ThirdParty.DifyStreamMeaning | packages/api/src/modules/ai/agent/handlers/third-party-integration.handler.ts:756-975 | the answer of a Dify stream is the joined answers of its answering events, the chunk frames spell out exactly that answer, and the conversation id is the last non-empty one, else the request's, else empty |
| ThirdParty.CozeDataStepContent | packages/api/src/modules/ai/agent/handlers/third-party-integration.handler.ts:1145-1252 | a payload adds its content to the answer, and sends exactly that as chunk text, only when it is an assistant answer delta |
| ThirdParty.CozeLine | packages/api/src/modules/ai/agent/handlers/third-party-integration.handler.ts:1122-1257 | one Coze line adds exactly its added text to the answer and the chunks (CozeLineContent), and only an assistant answer delta adds text (CozeLineAddedOnlyDelta) |
| ThirdParty.CozeLineContent | packages/api/src/modules/ai/agent/handlers/third-party-integration.handler.ts:1122-1257 | a line adds to the answer exactly its added text and sends exactly that as chunk text |
| ThirdParty.CozeDataLine | packages/api/src/modules/ai/agent/handlers/third-party-integration.handler.ts:1133-1257 | a data line whose payload parses grows the answer and the chunk text by the same text |
| ThirdParty.CozeOtherLine | packages/api/src/modules/ai/agent/handlers/third-party-integration.handler.ts:1122-1136 | any other line leaves the answer and the frames alone and adds no text |
| ThirdParty.CozeLineAddedOnlyDelta | packages/api/src/modules/ai/agent/handlers/third-party-integration.handler.ts:1150-1163 | only a parsed payload that is an assistant answer delta under "conversation.message.delta" adds text |
| ThirdParty.CozeEventLine | packages/api/src/modules/ai/agent/handlers/third-party-integration.handler.ts:1127-1130 | an "event:" line changes only the current event type, to the trimmed rest of the line |
| ThirdParty.CozeFold | packages/api/src/modules/ai/agent/handlers/third-party-integration.handler.ts:1115-1257 | the Coze stream folded over its lines equals the line-by-line fold (CozeFoldIsFoldLines), with the content and chunks it accumulates (CozeFoldContent, CozeFoldChunks) |
| ThirdParty.CozeFoldIsFoldLines | packages/api/src/modules/ai/agent/handlers/third-party-integration.handler.ts:1122-1257 | the Coze handler used in the read loop is the line-by-line fold of the Coze line step |
| ThirdParty.CozeFoldContent | packages/api/src/modules/ai/agent/handlers/third-party-integration.handler.ts:1115-1257 | over any lines the answer grows by exactly the text the lines add |
| ThirdParty.CozeFoldChunks | packages/api/src/modules/ai/agent/handlers/third-party-integration.handler.ts:1115-1257 | over any lines the chunk frames spell out exactly the text the lines add |
| ThirdParty.CozeStream | packages/api/src/modules/ai/agent/handlers/third-party-integration.handler.ts:1050-1269 | the stream's result and frames are those of handling the complete lines of the whole stream, and the chunk frames spell out exactly the answer |
| ThirdParty.ContextKeyInjective | packages/api/src/modules/ai/agent/handlers/third-party-integration.handler.ts:1294 | different platforms store their conversation ids under different keys |
| ThirdParty.PrepareContext | packages/api/src/modules/ai/agent/handlers/third-party-integration.handler.ts:1282-1308 | the conversation id a platform reads from the metadata: none without metadata, and the non-empty id stored for this platform otherwise (PrepareContextPerPlatform) |
| ThirdParty.PrepareContextPerPlatform | packages/api/src/modules/ai/agent/handlers/third-party-integration.handler.ts:1282-1308 | a record without metadata gives no conversation id; storing an id for another platform changes nothing; a non-empty id stored for this platform is the one used |
| Records.FirstIndex | packages/api/src/modules/membership/services/order.service.ts:362-375 | the lookup behind each `findOne`: an index found is the first element that matches, and none found means no element matches |
| Records.AddUserPower | packages/api/src/modules/schedule/services/membership-gift.service.ts:267-281 | exactly that user's balance rises by the amount, one log carrying the amount, association and expiry is appended, and every other table is kept |
| Records.DeductUserPower | packages/api/src/modules/schedule/services/membership-gift.service.ts:139-151 | exactly that user's balance falls by the amount, one log with nothing left to expire is appended, and every other table is kept |


## Left out

- The desktop shell (`packages/desktop/src-tauri/src/lib.rs`) is Tauri start-up code with nothing to state.
- HTTP requests, the Dify suggested-question fetch, the market request and the MCP transport are out: their answers are parameters.
- The semver library (`valid`, `validRange`, `satisfies`, `gt`) and `JSON.parse` are parameters, not models.
- Concurrency is out: the advisory lock and the cron trigger of the gift schedule, abort signals, and the timing of `res.write`.
- Time zones are out: dates are calendar dates on the proleptic Gregorian calendar in UTC.
- Clocks are out: the current time is a parameter, and tool-call timestamps and durations are not modelled.
- Byte decoding is out: `TextDecoder` is taken as already applied, so the event stream arrives as decoded text chunks.
- The event stream's trailing partial line, which the source never handles after the last chunk, is modelled as kept unhandled.
- Floating-point arithmetic is out: prices are integers, with a missing price as `None`, and the income rounding is not modelled.
- The billing service in another package is not part of this model: `Records.AddUserPower` and `Records.DeductUserPower` model its effect as a balance change plus one appended account log.
- Account-log and order numbers are parameters.
- The refund record written by the refund service (`initiateRefund`) is not part of this model; the refund's own updates are.
- Cache expiry (TTL) of the feature cache is not modelled.
- The console route constants (login, home, console, forbidden, middleware) are parameters.
- The stores' network calls are inputs: the initialisation check's answer or failure, whether the user is logged in, whether user info is loaded, and the permission list a load returns. A fatal error is a value of the outcome, not a thrown exception.
- `hasPermission` is modelled as membership in the permission list.
- RouteMiddleware.ConsoleGuard: an empty `permissionCode` is treated like an absent one, as the source's truthiness test does.
- RouteMiddleware.CompareRoutes: `localeCompare` is modelled as ordinal comparison of characters, which differs from locale collation for non-ASCII text.
- Text.ToLower and Text.ToUpper: case mapping is modelled for ASCII letters only; other characters are left unchanged.
- RequestUtil.ResolveDomain: stops before the fallback for local hosts, which reads the `Referer` header and the `APP_DOMAIN` environment variable through `new URL`.
- RequestUtil.ResolveDomain: the two ways the source reads a header (`request.get` and `request.headers`) are one input per header.
- RequestUtil.NormalizeHost: it is not idempotent ("h:443:443" loses one port per call), and a counterexample lemma shows it; idempotence is proved only for a host that does not end in the port twice.
- ExtensionIdentifier and CliExtension validators: `defaultMessage` texts are not modelled; only the accept/reject decision and its reason are.
- AuthGuard: the business codes are symbolic values; the numbers they carry are not modelled. An unauthorized error raised without a code has the code `None`.
- MemberOnlyGuard.CanActivate: `isEnabled(user.isRoot)` is taken as a boolean.
- MembershipOrders.SubmitOrder: the `membershipStatus` dictionary value is a boolean input.
- Versions.CheckCompatibility: the incompatibility reason is a value carrying what the message quotes, not the message text.
- StorageConfigs.UpdateConfig: when no configuration is active, the source fails with a `TypeError` on `null`; here that is an `Err` with its own message.
- StorageConfigs.UpdateConfig: the dto's `name` field is not modelled.
- StorageConfigs.UpdateConfig: an update without fields, which TypeORM refuses, is not modelled.
- StorageConfigs: a configuration's JSON value is limited to an object of string fields.
- PayConfigMigration: a configuration's JSON value is limited to an object of string fields; other JSON values and non-string fields are not modelled.
- AgentChat.ConversationTitle: a `string` here counts Unicode characters, where JavaScript's `length` and `substring` count UTF-16 code units. A message with characters outside the Basic Multilingual Plane is therefore cut at a different place: 11 emoji are 22 code units, so the source shortens them to 10 emoji and "...", while the model keeps all 11.
- ExtensionIdentifier.Validate: the 214 bound counts Unicode characters, not UTF-16 code units. The accept/reject decision is still the same, because a name with a character outside ASCII fails the pattern check anyway.
- CliExtension.ValidateIdentifier: the length ≥ 12 rule counts Unicode characters, not UTF-16 code units. It runs only after the character check has passed, and that check admits only `[a-z0-9-]`, so both counts agree there.
- MembershipValidation.GetUserMembershipInfo: the ids are taken from the loaded level (`sub.level.id`), while the source collects the subscription's own `levelId` column. The two are equal for a loaded relation, and the source's `levelId!` on a missing id is not modelled.
- MembershipValidation.GetUserMembershipInfo: a level's rank is always a number here, so the `?? 0` fallback for a missing rank is not modelled.
- ThirdParty.ExtractUserMessage: a message's content is plain text, so `extractTextFromMessageContent` over multi-part content is not modelled: that helper belongs to another package and is not part of this model, and the text content is returned as it is.
- MembershipGift.ProcessGrant: the level's `givePower` is looked up by the subscription's `levelId` column instead of read from the loaded `level` relation; a missing level gives 0 either way.
- Pay: the payment time written by a callback is the callback's `now`.
- Pay.MembershipEndTime: overflow of `setMonth` past the end of a month follows the ECMA-262 `MakeDay` rule. This is unlike `getNextMonthSameDay`, which clamps, and both are modelled as written.
- ThirdParty: a tool frame's input and ids are not carried in the modelled frames; their kind, platform, tool name and output are.
- CliExtension: the terminal is a finite sequence of typed answers; a prompt loop that runs out of answers yields `None`.
- CliExtension: the release command's semver checks and the filesystem writes of the CLI (package files, spawn, database inserts) are out.
- Nuxt UI modals, plugins and environment files, thin API wrappers, seeders and upgrade scripts are out.

## Findings

| source | as written | input that shows it | evidently intended | confidence | as-written member | corrected member |
|---|---|---|---|---|---|---|
| packages/api/src/modules/ai/chat/handlers/message-context.handler.ts:21-29 | `const { _reasoning_content, ...rest } = message` destructures a key named `_reasoning_content`, so `reasoning_content` stays in `rest` and every message is returned unchanged | an assistant message with a `reasoning_content` key | the assistant message without its `reasoning_content` key | not executed | MessageContext.ClearReasoningAsWrittenKeepsReasoning | MessageContext.ClearReasoning |
| packages/api/src/modules/ai/chat/handlers/message-context.handler.ts:61-65 | with a system message and `maxContext` 1, `remainingCount` is 0 and `slice(-0)` is `slice(0)`, so every other message is kept | `maxContext` 1 and two messages, the first a system message: the result has both | the system message alone, at most `maxContext` messages | not executed | MessageContext.WindowOfOneAsWritten | MessageContext.WindowBound |
