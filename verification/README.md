# Moddery API: a verified model of its stateful core and codecs

Moddery is a catalog of Minecraft projects: an API over a relational database, with an OpenSearch index and a
Redis cache beside it, and a web front end. This project models the parts of it whose correctness spans several
functions, and proves what they promise. `dafny verify dfyconfig.toml` checks everything.

Services that update rows are classes whose fields are the tables (and, for the catalog, the index and the
cache). Each method is proved against a specification function on the old tables, and the lasting promises are
proved about these functions, over every run of calls. Loops of the source are loops here; expression-like code
is functions.

| file | models |
|---|---|
| `Catalog.dfy` | what every catalog call does to the tables alone: the simple form |
| `CatalogService.dfy` | the catalog services with index and cache, which must agree with the simple form |
| `CacheRace.dfy`, `IndexRace.dfy` | the slug cache and the search index when the steps of calls interleave |
| `ReadModel.dfy` | rows, contracts, search documents, tag filters |
| `Credentials.dfy`, `CredentialRuns.dfy`, `AccountsService.dfy` | accounts, sessions, API tokens, one-time tokens, two factors |
| `CredentialWitness.dfy` | a run after which a user with two factors is locked out |
| `ResetRace.dfy`, `VerificationRace.dfy` | password resets and email confirmations when the steps of calls interleave |
| `Teams.dfy`, `TeamsService.dfy`, `Audit.dfy` | team membership, its audit log, and the log's JSON |
| `TeamsWitness.dfy` | a run that reaches an error raised after its effect |
| `Friendship.dfy` | friend requests, acceptance, removal, blocking |
| `VersionFiles.dfy`, `Storage.dfy`, `Slug.dfy` | release files, object keys and URLs, slugs |
| `UrlParsing.dfy` | a URL parser for schemes with an authority, whatever reads the authority |
| `PublicBase.dfy`, `PublicBaseWitness.dfy` | the public base under which release files must lie: when printer and checker agree, and bases for which they do not |
| `Base32.dfy`, `Totp.dfy`, `Int32.dfy` | base32 (section 6 of RFC 4648), one-time codes (section 4 of RFC 6238, section 5.3 of RFC 4226), 32-bit integers |
| `ScanFraming.dfy` | the ClamAV INSTREAM framing |
| `PercentEncoding.dfy`, `Routing.dfy` | percent encoding (section 2.1 of RFC 3986) and the web routes |
| `Analytics.dfy` | the thirty-day buckets |
| `Text.dfy` | trimming, ASCII case mapping, splitting, joining |

## What was found

Most promises hold on all inputs. These do not, and for each the exact condition is proved.

- Normalizing a slug twice is normalizing it once exactly when the text to be cut at 64 characters is no longer than
  that or has no dash just before the cut (`Slug.NormalizedAgain`; `Slug.EndsWithDash` gives a text where it has).
- A scanned download is read back whole exactly when it has no empty chunk: an empty chunk is sent as the
  terminator itself (`ScanFraming.RecoversExactly`).
- The URL printed for a release file is refused by the check on release files under some public bases the environment
  accepts: the printer strips slashes only and appends, the check strips white space first and compares what URL parsing
  makes of both. It is accepted exactly when the base has a readable authority, no query and no fragment, a path that
  does not end in an empty segment once backslashes are read as slashes and dot segments are resolved, and behind it no
  white space but such as URL parsing or the host ignores, with no slash before it (`PublicBase.PrintedIsAccepted`).
  `https://h/x?y`, a base ending in a backslash and a base ending in a blank fail (`PublicBaseWitness.QueryBaseRefused`,
  `PublicBaseWitness.BackslashBaseRefused`, `PublicBaseWitness.BlankBaseRefused`).
- A cached contract can outlive the invalidation that follows an archive, when a lookup read the row before the
  archive and fills the cache after it (`CacheRace.OutlivesInvalidation`). Exactly the runs where no change of the row
  falls between a lookup's reading the row and its filling the cache keep the cache current
  (`CacheRace.CurrentExactly`, and from the cache alone `CacheRace.StaleExactly`).
- An archived project can stay in the search index until its next change, when a call that approved it stores its document after the
  archiving call removed it (`IndexRace.ArchivedStaysIndexed`). Exactly the runs where no change falls between a call's
  reading the row and its writing the document never leave the index wrong (`IndexRace.RightExactly`).
- A password reset token can be redeemed twice, or after it was superseded, when a confirmation read it before: the
  write does not ask again whether the token is unused. Among used, superseded and expired tokens exactly those held
  by a confirmation in progress can still set a password (`ResetRace.DeadRedeemedExactly`). With whole calls as single
  steps no token is redeemed twice (`CredentialRuns.ResetRedeemedOnce`).
- A user can be verified for an address no token was ever issued for: the confirmation does not look at the address
  again when it writes. This comes about exactly when the address is changed to such a one while a confirmation holds a
  token of the user (`VerificationRace.WrongExactly`; `VerificationRace.CrossingWrong` gives the run). With whole calls
  as single steps every verified address was confirmed by its own token (`CredentialRuns.VerifiedByRedeeming`).
- A user with two factors enabled who begins setting them up again is locked out of every login until the new
  secret is confirmed or two factors are turned off, with a right code. Over every run these are exactly the users no
  code lets in (`CredentialRuns.StuckExactly`, `CredentialRuns.LockedOutExactly`; `CredentialWitness.LocksOut` gives
  the run).
- Someone other than the owner who adds a member to an organization's team, or removes one, gets NotFound although
  the membership was changed and logged. This happens exactly when a manager who is not the owner names someone who is
  not the owner, and for a removal someone who is a member (`Teams.AddCallYetNotFound`, `Teams.RemoveCallYetNotFound`;
  `TeamsWitness` gives a run that reaches both).
- The number of a release is checked when it is given as text and not when it is given as null: an update of a release
  takes its number away exactly when it gives null, is let through, and no other release of the project is without a
  number (`Catalog.NumberLost`; `Catalog.NumberLostAt` gives tables where it happens).
- A permission-denied record also fills the team-member action slot, and a membership record also fills the
  denied-resource slot (`Audit.ActionSlotsTell`); security and moderation actions are told apart by the action's
  name alone (`Audit.ActionNamesDecide`).
- The thirty analytics days are consecutive exactly when no UTC midnight falls between the readings of the clock
  inside the loop (`Analytics.ThirtyDays`), and the window totals equal the bucket totals exactly when no event lies
  outside the buckets (`Analytics.WindowTotals`).
- Approving a project leaves its archive time in place; only restoring clears it (`Catalog.ArchiveTimeStays`).
- In the first thirty seconds of 1970 a code check throws instead of answering, since the counter before the first
  is negative (`Totp.VerifyTotp`).

## Model

| member | source | states |
|---|---|---|
| CatalogService.Services.constructor | apps/api/src/catalog/services/catalog.service.ts:20-24 | with empty tables, index and cache everything agrees; every method below then keeps it: the index holds exactly the approved projects, each document shows its row but for the update time, every cached contract shows the current approved row, followers count follow rows, downloads count download events |
| CatalogService.Services.CreateProject | apps/api/src/catalog/services/project-management.service.ts:45-131 | the call on the tables alone, index and cache still in agreement, and no insert into the category, version or loader tables ever meets a row already there |
| CatalogService.Services.UpdateProject | apps/api/src/catalog/services/project-management.service.ts:133-182 | the call on the tables alone, rolled back whole when a licence key is blank or a link unreadable; index and cache repaired |
| CatalogService.Services.DeleteProject | apps/api/src/catalog/services/project-management.service.ts:184-219 | only an accepted owner deletes; the project goes with its versions and files, its document and its cached contract |
| CatalogService.Services.ModerateProject | apps/api/src/catalog/services/project-moderation.service.ts:153-226 | every decision leaves the index holding exactly the approved projects, whatever the status was before |
| CatalogService.Services.LockProjectForModeration | apps/api/src/catalog/services/project-moderation-locks.service.ts:23-60 | a lock for thirty minutes that keeps the time it was first taken, shown at once; the index needs no repair |
| CatalogService.Services.ReleaseProjectModerationLock | apps/api/src/catalog/services/project-moderation-locks.service.ts:62-99 | only the holder of a lock releases it; the release is shown at once |
| CatalogService.Services.AddProjectGalleryImage | apps/api/src/catalog/services/project-gallery.service.ts:27-48 | the image is shown at once, the index untouched and still right; image ids stay unique |
| CatalogService.Services.UpdateProjectGalleryImage | apps/api/src/catalog/services/project-gallery.service.ts:63-84 | an image is found by its id alone, in a project whose details the user may change, and shown as changed at once |
| CatalogService.Services.RemoveProjectGalleryImage | apps/api/src/catalog/services/project-gallery.service.ts:50-61 | the image is gone from what is shown at once |
| CatalogService.Services.UpdateProjectFollow | apps/api/src/catalog/services/project-follows.service.ts:117-183 | following and unfollowing are idempotent on the follow rows, the counter counts them, and the partial update of the index always finds its document |
| CatalogService.Services.PrepareFileDownload | apps/api/src/analytics/analytics.service.ts:159-247 | one event, one more download of project and version, and the partial update of the index always finds its document |
| CatalogService.Services.FindProjectBySlug | apps/api/src/catalog/services/catalog.service.ts:73-96 | with calls one at a time the cache never shows: a contract is found exactly when an approved row has the slug, and equals it in every field the catalog and analytics services write |
| CatalogService.Services.SearchProjects | apps/api/src/catalog/services/catalog.service.ts:34-71 | the contracts of the page of hits, in its order with nothing dropped, each current, approved and wanted by the structured filter |
| CatalogService.Services.AddProjectToOrganization | apps/api/src/organizations/services/organization-management.service.ts:31-81 | only the owner of the organization who may change the settings of the project links the two; index and cache hear nothing of it and still agree |
| CatalogService.Services.RemoveProjectFromOrganization | apps/api/src/organizations/services/organization-management.service.ts:165-216 | the same user, and only a project of that organization, is unlinked; the agreement is kept |
| CatalogService.Services.ChangeMembers | apps/api/src/catalog/services/project-members.service.ts:101-228 | changes of the memberships of a project disturb no agreement |
| CatalogService.ManagerJoins | apps/api/src/catalog/services/project-members.service.ts:101-175 | by such a change any user who is no member can come to manage the project without owning it |
| CatalogService.Services.CreateVersion | apps/api/src/versions/services/versions.service.ts:59-180 | a verified author who may manage the versions of an approved project, files that pass the checks and scan clean, a number no other version of it has; the version waits for review with the trimmed columns and taxonomy and its files, counts no downloads, and none of the events is of it |
| CatalogService.ScanVersionFiles | apps/api/src/versions/services/versions.service.ts:665-681 | the first file in order that is not clean, or cannot be scanned, decides |
| CatalogService.Services.ModerateVersion | apps/api/src/versions/services/versions.service.ts:228-289 | the four decisions on status, requested status and publication time; the project is marked as updated and everything agrees again |
| CatalogService.Services.UpdateVersion | apps/api/src/versions/services/versions.service.ts:372-414 | the checks in their order; every column and the taxonomy patched or kept; a number another version has refused by the database with nothing changed, numbers unique within a project |
| Catalog.NumberLost | apps/api/src/versions/services/versions.service.ts:497-543 | a version loses its number if and only if the update gives a null number, asks for no status and no blank name, comes from a manager of the versions of an approved project, and no version of the project is without a number |
| Catalog.NumberLostAt | apps/api/src/versions/services/versions.service.ts:372-414 | a project with one version at which this happens |
| CatalogService.Services.DeleteVersion | apps/api/src/versions/services/versions.service.ts:416-456 | only a manager of the versions; download events outlive their version, so every counter stays right |
| CatalogService.Services.RefreshProjectAfterVersionChange | apps/api/src/versions/services/versions.service.ts:475-494 | the document is rebuilt or removed by status and the agreement kept |
| CatalogService.HitsAreWanted | apps/api/src/catalog/services/catalog.service.ts:40-62 | while index and tables agree, filtering the index by string tags finds exactly the approved projects the structured filter wants |
| CatalogService.RewriteAgrees | apps/api/src/catalog/services/project-management.service.ts:168-182 | a row written, its document rebuilt or removed by its new status, its slug invalidated: agreement again |
| CatalogService.UnindexedAgrees | apps/api/src/catalog/services/project-gallery.service.ts:145-156 | writes of rows no document shows need only the invalidation |
| CatalogService.FollowAgrees | apps/api/src/catalog/services/project-follows.service.ts:173-176 | changing one number of the document is as good as rebuilding it |
| CatalogService.DownloadAgrees | apps/api/src/analytics/analytics.service.ts:205-235 | the same for a download, with the counters of project and version |
| CatalogService.InsertRows | apps/api/src/catalog/services/project-write-model.ts:20-36 | inserting values one by one succeeds exactly when they are distinct |
| CatalogService.NewRows | apps/api/src/catalog/services/project-management.service.ts:72-117 | all rows of a new project are inserted without meeting one already there |
| CatalogService.UpdateRows | apps/api/src/catalog/services/project-write-model.ts:84-141 | the update is committed exactly when every given licence key and link can be read |
| Catalog.FindBySlug | apps/api/src/catalog/services/catalog.service.ts:82-85 | the one project of a slug, or none only when there is none |
| Catalog.UniqueNormalized | apps/api/src/catalog/services/project-write-model.ts:213-221 | distinct and not blank |
| Catalog.NormalizedValues | apps/api/src/catalog/services/project-write-model.ts:213-221 | exactly the trimmed, lower-case, non-blank values given |
| Catalog.LoadersDistinct | apps/api/src/catalog/services/project-write-model.ts:64-82 | mapping names to loaders repeats none, since no two names mean one loader |
| Catalog.KeptDistinct | apps/api/src/catalog/services/project-write-model.ts:39-62 | dropping what is not a game version repeats none |
| Catalog.ArchiveTimeStays | apps/api/src/catalog/services/project-moderation.service.ts:300-333 | over any decisions: the archive time is that of the last archiving unless a restoring came after it; the project is public exactly when the last decision approves or restores |
| Catalog.PutKeeps | apps/api/src/catalog/services/project-moderation.service.ts:166-180 | replacing one project row keeps slugs and image ids unique and every counter right |
| Catalog.NewKeeps | apps/api/src/catalog/services/project-management.service.ts:52-117 | so does a new project with a slug no other has |
| Catalog.DeleteKeeps | apps/api/src/catalog/services/project-management.service.ts:206-213 | so does deleting one, with everything that belongs to it |
| Catalog.DownloadKeeps | apps/api/src/analytics/analytics.service.ts:205-226 | so does counting a download: project downloads count its events, version downloads the events of that version |
| Catalog.DeleteVersionKeeps | apps/api/src/versions/services/versions.service.ts:449-456 | so does deleting a version, whose events stay without it |
| Catalog.ContractsCount | apps/api/src/catalog/services/project-read-model.ts:193-244 | every contract shown to the public counts the follow rows and download events of its project |
| CacheRace.ReturnsOnceApproved | apps/api/src/catalog/services/catalog.service.ts:73-96 | under every interleaving of row writes, invalidations, expiries and the steps of lookups, a lookup returns only contracts that were the approved row of the slug at some earlier moment |
| CacheRace.SettledIsCurrent | apps/api/src/catalog/services/project-moderation-locks.service.ts:39-98 | from a moment when the slug is neither cached nor about to be, if no change of its row falls between a lookup reading the row and filling the cache, and the last change has been followed by its invalidation, the cache holds the current row |
| CacheRace.CurrentExactly | apps/api/src/catalog/services/catalog.service.ts:73-96 | the condition is exact: what is held and cached is current at every moment if and only if no change of the row met a lookup holding it |
| CacheRace.StaleExactly | apps/api/src/catalog/services/catalog.service.ts:80-92 | seen from the cache alone: invalidating and then letting a lookup finish leaves an old contract at some moment if and only if a change met a lookup holding the row |
| CacheRace.OutlivesInvalidation | apps/api/src/catalog/services/catalog.service.ts:80-92 | otherwise it need not: a concrete interleaving after which an archived project is shown as approved although its slug was invalidated |
| IndexRace.SettledIsRight | apps/api/src/catalog/services/project-moderation.service.ts:166-217 | with writing the row, reading it and writing the document apart: while no change meets a call that holds the row, what calls hold is right, and so is the index once the last change was followed by its repair |
| IndexRace.RightExactly | apps/api/src/catalog/services/project-moderation.service.ts:166-217 | a call that goes on to write its document can leave the index wrong at some moment if and only if a change met a call holding the row |
| IndexRace.ArchivedStaysIndexed | apps/api/src/catalog/services/project-moderation.service.ts:209-217 | two interleaved decisions after which an archived project stays in the index with no repair to come |
| ReadModel.TagFiltersField | apps/api/src/catalog/services/project-read-model.ts:246-286 | a document has a tag exactly when the field the tag's prefix names holds the rest of the tag |
| ReadModel.OnePrefix | apps/api/src/catalog/services/project-read-model.ts:246-281 | no tag has two of the five prefixes, so no field is mistaken for another |
| ReadModel.NormalizedTags | apps/api/src/search/search.service.ts:180-182 | exactly the trimmed, non-blank tags |
| ReadModel.FilterIsStructured | apps/api/src/catalog/services/catalog.service.ts:99-107 | filtering by the query's tags is filtering by fields: every given tag, the loader and the game version, trimmed at the end, each hold |
| ReadModel.DocumentsAgree | apps/api/src/catalog/services/project-read-model.ts:256-276 | a document shows nothing of licence name, organization or owner; of the ambient rows only the update time |
| AccountsService.Accounts.LogIn | apps/api/src/auth/services/auth.service.ts:36-88 | a session only for an active user with the right password and, with two factors enabled, a right code against a confirmed secret |
| AccountsService.Accounts.RegisterUser | apps/api/src/auth/services/auth.service.ts:419-460 | a new user only when no user has the name in any case or the address; signed in, with one verification token issued |
| AccountsService.Accounts.RequestReset | apps/api/src/auth/services/auth.service.ts:90-143 | the live reset tokens of the user are superseded by one new one |
| AccountsService.Accounts.ConfirmReset | apps/api/src/auth/services/auth.service.ts:223-289 | a live token only; the password replaced, the token used, every session and API token of the user revoked |
| AccountsService.Accounts.RequestVerification | apps/api/src/auth/services/auth.service.ts:291-364 | at most one pending token for a user and address |
| AccountsService.Accounts.ConfirmVerification | apps/api/src/auth/services/auth.service.ts:366-417 | a live token whose address is still the user's |
| AccountsService.Accounts.UpdateProfile | apps/api/src/users/services/users.service.ts:44-76 | a different address is unverified, the same address stays as it was, another user's address conflicts |
| AccountsService.Accounts.SetUpTwoFactor | apps/api/src/auth/services/auth.service.ts:145-165 | the new secret replaces the old one, unconfirmed |
| AccountsService.Accounts.TurnTwoFactorOn | apps/api/src/auth/services/auth.service.ts:167-195 | a right code confirms the secret and enables two factors together |
| AccountsService.Accounts.TurnTwoFactorOff | apps/api/src/auth/services/auth.service.ts:197-221 | a right code removes the secret and disables two factors together |
| AccountsService.Accounts.CreateApiToken | apps/api/src/auth/services/api-tokens.service.ts:79-120 | a named token that lasts 1 to 3660 days or for ever |
| AccountsService.Accounts.RevokeApiToken | apps/api/src/auth/services/api-tokens.service.ts:122-154 | only one's own token; revoking again changes only the time |
| AccountsService.Accounts.RevokeSession | apps/api/src/auth/services/auth.service.ts:567-605 | only one's own session |
| AccountsService.Accounts.UpdateAccount | apps/api/src/users/services/user-admin.service.ts:65-143 | a status other than active revokes every credential of the user in the same transaction; administrators cannot restrict themselves |
| AccountsService.Accounts.UpdateAccountFromText | apps/api/src/users/services/user-admin.service.ts:198-218 | unknown roles and statuses are refused before anything is read |
| AccountsService.Accounts.VerifyBearer | apps/api/src/auth/services/auth-token.service.ts:74-176 | a session token that is refused for any reason is tried as an API token; only the use time changes |
| CredentialRuns.Run | apps/api/src/auth/services/auth.service.ts:36-605 | every state reachable with a monotone clock: at most one live reset token per user, at most one live verification token per user and address, verified addresses confirmed by a redeemed token, addresses unique, two factors enabled only with a secret |
| CredentialRuns.AcceptedHasCredential | apps/api/src/auth/services/auth-token.service.ts:102-176 | whoever is accepted has an unexpired, unrevoked credential and an active account |
| CredentialRuns.AcceptedIssuedLater | apps/api/src/auth/services/auth.service.ts:244-276 | over every run: an accepted bearer token was issued after its user's every confirmed password reset and every change to a status other than active; making the account active again revives none |
| CredentialRuns.RevokedNeverAccepted | apps/api/src/users/services/user-admin.service.ts:85-99 | over every run: a credential once revoked never identifies anyone again |
| CredentialRuns.RunPersists | apps/api/src/users/services/user-admin.service.ts:146-167 | no call un-revokes a credential, loses it, or hands it to another user |
| CredentialRuns.ClearsAll | apps/api/src/users/services/user-admin.service.ts:85-99 | right after a confirmed reset or a restriction every credential of the user is revoked |
| CredentialRuns.OnlyNewPassword | apps/api/src/auth/services/auth.service.ts:244-256 | over every run: after a confirmed reset only the new password signs in, until the next confirmed reset of the same user |
| CredentialRuns.ResetRedeemedOnce | apps/api/src/auth/services/auth.service.ts:223-276 | over every run of whole calls: no reset token is redeemed twice |
| ResetRace.DeadRedeemedExactly | apps/api/src/auth/services/auth.service.ts:223-276 | with reading and writing apart: a used, superseded or expired token can set a password again if and only if a confirmation holds it |
| ResetRace.RedeemedAgainExactly | apps/api/src/auth/services/auth.service.ts:244-276 | a token just redeemed can be redeemed again if and only if a second confirmation had read it before |
| ResetRace.UnsharedRedeemedOnce | apps/api/src/auth/services/auth.service.ts:223-276 | a token that no second confirmation holds when it is redeemed is never redeemed again |
| ResetRace.SupersededRedeemedExactly | apps/api/src/auth/services/auth.service.ts:110-128 | a new request ends the earlier tokens of its user except for confirmations that hold them |
| ResetRace.BothSucceed | apps/api/src/auth/services/auth.service.ts:223-276 | a concrete interleaving of two confirmations that both redeem one token, the second password standing |
| CredentialRuns.SupersededNotRedeemed | apps/api/src/auth/services/auth.service.ts:110-128 | over every run of whole calls: no reset token is redeemed after a later one was issued to its user |
| CredentialRuns.VerificationRedeemedOnce | apps/api/src/auth/services/auth.service.ts:366-410 | over every run of whole calls: no verification token is redeemed twice |
| CredentialRuns.UsedWasRedeemed | apps/api/src/auth/services/auth.service.ts:396-410 | a used verification token was redeemed by some call of the run |
| CredentialRuns.VerifiedByRedeeming | apps/api/src/users/services/users.service.ts:44-76 | over every run of whole calls: a verified user redeemed, at the time the row gives, a token issued to that user for exactly the current address |
| VerificationRace.WrongExactly | apps/api/src/auth/services/auth.service.ts:366-410 | with reading and writing apart: at some moment a user is, or by finishing a confirmation would be, verified for an address no token was issued for, if and only if the address was changed to such a one while a confirmation held a token of the user |
| VerificationRace.CrossesExactly | apps/api/src/users/services/users.service.ts:44-76 | such a change is a profile update to an address that is not taken and that no token of the user is for |
| VerificationRace.VerifiedWasIssued | apps/api/src/auth/services/auth.service.ts:366-410 | without such a change every verified user was issued a token for the address |
| VerificationRace.CrossingWrong | apps/api/src/auth/services/auth.service.ts:366-410 | registering, reading, changing the address and finishing verifies the new address |
| CredentialRuns.NewReset | apps/api/src/auth/services/auth.service.ts:110-128 | superseding the live tokens and adding one leaves one live token |
| CredentialRuns.NewVerification | apps/api/src/auth/services/auth.service.ts:329-353 | issuing only when none is pending leaves at most one pending |
| CredentialRuns.LoginBlocked | apps/api/src/auth/services/auth.service.ts:64-76 | with two factors enabled and some code right, no code gets through exactly when the secret is unconfirmed |
| CredentialRuns.StuckExactly | apps/api/src/auth/services/auth.service.ts:145-221 | over every run: two factors are enabled with an unconfirmed secret if and only if they were set up again while enabled and no confirming or turning off with a right code came since; attempts with wrong codes change nothing |
| CredentialRuns.LockedOutExactly | apps/api/src/auth/services/auth.service.ts:64-76 | so with the right password, two factors enabled and some code right, every login is refused if and only if the run is such |
| CredentialRuns.SetupLocksOut | apps/api/src/auth/services/auth.service.ts:145-165 | setting up again while enabled refuses every login until the secret is confirmed or removed with a right code |
| CredentialWitness.SettingUpAgainHappens | apps/api/src/auth/services/auth.service.ts:145-195 | registering, setting up, enabling with a right code and setting up again is such a run, for every code the verifier accepts |
| CredentialWitness.LocksOut | apps/api/src/auth/services/auth.service.ts:36-88 | in that run the password and the code sign in just before the last call, and nothing does after it |
| Teams.Run | apps/api/src/catalog/services/project-members.service.ts:101-228 | every reachable state keeps: one owner per team, accepted; every other user's entries a chain, each before equal to the previous after, ending at the current row; permissions allowed and distinct |
| Teams.LogTellsMembership | apps/api/src/organizations/services/organization-management.service.ts:105-274 | over every run: the stored JSON of the log, read back, replays to exactly the current membership of every user who is not the owner |
| Teams.ChainTells | apps/api/src/audit/audit.service.ts:137-165 | a log determines the membership it ends at |
| Teams.LogStep | apps/api/src/catalog/services/project-members.service.ts:150-172 | one row written and one entry with the snapshots before and after keep every chain |
| Teams.AddedYetNotFound | apps/api/src/organizations/services/organization-management.service.ts:107-162 | once the actor may manage: NotFound after a change if and only if the actor is not the owner and names someone who is not the owner; then the member is written and logged; the owner is told of success |
| Teams.RemovedYetNotFound | apps/api/src/organizations/services/organization-management.service.ts:231-276 | the same of removing, if and only if the one named is also a member; then the member is gone and the removal logged |
| Teams.AddCallYetNotFound | apps/api/src/organizations/services/organization-management.service.ts:83-163 | the if-and-only-if of the whole call, from the texts it is given |
| Teams.RemoveCallYetNotFound | apps/api/src/organizations/services/organization-management.service.ts:218-277 | the same of the whole call that removes |
| TeamsWitness.AddingReachesNotFound | apps/api/src/organizations/services/organization-management.service.ts:83-163 | a run of founding, inviting and accepting after which a manager adds a guest and is answered NotFound |
| TeamsWitness.RemovingReachesNotFound | apps/api/src/organizations/services/organization-management.service.ts:218-277 | the run goes on: the manager removes the guest and is answered NotFound |
| TeamsWitness.SomeFit | apps/api/src/organizations/services/organization-management.service.ts:83-163 | there are users, names and identifiers the run is possible with |
| Teams.CreateKeeps | apps/api/src/organizations/services/organizations.service.ts:14-57 | a new team starts with its one accepted owner and an empty chain for everyone else |
| TeamsService.MembershipService.AddProjectMember | apps/api/src/catalog/services/project-members.service.ts:101-175 | the step on the tables and the log; invariants kept |
| TeamsService.MembershipService.RemoveProjectMember | apps/api/src/catalog/services/project-members.service.ts:177-231 | the step on the tables and the log; an owner is never removed |
| TeamsService.MembershipService.AddOrganizationMember | apps/api/src/organizations/services/organization-management.service.ts:83-163 | the step, its error raised after its effect |
| TeamsService.MembershipService.RemoveOrganizationMember | apps/api/src/organizations/services/organization-management.service.ts:218-277 | the step, its error raised after its effect |
| TeamsService.MembershipService.Accept | apps/api/src/teams/services/teams.service.ts:59-98 | only one's own pending invitation; logged as a change of the row |
| TeamsService.MembershipService.Decline | apps/api/src/teams/services/teams.service.ts:100-137 | only one's own pending invitation; the row goes, logged |
| TeamsService.MembershipService.RemoveProject | apps/api/src/catalog/services/project-management.service.ts:184-219 | the team goes with every membership row |
| TeamsService.MembershipService.RemoveOrganization | apps/api/src/organizations/services/organization-management.service.ts:279-306 | only the owner; the team goes with every membership row |
| Audit.ReadsBack | apps/api/src/audit/audit.service.ts:393-454 | for all seven writers the stored metadata is read back into exactly the written snapshots in their own slots, all other slots as listed |
| Audit.ActionSlotsTell | apps/api/src/audit/audit.service.ts:393-454 | with the action names the services use, which action slot is filled tells the kind of record, but for the two shared slots |
| Audit.ActionNamesDecide | apps/api/src/audit/audit.service.ts:478-495 | security and moderation actions are told apart by the action name alone |
| Audit.MembershipReadBack | apps/api/src/audit/audit.service.ts:137-165 | a membership change of a project or organization team is read back whole |
| Friendship.Run | apps/api/src/users/services/user-friendship-actions.service.ts:20-150 | every reachable state: at most one row for two users, none with oneself, accepted exactly when the acceptance time is set |
| Friendship.DualViews | apps/api/src/users/services/user-friendship-contracts.ts:76-99 | the two users of a row see each other, from opposite directions |
| Friendship.CrossingRequests | apps/api/src/users/services/user-friendship-actions.service.ts:32-45 | requests that cross end accepted, and the nested acceptance succeeds |
| Friendship.BlockEndsByRemoval | apps/api/src/users/services/user-friendship-actions.service.ts:88-108 | a block ends exactly when one of the two removes the other |
| Friendship.AcceptedByAddressee | apps/api/src/users/services/user-friendship-actions.service.ts:57-86 | friendship begins only with the consent of the one who was asked |
| Friendship.FriendshipService.SendFriendRequest | apps/api/src/users/services/user-friendship-actions.service.ts:20-55 | the step on the rows; invariants kept |
| Friendship.FriendshipService.AcceptFriendRequest | apps/api/src/users/services/user-friendship-actions.service.ts:57-86 | the step on the rows; invariants kept |
| Friendship.FriendshipService.Remove | apps/api/src/users/services/user-friendship-actions.service.ts:88-108 | the step on the rows; invariants kept |
| Friendship.FriendshipService.Block | apps/api/src/users/services/user-friendship-actions.service.ts:110-150 | the step on the rows; invariants kept |
| VersionFiles.ValidateVersionFiles | apps/api/src/versions/services/version-files.ts:65-141 | the nested loops find the first error of the request in its order |
| VersionFiles.AcceptsExactlyValid | apps/api/src/versions/services/version-files.ts:65-141 | accepted exactly when the request is valid: 1 to the maximum of files, exactly one primary, distinct trimmed names, archives at URLs of the project, positive safe sizes, distinct known algorithms with values |
| VersionFiles.FileStore.CreateVersionFiles | apps/api/src/versions/services/version-files.ts:15-63 | a storable request never throws: one row per file in order under new ids, its hash rows with it, the upsert's update branch never taken |
| VersionFiles.AcceptedIsStored | apps/api/src/versions/services/version-files.ts:15-141 | an accepted request is storable, its keys pairwise distinct, with exactly one primary and one hash row per supplied hash |
| PublicBase.PrintedIsAccepted | apps/api/src/storage/storage.service.ts:82-162 | for every base with a scheme and an authority, and however authorities are read: every URL printed for a release file, trimmed as its check trims it, is accepted for the same base and project if and only if the base fits |
| PublicBase.JudgedExactly | apps/api/src/versions/services/version-files.ts:150-178 | what it is to fit: a readable authority, no query, resolved segments not ending in an empty one, no slash left, white space only in a host that ignores it |
| UrlParsing.LeadUnder | apps/api/src/versions/services/version-files.ts:165-178 | a path begins with another and a slash if and only if its segments begin with the other's and there are more |
| Storage.AcceptedForOneKeyPart | apps/api/src/versions/services/version-files.ts:150-178 | a URL accepted for one slug is accepted for another exactly when their key parts are the same |
| Storage.AcceptedForOneProject | apps/api/src/versions/services/version-files.ts:150-178 | for slugs the service makes no URL is accepted for two projects |
| PublicBaseWitness.WebJudged | apps/api/src/storage/storage.service.ts:400-405 | for bases of the web the condition read off authority, path and the white space behind them |
| PublicBaseWitness.BaseTaken | apps/api/src/versions/services/version-files.ts:150-178 | behind a base such as `https://h/a` every release file is printed a URL that is accepted |
| PublicBaseWitness.QueryBaseRefused | apps/api/src/versions/services/version-files.ts:150-178 | with a query or fragment behind it, every one is refused |
| PublicBaseWitness.BackslashBaseRefused | apps/api/src/versions/services/version-files.ts:150-178 | so it is with a backslash behind it |
| PublicBaseWitness.BlankBaseRefused | apps/api/src/versions/services/version-files.ts:150-178 | and with a blank behind it |
| PublicBaseWitness.SomeRequest | apps/api/src/storage/storage.service.ts:82-162 | for every slug the service makes there is an upload that passes the checks on the input |
| PublicBaseWitness.SomeWeb | apps/api/src/config/env.validation.ts:63-63 | `https://h/a` is such a base |
| Slug.Shape | apps/api/src/catalog/services/project-write-model.ts:161-168 | at most 64 plain characters, never a dash first, and none last below the full length |
| Slug.NormalizedAgain | apps/api/src/catalog/services/project-write-model.ts:161-168 | normalizing again changes nothing if and only if the plain text between its dashes is at most 64 long or has no dash as its 64th character |
| Slug.EndsWithDash | apps/api/src/catalog/services/project-write-model.ts:161-168 | a text for which normalizing twice is not normalizing once |
| Slug.SlugIsKeyPart | apps/api/src/storage/storage.service.ts:409-411 | slugs are their own key parts |
| Base32.Encode | apps/api/src/auth/services/auth.service.ts:656-675 | with an accumulator that wraps at 32 bits and is never masked, the output is the 5-bit groups of the bit string, zero-padded |
| Base32.Decode | apps/api/src/auth/services/auth.service.ts:677-694 | with an accumulator that wraps at 32 bits and is never masked, the output is the whole bytes of the bit string, other characters passed over |
| Base32.RoundTrip | apps/api/src/auth/services/auth.service.ts:656-694 | decoding undoes encoding for every byte sequence, whose length becomes ceil(8n/5); the padding yields no byte |
| Base32.EncodeThenDecode | apps/api/src/auth/services/auth.service.ts:656-694 | the same of the two loops |
| Totp.TotpCode | apps/api/src/auth/services/auth.service.ts:640-654 | six digits of the 31-bit dynamic truncation modulo a million, and a range error outside the 64-bit counters |
| Totp.VerifyTotp | apps/api/src/auth/services/auth.service.ts:624-638 | true exactly for the codes of the three adjacent counters; false for anything but six digits; a range error before the first period has passed |
| Totp.AcceptedNearby | apps/api/src/auth/services/auth.service.ts:624-638 | a code generated at one time is accepted at every time at most one period away |
| Totp.OnlyThreeCounters | apps/api/src/auth/services/auth.service.ts:624-638 | an accepted code shows the value of one of three adjacent counters, all of whose times lie less than two periods away |
| Totp.CodesTell | apps/api/src/auth/services/auth.service.ts:653-653 | six digits determine the value |
| Totp.BinaryIsNumber | apps/api/src/auth/services/auth.service.ts:646-651 | masking, shifting and or-ing as 32-bit integers reads the 31-bit big-endian number |
| Totp.PaddedDecimal | apps/api/src/auth/services/auth.service.ts:653-653 | printing and padding shows all digits |
| Totp.ReadsInside | apps/api/src/auth/services/auth.service.ts:645-651 | on a twenty-byte digest no read falls outside |
| ScanFraming.Socket.ScanReadableStream | apps/api/src/scanner/clamav-scanner.service.ts:37-78 | the command, every chunk behind its length, the zero length |
| ScanFraming.ReceiveStream | apps/api/src/scanner/clamav-scanner.service.ts:49-65 | what a reader of length-prefixed blocks gets: the content up to the first empty chunk, and the rest left over |
| ScanFraming.RecoversExactly | apps/api/src/scanner/clamav-scanner.service.ts:155-163 | the content recovered and every byte consumed exactly when no chunk is empty |
| ScanFraming.SeesEverything | apps/api/src/scanner/clamav-scanner.service.ts:49-65 | the scanner sees all content exactly when nothing follows the first empty chunk |
| PercentEncoding.RoundTrip | apps/web/src/app/routing.ts:44-60 | decoding undoes encoding for every well-formed text |
| PercentEncoding.PlainOutput | apps/web/src/app/routing.ts:128-140 | encoded text has only unreserved characters and percent escapes, so no slash |
| Routing.DashboardEditRoundTrip | apps/web/src/app/routing.ts:44-60 | a printed edit path is read back as its target, by that reader alone, and by no static view |
| Routing.CollectionRoundTrip | apps/web/src/app/routing.ts:132-136 | the same for collections |
| Routing.UserRoundTrip | apps/web/src/app/routing.ts:128-130 | the same for users |
| Routing.OrganizationRoundTrip | apps/web/src/app/routing.ts:138-140 | the same for organizations |
| Routing.AtMostOneReader | apps/web/src/app/routing.ts:292-350 | no path at all is claimed twice among readers, project types and static views |
| Routing.ClaimedIsPrintable | apps/web/src/app/routing.ts:292-314 | whatever a reader claims has a printed path that is claimed as the same thing |
| Analytics.BuildDailyBuckets | apps/api/src/analytics/analytics.service.ts:292-326 | for any readings of the clock: one bucket per day first put, from the asked day on, each with the events of its day |
| Analytics.ProjectAnalytics | apps/api/src/analytics/analytics.service.ts:69-108 | each window total is the bucket total plus the events of days without a bucket |
| Analytics.NothingLost | apps/api/src/analytics/analytics.service.ts:311-337 | every event is in exactly one bucket or on a day that has none |
| Analytics.ThirtyDays | apps/api/src/analytics/analytics.service.ts:307-310 | thirty consecutive days ending today exactly when no midnight falls inside the loop |
| Analytics.WindowTotals | apps/api/src/analytics/analytics.service.ts:69-108 | with all readings on one day, a window total equals its bucket total exactly when no event is later than today |

## Left out

- Plumbing: sockets, mail, object-store signing, the ClickHouse, OpenSearch and Redis clients, NestJS wiring, GraphQL resolvers and input decorators.
- Cryptography: SHA-256, HMAC-SHA-1, bcrypt and JWT signing are parameters or taken as injective; random ids and tokens are taken as fresh; a signed session token is known only by the session id read out of it.
- Ranking and full-text scoring: a search result is any ordered list of documents that match the tag filter.
- Concurrency within one service call, except for the slug cache, the search index, password resets and email confirmations, whose steps interleave freely; elsewhere each call is one step, and reads the clock once.
- IndexRace.RightExactly: documents rebuilt or removed from a row; updates of one number of a document are not interleaved.
- VerificationRace.WrongExactly: sessions, passwords, resets and two factors are left out there, and who asks for a token is given.
- Text outside ASCII is not changed by the case mappings; white space is exactly what `trim` removes.
- PublicBase.PrintedIsAccepted: the base begins, apart from white space, with a scheme that is not `file`, under the schemes of the web with any slashes behind it and under others with two. Reading an authority (credentials, host names, ports) is any function. The slugs of the projects are slugs the service makes.
- CatalogService.Services.LockProjectForModeration: thirty minutes are taken without a change of clocks.
- CatalogService.Services.CreateVersion: what a scan finds is a parameter; of a file row only version, URL and latest scan are kept here (keys and hashes are in `VersionFiles.FileStore`), and dependencies of versions are not modelled.
- CatalogService.Services.AddProjectToOrganization: the reply names the organization, not its contract.
- CatalogService.Services.ChangeMembers: who may change memberships is modelled in `Teams`; here any change that leaves the owner in place is allowed.
- ResetRace.DeadRedeemedExactly: sessions and API tokens are left out there, and who asks for a reset is given.
- Catalog.UniqueNormalized: whether a text names a game version is a parameter.
- CatalogService.Services.FindProjectBySlug: licence names, organization names, owner profiles and the update time change without invalidation, so agreement is on all other fields; a moderator's profile in a lock is not modelled.
- CatalogService.Services.SearchProjects: clamping of limit and offset, and the total of hits, are not modelled.
- The order of gallery images with equal sort order, and of category, game-version and loader rows as a query returns them, is taken as the order of insertion.
- Audit.ReadsBack: dates in metadata are text, and the listing, filtering and paging of the log are not modelled.
- Teams.Run: notifications, the paging of invitations and members, and changes of ownership, which the services do not offer.
- Totp.VerifyTotp: the HMAC is any function to bytes; only `Totp.ReadsInside` speaks of its length.
- Routing: writing to the browser's history, the project paths with a query string, and hash sections.
- CredentialRuns.Run: a day is 24 hours when an API token expires, without the change of clocks; credential scopes, OAuth clients and linked accounts are not modelled.
- AccountsService.Accounts.LogIn: which row the database returns, when a name and an address of two users both match, is a parameter.
- Analytics: dates are day numbers; the all-time totals, and the recording of views, would add only sums.
- ClamAV replies, owner uploads, collections, reports, moderation notes, notifications and platform metadata would add only members settled by reading one branch.
