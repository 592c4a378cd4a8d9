# Platform store verification

A Dafny model of the Platform store's event pipeline and transactional state machines, with proofs of what they promise over
whole runs. Each exported store method is one atomic step on a set of tables, because the store holds a single database
connection; the production import, which commits once for each record, is modelled record by record, with processes that may
die after any transaction.

The model has two layers. Specification functions (`Mutations`, `Commands`, `Projections`, `Import`, `Limiter`, `Nonces`,
`Assertions`, `Mfa`) say what an operation does to the tables, branch by branch. Classes (`PlatformStore.Store`,
`CommandStore.Executor`, `ProjectionStore.Store`, `ImportStore.Job`, `Limiter.LoginLimiter`, `Assertions.Verifier`,
`Nonces.NonceTable`, `Mfa.Account`) update fields in place as the store does, and are proved against those functions. The
theorems are about runs: arbitrary sequences of operations.

- **Tables and mutations** (`Prelude`, `Events`, `Vocabulary`, `Tables`, `Mutations`, `Runs`, `Integrity`, `Store`): users,
  organisations, workspaces, memberships, products, entitlements, assignments and the outbox, the event vocabulary, and the
  invariant every mutation keeps.
- **Decisions** (`Decisions`, `Accounts`): for each mutation, exactly when it is carried out in terms of the rows, what it then
  writes, and which refusal it gives otherwise; what deactivating a user does over whole runs.
- **Lifecycle and authority** (`Lifecycle`, `Authority`, `Access`): who owns and may change what, versions and optimistic
  concurrency, archived organisations, product access.
- **Bootstrap** (`Bootstrap`, `Whitespace`, `Snapshots`, `Cursors`, `SnapshotReads`, `Feed`): a snapshot plus the events after its
  cursor is the canonical state; snapshot paging; the feed.
- **Commands** (`Commands`, `CommandStore`): idempotent membership commands and their retention.
- **Projection inbox** (`Projections`, `ProjectionDecisions`, `ProjectionSafety`, `ProjectionConvergence`, `ProjectionStore`): what
  each operation decides, what a consumer's inbox and checkpoint keep, and that out-of-order delivery converges.
- **Production import** (`Import`, `ImportTheory`, `ImportIntegrity`, `ImportStore`): batches, crashes, rollback, re-import, and the
  schema's constraints over all of them.
- **Replay and abuse protection** (`Limiter`, `Assertions`, `Nonces`, `Mfa`, `MfaDecisions`).

`dafny verify dfyconfig.toml` checks the whole project.

## Findings

Each names the lemma that says exactly when the code does what it promises, and one with an input for which it does not.

- Five mutations look a row up by a trimmed id but announce an id as it was given, and four of them break a consumer's mirror:
  creating an organisation, adding a member, changing a role, revoking an assignment. `Whitespace` proves for each that a trimmed
  id is exactly the condition, and gives an input. Revoking an entitlement does not, for a consumer that keys on the aggregate id. For a role change the member's row must itself be padded, which only an import can
  leave behind; `Whitespace.RoleChangesFollow`.
- Revoking an assignment checks authority on the organisation id as given but finds the row under the trimmed id, so with two
  organisations that differ by whitespace the owner of one can end an assignment of the other;
  `Authority.OrganisationAuthority`, `Authority.OutsiderRevokes`. That is also the one way in which anything of an archived
  organisation changes; `Lifecycle.ArchivedForever`, `Authority.ArchivedAssignmentEnds`.
- A snapshot finds a record's source event by its id as stored, while events are filed under trimmed ids;
  `Snapshots.ProvenanceIff`, `Snapshots.PaddedWorkspaceHasNoProvenance`.
- The projection inbox files an event under its id as given but marks it applied under the trimmed id, so an event whose id
  carries whitespace is accepted and never applied; `ProjectionConvergence.ConvergesIff`, `ProjectionConvergence.PaddedNeverApplied`.
- An organisation or workspace imported under a padded name, a membership with a padded giver, and an entitlement or assignment
  with a padded giver or revoker are stored trimmed but compared as given, so importing one again conflicts with its own row;
  `ImportTheory.ReimportCreatesNothingIff`, `ImportTheory.SpacedNameConflicts`.
- A padded `reconcile_only` policy passes validation but does not keep a record from being created;
  `ImportTheory.ReconcileOnlyCreatesIff`, `ImportTheory.PaddedPolicyCreates`.
- If the process dies between the last record and the final receipt, no later apply tells the stored receipt how many records
  were reconciled; only a rollback does; `ImportTheory.ReceiptCompleteIff`, `ImportTheory.CrashLosesSkipped`.
- The limiter's constructor can leave the maximum back-off below the base; the delay is then the base;
  `Limiter.MaxBelowBaseIff`, `Limiter.MaxBelowBase`. A block longer than the entry lifetime is forgotten early;
  `Limiter.LongBlockForgotten`, `Limiter.LongBlock`. Eviction does nothing when its last choice is the empty key, which is then
  the oldest entry; `Limiter.EvictionCanFailIff`, `Limiter.EmptyKeyOverflows`.
- A membership command answers with the user id as given, where the stored row has the trimmed one;
  `Commands.FirstResultAgrees`, `Commands.TabbedCommandAnswers`.
- An organisation administrator may not add another administrator directly, but may promote a plain member to one;
  `Authority.AdminsPromoteButDoNotAdd`. `Authority.ReachOfAdmins` states what is restricted.

## Model

| member | source | states |
|---|---|---|
| `Events.AppendAllGapless` | internal/db/sqlite/events.go:16-33 | appending events keeps outbox ids exactly 1..N and each aggregate's sequences exactly 1..k, adds exactly the given events, and never rewrites a row |
| `Events.SequencesExact` | internal/db/sqlite/events.go:20-26 | in a gapless outbox the sequences of one aggregate are exactly 1..k, increasing with the row id |
| `PlatformStore.Store.NextSequence` | internal/db/sqlite/events.go:20-26 | the scan for the greatest sequence of an aggregate yields the number of its rows plus one |
| `PlatformStore.Store.AppendEvent` | internal/db/sqlite/events.go:16-33 | a well-formed event is appended under the next id and sequence; a malformed one changes nothing |
| `PlatformStore.Store.Finish` | internal/db/sqlite/events.go:16-33 | all events of a transaction are appended, or every table is put back as it was |
| `PlatformStore.Store.CreateUserAccount` | internal/db/sqlite/users.go:17-50 | a new id with the user prefix gets its row and its event together; an id in use or without the prefix changes nothing; the invariant is kept |
| `PlatformStore.Store.SetUserActiveFlag` | internal/db/sqlite/users.go:105-137 | finds the user by its trimmed id, sets the flag to the one requested and announces that; setting the flag it already has writes nothing, not even an event; the invariant is kept |
| `PlatformStore.Store.FindCurrent` | internal/db/sqlite/organisation.go:311-322 | the search finds the one active row of the (scope, user), or there is none |
| `PlatformStore.Store.Authorise` | internal/db/sqlite/organisation.go:633-666 | the checks, in order, that decide who may change an organisation |
| `PlatformStore.Store.ProveScope` | internal/db/sqlite/access_scope.go:34-67 | the workspace scope decision and its three denials |
| `PlatformStore.Store.AuthoriseInWorkspace` | internal/db/sqlite/workspace.go:544-585 | workspace authority, and which error a denial is reported as |
| `PlatformStore.Store.InsertRow` | internal/db/sqlite/store.go:209-210 | an insert succeeds exactly when the id is new and no other row of the (scope, user) is active |
| `PlatformStore.Store.CreateOrganisationFor` | internal/db/sqlite/organisation.go:45-99 | refuses a bad id or name, an inactive founder and an id in use, in that order; else organisation, owner row and their two events are written together; the invariant is kept |
| `PlatformStore.Store.AddMember` | internal/db/sqlite/organisation.go:227-266 | refuses owner and viewer roles, callers without authority, an administrator added by a plain administrator, inactive targets and current members, in that order; else one row at version 1 and one event; the invariant is kept |
| `PlatformStore.Store.ChangeMemberRole` | internal/db/sqlite/organisation.go:293-344 | refuses a stale version, the owner's row, and the administrators' rows for plain administrators; else the current row is retired and its successor, one version higher, inserted, with one event; the invariant is kept |
| `PlatformStore.Store.DeactivateMember` | internal/db/sqlite/organisation.go:367-407 | refuses a stale version, the owner's row, and the administrators' rows for plain administrators; else the current row is retired and its removal announced; the invariant is kept |
| `PlatformStore.Store.ArchiveRows` | internal/db/sqlite/organisation.go:438-465 | reads the active rows of a scope, retires all of them, and owes one removal event for each |
| `PlatformStore.Store.ArchiveOrganisationById` | internal/db/sqlite/organisation.go:409-477 | only for the owner or a system administrator: archives the organisation, retires every active member and announces each removal before the archive; the invariant is kept |
| `PlatformStore.Store.RenameOrganisationById` | internal/db/sqlite/organisation.go:479-515 | refuses an empty or overlong trimmed name and callers who may not change the organisation; else stores and announces the trimmed name; the invariant is kept |
| `PlatformStore.Store.CreateWorkspaceIn` | internal/db/sqlite/workspace.go:42-97 | refuses a bad id or name, callers who may not change the organisation, and an id in use; else workspace, the creator's administrator row and their two events together; the invariant is kept |
| `PlatformStore.Store.TargetAllowed` | internal/db/sqlite/workspace.go:587-596 | a workspace target must be an active user with an active membership of the organisation |
| `PlatformStore.Store.AddToWorkspace` | internal/db/sqlite/workspace.go:220-259 | refuses the owner role, callers without authority, targets outside the organisation and current members, in that order; else one row at version 1 and one event; the invariant is kept |
| `PlatformStore.Store.ChangeRoleInWorkspace` | internal/db/sqlite/workspace.go:286-334 | refuses a stale version and the role already held; else the current row is retired and its successor, one version higher, inserted, with one event; the invariant is kept |
| `PlatformStore.Store.RemoveFromWorkspace` | internal/db/sqlite/workspace.go:357-394 | refuses a target outside the organisation, one that is no member, and a stale version, in that order; else the row is retired and its removal announced; the invariant is kept |
| `PlatformStore.Store.ArchiveWorkspaceById` | internal/db/sqlite/workspace.go:396-468 | workspace administrators may not: archives the workspace, retires every active member and announces each removal before the archive; the invariant is kept |
| `PlatformStore.Store.RetireProductByKey` | internal/db/sqlite/product.go:74-118 | only an active system administrator, and only an active product: it becomes retired, with one event; the invariant is kept |
| `PlatformStore.Store.Entitle` | internal/db/sqlite/product.go:120-170 | refuses unknown and retired products and a second active entitlement; else one active row and one event; the invariant is kept |
| `PlatformStore.Store.RevokeEntitlementById` | internal/db/sqlite/product.go:172-208 | finds the row by its trimmed id within the organisation named, refuses one already inactive; else it becomes inactive, with one event under the id as given; the invariant is kept |
| `PlatformStore.Store.Assign` | internal/db/sqlite/product_access.go:27-84 | refuses unknown and retired products, targets outside the organisation and a second active assignment; else one active row and one event; the invariant is kept |
| `PlatformStore.Store.RevokeAssignmentById` | internal/db/sqlite/product_access.go:86-122 | finds the row by trimmed ids, checks authority on the organisation id as given, refuses a row already inactive; else it becomes inactive, with one event under the ids as given; the invariant is kept |
| `Accounts.FlagIsSet` | internal/db/sqlite/users.go:105-137 | a successful call stores exactly the requested flag for exactly that user, leaves every other user's flag, and announces the requested flag if it is new |
| `Accounts.FlagOverRuns` | internal/db/sqlite/users.go:105-137 | last call wins: over any run of mutations a user's flag is that of the last successful call naming the user, or else unchanged |
| `Accounts.InactiveIsBarred` | internal/db/sqlite/workspace.go:544-553 | every mutation that needs an inactive user's authority fails, and the user proves neither a workspace scope nor access to a product |
| `Accounts.DeactivationBars` | internal/db/sqlite/users.go:105-137 | after a successful deactivation the user is barred in every later state of every run, until a call reactivates it |
| `Decisions.OrganisationRights` | internal/db/sqlite/organisation.go:633-666 | who may change an organisation, if and only if, in terms of the rows: an active user with an active owner, administrator or system administrator row in an active organisation; and which error the others get |
| `Decisions.WorkspaceRights` | internal/db/sqlite/workspace.go:544-585 | the same for a workspace: the organisation's administrators, and the workspace's own where the operation admits them and they belong to the organisation; and which error the others get |
| `Decisions.ScopeRights` | internal/db/sqlite/access_scope.go:34-67 | a workspace scope is proved exactly by those the rows entitle to it, an admin proof included, and names the organisation and the roles as stored; and which error the others get |
| `Decisions.SetUserActiveDecides` | internal/db/sqlite/users.go:105-137 | the flag requested is stored and announced for a known user; nothing is written where it is the flag already |
| `Decisions.CreateOrganisationDecides` | internal/db/sqlite/organisation.go:45-99 | exactly when an organisation is founded, and its row, owner row and two events; else which refusal, in order |
| `Decisions.AddMemberDecides` | internal/db/sqlite/organisation.go:227-266 | exactly when a member is added, in terms of the rows of actor and target, and the row and event; else which refusal, in order |
| `Decisions.MutableDecides` | internal/db/sqlite/organisation.go:293-322 | whose row may be changed: nobody's owner row, by owners and system administrators every other, by plain administrators the plain members'; at the version insisted on; else which refusal |
| `Decisions.ChangeRoleDecides` | internal/db/sqlite/organisation.go:293-344 | exactly when a role is changed, and the retired row, its successor and the event; else which refusal |
| `Decisions.DeactivateMemberDecides` | internal/db/sqlite/organisation.go:367-407 | exactly when a member is deactivated, and the retired row and the event; else which refusal |
| `Decisions.ArchiveOrganisationDecides` | internal/db/sqlite/organisation.go:409-477 | exactly when an organisation is archived: its flag, the end of every active row and no other, one removal for each with its user and role; else which refusal |
| `Decisions.RenameDecides` | internal/db/sqlite/organisation.go:479-515 | exactly when an organisation is renamed, to the trimmed name; else which refusal |
| `Decisions.CreateWorkspaceDecides` | internal/db/sqlite/workspace.go:42-97 | exactly when a workspace is created, and its row, the creator's row and two events; else which refusal |
| `Decisions.AddToWorkspaceDecides` | internal/db/sqlite/workspace.go:220-259 | exactly when a user is added to a workspace, and the row and event; else which refusal, in order |
| `Decisions.MutableInWorkspaceDecides` | internal/db/sqlite/workspace.go:286-334 | whose row in a workspace may be changed, by whom, at which version; else which refusal |
| `Decisions.ChangeInWorkspaceDecides` | internal/db/sqlite/workspace.go:286-334 | exactly when a workspace role is changed, and the retired row, its successor and the event; else which refusal |
| `Decisions.RemoveFromWorkspaceDecides` | internal/db/sqlite/workspace.go:357-394 | exactly when a user is removed from a workspace, and the retired row and the event; else which refusal |
| `Decisions.ArchiveWorkspaceDecides` | internal/db/sqlite/workspace.go:396-468 | exactly when a workspace is archived: its flag, the end of every active row and no other, one removal for each; else which refusal |
| `Decisions.RetireProductDecides` | internal/db/sqlite/product.go:74-118 | exactly when a product is retired: by an active user who is a system administrator somewhere; else which refusal |
| `Decisions.EntitleDecides` | internal/db/sqlite/product.go:120-170 | exactly when an organisation is entitled to a product, and the row and event; else which refusal |
| `Decisions.RevokeEntitlementDecides` | internal/db/sqlite/product.go:172-208 | exactly when an entitlement is revoked, by its trimmed id within the organisation named; else which refusal |
| `Decisions.AssignDecides` | internal/db/sqlite/product_access.go:27-84 | exactly when a product is assigned, and the row and event; else which refusal |
| `Decisions.RevokeAssignmentDecides` | internal/db/sqlite/product_access.go:86-122 | exactly when an assignment is revoked, found under the trimmed ids while authority is asked for the id as given; else which refusal |
| `Decisions.AccessDecides` | internal/db/sqlite/product_access.go:209-241 | access to a product is proved exactly when every link of the chain is there, and the proof names the organisation and workspace roles as stored |
| `Vocabulary.WellFormedIff` | internal/events/event.go:82-270 | an event passes validation if and only if every field of its payload meets the rule of its name |
| `Vocabulary.FiledUnder` | internal/events/event.go:177-270 | an event is filed under the entity its first field names, whose id carries the prefix of its kind |
| `Integrity.RunKeeps` | internal/db/sqlite/store.go:196-210 | every run of mutations keeps the invariant: unique current memberships, one owner row for each organisation, active exactly while it is, no active member of an archived organisation, no dangling reference, gapless outbox |
| `Integrity.ApplyKeeps` | internal/db/sqlite/store.go:196-326 | each single mutation keeps that invariant |
| `Lifecycle.OwnersOverRuns` | internal/db/sqlite/organisation.go:45-99 | after any run an active organisation has exactly one active owner and an archived one none |
| `Lifecycle.FounderOwnsForever` | internal/db/sqlite/organisation.go:45-99 | after any further run the creator's row is the organisation's only owner row, active exactly while the organisation is |
| `Lifecycle.RunRemembers` | internal/db/sqlite/organisation.go:323-331 | from any tables and over any run no membership row is ever lost or rewritten; the only change a row sees is its deactivation |
| `Lifecycle.ArchivedForever` | internal/db/sqlite/organisation.go:409-477 | after any further run an archived organisation has no active member, and its row, members, workspaces, workspace members and entitlements are as they were; its assignments are, if and only if the run holds no successful revocation under another organisation's id that trims to its own |
| `Lifecycle.StepFrozenIff` | internal/db/sqlite/product_access.go:97-115 | one step leaves everything of an archived organisation as it was if and only if it is no such revocation |
| `Lifecycle.CanonicalRunsFreeze` | internal/db/sqlite/product_access.go:97-115 | runs whose ids carry no surrounding whitespace hold no such revocation |
| `Lifecycle.TouchVersion` | internal/db/sqlite/organisation.go:311-339 | entering a scope starts a lineage, by an add at version 1; a role change moves it up by one, a removal ends it, and nothing else touches it |
| `Lifecycle.VersionCounts` | internal/db/sqlite/organisation.go:311-339 | over any run in which the user does not enter the scope anew, the active row's version is where it started plus the number of role changes |
| `Lifecycle.SpendingNeedsVersion` | internal/db/sqlite/workspace.go:307-314 | a role change or deactivation that insists on a version succeeds only while the active row has it |
| `Lifecycle.VersionSpentOnce` | internal/db/sqlite/workspace.go:307-329 | of all role changes and deactivations insisting on the same version, at most one succeeds until the user enters the scope anew, whatever runs in between; both scopes |
| `Whitespace.OnlyAddsEnter` | internal/db/sqlite/organisation.go:293-344 | after any run from the migrated tables the only way to enter a scope is to be added to it |
| `Authority.OrganisationAuthority` | internal/db/sqlite/organisation.go:633-666 | every successful change inside an organisation was asked for by an active user administering the active organisation named in the call, and writes rows of one organisation only: the one named, if and only if the call is not an assignment revocation under an untrimmed organisation id |
| `Authority.OutsiderRevokes` | internal/db/sqlite/product_access.go:86-122 | a concrete accepted call: the owner of the organisation 'org_1 ', who does not administer 'org_1', ends an assignment of 'org_1' |
| `Authority.ArchivedAssignmentEnds` | internal/db/sqlite/product_access.go:97-115 | the same with 'org_1' archived: the revocation succeeds and the archived organisation's assignment ends |
| `Authority.ArchiveAuthority` | internal/db/sqlite/organisation.go:425-427 | only the owner or a system administrator archives |
| `Authority.ReachOfAdmins` | internal/db/sqlite/organisation.go:244-246 | nobody changes or removes an owner's row; a plain organisation administrator adds only plain members and changes or removes only plain members |
| `Authority.AdminsPromoteButDoNotAdd` | internal/db/sqlite/organisation.go:244-246 | a plain organisation administrator is refused for adding anyone as an administrator, and succeeds in making any current plain member one |
| `Authority.WorkspaceAuthority` | internal/db/sqlite/workspace.go:544-553 | every successful change inside a workspace was made with organisation authority, or, archiving excepted, by a workspace administrator who belongs to the organisation |
| `Authority.WorkspaceMembersBelong` | internal/db/sqlite/workspace.go:587-596 | whoever is added to, changed in or removed from a workspace is then an active user and an active member of its organisation |
| `Authority.AssigneesBelong` | internal/db/sqlite/product_access.go:52-66 | products are assigned to active members of the organisation, while the product is active |
| `Authority.RetiredForGood` | internal/db/sqlite/product.go:74-118 | only an active system administrator retires a product, and no later run brings it back |
| `Bootstrap.MirrorsUnique` | internal/db/sqlite/platform_read_authority.go:274-319 | two sets of facts that mirror the same tables are equal |
| `Bootstrap.Superseded` | internal/db/sqlite/events.go:52-58 | folding a role change's supersession agrees with retiring the one current row |
| `Bootstrap.RemovalsFold` | internal/db/sqlite/organisation.go:438-465 | folding the removal events of an archive retires exactly the listed rows |
| `Bootstrap.ApplyFollows` | internal/db/sqlite/events.go:35-153 | the events of each mutation, folded onto facts that mirror the tables before, mirror the tables after |
| `Bootstrap.RunFollows` | internal/db/sqlite/events.go:35-153 | over every canonical run, folding the events appended since onto the facts at the start gives exactly the facts at the end |
| `Whitespace.AddFollowsIff` | internal/db/sqlite/organisation.go:247-265 | adding a member keeps a consumer's mirror if and only if the target id was given trimmed |
| `Whitespace.CreateFollowsIff` | internal/db/sqlite/organisation.go:45-99 | creating an organisation keeps a consumer's mirror if and only if the actor id was given trimmed |
| `Whitespace.ChangeFollowsIff` | internal/db/sqlite/organisation.go:323-343 | changing a role keeps a consumer's mirror if and only if the target id was given trimmed |
| `Whitespace.RevokeFollowsIff` | internal/db/sqlite/product_access.go:93-121 | revoking an assignment keeps a consumer's mirror if and only if the organisation id was given trimmed |
| `Whitespace.RoleChangesFollow` | internal/db/sqlite/organisation.go:293-344 | after any run of mutations every successful role change keeps the mirror, since members are entered under trimmed ids: a padded member row can only have been imported |
| `Whitespace.SpacedTargetNotFollowed` | internal/db/sqlite/organisation.go:247-265 | a concrete accepted call, adding the user " usr_b", after which the folded facts differ from the tables |
| `Whitespace.SpacedActorNotFollowed` | internal/db/sqlite/organisation.go:45-99 | a concrete accepted call: ' usr_a' founds an organisation, and the owner row and its event differ |
| `Whitespace.PaddedTargetNotFollowed` | internal/db/sqlite/organisation.go:323-343 | a concrete accepted call: the role of a member row held by 'usr_b ' is changed, the new row is given to 'usr_b', and its event names 'usr_b ' |
| `Whitespace.PaddedOrganisationNotFollowed` | internal/db/sqlite/product_access.go:86-122 | a concrete accepted call: an assignment of 'org_1' is revoked under 'org_1 ', which is what its event names |
| `Snapshots.ValidateKinds` | internal/db/sqlite/platform_read_authority.go:226-248 | accepts exactly the non-empty lists of known, distinct kinds, and returns them in canonical order |
| `Snapshots.SortedUnique` | internal/db/sqlite/platform_read_authority.go:305-317 | two canonically sorted sequences of the same keys are the same sequence |
| `Snapshots.ProvenanceIff` | internal/db/sqlite/platform_read_authority.go:659-699 | after any canonical run a record has provenance if and only if the id its events are filed under is trimmed, or it is a seeded product |
| `Snapshots.PaddedWorkspaceHasNoProvenance` | internal/db/sqlite/platform_read_authority.go:659-699 | a concrete run: the workspace 'wsp_1 ' is created and no event is filed under its id |
| `SnapshotReads.ReadOrdered` | internal/db/sqlite/platform_read_authority.go:331-331 | the ids of a table, once each, in byte order |
| `SnapshotReads.MaterialiseKind` | internal/db/sqlite/platform_read_authority.go:330-643 | the records of one kind: every row once, in order, with its fact and provenance; or some record has none |
| `SnapshotReads.KindAppended` | internal/db/sqlite/platform_read_authority.go:305-317 | concatenating the kinds in rank order is already the canonical order |
| `SnapshotReads.MaterialiseAll` | internal/db/sqlite/platform_read_authority.go:274-319 | the records of all requested kinds, complete and in canonical order |
| `SnapshotReads.CreateSnapshot` | internal/db/sqlite/platform_read_authority.go:41-131 | which requests are refused and with which error; else the snapshot holds exactly the canonical facts of the listed kinds with the outbox cursor of the same state |
| `SnapshotReads.KindOrderDoesNotMatter` | internal/db/sqlite/platform_read_authority.go:226-248 | requests naming the same kinds in any order and padding get the same records |
| `SnapshotReads.ListRecords` | internal/db/sqlite/platform_read_authority.go:151-203 | one page: the errors in order, else the next `limit` matching records, complete exactly if none remain |
| `SnapshotReads.ReadDecides` | internal/db/sqlite/platform_read_authority.go:151-175 | who may read a page and when, if and only if: the snapshot's reader, its own id, before it expires, with a limit of 1 to 500 and a known kind; and which error the others get |
| `SnapshotReads.CursorDecides` | internal/db/sqlite/platform_read_authority.go:826-842 | a cursor is taken if and only if it is blank, to begin with, or reads as an ordinal of this snapshot for this reader and kind |
| `SnapshotReads.PageIs` | internal/db/sqlite/platform_read_authority.go:176-203 | a page is the next records of its kind, at most the limit, complete exactly if those are all, with the cursor of its last record's place if not |
| `Cursors.Base64RoundTrip` | internal/db/sqlite/platform_read_authority.go:821-842 | decoding the unpadded URL base64 of any bytes gives the bytes (section 5 of RFC 4648) |
| `Cursors.JsonRoundTrip` | internal/db/sqlite/platform_read_authority.go:814-842 | reading the cursor object's text gives the fields it was written from |
| `Cursors.JsonExact` | internal/db/sqlite/platform_read_authority.go:814-842 | and nothing else is read: what reads was written from the fields it reads as |
| `Cursors.CursorsDiffer` | internal/db/sqlite/platform_read_authority.go:821-824 | cursors of different positions, kinds, consumers or snapshots are different texts |
| `SnapshotReads.CursorRoundTrip` | internal/db/sqlite/platform_read_authority.go:821-842 | the text of a cursor decodes to the ordinal it was made from, and only against its own snapshot, consumer and kind |
| `SnapshotReads.PagesExact` | internal/db/sqlite/platform_read_authority.go:151-203 | following page cursors with any limits yields the filtered records once, in order, ending in a complete page |
| `SnapshotReads.SnapshotThenChangesIsCanonical` | internal/db/sqlite/platform_read_authority.go:69-80 | a snapshot of all kinds plus the outbox rows after its cursor folds to exactly the tables' facts, after every canonical run |
| `SnapshotReads.FeedFromSnapshotIsCanonical` | internal/db/sqlite/events.go:251-312 | the same when the rows are read through the feed page by page while the outbox grows: wherever the consumer stops, it holds the facts the tables held at the point of the run whose last event it read |
| `Feed.ListEventsAfter` | internal/db/sqlite/events.go:251-312 | the feed loop: limit and cursor errors, gap detection, validation, page and next cursor |
| `Feed.PageExact` | internal/db/sqlite/events.go:251-312 | on a gapless outbox 1..N a gap is reported exactly for cursors beyond N; otherwise the page is the next rows |
| `Feed.ListDecides` | internal/db/sqlite/events.go:251-312 | on any outbox, gapless or not: the page is the rows past the cursor, cut at the limit, if and only if cursor and limit are in range and the rows run on without gap or malformed event; and which error otherwise |
| `Feed.FollowExact` | internal/db/sqlite/events.go:264-311 | following the feed from a cursor in 0..N delivers the rows after it once each and in order, with any limits, while the outbox grows |
| `Feed.FollowTerminates` | internal/db/sqlite/events.go:264-311 | on a still outbox the consumer reaches the end within as many reads as rows are left |
| `Feed.RunSound` | internal/db/sqlite/events.go:16-33 | over every run the outbox stays gapless and well-formed and only grows |
| `Commands.FirstResultAgrees` | internal/db/sqlite/membership_command.go:105-149 | the first answer's scope, role, active flag and version are those of the stored row, and so is its user, unless an organisation add or role change was given an untrimmed user id |
| `Commands.TabbedCommandAnswers` | internal/db/sqlite/membership_command.go:105-149 | a concrete command that request validation and the store accept: it adds 'usr_b' followed by a vertical tab, answers with that id, and stores 'usr_b' |
| `Commands.RecordedStays` | internal/db/sqlite/membership_command.go:27-43 | a recorded result survives every call but its clean-up, and commands under its key write nothing |
| `Commands.WritesOnce` | internal/db/sqlite/membership_command.go:18-72 | while a key's result is retained at most one command under it writes, whatever runs in between |
| `Commands.RetryReplaysFirst` | internal/db/sqlite/membership_command.go:27-43 | a retry with another hash is a conflict; with the same hash it returns the first result marked as replay if and only if the actor administers the scope by the rows of that moment, of the organisation or of the workspace; and which error otherwise; neither writes |
| `Commands.ActorDecides` | internal/db/sqlite/membership_command.go:92-103 | who may command in either scope, if and only if, in terms of the rows: an active user administering the open organisation or workspace; and which error the others get |
| `Commands.CommandsNeedRights` | internal/db/sqlite/membership_command.go:18-72 | no command succeeds, first or replayed, for an actor who does not administer the scope then |
| `Commands.FirstDecides` | internal/db/sqlite/membership_command.go:105-149 | under a new key a command succeeds exactly when the store mutation of its scope and operation does, insisting on its version, with that mutation's tables; else that mutation's error |
| `Commands.CleaningIsOldestFirst` | internal/db/sqlite/membership_command.go:74-90 | clean-ups with one bound delete the results made by then oldest first, a limit's worth each time until none is left, and nothing made later |
| `Commands.DayRetains` | internal/db/sqlite/membership_command.go:74-90 | no clean-up removes a result less than 24 hours old |
| `Commands.OnceADay` | internal/db/sqlite/membership_command.go:74-90 | within any 24 hours a new key writes at most once, however clean-ups are scheduled |
| `CommandStore.Executor.ExecuteCommand` | internal/db/sqlite/membership_command.go:18-72 | mutation and ledger row together or neither; every branch as specified |
| `CommandStore.Executor.Dispatch` | internal/db/sqlite/membership_command.go:105-149 | each scope and operation runs the mutation it stands for, or is unsupported |
| `CommandStore.Executor.Clean` | internal/db/sqlite/membership_command.go:74-90 | deletes the oldest eligible rows, at most the limit, and exactly these |
| `Access.ListAgreesWithProof` | internal/db/sqlite/product_access.go:169-241 | a product is listed as launchable exactly when access to it can be proved for the trimmed ids; only blank ids are refused |
| `Access.LaunchImpliesScope` | internal/db/sqlite/product_access.go:209-241 | provable product access implies the non-admin workspace scope, with the same organisation and role |
| `Access.AdminScopeIsScope` | internal/db/sqlite/access_scope.go:34-67 | an admin scope proof is a scope proof, with the same scope |
| `Access.RevokedAssignmentDenies` | internal/db/sqlite/product_access.go:86-122 | once an assignment is revoked, that user's access to that product can no longer be proved |
| `Access.RevokedEntitlementDenies` | internal/db/sqlite/product.go:172-208 | once an entitlement is revoked, nobody's access to the product in that organisation can be proved |
| `ProjectionStore.Store.ReadLowest` | internal/db/sqlite/projections.go:479-484 | the scan finds the row with the lowest (sequence, id) among those selected |
| `ProjectionStore.Store.ClassifyEvent` | internal/db/sqlite/projections.go:104-131 | how a new event is filed, in the order of the checks |
| `ProjectionStore.Store.UpsertAfterIngest` | internal/db/sqlite/projections.go:443-464 | the incremental checkpoint update, from the new row alone |
| `ProjectionStore.Store.Refresh` | internal/db/sqlite/projections.go:479-511 | the recomputed checkpoint is stored |
| `ProjectionStore.Store.IngestEvent` | internal/db/sqlite/projections.go:75-148 | a known event id is a duplicate if every field agrees and a conflict if not; else one new row, filed by the checkpoint alone, and the checkpoint's incremental update; the invariant is kept |
| `ProjectionStore.Store.MarkEventApplied` | internal/db/sqlite/projections.go:179-236 | applies a pending row exactly when it is next after an unblocked, available checkpoint, which then moves to it; every other case is the error its state calls for; the invariant is kept |
| `ProjectionStore.Store.PromoteGaps` | internal/db/sqlite/projections.go:267-288 | promotes at most one gap, and only the one next in sequence |
| `ProjectionStore.Store.ReconcileAggregate` | internal/db/sqlite/projections.go:238-296 | a missing, blocked or unavailable checkpoint is reported and left alone; else at most one gap is promoted and the checkpoint recomputed; the invariant is kept |
| `ProjectionStore.Store.MarkAggregateUnavailable` | internal/db/sqlite/projections.go:316-347 | the checkpoint, made if missing, becomes unavailable with the trimmed reason and keeps its last event; no row changes; the invariant is kept |
| `ProjectionStore.Store.ResumeAggregate` | internal/db/sqlite/projections.go:349-382 | an unavailable checkpoint is recomputed from the inbox; any other is reported as it is; the invariant is kept |
| `ProjectionDecisions.EventDecides` | internal/db/sqlite/projections.go:40-73 | which delivered events are refused, which are understood, and why one that is not is kept as blocked: schema version before vocabulary |
| `ProjectionDecisions.IngestDecides` | internal/db/sqlite/projections.go:75-148 | in terms of the rows: a known id is a duplicate or a conflict that changes nothing; a new event is filed by its schema, its sequence and its aggregate's checkpoint, with the reason, and the checkpoint moves as that calls for |
| `ProjectionDecisions.RecomputedFrom` | internal/db/sqlite/projections.go:479-511 | what a recomputation reads off the first outstanding row |
| `ProjectionDecisions.ApplyDecides` | internal/db/sqlite/projections.go:179-236 | an apply succeeds exactly for the pending row next after an open checkpoint, or finds it applied already; what it writes, and which answer otherwise |
| `ProjectionDecisions.ReconcileDecides` | internal/db/sqlite/projections.go:238-296 | a reconcile promotes the lowest gap exactly if it is next, and nothing else; the checkpoint is then a recomputation; which answer otherwise |
| `ProjectionDecisions.NeverUnderstood` | internal/db/sqlite/projections.go:54-62 | over every run an event of another schema version, or outside the vocabulary, is blocked with its reason from its ingest on, never pending, missing, stale or applied |
| `ProjectionDecisions.PassedIff` | internal/db/sqlite/projections.go:199-235 | a checkpoint has passed the sequence of a blocked row exactly if another row with that sequence was applied |
| `ProjectionDecisions.StuckHolds` | internal/db/sqlite/projections.go:179-296 | once blocked, an aggregate's checkpoint does not move and none of its rows is promoted or applied, over every run in which nobody marks it unavailable |
| `ProjectionDecisions.UnavailableHolds` | internal/db/sqlite/projections.go:316-382 | once marked, an aggregate reads unavailable and nothing of it is promoted or applied, over every run in which nobody resumes it |
| `ProjectionDecisions.NotUnderstoodShuts` | internal/db/sqlite/projections.go:75-148 | so an event that is not understood shuts its aggregate from its ingest on, unless that was unavailable already, until somebody acts on it |
| `ProjectionSafety.ActAllKeeps` | internal/db/sqlite/projections.go:199-235 | in every reachable state the applied rows are one row for each sequence 1..last, the last event id is the last one's, and no checkpoint understates trouble |
| `ProjectionSafety.IngestNeverUnderstates` | internal/db/sqlite/projections.go:443-464 | the incremental update leaves the checkpoint at least as severe as a recomputation would |
| `ProjectionSafety.CurrentIsSettled` | internal/db/sqlite/projections.go:479-511 | a checkpoint that reads current has nothing pending, missing or blocked behind it |
| `ProjectionSafety.AppliedExact` | internal/db/sqlite/projections.go:226-235 | right after an apply the checkpoint equals a recomputation |
| `ProjectionSafety.ReconciledExact` | internal/db/sqlite/projections.go:289-295 | right after a reconcile that refreshes the checkpoint equals a recomputation |
| `ProjectionSafety.ResumedExact` | internal/db/sqlite/projections.go:371-381 | right after a resume from unavailable the checkpoint equals a recomputation |
| `ProjectionSafety.ActAllLater` | internal/db/sqlite/projections.go:199-235 | over every run no inbox row is lost or rewritten, and applied, stale and blocked rows never change |
| `ProjectionConvergence.ActAllOnTrack` | internal/db/sqlite/projections.go:104-131 | whatever the order of delivery and the other work in between, the aggregate's rows fit its checkpoint and nothing turns stale or blocked |
| `ProjectionConvergence.RoundAdvances` | internal/db/sqlite/projections.go:267-288 | with all events delivered, one reconcile and one apply move the checkpoint on by exactly one |
| `ProjectionConvergence.Converges` | internal/db/sqlite/projections.go:179-296 | events 1..n delivered in any order with duplicates: n minus last rounds leave every event applied exactly once and the checkpoint current at n |
| `ProjectionConvergence.AppliesIff` | internal/db/sqlite/projections.go:179-236 | the row next in order can be applied under its own id if and only if that id is trimmed |
| `ProjectionConvergence.ConvergesIff` | internal/db/sqlite/projections.go:179-296 | that convergence holds if and only if every event id of the history is trimmed |
| `ProjectionConvergence.PaddedNeverApplied` | internal/db/sqlite/projections.go:184-199 | a concrete event, 'evt_x ': it is accepted as next to apply, cannot be found to be applied, and no run of the inbox applies it |
| `ImportStore.Job.ApplyOne` | internal/db/sqlite/platform_import.go:337-378 | one record's row, ledger entry and checkpoint are written together or not at all |
| `ImportStore.Job.Apply` | internal/db/sqlite/platform_import.go:85-143 | one call commits the next records up to its limit, stops at the first that fails with the earlier ones kept, and completes the run with the last one, wherever the process dies |
| `ImportStore.Job.Rollback` | internal/db/sqlite/platform_import.go:147-210 | lists the created records once, compensates them in reverse, each with its own transaction, and marks the run rolled back, wherever the process dies |
| `ImportTheory.ApplyRecordsAt` | internal/db/sqlite/platform_import.go:116-135 | the durable state is always the one after some number of records, with applied = created + reconciled = next and ledger rows exactly 0..next-1 |
| `ImportTheory.ApplyCallReaches` | internal/db/sqlite/platform_import.go:109-138 | a call from record n never gets more than its limit further; if its process lives it gets exactly to the lesser of n plus the limit and the end, or comes to rest before, at the first record that fails |
| `ImportTheory.LimitsAddUp` | internal/db/sqlite/platform_import.go:85-143 | calls with positive limits whose processes live arrive at n plus the sum of their limits, or at the end, if every record up to there applies; otherwise at the first record that fails |
| `ImportTheory.PausesExactly` | internal/db/sqlite/platform_import.go:109-138 | a failing record stops every call at it; where none fails up to the sum of the limits exactly so many records are applied, with their rows, journal, ledger and counters |
| `ImportIntegrity.ManifestDecides` | internal/db/sqlite/platform_import.go:219-287 | which manifests are applied, if and only if: known policies, distinct ids, and whatever a record belongs to at or before it; any other leaves every table as it is |
| `ImportIntegrity.RecordDecides` | internal/db/sqlite/platform_import.go:443-810 | which records are created, which reconciled and which refused, and with which error, in terms of the rows and unique indexes |
| `ImportIntegrity.LowerIs` | internal/db/sqlite/platform_import.go:443-483 | emails are stored without capitals, and told apart exactly where they differ in more than case |
| `ImportIntegrity.ImportsKeepConstraints` | internal/db/sqlite/store.go:196-326 | over every sequence of applies and rollbacks, of any manifests and with processes dying anywhere, no reference dangles and no unique index is violated, spelled out as the pairs of rows it forbids |
| `ImportTheory.BatchesAndCrashesDoNotMatter` | internal/db/sqlite/platform_import.go:85-143 | however an import is cut into limits and wherever its processes die, it ends in the same tables, status and counters as one full call, whether or not a record fails: both come to rest at the first failing record, and are completed if and only if there is none |
| `ImportTheory.ReceiptCompleteIff` | internal/db/sqlite/platform_import.go:366-371 | when a call applies the last record, the stored receipt's skipped count is right exactly if that call lived to persist it or nothing was reconciled; no later apply repairs it |
| `ImportTheory.CrashLosesSkipped` | internal/db/sqlite/platform_import.go:366-371 | a concrete import: one user already there, a process that dies after its record; the run is completed with one record reconciled and a receipt that says none |
| `ImportTheory.DeleteUndoesCreate` | internal/db/sqlite/platform_import.go:840-874 | deleting the last created record meets no foreign key and gives back the rows before it |
| `ImportTheory.RollbackInvertsApply` | internal/db/sqlite/platform_import.go:147-210 | after any prefix of an import and any number of interrupted rollbacks, a rollback restores the canonical rows exactly, keeps journal and ledger, and repeating it changes nothing |
| `ImportTheory.StoredMatchesIff` | internal/db/sqlite/platform_import.go:487-508 | a row made from a payload matches the payload again exactly if its trimmed fields were trimmed already |
| `ImportTheory.ReimportCreatesNothingIff` | internal/db/sqlite/platform_import.go:420-441 | importing the same records again succeeds, and then creates nothing, if and only if every created record was trimmed |
| `ImportTheory.SpacedNameConflicts` | internal/db/sqlite/platform_import.go:496-507 | a concrete organisation, named with a leading space, that conflicts with its own imported row |
| `ImportTheory.ReconcileOnlyCreatesIff` | internal/db/sqlite/platform_import.go:443-483 | a record whose trimmed policy is `reconcile_only` is created in a state if and only if the policy was padded and the state would create the record under the other policy; then with the same outcome |
| `ImportTheory.ReconcileOnlyEverCreatedIff` | internal/platform/reconciliation/production.go:326-331 | such a record is created by some state if and only if its policy was padded and some state would create it under the other policy |
| `ImportTheory.PaddedPolicyCreates` | internal/db/sqlite/platform_import.go:443-483 | a concrete manifest of one user with the policy ' reconcile_only': it is valid, and creates the user |
| `Limiter.MaxBelowBaseIff` | internal/auth/limiter.go:32-49 | the constructor leaves the maximum below the base exactly when it was configured so and the base exceeds a minute |
| `Limiter.MaxBelowBase` | internal/auth/limiter.go:32-49 | a concrete configuration: a base of two minutes and a maximum of ninety seconds leave a maximum of one minute |
| `Limiter.Backoff` | internal/auth/limiter.go:86-93 | the doubling loop computes the closed form: the base doubled for each failure past the threshold, cut at the maximum |
| `Limiter.DelayGrows` | internal/auth/limiter.go:86-93 | more failures never give a shorter delay, and with base at most maximum none exceeds the maximum |
| `Limiter.DelayDoubles` | internal/auth/limiter.go:86-93 | the first delay is the base and each further failure doubles it, up to the maximum |
| `Limiter.LoginLimiter.EvictOldest` | internal/auth/limiter.go:117-128 | the loop, whatever the order in which it iterates the map, deletes the choice its comparison makes, and deletes nothing when the choice is the empty key |
| `Limiter.EvictsOldest` | internal/auth/limiter.go:117-128 | without an empty key eviction removes an entry seen no later than any other |
| `Limiter.NothingEvictedIff` | internal/auth/limiter.go:117-128 | eviction leaves a non-empty map as it is if and only if the empty key is iterated last and strictly older than every other entry |
| `Limiter.EvictionCanFailIff` | internal/auth/limiter.go:117-128 | some iteration order makes eviction fail if and only if the empty key is an entry strictly older than every other |
| `Limiter.EmptyKeyOverflows` | internal/auth/limiter.go:77-128 | a concrete full limiter of capacity two that holds three entries after a failure |
| `Limiter.LoginLimiter.RecordFailure` | internal/auth/limiter.go:77-101 | the entry and delay after a failure, for any key and any iteration order of the eviction |
| `Limiter.LoginLimiter.RetryAfter` | internal/auth/limiter.go:64-75 | reports exactly the remaining block of an entry that is still kept |
| `Limiter.LoginLimiter.RecordSuccess` | internal/auth/limiter.go:103-107 | forgets the key and nothing else |
| `Limiter.FailureDecides` | internal/auth/limiter.go:77-101 | a failure counts on from what is still remembered of the key and blocks from the threshold on; the other keys remembered are as they were, but for one that may make room for a new key in a full map |
| `Limiter.RetryDecides` | internal/auth/limiter.go:64-75 | a key is blocked for what is left of its block, if it is remembered; asking counts as seeing it, and changes nothing else but to forget what was not seen within the lifetime |
| `Limiter.FailuresCount` | internal/auth/limiter.go:77-101 | k failures in a row, none too late, count k and block for the delay of that count |
| `Limiter.FailureNeverShortens` | internal/auth/limiter.go:77-101 | a further failure never brings the end of a block forward |
| `Limiter.BlockHolds` | internal/auth/limiter.go:64-101 | a block no longer than the entry lifetime stays reported to its end over every run that neither clears nor evicts the key |
| `Limiter.LongBlockForgotten` | internal/auth/limiter.go:109-115 | a longer block is forgotten when the entry lifetime ends |
| `Limiter.LongBlock` | internal/auth/limiter.go:109-115 | a concrete block of two minutes in a limiter that forgets entries after one |
| `Limiter.ConfiguredBlocksHold` | internal/auth/limiter.go:32-49 | with base at most maximum at most lifetime, every block is short enough to be reported to its end |
| `Limiter.CapacityKept` | internal/auth/limiter.go:77-128 | over every run in which the empty key does not fail the limiter never holds more entries than its capacity |
| `Assertions.Verifier.Verify` | internal/platform/assertion/assertion.go:270-323 | validation, pruning, replay check and recording, in that order |
| `Assertions.VerifyDecides` | internal/platform/assertion/assertion.go:270-388 | any token is accepted if and only if it is authentic, of this version, by this issuer, for one of these audiences, names a scope, lives no longer than the maximum, is within its window, and is not cached; the first of these that fails is the error |
| `Assertions.IssuedForAnotherIff` | internal/platform/assertion/assertion.go:226-388 | issued under one party's settings it is accepted under another's exactly if they share the issuer, the audience is one of the verifier's, its lifetime within the verifier's maximum, the time within the verifier's window and the id not cached there |
| `Assertions.IssueDecides` | internal/platform/assertion/assertion.go:226-268 | nothing is issued for a foreign audience, for ids that name no scope, or for longer than the issuer's maximum; which error, and which claims otherwise |
| `Assertions.IssuedIsAcceptedIff` | internal/platform/assertion/assertion.go:226-268 | an issued assertion is accepted exactly from the clock skew before issue until expiry, unless its id is cached |
| `Assertions.AcceptedAgainOnlyAfterExpiry` | internal/platform/assertion/assertion.go:308-323 | under a non-decreasing clock an id is accepted again only after its earlier expiry, with a later one |
| `Assertions.AcceptedOnce` | internal/platform/assertion/assertion.go:308-323 | if authentic assertions with the same id have the same expiry, no id is accepted twice over any run, whatever forged tokens it presents and despite pruning |
| `Assertions.CacheIsExact` | internal/platform/assertion/assertion.go:308-323 | right after an accepting call the cache holds exactly the accepted ids that have not expired |
| `Nonces.NonceTable.ReserveNonce` | internal/db/sqlite/platform_read_authority_auth.go:13-42 | expired nonces go, a replay is refused and undoes that, a new nonce is stored |
| `Nonces.NonceTable.Admit` | internal/platform/http/membership_command.go:47-91 | timestamp window, readable body, signature, availability and rate, in that order, then a reservation for 24 hours; a refused request reserves nothing |
| `Nonces.ReserveDecides` | internal/db/sqlite/platform_read_authority_auth.go:13-42 | a nonce is reserved exactly if consumer and nonce are of allowed length, the time is to come, and it is not held still; what has expired is forgotten then; which error otherwise |
| `Nonces.AdmissionDecides` | internal/platform/http/membership_command.go:47-91 | a signed command is admitted exactly if every check holds and its nonce can be reserved for a day; the first that fails is the answer |
| `Nonces.RefusedReservesNothing` | internal/platform/http/membership_command.go:47-91 | a request that is refused, an unauthentic one among them, leaves the table as it was |
| `Nonces.PassesOnce` | internal/platform/http/membership_command.go:47-91 | under a non-decreasing clock a signed request with fixed consumer, nonce and timestamp passes at most once in any run |
| `Mfa.MatchTotp` | internal/auth/mfa.go:53-67 | the loop finds the first of the three steps around now whose password is the code |
| `Mfa.Account.VerifyMfa` | internal/db/sqlite/mfa.go:16-62 | accepts a matching step above the last one and records it |
| `Mfa.Account.UseRecoveryCode` | internal/db/sqlite/mfa.go:64-123 | spends the first matching code among the first ten unused ones |
| `Mfa.Account.CompleteEnrollment` | internal/db/sqlite/mfa.go:166-243 | closes, counts a wrong code, or enables with ten fresh codes |
| `MfaDecisions.MatchIs` | internal/auth/mfa.go:53-67 | a code matches exactly the earliest of the step before, the present one and the step after whose password it is |
| `MfaDecisions.VerifyDecides` | internal/db/sqlite/mfa.go:16-62 | a sign-in is accepted if and only if the account is active and enabled and the code answers for a step later than the last accepted; that step is recorded, and nothing else changes |
| `MfaDecisions.FreshCodeSignsIn` | internal/auth/mfa.go:53-67 | the current code, the one before and the one after all sign in if later than the last accepted step, unless one password serves two of the steps |
| `MfaDecisions.RecoverDecides` | internal/db/sqlite/mfa.go:64-123 | a recovery code is accepted if and only if the account is active and enabled and some unused row answers to it, among the first ten unused; that row is spent, and nothing else changes |
| `MfaDecisions.NormaliseIs` | internal/db/sqlite/mfa.go:64-123 | a recovery code is read character by character: dashes, spaces and tabs dropped, small letters made capitals |
| `MfaDecisions.CompleteDecides` | internal/db/sqlite/mfa.go:166-243 | the account is enabled exactly by a matching code on an open enrollment with ten hashes; a wrong code counts and the fifth closes, a late attempt closes, and whatever else is asked changes nothing |
| `Mfa.StepsIncrease` | internal/db/sqlite/mfa.go:41-52 | accepted steps strictly increase over every run and lie in the window of the calls |
| `Mfa.AcceptedAtMost` | internal/auth/mfa.go:53-67 | between two times at most floor(t1/30) - floor(t0/30) + 3 sign-ins are accepted (section 5.2 of RFC 6238) |
| `Mfa.RecoveriesAtMost` | internal/db/sqlite/mfa.go:64-123 | an enabled account signs in by recovery code at most as often as it has unused codes |
| `Mfa.RecoveryCodeOnce` | internal/db/sqlite/mfa.go:64-123 | each recovery code signs in at most once over every run |
| `Mfa.FiveTries` | internal/db/sqlite/mfa.go:190-214 | an enrollment takes at most five wrong codes over every run |

## Left out

- SQL text, driver errors and cancellation: a transaction either commits as a whole or leaves the tables alone.
- Time as text: times are integers, so the text comparison of timestamps inside one second is not modelled; columns that only
  record a time or a reason, and the checks that a reason is present and of bounded length, are left out.
- Names of users and workspaces, and passwords: only the organisation's name is kept, a workspace's name is checked, and the bootstrap theorem is about statuses,
  memberships, entitlements and assignments. The creation events carry no name.
- PlatformStore.Store.AppendEvent: does not model the bound of 4096 bytes on a payload, which ids of ordinary length never reach,
  nor the check that the event's time is not zero.
- PlatformStore.Store.CreateUserAccount: does not model the email, its shape and uniqueness, nor the name and password checks; no
  theorem here speaks of them.
- PlatformStore.Store.ArchiveRows: does not model that an archive reads the rows in row order; any order is allowed.
- Random ids are arguments. That they carry no surrounding whitespace is the hypothesis `Canonical` where it matters.
- Letter case beyond ASCII and byte lengths: lengths count characters.
- The audit table: it is written with the outbox and read by nothing modelled here. `journal` stands for both in the import.
- Matching a membership's source event by payload text: modelled as equality of membership ids.
- Signatures, hashes, encryption, one-time-password digests and recovery-code hashing: given functions or a flag on the input.
- Manifest signing, approval, the checkpoint MAC and the record order check: every manifest and stored checkpoint is authentic;
  the CHECK constraints and event validation of an imported row are one flag on its record.
- SnapshotReads.MaterialiseKind: does not model record names, the validation of each record against the contract, nor the row
  limit of its query.
- SnapshotReads.MaterialiseAll: does not model the early refusal once too many records are read; `CreateSnapshot` counts them.
- SnapshotReads.ListRecords: does not model the checksum and the record hashes checked on reading: stored records read back as
  written. Of the JSON texts that spell one cursor object it reads the one the store writes; the code reads them all.
- Publication marks on outbox rows, read-only listings, snapshot clean-up, sessions and logins: they would add only easy members.
- HTTP handlers other than the order of checks before a command's nonce is reserved, the rate limiter itself, configuration, backup and the demo seed.
- Imports in the bootstrap and owner theorems: an imported archived organisation announces only its creation. Imports have their
  own theorems.
- SnapshotReads.CreateSnapshot: counts the records once at the end, where the code also stops early; which of two errors is
  reported when both apply is not stated.
- Commands.OnceADay: assumes that a command is stamped with the clock of its call, as the handler does.
- CommandStore.Executor.Clean: the order of rows made at the same instant is not modelled, where the code breaks ties by row id.
- Mfa.Account.UseRecoveryCode: does not model the security event it records.
- Mfa.Account.CompleteEnrollment: does not model the security event it records, nor a secret that cannot be decrypted.
- Assertions.Verifier.Verify: does not model the decoding of a token and its signature check beyond one flag, which fails first.
- Nonces.NonceTable.Admit: what the body, the signature, the store and the rate limiter say are flags on the input.
- A response size limit on stored command results: results are small records.
- Concurrent store calls: there is one connection, so calls are sequential; the limiter and verifier hold a lock for each call.
