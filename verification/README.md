# Termoso: a verified model of the sync bridge, the vault editors and the smaller cores

Termoso keeps vaults of hosts, groups, credentials and snippets. A bridge mirrors
vaults from a sync server and edits them for REST callers; the desktop client edits
its own rows; both have to keep a graph of configs, identities and keys in order
while other writers, crashes and malformed input interfere. The modules here model
that logic and prove what it is for.

| modules | what they model |
|---|---|
| SyncLog, SyncServer | the server's log per vault, optimistic concurrency on push, pages on pull, other writers between any two requests |
| VaultMirror, PagedPull, Bridge | the bridge's decrypted mirror, re-keying, pulling, the commit loop |
| VaultGraph, BridgePlans, PlanSwaps, PlanAssembly, PlanTheorems, PlanRepeats, PlannedHosts, NamesExactly, PlanBuilder, PlanForest, SerialConfigs | the plans a REST request becomes, as edits of the host, config, identity and key graph, and the code that builds them |
| CommitEffect, WriteRequests | planners and commit loop together: what the log reads as afterwards |
| VaultKeys, VaultKeyRuns, VaultAdoption | adopting the server's vault list, re-sealing rows |
| Forest, HostForms, HostTheorems, HostSaves, SavedForms, DeletedRows, GroupTrees, CopiedLogins, GroupCopies, CopySuccess, HostStore, HostRuns | the client's host and group editors, recursive delete, subtree copy |
| Packages, PackageStore | snippet packages: moves, deletes, copies into another vault |
| MasterKey | the master key's file, keychain entry and password record as steps that may be cut off |
| Autocomplete, SnippetText | the shell tokenizer and its escapes, snippet placeholders |
| Relay, LiveReplay | resumable copies, late joiners of a live session |
| AgentWire, HostKeys, TokenBucket | the SSH agent's wire format, pinned host keys, the REST limiter |

Code that changes things step by step is a class with the same fields and loops,
proved equal to a specification function; theorems are about that function. What the
edits leave behind is also stated without those functions, over requests, forms and
stored rows (PlannedHosts, SavedForms, DeletedRows, VaultAdoption).
`dafny verify dfyconfig.toml` checks everything.

Assumptions the model writes down: an id keeps its kind; ids drawn at random are
new; the AEAD opens a row only under its own key, kind and id; a keychain that
holds an entry answers reads; dropping a password is asked for only after that
password was verified (the desktop does so before the call); transport and
sealing succeed; inserts into the local store succeed; the ownership theorems are about
successful edits inside one vault, because an edit that fails late leaves earlier
inserts behind. Where code and comments disagree the model follows the code.

## Findings

Each comes with a theorem that says exactly when the code does what it is for, and
with an input on which it does not.

- Between two pages of a pull a mirror can lack an entity, or show one that is gone, compared with the log up to its cursor (`PageIsReplayExactly`, `HeldIsReplayExactly`; `FirstPageCanMissAnEntity`, `DeletedHostCanStayShown`); at the head it never does.
- A host delete racing with a key rotation can answer that it deleted a host which is still there (`FalseHostDeleteExactly`; the run `LostDelete`). An upsert on a mirror that was emptied, or that others have overtaken, can create a host or a tag a second time (`LandedHostNamesExactly`; `RekeyedUpsertDuplicates`, `RekeyedUpsertDuplicatesTag`).
- A host deleted through the bridge leaves its serial config behind, which the client removes (`DeleteHostKeepsSerialsExactly`; `SerialIsLeftBehind`).
- Deleting a bridge group that is its own parent changes and deletes it in one plan and strands its members (`DeleteGroupIsSoundExactly`; `OwnParentStrandsMembers`).
- Re-parenting looks at 64 (bridge) or 65 (client) ancestors; a deeper move closes a cycle (`GuardedMoveExactly`; `DeepMoveClosesACycle`).
- Saving a host does not check that the tags exist, and deleting a client group orphans its Telnet config: here the exact condition names the inputs (`SaveHostKeepsWellFormedExactly`, `DeleteGroupKeepsWellFormedExactly`).
- Adopting a rotated key skips rows already labelled with the new version (`PlaintextsKeptExactly`; `MislabelledRowIsLost`) and stops at a row that is not base64 with the new key already in place (`StoppedCallPerRow`; `BrokenRowStrandsOthers`). Both theorems are about lists of distinct ids, which the server sends; `ListedTwiceSwapsTheKey` shows why.
- A first run cut off while writing the key file leaves a torn file that never held a key and that every later start refuses (`LoadOrCreate`; the run `TornForEver`).
- A completed path containing an escaped `|`, `&` or `;` is split when it is looked at again, and an escaped tab still ends the word: the exact conditions again name the inputs (`AcceptStaysInSegmentExactly`, `EscapedStaysExactly`).
- Importing known hosts counts replaced pins as added (`CountIsGainExactly`; `ImportCountsReplacedPins`).

## Model

| member | source | states |
|---|---|---|
| VaultMirror.MirrorAtHeadIsReplay | crates/termoso-bridge/src/vault.rs:67-102 | a mirror that agrees with the log and stands at its end equals the whole log replayed under the key and key version it holds, whatever pages led there |
| VaultMirror.PageKeepsAgreement | crates/termoso-bridge/src/vault.rs:67-102 | taking any page of standing rows moves a faithful mirror to the end of that page and leaves it faithful |
| VaultMirror.GrowthKeepsAgreement | crates/termoso-bridge/src/bridge.rs:165-197 | writes by others leave a mirror faithful at its own cursor |
| PagedPull.PageIsReplayExactly | crates/termoso-bridge/src/vault.rs:67-102 | one page on any faithful mirror, the log grown by any writes since: afterwards the mirror shows the log up to the end of the page exactly when every entity written in that stretch has its newest row there, or shows nothing before and nothing at the end, and every other entity was shown right already |
| PagedPull.PagesAreReplayExactly | crates/termoso-bridge/src/bridge.rs:165-197 | any number of pages from the start, others writing before each: the mirror shows the log up to its cursor exactly when the row last served of each entity is its last row before the cursor, or neither shows anything |
| Bridge.HeldIsReplayExactly | crates/termoso-bridge/src/bridge.rs:165-197 | every mirror the bridge ever holds was reached by such pages, so this is exactly when it shows the log up to its cursor, between pages too |
| PagedPull.FirstPageCanMissAnEntity | crates/termoso-server/src/routes/sync.rs:372-434 | an input: a host renamed before the first page, its new row behind the end of that page, is absent from the mirror although the log up to the cursor has it |
| PagedPull.DeletedHostCanStayShown | crates/termoso-server/src/routes/sync.rs:372-434 | an input with a write between pages: a host deleted and made again after the first page is still shown after a second page that ends in between |
| VaultMirror.AcceptedItemsLoseNothing | crates/termoso-bridge/src/bridge.rs:220-278 | no lost update: with any writes between pull and push, each accepted item replaced exactly the payload its plan was built from |
| Bridge.VaultState.Apply | crates/termoso-bridge/src/vault.rs:67-97 | one pulled row: a delete removes, anything else is shown with its plaintext only under the held key and version; the cursor never goes back |
| Bridge.VaultState.Rekey | crates/termoso-bridge/src/bridge.rs:130-150 | a moved key or version empties the mirror and its cursor, an unmoved one keeps both; name and role are taken over |
| Bridge.VaultState.Change | crates/termoso-bridge/src/vault.rs:160-174 | a change is based on the version shown, or on none for an unknown id; without a key nothing is sealed |
| Bridge.Bridge.Reconcile | crates/termoso-bridge/src/bridge.rs:118-153 | after any list exactly the listed vaults are held, each as the list adopted line by line leaves it, every role is the one last told, and every mirror stays sound |
| Bridge.RelistKeepsMirrors | crates/termoso-bridge/src/bridge.rs:118-153 | whatever list arrives, no mirror shows a row its log does not justify |
| Bridge.RelistKeepsExactly | crates/termoso-bridge/src/bridge.rs:118-153 | adopting a list keeps what a mirror has pulled exactly when every line about the vault carries the version and key it is read with |
| Bridge.Bridge.PullOnce | crates/termoso-bridge/src/bridge.rs:165-197 | one request either ends with every served mirror at the head or leaves strictly fewer rows unread |
| Bridge.Bridge.PullAll | crates/termoso-bridge/src/bridge.rs:165-197 | pulling terminates against any number of interfering writes and ends with every served ready mirror equal to the replay of its log; keys untouched, cursors never back |
| Bridge.Bridge.Seal | crates/termoso-bridge/src/bridge.rs:240-254 | the items of a push carry the plan in order, each sealed under the held key and based on the version seen; deletes of unknown ids are not sent |
| Bridge.Bridge.Prepare | crates/termoso-bridge/src/bridge.rs:224-236 | the vault is looked up, its role checked, the plan built and sealed, in that order; refused with that error exactly when it is not held or may not be written |
| Bridge.Bridge.TryOnce | crates/termoso-bridge/src/bridge.rs:224-275 | one pass: it ends where the preparation ends, or its one push meets the log as it then is and the pass is done, repeated or refused as the outcomes say; a vault not held, or read-only, is refused with nothing sent and nothing changed, and only such a vault is |
| Bridge.Bridge.Commit | crates/termoso-bridge/src/bridge.rs:220-278 | at most three pushes, all but the last in conflict, each made while the vault could be written, sound and built from its own mirror; Ok only if the last push was accepted whole with every served mirror at the head, or the plan was empty on the mirror last pulled; refused as read-only or unknown exactly when the vault is so at the end, and at once, with nothing sent or changed, when it was so at the start |
| Bridge.Bridge.Edit | crates/termoso-bridge/src/bridge.rs:199-202 | with the pull before it, an Ok without an accepted push had a mirror that showed the whole log of a served vault when it was last pulled; refused as read-only or unknown exactly when the vault is so |
| Bridge.NothingAskedOfTheLogExactly | crates/termoso-bridge/src/bridge.rs:234-236 | an empty plan was asked of the log last pulled exactly when no refresh since re-keyed the mirror, or the log had nothing live |
| WriteRequests.FalseHostDeleteExactly | crates/termoso-bridge/src/bridge.rs:372-389 | a host delete reports success with the host still in the log exactly when a refresh re-keyed the mirror after the pull |
| WriteRequests.LostDelete | crates/termoso-bridge/src/bridge.rs:199-278 | that run, call by call: share, refresh, pull; a rotation before the push makes the delete clash; pull and refresh empty the mirror; the second pass answers done, and the log still has the host under the new key |
| WriteRequests.LandedHostNamesExactly | crates/termoso-bridge/src/bridge.rs:355-370 | a host upsert accepted on whatever the log had become: external ids and folded tag names stay unique exactly when no host there that the plan leaves alone has the external id and no such tag the folded label of a tag it creates |
| WriteRequests.LandedGroupNamesExactly | crates/termoso-bridge/src/bridge.rs:453-468 | the same for a group upsert and groups of the external id |
| WriteRequests.RekeyedUpsertDuplicates | crates/termoso-bridge/src/bridge.rs:355-370 | an input: on a mirror emptied by a refresh an upsert creates the host again |
| WriteRequests.RekeyedUpsertDuplicatesTag | crates/termoso-bridge/src/bridge.rs:355-370 | an input: it creates the tag of a label again, with no host of that name before |
| WriteRequests.AnswerHostUpsert | crates/termoso-bridge/src/bridge.rs:528-530 | the planning code, with or without the vault key and in any order of the hash map, is a builder of the kind the theorems on commits quantify over |
| WriteRequests.AnswerGroupUpsert | crates/termoso-bridge/src/bridge.rs:634-637 | so is that of a group upsert |
| WriteRequests.AnswerHostDelete | crates/termoso-bridge/src/bridge.rs:372-389 | so is that of a host delete, which needs no key |
| WriteRequests.AnswerGroupDelete | crates/termoso-bridge/src/bridge.rs:470-502 | so is that of a group delete |
| WriteRequests.BuilderExists | crates/termoso-bridge/src/bridge.rs:355-386 | every request has such a builder |
| WriteRequests.HonestHostDelete | crates/termoso-bridge/src/bridge.rs:372-389 | with an unchanged key an empty delete plan means the log read at the pull has no such host |
| WriteRequests.EmptyHostDeleteExactly | crates/termoso-bridge/src/bridge.rs:380-386 | a host delete plans nothing exactly when the mirror shows no host of that external id |
| WriteRequests.LandedHostUpsert | crates/termoso-bridge/src/bridge.rs:355-370 | commit run with the host planner, nobody writing in between: the log reads as a well-formed vault with unique names that stores the host as requested (address, label, group, notes, tags, ports, logins, all else as it was), and no serial config loses its host |
| WriteRequests.LandedHostDelete | crates/termoso-bridge/src/bridge.rs:372-389 | the same for a host delete: no host of that external id is left, and a serial config loses its host exactly when that host had one |
| WriteRequests.LandedGroupUpsert | crates/termoso-bridge/src/bridge.rs:453-468 | the same for a group upsert: the group is stored as requested, under the parent asked for |
| WriteRequests.LandedGroupDelete | crates/termoso-bridge/src/bridge.rs:470-502 | the same for a group delete, when no group of that name is its own parent |
| CommitEffect.AcceptedPushIsTheEdit | crates/termoso-bridge/src/bridge.rs:237-272 | a push accepted whole on the rows its plan was built from makes the log read exactly as the plan applied to what was seen |
| CommitEffect.AcceptedOnAnyLog | crates/termoso-bridge/src/bridge.rs:237-272 | on any other log it makes it read as the plan applied to what the log read as then |
| CommitEffect.DeleteGroupLands | crates/termoso-bridge/src/bridge.rs:470-502 | a landed group delete keeps every host and other group in the log: where it was, or one level up |
| SyncLog.PushItemExactly | crates/termoso-server/src/routes/sync.rs:149-370 | an item is accepted exactly when key version, permissions and base version fit, clashes exactly when only the base version does not, leaves its id written with its data one version on or deleted, and touches no other id; an item not accepted changes nothing |
| SyncLog.PushGrowsLog | crates/termoso-server/src/routes/sync.rs:149-370 | any push only appends: sequence numbers count up and the versions of an id only grow |
| SyncServer.Server.Answer | crates/termoso-server/src/routes/sync.rs:372-434 | an answer covers the asked vaults only, gives each its standing rows after the cursor without gaps, and says there is more unless every served vault reached its head |
| SyncServer.Server.Push | crates/termoso-server/src/routes/sync.rs:149-370 | outcomes and log after a push are those of settling its items in order on the rows found |
| VaultGraph.RewiringKeepsWellFormed | crates/termoso-bridge/src/bridge.rs:528-887 | replacing what one owner has (configs, inline identities, their keys) by things only it uses keeps references closed, configs and inline identities with one owner, and nothing orphaned |
| PlanAssembly.AssemblyKeepsWellFormed | crates/termoso-bridge/src/bridge.rs:528-887 | any plan put together from separate config slots, an owner and moved members keeps the vault well-formed |
| PlanTheorems.HostPlanIsSound | crates/termoso-bridge/src/bridge.rs:528-632 | a host upsert on a readable well-formed vault leaves no dangling reference, one owner per config and inline identity, no orphan, and never both changes and deletes an id |
| PlanTheorems.GroupPlanIsSound | crates/termoso-bridge/src/bridge.rs:634-693 | the same for a group upsert |
| PlanTheorems.DeleteHostIsSound | crates/termoso-bridge/src/bridge.rs:372-389 | a host delete leaves no reference dangling, no SSH, Telnet or WebDAV config and no inline identity without its owner |
| SerialConfigs.DeleteHostTakesExactly | crates/termoso-bridge/src/bridge.rs:834-889 | what it takes, row by row: the host, its SSH, Telnet and WebDAV configs, their inline identities, and the key of the SSH one if no other identity names it; every other row stays as it is |
| SerialConfigs.DeleteHostKeepsSerialsExactly | crates/termoso-bridge/src/bridge.rs:884-889 | afterwards every serial config still belongs to exactly one host, exactly when the deleted host names none that is there |
| SerialConfigs.SerialIsLeftBehind | crates/termoso-bridge/src/bridge.rs:884-889 | the failing input: the delete of a host with a serial config leaves that config alone in the vault |
| SerialConfigs.HostPlanKeepsSerials | crates/termoso-bridge/src/bridge.rs:595-615 | a host upsert keeps each serial config with its one host |
| SerialConfigs.GroupPlanKeepsSerials | crates/termoso-bridge/src/bridge.rs:634-693 | so does a group upsert |
| SerialConfigs.DeleteGroupKeepsSerials | crates/termoso-bridge/src/bridge.rs:478-499 | so does a group delete, also of a group that is its own parent |
| SerialConfigs.RunKeepsSerials | crates/termoso-client/src/hosts.rs:894-1928 | so does every run of the client's edits, where saving or deleting a host removes its serial config |
| PlanTheorems.DeleteGroupIsSoundExactly | crates/termoso-bridge/src/bridge.rs:478-499 | a group delete is sound exactly when the group is not its own parent |
| PlanTheorems.OwnParentStrandsMembers | crates/termoso-bridge/src/bridge.rs:478-499 | the failing input: every other member of a group that is its own parent ends up in a group that is gone |
| PlanTheorems.DeleteGroupKeepsMembers | crates/termoso-bridge/src/bridge.rs:478-499 | a group delete loses no host and no other group: each is as it was or one level up |
| PlanRepeats.HostPlanRepeats | crates/termoso-bridge/src/bridge.rs:528-632 | planning the same host request on the vault the first plan made, in any order of the hash map, changes no payload, drops nothing and invents no id |
| PlanRepeats.GroupPlanRepeats | crates/termoso-bridge/src/bridge.rs:634-693 | the same for a group request |
| PlanRepeats.HostPlanKeepsNames | crates/termoso-bridge/src/bridge.rs:528-632 | a host upsert keeps external ids and case-folded tag names unique |
| PlanRepeats.GroupPlanKeepsNames | crates/termoso-bridge/src/bridge.rs:634-693 | so does a group upsert |
| NamesExactly.HostNamesExactly | crates/termoso-bridge/src/bridge.rs:528-632 | planned on one vault and applied to any other, a host upsert keeps names unique exactly when nothing that stays there has the external id or the folded label of a new tag |
| NamesExactly.GroupNamesExactly | crates/termoso-bridge/src/bridge.rs:634-693 | the same for a group upsert |
| PlanBuilder.BuildHost | crates/termoso-bridge/src/bridge.rs:528-632 | the step-by-step plan is the specified edit: same payloads, same deletes, same new ids, same errors; what that edit stores is `PlannedHostIsStored` |
| PlanBuilder.BuildGroup | crates/termoso-bridge/src/bridge.rs:634-693 | the same for groups, the ancestor check included; what it stores is `PlannedGroupIsStored` |
| PlanBuilder.BuildDeleteHost | crates/termoso-bridge/src/bridge.rs:372-389 | the same for a host delete |
| PlanBuilder.BuildDeleteGroup | crates/termoso-bridge/src/bridge.rs:470-502 | the same for a group delete |
| PlanBuilder.Draft.PlanInline | crates/termoso-bridge/src/bridge.rs:758-831 | the login half of a plan: an inline identity is rewritten or created, its key reused, and a key nobody else names dropped |
| PlanBuilder.AncestorsOf | crates/termoso-bridge/src/bridge.rs:695-707 | the loop walks up to 64 ancestors, nearest first, and stops at a repeat |
| Forest.ReparentIsAcyclicExactly | crates/termoso-client/src/hosts.rs:1427-1454 | moving a node keeps a forest acyclic exactly when the new parent is neither the node nor below it |
| Forest.GuardedMoveExactly | crates/termoso-client/src/hosts.rs:1427-1454 | a move accepted by the bounded walk keeps the forest acyclic exactly when the node is no ancestor of the new parent beyond the bound |
| Forest.ShallowMoveIsAcyclic | crates/termoso-client/src/hosts.rs:1408-1425 | so it always does when the new parent has at most as many ancestors as are looked at |
| Forest.RefusedMoveIsCyclic | crates/termoso-client/src/hosts.rs:1427-1454 | what the guard refuses would have closed a cycle |
| Forest.DeepMoveClosesACycle | crates/termoso-client/src/hosts.rs:1408-1425 | the failing input: in a chain one longer than the bound the root may be moved below its end |
| Forest.LiftKeepsAncestors | crates/termoso-client/src/hosts.rs:1624-1651 | taking out a node that is not its own parent preserves exactly the ancestor relation among the others |
| Forest.LiftKeepsForest | crates/termoso-client/src/hosts.rs:1624-1651 | it leaves a forest whose parents are all there |
| PlanForest.GroupPlanKeepsForestExactly | crates/termoso-bridge/src/bridge.rs:650-662 | a group upsert keeps the group tree acyclic exactly when the group is not among its new parent's ancestors past the 64 looked at |
| PlanForest.DeleteGroupKeepsAncestors | crates/termoso-bridge/src/bridge.rs:478-499 | a bridge group delete preserves exactly the ancestor relation among the other groups |
| HostSaves.SaveHostKeepsWellFormedExactly | crates/termoso-client/src/hosts.rs:894-1162 | after a successful save the vault is well-formed (one owner each, no orphan, nothing dangling) exactly when the tags of the form exist, which the code does not check |
| HostSaves.DeleteHostKeepsWellFormed | crates/termoso-client/src/hosts.rs:1165-1207 | a host delete takes its configs and inline identities and orphans nothing |
| HostSaves.CopyHostKeepsWellFormed | crates/termoso-client/src/hosts.rs:1801-1928 | a copy inside the vault keeps it well-formed whatever the host |
| HostSaves.SaveGroupKeepsWellFormed | crates/termoso-client/src/hosts.rs:1464-1492 | renaming or moving a group keeps the vault well-formed |
| HostSaves.SaveGroupFormKeepsWellFormed | crates/termoso-client/src/hosts.rs:1540-1621 | so does saving its SSH defaults, dropped when the form leaves nothing in them |
| HostSaves.SaveGroupKeepsForestExactly | crates/termoso-client/src/hosts.rs:1464-1492 | moving a group keeps the tree acyclic exactly when the group is not an ancestor of its new parent beyond the 65 looked at |
| HostSaves.SaveGroupFormKeepsForestExactly | crates/termoso-client/src/hosts.rs:1540-1621 | the group form, new groups included, under exactly the same condition |
| HostSaves.DeleteGroupKeepsWellFormedExactly | crates/termoso-client/src/hosts.rs:1624-1651 | a group delete keeps the vault well-formed exactly when the group has no Telnet defaults and is not its own parent with others in it |
| HostSaves.DeleteGroupLiftsTree | crates/termoso-client/src/hosts.rs:1624-1651 | the delete takes exactly the group's node out of the tree |
| HostSaves.DeleteGroupKeepsAncestors | crates/termoso-client/src/hosts.rs:1624-1651 | it preserves exactly the ancestor relation among the other groups |
| HostSaves.DeleteGroupKeepsMembers | crates/termoso-client/src/hosts.rs:1624-1651 | it loses no host and no other group: each is as it was or in the deleted group's parent |
| HostRuns.RunKeepsOwnership | crates/termoso-client/src/hosts.rs:894-1651 | every successful run of saves, deletes, duplicates, copies and group edits, from a well-formed vault without Telnet group defaults, keeps one owner per config, one config per inline identity and no orphan |
| HostRuns.RanKeepsGood | crates/termoso-client/src/hosts.rs:1654-1667 | composite edits, recursive deletes and subtree copies among them, are such runs |
| HostStore.Rows.Save | crates/termoso-client/src/hosts.rs:894-1162 | the step-by-step save is the specified edit, with the same errors; on a well-formed vault it succeeds exactly when the form and its logins are in order, and leaves exactly what the form says, on any vault the host's own row is the form's |
| HostStore.Rows.UpsertIdentity | crates/termoso-client/src/hosts.rs:1289-1381 | refer to a visible identity, or create, rewrite or drop the inline one, with the same refusals |
| HostStore.Rows.Delete | crates/termoso-client/src/hosts.rs:1165-1207 | the step-by-step delete removes exactly the host, its slots, its serial config and the bindings to it |
| HostStore.Rows.SaveGroup | crates/termoso-client/src/hosts.rs:1464-1492 | the specified edit or the specified error, nothing written in that case; name and parent change and no other row |
| HostStore.Rows.SaveGroupForm | crates/termoso-client/src/hosts.rs:1540-1621 | the specified edit or the specified error; on a well-formed vault it leaves exactly what the form says |
| HostStore.Rows.Ancestors | crates/termoso-client/src/hosts.rs:1408-1425 | the loop walks at most 65 ancestors and stops at a repeat |
| HostStore.Rows.DeleteGroup | crates/termoso-client/src/hosts.rs:1624-1651 | hosts, then sub-groups, move up; then the SSH slot and the group go |
| HostStore.Rows.DeleteGroupRecursive | crates/termoso-client/src/hosts.rs:1654-1667 | on a forest it terminates, removes exactly the groups of the subtree and the hosts in them, leaves every other row unchanged, keeps the vault well-formed, and is a run of single deletes |
| HostStore.Rows.CopyRow | crates/termoso-client/src/hosts.rs:1801-1928 | a host copied inside its vault: the form copied and saved, then the stored SSH settings raw |
| HostStore.Rows.Duplicate | crates/termoso-client/src/hosts.rs:1938-1951 | a duplicate is a new host in the same group, named so, with the same fields, settings and logins; every old row stays |
| HostStore.Rows.CopyGroupTree | crates/termoso-client/src/hosts.rs:2020-2051 | on a forest it terminates, leaves the original as it is, and adds exactly one copy per node of the subtree: the map is injective, copies sit in copies, names, addresses, tags and notes are kept, settings too (those of a group as its form cleans them), and logins read alike; it succeeds exactly when the parent is there and every node can be copied |
| HostStore.Rows.DuplicateGroup | crates/termoso-client/src/hosts.rs:2009-2018 | duplicating a group is that copy next to the original, and succeeds exactly when every node of it can be copied |
| GroupCopies.CopyHostAdds | crates/termoso-client/src/hosts.rs:1801-1928 | a copied host adds one node and its configs, with the fields and SSH, Telnet and WebDAV settings of the original; each login is the same keychain identity or credentials of its own with the same user, password and, for SSH, key; a WebDAV token is left behind |
| CopySuccess.HostCopiesExactly | crates/termoso-client/src/hosts.rs:1801-1928 | a host is copied into a group exactly when it has an address, its WebDAV section passes its check and what its logins name is there |
| CopySuccess.GroupCopiesExactly | crates/termoso-client/src/hosts.rs:1540-1621 | a group is copied exactly when its title is not blank, its parent is there and what its defaults name is there |
| GroupCopies.NewUp | crates/termoso-client/src/hosts.rs:2020-2051 | walking up from a copy reaches the parent of the whole copy before it reaches any old group, so copies never fall under what is still to be copied |
| PackageStore.Library.IsDescendant | crates/termoso-client/src/snippets.rs:300-314 | yes exactly when the ancestor is met within 64 hops; no exactly when the walk ends at a top within them without meeting it, and then it is met nowhere; an error otherwise |
| PackageStore.Library.SavePackage | crates/termoso-client/src/snippets.rs:316-357 | accepted exactly when the name is not blank and the parent is in the vault and ends at a top that is not below the package; the package tree stays acyclic whatever the answer, the refused wrong-vault edit included |
| PackageStore.Library.DeletePackage | crates/termoso-client/src/snippets.rs:359-376 | row by row: the package goes, its sub-packages and snippets sit in its parent, and nothing else changes |
| PackageStore.DeleteKeepsAncestors | crates/termoso-client/src/snippets.rs:359-376 | deleting a package that is not its own parent preserves exactly the ancestor relation among the others |
| PackageStore.Library.CopyTree | crates/termoso-client/src/snippets.rs:416-442 | the queue empties on every parent map, cyclic ones included, and fails exactly when the root is on a cycle |
| PackageStore.Library.CopyPackageToVault | crates/termoso-client/src/snippets.rs:403-469 | Ok exactly when the package exists in another vault and is not on a cycle; the copy is complete, with the names, and exactly the snippets in the subtree have one copy each, same body, in the copy of their package; a copy leaves the source alone, a move removes exactly that subtree, its snippets and every reference to them |
| Packages.CopyIsIsomorphic | crates/termoso-client/src/snippets.rs:403-469 | one package is an ancestor of another exactly when its copy is an ancestor of the other's copy |
| PackageStore.MoveTakesExactly | crates/termoso-client/src/snippets.rs:456-463 | after a move the source vault has exactly the packages and snippets outside the subtree |
| PackageStore.Library.DeleteSnippet | crates/termoso-client/src/snippets.rs:259-276 | exactly the bindings of the snippet go and exactly the startups that name it are emptied |
| VaultKeyRuns.RunNeverGoesBack | crates/termoso-core/src/account.rs:576-666 | over any run of lists, while a held vault stays listed its key version never decreases and equal versions mean equal keys |
| VaultKeyRuns.RunKeepsPersonalKeysOurs | crates/termoso-core/src/account.rs:576-666 | a vault always listed as personal holds its key or one that came in an envelope only its owner can have sealed |
| VaultKeyRuns.PlaintextsKeptExactly | crates/termoso-core/src/account.rs:576-666 | a finished call keeps every stored plaintext readable exactly when no live row of a rotated vault is labelled with the new version while sealed under the old key |
| VaultKeyRuns.HonestRunKeepsPlaintexts | crates/termoso-core/src/account.rs:535-574 | over honest runs no list ever costs a plaintext |
| VaultKeyRuns.StoppedCallPerRow | crates/termoso-core/src/account.rs:576-666 | a stopped call loses a row's plaintext exactly when an earlier entry stranded it or it is one of the stopped vault's rows not yet re-sealed |
| VaultKeyRuns.MislabelledRowIsLost | crates/termoso-core/src/store/entities.rs:492-522 | the failing input for finished calls: a row labelled with the version to come is unreadable afterwards |
| VaultKeyRuns.BrokenRowStrandsOthers | crates/termoso-core/src/store/entities.rs:492-522 | the failing input for stopped calls: a row that is not base64 leaves rows behind it unreadable, and the same list does not bring them back |
| VaultKeyRuns.RetryDoesNotReseal | crates/termoso-core/src/account.rs:576-666 | after such a stop, listing the vault again changes no row |
| VaultKeyRuns.ListedTwiceSwapsTheKey | crates/termoso-core/src/account.rs:576-666 | why ids must be distinct: two entries for one vault leave the new key under the old version |
| VaultKeys.Store.ReencryptVault | crates/termoso-core/src/store/entities.rs:492-522 | re-seals exactly the rows not labelled with the current version that open under the old key, and stops at one that is not base64 |
| VaultKeys.Store.ApplyVaultList | crates/termoso-core/src/account.rs:576-666 | the loop over the list does what the specified adoption of each entry says, and reports the vaults held and those to seal anew; what that is vault by vault, row by row and in the answer: `ListedVaultAfter`, `UnlistedVaultAfter`, `ListedRowAfter`, `AnswerIs` |
| MasterKey.Profile.LoadOrCreate | crates/termoso-core/src/secrets.rs:73-116 | a profile that has a key never gets another one; a first run puts the new key into the keychain, or into the file if that fails and a file is allowed; short of a crash it fails exactly when the key is behind a password or all there is a torn key file that never held a key |
| MasterKey.TornForEver | crates/termoso-core/src/secrets.rs:73-116 | that run: the first start is cut off between creating the key file and filling it, and every later start, however often, refuses the file |
| MasterKey.Profile.WritePassword | crates/termoso-core/src/secrets.rs:310-347 | replacing the record by way of a temporary file, a stale one removed first, keeps the old or the new record through every failure |
| MasterKey.Profile.SetPassword | crates/termoso-core/src/secrets.rs:176-205 | afterwards the new password opens the key, or everything is as it was; when nothing fails it succeeds and no plaintext copy is left |
| MasterKey.Profile.RemovePassword | crates/termoso-core/src/secrets.rs:208-229 | afterwards the profile loads without a password, or its password still opens it; when nothing fails the key is back in the keychain |
| MasterKey.Profile.MigrateFileToKeychain | crates/termoso-core/src/secrets.rs:118-127 | Ok(true) only with the key in the keychain and the file gone, and so it ends when nothing fails; through every failure the key stays recoverable |
| MasterKey.Profile.UnlockWithPassword | crates/termoso-core/src/secrets.rs:150-164 | the key exactly for the password in force; plaintext copies left behind are gone when nothing fails |
| MasterKey.Profile.RunThenOpen | crates/termoso-core/src/secrets.rs:73-347 | after any run of sessions, each cut off after any step and with any keychain or file step failing, the stored key is still the only one, and whoever knows the password in force, if any, gets it |
| Autocomplete.Tokenize | crates/termoso-core/src/autocomplete.rs:248-281 | the scanner loop is the specified fold: finished words, the open token, and how it ended |
| Autocomplete.UnescapeEscape | crates/termoso-core/src/autocomplete.rs:308-358 | reading back an escaped name gives the name, for every name |
| Autocomplete.EscapedStaysExactly | crates/termoso-core/src/autocomplete.rs:326-358 | an escaped name goes into the open token exactly when it has no tab |
| Autocomplete.EscapePathLoop | crates/termoso-core/src/autocomplete.rs:326-358 | the escaping loop is the specified escape |
| Autocomplete.UnescapeLoop | crates/termoso-core/src/autocomplete.rs:308-324 | the unescaping loop is the specified inverse |
| Autocomplete.AcceptKeepsOneToken | crates/termoso-core/src/autocomplete.rs:566-608 | accepting a path suggestion outside quotes and without a dangling backslash keeps one token whose unescaped last segment is the entry's name |
| Autocomplete.LastSegment | crates/termoso-core/src/autocomplete.rs:223-246 | the splitter loop returns the longest end of the line without a separator |
| Autocomplete.AcceptStaysInSegmentExactly | crates/termoso-core/src/autocomplete.rs:223-246 | the completed line still has its token in the same command exactly when the typed part has none of `&#124;`, `&`, `;`: the splitter ignores escapes |
| Autocomplete.ShellQuoteReadsBack | crates/termoso-core/src/autocomplete.rs:645-647 | a POSIX reader (IEEE Std 1003.1, Shell Command Language, section 2.2.2) reads the quoted text as one word, that text |
| SnippetText.PartsRenderBack | crates/termoso-client/src/snippets.rs:61-119 | the split into literals and holes loses nothing |
| SnippetText.FindPairIsFirst | crates/termoso-client/src/snippets.rs:61-83 | a pair of braces is found whenever there is one, and never past the first |
| SnippetText.Variables | crates/termoso-client/src/snippets.rs:61-83 | the loop lists exactly the valid hole names, each once, in the order of first use |
| SnippetText.Expand | crates/termoso-client/src/snippets.rs:85-119 | succeeds exactly when every name is supplied, and the result is the expansion that `TemplateExpands` and `CutExactly` describe: values are never expanded again |
| SnippetText.PlainScriptExpandsToItself | crates/termoso-client/src/snippets.rs:85-119 | a script without variables expands to itself |
| Relay.RelayUntilDone | crates/termoso-core/src/remote.rs:142-195 | any number of cancelled resumed runs and one that finishes give a destination equal to the source, moving just the bytes that were missing |
| Relay.FinishedIsSourceExactly | crates/termoso-core/src/remote.rs:142-195 | a finished run gives the source exactly when what it went on from was its beginning |
| Relay.StreamUntilDone | crates/termoso-core/src/localfs.rs:514-559 | the same whole-run theorem for the stream copier with a known total |
| Relay.AppendedIsSourceExactly | crates/termoso-core/src/localfs.rs:514-559 | a finished stream copy, whatever total it is told, is the source exactly when what it appended to was a beginning of the source |
| Relay.ReadAt | crates/termoso-core/src/localfs.rs:574-588 | short reads are put together: fewer bytes than asked only at the end of the file |
| LiveReplay.HostLoop.Run | crates/termoso-core/src/live.rs:595-742 | after any events every viewer has a gap-free suffix of the output from its replay on, starting at most 131072 bytes before it was first seen; only users whose last command enabled them control the grid, and the grid is what those events make of it |
| LiveReplay.GridIsLastSet | crates/termoso-core/src/live.rs:673-692 | that grid is the one last set, by the host or by a viewer in control at that moment, clamped for the viewer |
| LiveReplay.HostLoop.HandleOutput | crates/termoso-core/src/live.rs:598-612 | output goes to everybody and into the replay, of which the newest 131072 bytes are kept |
| LiveReplay.HostLoop.HandleResize | crates/termoso-core/src/live.rs:673-692 | a viewer's resize changes the grid exactly when it holds control, to at least two columns and one row, and a change is announced to everybody |
| LiveReplay.HostLoop.Greet | crates/termoso-core/src/live.rs:697-720 | a viewer not seen before gets grid, title and replay, in that order; one seen before gets nothing |
| AgentWire.StringReadsExactly | crates/termoso-core/src/agent_server.rs:359-385 | a `string` (section 5 of RFC 4251) followed by anything reads back exactly when its length fits 32 bits |
| AgentWire.ReadStringIsWithin | crates/termoso-core/src/agent_server.rs:364-385 | on arbitrary bytes a string that is read lies within them and reading goes on right after it |
| AgentWire.Reader.String | crates/termoso-core/src/agent_server.rs:375-385 | the reader advances past what it read; on failure at most past the length |
| AgentWire.IdentitiesRoundTrip | crates/termoso-core/src/agent_server.rs:280-342 | a client reads every key on offer with its name, in order |
| AgentWire.SignRequestRoundTrip | crates/termoso-core/src/agent_server.rs:280-342 | a sign request is read as written, whatever follows it |
| AgentWire.SignaturesAreAllowed | crates/termoso-core/src/agent_server.rs:280-342 | every signature is by a key on offer that the policy let sign, over the bytes of the request |
| AgentWire.FramesRoundTrip | crates/termoso-core/src/agent_server.rs:246-278 | legal messages are served as framed, up to the first thing that is none |
| AgentWire.FramesAreAll | crates/termoso-core/src/agent_server.rs:246-278 | any input is legal frames and then something that is none |
| AgentWire.ExchangeIsOneToOne | crates/termoso-core/src/agent_server.rs:246-278 | each legal message gets exactly one reply, in order, which the client reads back |
| AgentWire.Agent.Serve | crates/termoso-core/src/agent_server.rs:246-278 | the output is one frame per legal frame of the input, and only the program changes the keys |
| AgentWire.Agent.Handle | crates/termoso-core/src/agent_server.rs:280-342 | the reply to a message, or a failure; the keys stay |
| HostKeys.KnownHosts.Check | crates/termoso-core/src/hostkey.rs:184-211 | in any listing order: changed exactly when some pin of that host and key type differs, in any vault, known when one matches and none differs |
| HostKeys.VerdictIsDetermined | crates/termoso-core/src/hostkey.rs:184-211 | so the order the pins are listed in never changes the kind of verdict |
| HostKeys.TrustedIsKnownExactly | crates/termoso-core/src/hostkey.rs:215-231 | a trusted key is known exactly when no other vault pins a different one |
| HostKeys.KnownHosts.Trust | crates/termoso-core/src/hostkey.rs:215-231 | exactly this vault's pins of the same host and type go, the others stay as they are, the key is pinned, and there is one pin each |
| HostKeys.KnownHosts.Forget | crates/termoso-core/src/hostkey.rs:234-244 | removes exactly this vault's pins of the host and counts them; the others stay as they are |
| HostKeys.ImportKeepsTable | crates/termoso-core/src/hostkey.rs:249-283 | any import keeps one pin per vault, host and type and touches no other vault |
| HostKeys.KnownHosts.Import | crates/termoso-core/src/hostkey.rs:249-283 | the loop judges each entry against the table as it is by then, in whatever order that is listed, and trusts whatever is not known |
| HostKeys.LastEntryIsKnownExactly | crates/termoso-core/src/hostkey.rs:249-283 | the last imported entry is known exactly when no other vault pins something else |
| HostKeys.CountIsGainExactly | crates/termoso-core/src/hostkey.rs:249-283 | the count is at least the number of pins gained, and just that exactly when no entry replaced a pin held at that point |
| HostKeys.ImportCountsReplacedPins | crates/termoso-core/src/hostkey.rs:249-283 | the failing input: two keys for one host count twice and leave one pin |
| TokenBucket.WindowIsBounded | crates/termoso-bridge/src/rest.rs:82-103 | in every window of length d of every run in time order at most 2r + r d calls are let through |
| TokenBucket.RunStaysOk | crates/termoso-bridge/src/rest.rs:92-103 | tokens stay within 0 and 2r |
| TokenBucket.SpacedCallIsServed | crates/termoso-bridge/src/rest.rs:92-103 | a call at least 1/r after the previous one is never refused |
| TokenBucket.BurstIsServed | crates/termoso-bridge/src/rest.rs:82-103 | the bound is reached: a full bucket serves exactly its burst of 2r calls at one moment |
| TokenBucket.Bucket.Take | crates/termoso-bridge/src/rest.rs:92-103 | the call in place is the specified call |
| Bridge.PreparedExactly | crates/termoso-bridge/src/bridge.rs:224-254 | case by case what becomes of a request before anything is sent: refused by role, unplannable, nothing to do exactly for an empty plan, pending exactly when there are changes and no key |
| Bridge.ListedAsTold | crates/termoso-bridge/src/bridge.rs:118-153 | after a list each vault follows its last line: its version, its role, and the key exactly when one is sealed to this bridge |
| PlannedHosts.PlannedHostIsStored | crates/termoso-bridge/src/bridge.rs:528-632 | a planned host upsert stores what was asked for, read off the payloads: trimmed address, label or address, the named group or none, notes, system, each folded tag label once, ports, typed logins with password and key; fields no request carries, keychain logins and everything that is not the host's stay |
| PlannedHosts.PlannedGroupIsStored | crates/termoso-bridge/src/bridge.rs:634-693 | so does a planned group upsert: name, parent, ports and logins, all else as it was |
| PlannedHosts.HostRefusedExactly | crates/termoso-bridge/src/bridge.rs:528-550 | a host is refused exactly when it asks for a group that no group of the vault is named |
| PlannedHosts.PublicKeyTells | crates/termoso-bridge/src/bridge.rs:889-899 | the key type follows from the first word of the public key |
| PlannedHosts.PrivateKeyTells | crates/termoso-bridge/src/bridge.rs:900-907 | without a public key it follows from the first line of the private one |
| SavedForms.SavedHostIsTheForm | crates/termoso-client/src/hosts.rs:1123-1155 | on any vault a saved host has the form's address, name, group, tags and notes; an edit keeps the detected system |
| SavedForms.SaveStoresTheForm | crates/termoso-client/src/hosts.rs:894-1162 | a saved host form, read off the rows: the host's row; each section a config with the form's port, settings and login (keychain reference, inline identity with new or kept password and key, or none), a left-out one gone; every other row as it was but for the leftover serial config |
| SavedForms.SaveHostSucceedsExactly | crates/termoso-client/src/hosts.rs:894-1162 | a save succeeds exactly when the form has a section, an address and an existing group, WebDAV checks pass, and every login refers to what is there |
| SavedForms.SavedGroupIsTheForm | crates/termoso-client/src/hosts.rs:1464-1492 | saving a group changes its name and parent, nothing else of it and no other row |
| SavedForms.SaveStoresTheGroupForm | crates/termoso-client/src/hosts.rs:1540-1621 | a saved group form: its row, its SSH defaults with port, settings and login or none if nothing is left in them, every other row as it was |
| SavedForms.SaveGroupFormSucceedsExactly | crates/termoso-client/src/hosts.rs:1540-1621 | it succeeds exactly with a name, an acceptable parent and a login that refers to what is there |
| SavedForms.SaveGroupSucceedsExactly | crates/termoso-client/src/hosts.rs:1464-1492 | so does a rename or move, of a group that exists |
| DeletedRows.HostDeleteTakesExactly | crates/termoso-client/src/hosts.rs:1165-1207 | row by row: a host delete takes the host, its configs, their inline identities, its serial config and the bindings to it; every other row stays |
| DeletedRows.GroupDeleteTakesExactly | crates/termoso-client/src/hosts.rs:1624-1651 | row by row: a group delete takes the group and its SSH defaults with their inline login, moves direct members to the parent, and leaves every other row |
| DeletedRows.PlannedGroupDeleteTakesExactly | crates/termoso-bridge/src/bridge.rs:470-502 | the same for the bridge, which takes Telnet defaults and an unshared key as well |
| VaultAdoption.ListedVaultAfter | crates/termoso-core/src/account.rs:576-640 | a listed vault without a key gets exactly the key its envelope opens to, at the listed version; a held key is replaced exactly by a higher version whose envelope opens and, for a personal vault, only we can have made; otherwise key and version stay |
| VaultAdoption.UnlistedVaultAfter | crates/termoso-core/src/account.rs:652-656 | what is not listed goes if it was synced and stays as it is if it is local |
| VaultAdoption.ListedRowAfter | crates/termoso-core/src/store/entities.rs:492-522 | where the key was replaced exactly the live rows under the old key with another version read the same under the new one; every other row of a listed vault is untouched |
| VaultAdoption.AnswerIs | crates/termoso-core/src/account.rs:641-666 | the answer is the listed vaults that hold a key, personal ones first in list order, and to re-seal exactly the personal ones at the listed version whose envelope anyone could have made |
| SnippetText.CutExactly | crates/termoso-client/src/snippets.rs:61-83 | the split is the one the text determines: literals without a pair, holes up to the first closing pair, as the text stands |
| SnippetText.VariableExpands | crates/termoso-client/src/snippets.rs:85-119 | text before a variable stays, the variable becomes its value, and the rest is expanded on its own |
| SnippetText.OtherHoleStays | crates/termoso-client/src/snippets.rs:85-119 | a hole whose name is not valid is copied as written |
| SnippetText.NoHoleNoChange | crates/termoso-client/src/snippets.rs:85-119 | text without a closed pair is unchanged |
| SnippetText.TemplateExpands | crates/termoso-client/src/snippets.rs:85-119 | any sequence of texts and named holes expands to the texts with each hole's value between them, whatever the values contain |
| AgentWire.SignAnswerExactly | crates/termoso-core/src/agent_server.rs:302-338 | a sign request for a key on offer is answered with the first such key's signature exactly when the policy lets it sign and it can, and with a failure otherwise; a client reads the signature back |
| AgentWire.RestIsRefused | crates/termoso-core/src/agent_server.rs:280-342 | anything but the two requests, a malformed one, a key not on offer and a key that does not encode are answered with a failure |
| AgentWire.FlagsChooseHash | crates/termoso-core/src/agent_server.rs:323-329 | SHA-512 if its bit is set, else SHA-256 if its bit is set, else the key's own hash |
| AgentWire.KeysAreTheLastOffered | crates/termoso-core/src/agent_server.rs:206-209 | each request sees the keys last set before it |
| Autocomplete.WordsReadBack | crates/termoso-core/src/autocomplete.rs:248-281 | a line of plain and quoted words is split into just those words |
| Autocomplete.QueryExactly | crates/termoso-core/src/autocomplete.rs:367-389 | there is a directory to list exactly for a token that starts with no quote, dash or dollar sign, nor, without a slash, with a tilde; it is the token cut behind its last slash, the rest unescaped |
| LiveReplay.HostLoop.HandleCommand | crates/termoso-core/src/live.rs:598-645 | each command of the host sends exactly its one frame: output, the new size or title, typing, or the control note |
| LiveReplay.HostLoop.HandleParticipants | crates/termoso-core/src/live.rs:693-722 | afterwards exactly those seen before and the listed viewers are seen |
| Text.TrimIs | crates/termoso-bridge/src/bridge.rs:546-552 | trimming takes space off both ends, all of it, and nothing else |

## Left out

- Transport, JSON, SQL, timestamps, logging and UTF-8 encoding; text is a sequence of characters, and case folding is a parameter.
- Cryptography: sealed rows open under their own key, kind and id only; signing, key parsing and password hashing are parameters.
- The team id and role a listed vault carries on the client: stored as they come.
- Request validation, name resolution of vaults (`resolve_vault`, `locate`) and the summary views: straight mapping in front of the plans.
- A commit without an accepted push is tied to the log as it was last pulled, not as it is when the answer is given; others may write in between.
- WriteRequests.LandedHostUpsert: about a push that met the rows its plan was built from, because what others wrote between pull and push need not be well-formed with it; for any log there are `AcceptedItemsLoseNothing` (item by item), `AcceptedOnAnyLog` (the edit) and `LandedHostNamesExactly` (names). The same holds for the other three `Landed` lemmas.
- A push accepted in part leaves its accepted items in the log; no claim is made that a retried plan leaves no orphan then.
- Bridge hosts with a Telnet key: the request validation refuses them, so plans assume none.
- Certificates, host chains, proxies and snippet bindings inside configs: carried along as opaque text, with the checks on them as parameters.
- Copies of hosts into another vault, moving hosts between groups, merging tags and setting snippet targets: single loops over rows that add only easy members.
- HostStore.Rows.CopyGroupTree: says nothing about what a copy that fails half-way leaves behind (the program does not roll back either), and a copied login leaves TOTP secrets behind, as the form does.
- WriteRequests.LostDelete: makes the calls of `Edit` one after the other, because the commit loop says which pushes it made and not which writes of others each of them met.
- Failed saves in general: the rows written before a late error stay, as in the program, and no ownership is claimed for them.
- Filesystem effects of the master key other than content: permissions, directory syncs and the deletion of a whole profile.
- The quoting rules of shells other than the POSIX reader of single quotes; history, options and snippet suggestions of the completer.
- Parsing and printing of `host:port` and of known-hosts lines, and hashed host names: pins carry the canonical host text.
- LiveReplay: typing notices, titles beyond their latest value, and reconnects of the relay itself.
- TokenBucket: reals stand for floating point, so rounding is not modelled.
- Platform code, user interfaces, MCP, WebDAV, telnet and serial sessions.
