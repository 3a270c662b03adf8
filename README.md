# DeStorage contract: folder tree and access control

A Dafny model of the DeStorage NEAR contract (`DeStorage/contract/src/lib.rs`). The contract
stores four keyed tables:

- `users`: accounts.
- `folders_v2`: folder nodes.
- `files`: file records.
- `shared_docs`: sharing grants.

Every account owns an *account root*: a folder node stored under the account's id whose
`parent` is that same id. Folders hang below it through their `parent` links. The
*top-level folder* of a node is the ancestor (or the node itself) whose parent is the account
root. `get_root` finds it by walking `parent` links. Access to change a tree is decided on
that top-level folder: its owner (the account root's id) may change it, and anyone else
needs a write grant (permission 2) keyed `owner_caller_topId`.

The model is laid out as follows:

- `records.dfy` (module `Records`): the stored records, the Rust widths `u8` and `u64` as
  newtypes, and the guards' outcome `Pass | Fail(error)`. An aborting `assert!` becomes
  `Fail`, and a failing call writes nothing.
- `tree.dfy` (module `FolderTree`) covers the parent-link walk:
  - `RootWithin` says the walk from a node reaches an account root within `n` steps.
  - `ChainRoot` and `Top` give the account root and the top-level folder it reaches.
  - `ResolveRoot` is `get_root`'s intended result. `ResolveRootAsWritten` is the result
    `lib.rs` actually computes.
  - `FindTop` is the imperative `while` loop of `get_root`.
  - A ghost *rank* (a ranking of the nodes that falls strictly along every parent link
    other than the root's self-loop) proves the walk terminates. Lemmas show the loop spins
    forever on a missing parent or a cycle.
- `access.dfy` (module `Access`) covers `verify_accessible`, the four `validate_*` guards,
  and the composite grant key.
- `store.dfy` (module `Store`) holds the invariant every operation keeps, with one
  preservation lemma per operation. The invariant has four parts:
  - the ranking exists;
  - every account has its root;
  - listed children and files exist;
  - a folder type is set only on a folder stored directly below a node whose id is its
    creator's account id (that node need not be an account root), and a password only
    on a type-2 folder.
- `contract.dfy` (module `DeStorage`) holds the class `Contract`: the tables as `map` fields,
  and `SignUp`, `GetRoot`, `CreateFolderV2` and `CreateFileV2` as methods that update them in
  place. It also holds lemmas about what creation and sign-up do to the tree, and a scenario
  that reaches the root-capture state described under Findings.

`env::signer_account_id()` is the explicit `caller` parameter.

`get_root` does not return the self-loop account root. It returns the top-level folder
directly below it, together with that folder's id (lines 352-357).

`create_folder_v2` skips the access check whenever the parent id equals the caller
(line 266), and then keeps the requested type (lines 274-279). The parent need not be the
caller's account root: it can be a folder inside another account's tree that happens to
carry the caller's id, for example one created before that account signed up. The model
keeps this behaviour, as `CreateFolderV2`'s outcome clause states, and
`SignUpClaimsSubtree` shows the related effect of `sign_up` on such a folder.

## Model

| member | source | states |
|---|---|---|
| FolderTree.ChainRoot | DeStorage/contract/src/lib.rs:349-361 | the chain of parents from a node that reaches a root ends at a stored, self-parented node that is an ancestor-or-self of it |
| FolderTree.Top | DeStorage/contract/src/lib.rs:352-357 | the node the walk remembers when it steps onto the account root is stored and is not a root; its parent is the chain's account root and it is an ancestor-or-self of the start |
| FolderTree.ResolveRoot | DeStorage/contract/src/lib.rs:343-369 | get_root as intended: a folder is returned exactly when the id is stored and is not an account root; it is then the top-level folder above the id, with its own id, and its parent is the owning account; otherwise the result is (None, "") |
| FolderTree.ResolveRootAsWritten | DeStorage/contract/src/lib.rs:365-368 | get_root as written: away from account roots and missing ids it agrees with ResolveRoot; on them it returns the id "" and whatever folder is stored under "" |
| FolderTree.FindTop | DeStorage/contract/src/lib.rs:345-364 | the walk loop terminates on a ranked table and returns the top-level folder's id exactly when the start is stored and is not an account root |
| FolderTree.RootWithinMonotonic | DeStorage/contract/src/lib.rs:349-361 | a walk that finishes within n steps also finishes within any larger budget |
| FolderTree.RankBoundsWalk | DeStorage/contract/src/lib.rs:349-361 | on a ranked table the walk from any stored node finishes within that node's rank many steps |
| FolderTree.ClosedSetNeverReachesRoot | DeStorage/contract/src/lib.rs:349-361 | from a set of nodes that is closed under parent links and holds no account root, the walk never finishes, whatever the budget |
| FolderTree.DanglingParentNeverReachesRoot | DeStorage/contract/src/lib.rs:359 | a stored node whose parent is missing never reaches a root: the lookup fails and the loop stands still |
| FolderTree.TwoCycleNeverReachesRoot | DeStorage/contract/src/lib.rs:349-361 | two folders that are each other's parent never reach a root |
| FolderTree.TopFuelIrrelevant | DeStorage/contract/src/lib.rs:349-361 | the top-level folder and the account root found do not depend on the step budget, only on its sufficing |
| FolderTree.RootReachesOnlyItself | DeStorage/contract/src/lib.rs:349 | the only ancestor-or-self of an account root is itself |
| FolderTree.TopIsUnique | DeStorage/contract/src/lib.rs:352-357 | the top-level folder is the only non-root ancestor-or-self whose parent is an account root |
| FolderTree.TopOfTopLevelFolder | DeStorage/contract/src/lib.rs:343-369 | a folder directly below an account root resolves to itself |
| FolderTree.ChildSharesParentsTop | DeStorage/contract/src/lib.rs:343-369 | a folder below a non-root folder resolves to the same top-level folder as its parent |
| FolderTree.KeptParentsKeepWalk | DeStorage/contract/src/lib.rs:349-361 | a table that keeps every stored node's parent lets each old node reach the same account root and the same top-level folder |
| FolderTree.WithFolder | DeStorage/contract/src/lib.rs:281-297 | the table after create_folder_v2's two inserts holds the new folder and lists it after the parent's existing children |
| FolderTree.WithFile | DeStorage/contract/src/lib.rs:318-336 | the table after create_file_v2 lists the file in the folder, adding it at the end only if it was not listed yet, and changes nothing when it was |
| FolderTree.AddRootKeepsRanked | DeStorage/contract/src/lib.rs:165-167 | storing an account root under its own id keeps a ranking |
| FolderTree.SameParentKeepsRanked | DeStorage/contract/src/lib.rs:283-284 | rewriting a node with the same parent (a children or files list grown) keeps a ranking |
| FolderTree.AddLeafKeepsRanked | DeStorage/contract/src/lib.rs:286-296 | adding a new node below a stored parent keeps a ranking, one above the parent's rank |
| Access.VerifyAccessible | DeStorage/contract/src/lib.rs:170-200 | passes iff a root was resolved and the caller is its owner or holds a grant with permission 2 under owner_caller_id; no root fails with the no-permission error, a grant with another permission with WrongPermission, a missing grant with NotShared, each naming the key |
| Access.NodeAccess | DeStorage/contract/src/lib.rs:266-268 | as intended (the corrected half of the finding below): resolving the node's root and checking access passes iff the node is stored, is not an account root, and the caller owns its tree or holds a write grant on its top-level folder; account roots and missing nodes always fail |
| Access.NodeAccessAsWritten | DeStorage/contract/src/lib.rs:316-317 | the same check on the as-written resolution: on an account root or a missing node it passes exactly for the owner of the folder stored under "" and for those holding a write grant on it |
| Access.EmptyIdOpensEveryRoot | DeStorage/contract/src/lib.rs:365-368 | once a folder is stored under "" below the caller's root, the as-written check passes on every account root, while the intended check fails |
| Access.KeptParentsKeepAccess | DeStorage/contract/src/lib.rs:170-200 | a table change that keeps every node's parent keeps every access decision |
| Access.ValidateFolder | DeStorage/contract/src/lib.rs:202-216 | passes iff the id is neither an account nor a folder id; an account id is reported first |
| Access.ValidateUser | DeStorage/contract/src/lib.rs:218-224 | passes iff the two accounts are equal |
| Access.ValidateFile | DeStorage/contract/src/lib.rs:226-233 | passes iff the id is not a stored file id |
| Access.ValidateFolderType | DeStorage/contract/src/lib.rs:235-252 | passes iff a root is given and carries exactly the requested type; no root or an untyped root fails with RootNotFound, another type with FolderTypeInvalid |
| Access.ShareKeyInjective | DeStorage/contract/src/lib.rs:180 | when owner and grantee ids hold no '_', the grant key determines owner, grantee and folder |
| Access.ShareKeyAliasing | DeStorage/contract/src/lib.rs:180 | with '_' in account ids, two different (owner, grantee) pairs share one key, so one grant passes the check for both |
| Store.SignUpKeepsConsistent | DeStorage/contract/src/lib.rs:121-168 | sign-up keeps the table invariant, ranking the (new or renewed) root 0 |
| Store.AddFolderKeepsConsistent | DeStorage/contract/src/lib.rs:281-297 | adding a fresh folder below a stored parent keeps the table invariant |
| Store.AddFileKeepsConsistent | DeStorage/contract/src/lib.rs:318-338 | listing a file in a stored folder and storing its record keeps the table invariant |
| DeStorage.Classify | DeStorage/contract/src/lib.rs:271-279 | the stored type is the requested one iff the folder goes directly below the caller's own id and a type was given; the password is kept iff, in addition, the type is 2 |
| DeStorage.NewFolderInheritsAccess | DeStorage/contract/src/lib.rs:281-297 | a folder created below an account root is a new top-level folder owned by that account; created anywhere else, exactly those who may change its parent may change it; all old nodes keep their parents |
| DeStorage.FileUploadKeepsAccess | DeStorage/contract/src/lib.rs:318-338 | listing a file keeps every parent link and every access decision |
| DeStorage.FreshSignUpKeepsResolution | DeStorage/contract/src/lib.rs:165-167 | signing up under an id that is not a folder id leaves the resolution of every stored node unchanged |
| DeStorage.SignUpClaimsSubtree | DeStorage/contract/src/lib.rs:166 | signing up under an id that is already a folder makes it a root, and every node below it now belongs to the signing account |
| DeStorage.Contract.constructor | DeStorage/contract/src/lib.rs:104-117 | the contract starts with all tables empty and the invariant holding |
| DeStorage.Contract.SignUp | DeStorage/contract/src/lib.rs:121-168 | keeps the invariant; stores the user record and an account root (parent and creator the account, no children, no files, no type, no password) under the caller's id, overwriting earlier ones; writes the legacy folders and shared_folders records; files and grants unchanged |
| DeStorage.Contract.GetRoot | DeStorage/contract/src/lib.rs:343-369 | as intended (the corrected half of the finding below): on a table that keeps the invariant the walk terminates and returns ResolveRoot's result: the top-level folder above the id and its id, or (None, "") for an account root or a missing id |
| DeStorage.Contract.CreateFolderV2 | DeStorage/contract/src/lib.rs:254-302 | keeps the invariant; the outcome is validate_folder, then (unless the parent is the caller's own id) the access check on the parent; on a pass with a stored parent the new folder is stored with parent, creator, no children or files, and the classified type and password, and is appended to the parent's children; on a failure or a missing parent folders_v2 is unchanged; no other table is touched |
| DeStorage.Contract.InsertFolder | DeStorage/contract/src/lib.rs:281-297 | storing a fresh folder below a stored parent keeps the invariant and changes only folders_v2 |
| DeStorage.Contract.CreateFileV2 | DeStorage/contract/src/lib.rs:304-341 | keeps the invariant; the outcome is validate_file, then the access check on the folder, so a file can never go into an account root or a missing folder; on a pass the file is listed in the folder (once) and stored with last_update = created_at and created_by = update_by = caller; on a failure nothing changes |
| DeStorage.Contract.InsertFile | DeStorage/contract/src/lib.rs:318-338 | listing and storing a fresh file keeps the invariant and changes only folders_v2 and files |
| DeStorage.EmptyIdScenario | DeStorage/contract/src/lib.rs:202-216 | from the empty contract: alice and bob sign up, and bob's folder with id "" below his own root passes validation; the as-written access check then passes for bob on alice's root, and the intended get_root and verify_accessible refuse him |

## Left out

- `env::log` calls, `near_bindgen`, Borsh and serde: host output and serialisation, which
  change no table.
- `env::signer_account_id()`: it is the `caller` parameter, and authentication is the
  host's job.
- Share, unshare and remove operations and the `shared_doc_of_user` index: they are not
  part of this model. `shared_docs` is given state, read and never written.
- The legacy `folders` and `shared_folders` tables: nothing reads them, so they appear only
  as `SignUp` writes them. The unused `SharedFileDoc` and `SharedFolderDoc` records are not
  modelled.
- The internals of `UnorderedMap` are not modelled: tables are Dafny maps, and `children` and `files` are sequences that keep order.
- Timestamps are only copied into records.
- DeStorage.Contract.GetRoot: it requires the table invariant, which includes a ranking, and
  so it does not model the runs in which `lib.rs` loops forever. The lemmas
  `ClosedSetNeverReachesRoot`, `DanglingParentNeverReachesRoot` and
  `TwoCycleNeverReachesRoot` state when those runs happen. The invariant shows no operation
  here creates such a table.
- DeStorage.Contract.GetRoot: it returns the corrected root resolution (`ResolveRoot`). On
  an account root or a missing id it returns `(None, "")`. `lib.rs` (lines 365-368) instead
  returns the folder stored under `""` whenever one exists. That as-written result is
  `ResolveRootAsWritten`; see Findings.
- DeStorage.Contract.CreateFolderV2: its access check uses the corrected resolution. It
  therefore refuses writes below a foreign account root that `lib.rs` allows once a folder
  is stored under `""`.
- DeStorage.Contract.CreateFileV2: its access check uses the corrected resolution. A file
  therefore never goes into an account root, which is not true of `lib.rs` once a folder
  is stored under `""`.
- Storage staking, gas and the host's reverting of state on a panic: the model replaces the
  revert by returning before any write, which agrees with `lib.rs`, since all its
  assertions come before its writes.

## Findings

| source | as written | input that shows it | evidently intended | confidence | as-written member | corrected member |
|---|---|---|---|---|---|---|
| DeStorage/contract/src/lib.rs:344-368 | When the walk finds no top-level folder (the id is an account root), `result` stays `""`, and the final lookup returns whatever folder is stored under `""`. `validate_folder` (202-216) accepts `""` as a new folder id. | alice and bob sign up. bob calls create_folder_v2 with id `""` and parent `"bob"`, then create_folder_v2 or create_file_v2 with parent `"alice"`. get_root("alice") returns bob's `""` folder, whose owner is bob, so verify_accessible passes and bob writes into alice's account root. | get_root of an account root yields no folder, and verify_accessible refuses every caller there. | not executed | FolderTree.ResolveRootAsWritten, Access.NodeAccessAsWritten, Access.EmptyIdOpensEveryRoot, DeStorage.EmptyIdScenario | FolderTree.ResolveRoot, Access.NodeAccess |
