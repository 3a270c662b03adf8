/** The DeStorage contract: four keyed tables (accounts, folder nodes, file records and
    sharing grants), updated in place by sign-up and by folder and file creation.
    The signing account is the explicit `caller` parameter. A failed guard aborts the
    call, so every `Fail` outcome leaves all tables as they were. */
module DeStorage {
  import opened Records
  import opened FolderTree
  import opened Access
  import opened Store

  /** The type and password a new folder is stored with: both are honoured only when
      the folder goes directly below the caller's own id, the password only for type 2. */
  function Classify(caller: string, parent: string, folderType: Option<u8>, password: Option<string>)
    : (r: (Option<u8>, Option<string>))
    ensures r.0.Some? <==> parent == caller && folderType.Some?
    ensures r.0.Some? ==> r.0 == folderType
    ensures r.1.Some? <==> parent == caller && folderType == Some(SharedFolderType) && password.Some?
    ensures r.1.Some? ==> r.1 == password
  {
    if parent == caller && folderType.Some? then
      (folderType, if folderType.value == SharedFolderType then password else None)
    else
      (None, None)
  }

  /** A new folder belongs to its parent's tree: below an account root it is a new
      top-level folder owned by that account; anywhere else exactly those who may change
      the parent may change it. Every node that was already stored resolves as before. */
  lemma {:induction false} NewFolderInheritsAccess(sharedDocs: map<string, ShareDoc>, folders: Table, id: string, f: FolderV2,
                                                   caller: string, n: nat)
    requires RootWithin(folders, f.parent, n) && id !in folders
    ensures KeepsParents(folders, WithFolder(folders, id, f))
    ensures RootWithin(WithFolder(folders, id, f), id, n + 1)
    ensures IsRoot(folders, f.parent) ==>
      ResolveRoot(WithFolder(folders, id, f), id, n + 1) == (Some(f), id) &&
      ChainRoot(WithFolder(folders, id, f), id, n + 1) == f.parent
    ensures !IsRoot(folders, f.parent) ==>
      NodeAccess(sharedDocs, WithFolder(folders, id, f), id, caller, n + 1) ==
      NodeAccess(sharedDocs, folders, f.parent, caller, n)
  {
    var next := WithFolder(folders, id, f);
    assert KeepsParents(folders, next);
    KeptParentsKeepWalk(folders, next, f.parent, n);
    assert RootWithin(next, id, n + 1);
  }

  /** Listing a file changes no parent link, so every access decision stays as it was. */
  lemma FileUploadKeepsAccess(sharedDocs: map<string, ShareDoc>, folders: Table, x: string, fileId: string,
                              y: string, caller: string, n: nat)
    requires x in folders && RootWithin(folders, y, n)
    ensures KeepsParents(folders, WithFile(folders, x, fileId))
    ensures RootWithin(WithFile(folders, x, fileId), y, n)
    ensures NodeAccess(sharedDocs, WithFile(folders, x, fileId), y, caller, n) == NodeAccess(sharedDocs, folders, y, caller, n)
  {
    KeptParentsKeepAccess(sharedDocs, folders, WithFile(folders, x, fileId), y, caller, n);
  }

  /** Signing up under an id that holds no folder yet leaves every stored node where it was. */
  lemma FreshSignUpKeepsResolution(folders: Table, a: string, createdAt: u64, y: string, n: nat)
    requires a !in folders && RootWithin(folders, y, n)
    ensures RootWithin(folders[a := AccountRoot(a, createdAt)], y, n)
    ensures ResolveRoot(folders[a := AccountRoot(a, createdAt)], y, n) == ResolveRoot(folders, y, n)
  {
    KeptParentsKeepWalk(folders, folders[a := AccountRoot(a, createdAt)], y, n);
  }

  /** sign_up does not check whether its id is already a folder id. If it is, the
      folder turns into the account's root, and every node below it now resolves to
      the signing account, whoever created it. */
  lemma {:induction false} SignUpClaimsSubtree(folders: Table, a: string, createdAt: u64, x: string, n: nat)
    requires RootWithin(folders, x, n) && Reaches(folders, x, a, n)
    ensures RootWithin(folders[a := AccountRoot(a, createdAt)], x, n)
    ensures ChainRoot(folders[a := AccountRoot(a, createdAt)], x, n) == a
    decreases n
  {
    if x != a {
      var p := folders[x].parent;
      if p == x {
        RootReachesOnlyItself(folders, x, a, n);
        assert false;
      }
      SignUpClaimsSubtree(folders, a, createdAt, p, n - 1);
    }
  }

  class Contract {
    var foldersV2: map<string, FolderV2>
    var users: map<string, User>
    var files: map<string, File>
    /** Grants, keyed by ShareKey; only read by the operations below. */
    var sharedDocs: map<string, ShareDoc>
    /** Legacy tables that sign-up still writes. */
    var folders: map<string, Folder>
    var sharedFolders: map<string, SharedFolder>
    /** A ranking of the folder nodes that decreases towards the account roots. */
    ghost var rank: map<string, nat>

    ghost predicate Valid()
      reads this
    {
      Consistent(users, foldersV2, files, rank)
    }

    /** Enough steps for the walk from `x`. */
    ghost function Fuel(x: string): nat
      reads this
    {
      if x in rank then rank[x] else 0
    }

    ghost predicate Resolvable(x: string)
      reads this
    {
      x in foldersV2 ==> RootWithin(foldersV2, x, Fuel(x))
    }

    /** The empty contract. */
    constructor ()
      ensures Valid()
      ensures foldersV2 == map[] && users == map[] && files == map[] && sharedDocs == map[]
      ensures folders == map[] && sharedFolders == map[]
    {
      foldersV2, users, files, sharedDocs := map[], map[], map[], map[];
      folders, sharedFolders := map[], map[];
      rank := map[];
    }

    /** sign_up: registers `caller` and (re)creates its account root, which has no
        children, no files and no type. Registering again overwrites both records. */
    method SignUp(caller: string, publicKey: string, encryptedToken: string, createdAt: u64)
      requires Valid()
      modifies this
      ensures Valid()
      ensures users == old(users)[caller := User(publicKey, encryptedToken)]
      ensures foldersV2 == old(foldersV2)[caller := AccountRoot(caller, createdAt)]
      ensures folders == old(folders)[caller := Folder("root", [], caller, [], createdAt)]
      ensures sharedFolders == old(sharedFolders)[caller := SharedFolder("root", [], caller, [], None, caller, createdAt)]
      ensures files == old(files) && sharedDocs == old(sharedDocs)
    {
      SignUpKeepsConsistent(users, foldersV2, files, rank, caller, User(publicKey, encryptedToken), createdAt);
      users := users[caller := User(publicKey, encryptedToken)];
      var root := Folder("root", [], caller, [], createdAt);
      var rootSharedFolder := SharedFolder("root", [], caller, [], None, caller, createdAt);
      var rootFolder := AccountRoot(caller, createdAt);
      folders := folders[caller := root];
      foldersV2 := foldersV2[caller := rootFolder];
      sharedFolders := sharedFolders[caller := rootSharedFolder];
      rank := rank[caller := 0];
    }

    /** get_root: walks parent links from `folderId` (FindTop) and returns the top-level folder
        above it (the node whose parent is an account root) with its id. This is the
        corrected resolution: for an id that is missing or is itself an account root it
        returns no folder, where lib.rs looks up the empty id (ResolveRootAsWritten). */
    method GetRoot(folderId: string) returns (root: Option<FolderV2>, id: string)
      requires Valid()
      ensures Resolvable(folderId)
      ensures (root, id) == ResolveRoot(foldersV2, folderId, Fuel(folderId))
    {
      var found := FindTop(foldersV2, rank, folderId);
      match found
      case Some(t) =>
        root, id := Some(foldersV2[t]), t;
      case None =>
        root, id := None, "";
    }

    /** create_folder_v2: checks that `id` is fresh, then (unless the parent is the
        caller's own id) that the caller may change the parent's tree; then appends `id`
        to the parent's children and stores the new folder. A missing parent changes
        nothing. Only `folders_v2` is ever written. */
    method CreateFolderV2(caller: string, id: string, name: string, parent: string,
                          password: Option<string>, folderType: Option<u8>, createdAt: u64)
      returns (r: Outcome)
      requires Valid()
      modifies this
      ensures Valid()
      ensures old(Resolvable(parent))
      ensures r == Then(ValidateFolder(old(users), old(foldersV2), id),
                        if parent == caller then Pass
                        else NodeAccess(old(sharedDocs), old(foldersV2), parent, caller, old(Fuel(parent))))
      ensures users == old(users) && files == old(files) && sharedDocs == old(sharedDocs)
      ensures folders == old(folders) && sharedFolders == old(sharedFolders)
      ensures r.Fail? || parent !in old(foldersV2) ==> foldersV2 == old(foldersV2)
      ensures r.Pass? && parent in old(foldersV2) ==>
        foldersV2 == WithFolder(old(foldersV2), id,
                                FolderV2(name, [], parent, [], Classify(caller, parent, folderType, password).0,
                                         Classify(caller, parent, folderType, password).1, caller, createdAt))
    {
      if parent in foldersV2 {
        RankBoundsWalk(foldersV2, rank, parent);
      }
      r := ValidateFolder(users, foldersV2, id);
      if r.Fail? {
        return;
      }
      if parent != caller {
        var root, rootId := GetRoot(parent);
        r := VerifyAccessible(sharedDocs, root, rootId, caller);
        if r.Fail? {
          return;
        }
      }
      var (storedType, storedPassword) := Classify(caller, parent, folderType, password);
      if parent in foldersV2 {
        InsertFolder(id, FolderV2(name, [], parent, [], storedType, storedPassword, caller, createdAt));
      }
      // otherwise lib.rs only logs that the parent folder was not found
    }

    /** Stores a fresh folder and lists it among its parent's children. */
    method InsertFolder(id: string, f: FolderV2)
      requires Valid()
      requires id !in users && id !in foldersV2 && f.parent in foldersV2
      requires f.children == [] && f.files == []
      requires f.folderType.Some? ==> f.parent == f.createdBy
      requires f.folderPassword.Some? ==> f.folderType == Some(SharedFolderType)
      modifies this
      ensures Valid()
      ensures foldersV2 == WithFolder(old(foldersV2), id, f)
      ensures users == old(users) && files == old(files) && sharedDocs == old(sharedDocs)
      ensures folders == old(folders) && sharedFolders == old(sharedFolders)
    {
      AddFolderKeepsConsistent(users, foldersV2, files, rank, id, f);
      foldersV2 := WithFolder(foldersV2, id, f);
      rank := rank[id := rank[f.parent] + 1];
    }

    /** create_file_v2: checks that `fileId` is fresh and that the caller may change the
        folder's tree (so a file can never go into an account root), then lists `fileId`
        in the folder if it is not listed yet and stores the record. */
    method CreateFileV2(caller: string, folder: string, fileId: string, cid: string, name: string,
                        encryptedPassword: Option<string>, fileType: string, createdAt: u64)
      returns (r: Outcome)
      requires Valid()
      modifies this
      ensures Valid()
      ensures old(Resolvable(folder))
      ensures r == Then(ValidateFile(old(files), fileId),
                        NodeAccess(old(sharedDocs), old(foldersV2), folder, caller, old(Fuel(folder))))
      ensures IsRoot(old(foldersV2), folder) || folder !in old(foldersV2) ==> r.Fail?
      ensures users == old(users) && sharedDocs == old(sharedDocs)
      ensures folders == old(folders) && sharedFolders == old(sharedFolders)
      ensures r.Fail? ==> foldersV2 == old(foldersV2) && files == old(files)
      ensures r.Pass? ==> foldersV2 == WithFile(old(foldersV2), folder, fileId)
      ensures r.Pass? ==>
        files == old(files)[fileId := File(cid, name, encryptedPassword, fileType, createdAt, caller, createdAt, caller)]
      ensures r.Pass? ==>
        files[fileId].lastUpdate == files[fileId].createdAt == createdAt &&
        files[fileId].createdBy == files[fileId].updateBy == caller
    {
      if folder in foldersV2 {
        RankBoundsWalk(foldersV2, rank, folder);
      }
      r := ValidateFile(files, fileId);
      if r.Fail? {
        return;
      }
      var root, rootId := GetRoot(folder);
      r := VerifyAccessible(sharedDocs, root, rootId, caller);
      if r.Fail? {
        return;
      }
      if folder in foldersV2 {
        InsertFile(folder, fileId, File(cid, name, encryptedPassword, fileType, createdAt, caller, createdAt, caller));
      }
    }

    /** Lists `fileId` in `folder` unless it is listed already, and stores its record. */
    method InsertFile(folder: string, fileId: string, file: File)
      requires Valid() && folder in foldersV2 && fileId !in files
      modifies this
      ensures Valid()
      ensures foldersV2 == WithFile(old(foldersV2), folder, fileId)
      ensures files == old(files)[fileId := file]
      ensures users == old(users) && sharedDocs == old(sharedDocs)
      ensures folders == old(folders) && sharedFolders == old(sharedFolders)
    {
      AddFileKeepsConsistent(users, foldersV2, files, rank, folder, fileId, file);
      foldersV2 := WithFile(foldersV2, folder, fileId);
      files := files[fileId := file];
    }
  }

  /** Two accounts sign up; bob then creates a folder with the empty id below his own
      root, which validate_folder lets through. From then on the access check on alice's
      account root, as lib.rs resolves roots, passes for bob; with the intended
      resolution get_root finds no top-level folder and the check refuses. */
  method EmptyIdScenario() returns (created: Outcome, asWritten: Outcome, intended: Outcome)
    ensures created == Pass
    ensures asWritten == Pass
    ensures intended == Fail(NoRootFolder)
  {
    var c := new Contract();
    c.SignUp("alice", "alice-key", "alice-token", 1);
    c.SignUp("bob", "bob-key", "bob-token", 1);
    assert "" !in c.users && "" !in c.foldersV2 && IsRoot(c.foldersV2, "alice");
    created := c.CreateFolderV2("bob", "", "notes", "bob", None, None, 2);
    assert c.foldersV2[""].parent == "bob" && IsRoot(c.foldersV2, "alice");
    EmptyIdOpensEveryRoot(c.sharedDocs, c.foldersV2, "alice", "bob", 0);
    asWritten := NodeAccessAsWritten(c.sharedDocs, c.foldersV2, "alice", "bob", 0);
    var root, rootId := c.GetRoot("alice");
    intended := VerifyAccessible(c.sharedDocs, root, rootId, "bob");
  }
}
