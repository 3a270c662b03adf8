/** The read-only guards of the contract: the access check against a tree's top-level
    folder and the id and type validations. Each either passes or aborts the call. */
module Access {
  import opened Records
  import opened FolderTree

  /** The `shared_docs` key of a grant from `owner` to `grantee` over `resource`. */
  function ShareKey(owner: string, grantee: string, resource: string): string
  {
    owner + "_" + grantee + "_" + resource
  }

  /** `owner` has granted `grantee` write access over `resource`. */
  predicate WriteGrant(sharedDocs: map<string, ShareDoc>, owner: string, grantee: string, resource: string)
  {
    ShareKey(owner, grantee, resource) in sharedDocs &&
    sharedDocs[ShareKey(owner, grantee, resource)].permission == WritePermission
  }

  /** verify_accessible: the owner of a resolved root (its `parent`, the account) may
      always change the tree; anyone else needs a grant with permission 2 keyed by that
      owner, the caller and the top-level folder's id. */
  function VerifyAccessible(sharedDocs: map<string, ShareDoc>, root: Option<FolderV2>, folderId: string, caller: string): (r: Outcome)
    ensures r.Pass? <==>
      root.Some? && (caller == root.value.parent || WriteGrant(sharedDocs, root.value.parent, caller, folderId))
    ensures root.None? ==> r == Fail(NoRootFolder)
    ensures root.Some? && r.Fail? ==>
      var key := ShareKey(root.value.parent, caller, folderId);
      r.error == (if key in sharedDocs then WrongPermission(key) else NotShared(key))
  {
    match root
    case None => Fail(NoRootFolder)
    case Some(folder) =>
      var owner := folder.parent;
      var key := ShareKey(owner, caller, folderId);
      if owner != caller then
        if key in sharedDocs then
          if sharedDocs[key].permission == WritePermission then Pass else Fail(WrongPermission(key))
        else
          Fail(NotShared(key))
      else
        Pass
  }

  /** The check every mutation below a foreign node goes through: resolve the node's
      root, then verify access against it. */
  function NodeAccess(sharedDocs: map<string, ShareDoc>, folders: Table, x: string, caller: string, n: nat): (r: Outcome)
    requires x in folders ==> RootWithin(folders, x, n)
    ensures r.Pass? <==>
      x in folders && !IsRoot(folders, x) &&
      (caller == ChainRoot(folders, x, n) ||
       WriteGrant(sharedDocs, ChainRoot(folders, x, n), caller, Top(folders, x, n)))
    ensures IsRoot(folders, x) || x !in folders ==> r == Fail(NoRootFolder)
  {
    var (root, rootId) := ResolveRoot(folders, x, n);
    VerifyAccessible(sharedDocs, root, rootId, caller)
  }

  /** The same check on root resolution as lib.rs writes it (see ResolveRootAsWritten):
      on an account root or a missing node it checks against whatever folder is stored
      under the empty id. */
  function NodeAccessAsWritten(sharedDocs: map<string, ShareDoc>, folders: Table, x: string, caller: string, n: nat): (r: Outcome)
    requires x in folders ==> RootWithin(folders, x, n)
    ensures x in folders && !IsRoot(folders, x) ==> r == NodeAccess(sharedDocs, folders, x, caller, n)
    ensures !(x in folders && !IsRoot(folders, x)) ==>
      (r.Pass? <==> "" in folders && (caller == folders[""].parent || WriteGrant(sharedDocs, folders[""].parent, caller, "")))
  {
    var (root, rootId) := ResolveRootAsWritten(folders, x, n);
    VerifyAccessible(sharedDocs, root, rootId, caller)
  }

  /** A folder stored under the empty id hands its creator every account root: as
      written, the check on any root passes for the account the folder was made under,
      where the intended check refuses everyone. */
  lemma EmptyIdOpensEveryRoot(sharedDocs: map<string, ShareDoc>, folders: Table, x: string, caller: string, n: nat)
    requires IsRoot(folders, x) && "" in folders && folders[""].parent == caller
    ensures NodeAccessAsWritten(sharedDocs, folders, x, caller, n) == Pass
    ensures NodeAccess(sharedDocs, folders, x, caller, n) == Fail(NoRootFolder)
  {
  }

  /** Changes that keep every node's parent keep every access decision. */
  lemma KeptParentsKeepAccess(sharedDocs: map<string, ShareDoc>, folders: Table, next: Table, x: string, caller: string, n: nat)
    requires KeepsParents(folders, next) && RootWithin(folders, x, n)
    ensures RootWithin(next, x, n)
    ensures NodeAccess(sharedDocs, next, x, caller, n) == NodeAccess(sharedDocs, folders, x, caller, n)
  {
    KeptParentsKeepWalk(folders, next, x, n);
  }

  /** validate_folder: a new folder id may be neither an account id nor a folder id. */
  function ValidateFolder(users: map<string, User>, folders: Table, id: string): (r: Outcome)
    ensures r.Pass? <==> id !in users && id !in folders
    ensures id in users ==> r == Fail(IdIsAccount)
    ensures id !in users && id in folders ==> r == Fail(FolderExists)
  {
    if id in users then Fail(IdIsAccount)
    else if id in folders then Fail(FolderExists)
    else Pass
  }

  /** validate_user: the two accounts must be the same. */
  function ValidateUser(account: string, owner: string): (r: Outcome)
    ensures r.Pass? <==> account == owner
    ensures r.Fail? ==> r.error == OwnerMismatch
  {
    if account == owner then Pass else Fail(OwnerMismatch)
  }

  /** validate_file: a new file id may not be a stored file id. */
  function ValidateFile(files: map<string, File>, id: string): (r: Outcome)
    ensures r.Pass? <==> id !in files
    ensures r.Fail? ==> r.error == FileExists
  {
    if id in files then Fail(FileExists) else Pass
  }

  /** validate_folder_type: the root must exist, carry a type, and carry exactly `t`. */
  function ValidateFolderType(root: Option<FolderV2>, t: u8): (r: Outcome)
    ensures r.Pass? <==> root.Some? && root.value.folderType == Some(t)
    ensures root.None? || root.value.folderType.None? ==> r == Fail(RootNotFound)
    ensures root.Some? && root.value.folderType.Some? && root.value.folderType.value != t ==>
      r == Fail(FolderTypeInvalid)
  {
    match root
    case None => Fail(RootNotFound)
    case Some(folder) =>
      if folder.folderType.Some? then
        if folder.folderType.value == t then Pass else Fail(FolderTypeInvalid)
      else
        Fail(RootNotFound)
  }

  // ---------------------------------------------------------------------------
  // The composite grant key

  lemma SeparatorSplit(a: string, b: string, c: string, d: string)
    requires '_' !in a && '_' !in c
    requires a + "_" + b == c + "_" + d
    ensures a == c && b == d
  {
    var s := a + "_" + b;
    assert s[|a|] == '_';
    assert s[|c|] == '_';
    if |a| < |c| {
      assert false;
    } else if |c| < |a| {
      assert false;
    }
    assert a == s[..|a|] == c;
    assert b == s[|a| + 1..] == d;
  }

  /** When account ids hold no '_', a grant key names exactly one grant. */
  lemma ShareKeyInjective(o1: string, g1: string, r1: string, o2: string, g2: string, r2: string)
    requires '_' !in o1 && '_' !in g1 && '_' !in o2 && '_' !in g2
    requires ShareKey(o1, g1, r1) == ShareKey(o2, g2, r2)
    ensures o1 == o2 && g1 == g2 && r1 == r2
  {
    assert ShareKey(o1, g1, r1) == o1 + "_" + (g1 + "_" + r1);
    assert ShareKey(o2, g2, r2) == o2 + "_" + (g2 + "_" + r2);
    SeparatorSplit(o1, g1 + "_" + r1, o2, g2 + "_" + r2);
    SeparatorSplit(g1, r1, g2, r2);
  }

  /** Account ids may hold '_': then two different (owner, grantee) pairs share one
      key, and a grant one owner issued passes the check for another owner's tree. */
  lemma ShareKeyAliasing(sharedDocs: map<string, ShareDoc>)
    ensures ShareKey("a_b", "c", "d") == ShareKey("a", "b_c", "d")
    ensures WriteGrant(sharedDocs, "a", "b_c", "d") <==> WriteGrant(sharedDocs, "a_b", "c", "d")
  {
    assert ShareKey("a_b", "c", "d") == "a_b_c_d" == ShareKey("a", "b_c", "d");
  }
}
