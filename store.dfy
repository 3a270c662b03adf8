/** The invariant the contract's tables keep across every operation, and one lemma
    per operation showing that it is kept. */
module Store {
  import opened Records
  import opened FolderTree

  /** Every registered account owns an account root under its own id. */
  predicate AccountsAreRoots(users: map<string, User>, folders: Table)
  {
    forall a :: a in users ==> IsRoot(folders, a)
  }

  /** At one stored node: every listed child is a stored folder, every listed file a
      stored file; a folder type is only set on a folder created directly below its
      creator's own id, and a password only on a shared folder (type 2). */
  predicate NodeSound(folders: Table, files: map<string, File>, x: string)
    requires x in folders
  {
    (forall c :: c in folders[x].children ==> c in folders) &&
    (forall f :: f in folders[x].files ==> f in files) &&
    (folders[x].folderType.Some? ==> folders[x].parent == folders[x].createdBy) &&
    (folders[x].folderPassword.Some? ==> folders[x].folderType == Some(SharedFolderType))
  }

  /** The invariant every operation keeps. */
  ghost predicate Consistent(users: map<string, User>, folders: Table, files: map<string, File>, rank: map<string, nat>)
  {
    Ranked(folders, rank) && AccountsAreRoots(users, folders) &&
    forall x :: x in folders ==> NodeSound(folders, files, x)
  }

  /** The account root that sign-up stores. */
  function AccountRoot(account: string, createdAt: u64): FolderV2
  {
    FolderV2("root", [], account, [], None, None, account, createdAt)
  }

  /** Sign-up keeps the invariant, with rank 0 for the (new or renewed) account root. */
  lemma SignUpKeepsConsistent(users: map<string, User>, folders: Table, files: map<string, File>,
                              rank: map<string, nat>, a: string, u: User, createdAt: u64)
    requires Consistent(users, folders, files, rank)
    ensures Consistent(users[a := u], folders[a := AccountRoot(a, createdAt)], files, rank[a := 0])
  {
    var folders' := folders[a := AccountRoot(a, createdAt)];
    AddRootKeepsRanked(folders, rank, a, AccountRoot(a, createdAt));
    forall x | x in folders'
      ensures NodeSound(folders', files, x)
    {
      if x != a {
        assert NodeSound(folders, files, x);
      }
    }
  }

  /** Adding a fresh folder below a stored parent keeps the invariant. */
  lemma AddFolderKeepsConsistent(users: map<string, User>, folders: Table, files: map<string, File>,
                                 rank: map<string, nat>, id: string, f: FolderV2)
    requires Consistent(users, folders, files, rank)
    requires id !in users && id !in folders && f.parent in folders
    requires f.children == [] && f.files == []
    requires f.folderType.Some? ==> f.parent == f.createdBy
    requires f.folderPassword.Some? ==> f.folderType == Some(SharedFolderType)
    ensures f.parent in rank
    ensures Consistent(users, WithFolder(folders, id, f), files, rank[id := rank[f.parent] + 1])
  {
    var p := f.parent;
    var withChild := folders[p := folders[p].(children := folders[p].children + [id])];
    var folders' := WithFolder(folders, id, f);
    assert folders' == withChild[id := f];
    SameParentKeepsRanked(folders, rank, p, withChild[p]);
    AddLeafKeepsRanked(withChild, rank, id, f);
    forall x | x in folders'
      ensures NodeSound(folders', files, x)
    {
      if x != id {
        assert NodeSound(folders, files, x);
      }
    }
    forall a | a in users
      ensures IsRoot(folders', a)
    {
      assert IsRoot(folders, a);
    }
  }

  /** Listing a new file in a stored folder and storing its record keeps the invariant. */
  lemma AddFileKeepsConsistent(users: map<string, User>, folders: Table, files: map<string, File>,
                               rank: map<string, nat>, x: string, fileId: string, file: File)
    requires Consistent(users, folders, files, rank) && x in folders
    ensures Consistent(users, WithFile(folders, x, fileId), files[fileId := file], rank)
  {
    var folders' := WithFile(folders, x, fileId);
    var files' := files[fileId := file];
    if fileId !in folders[x].files {
      SameParentKeepsRanked(folders, rank, x, folders'[x]);
    }
    forall y | y in folders'
      ensures NodeSound(folders', files', y)
    {
      assert NodeSound(folders, files, y);
    }
    forall a | a in users
      ensures IsRoot(folders', a)
    {
      assert IsRoot(folders, a);
    }
  }
}
