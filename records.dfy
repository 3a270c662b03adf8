/** The record types the contract stores, and the outcome of its guards.
    Strings are Dafny strings; the Rust integer widths are kept as newtypes. */
module Records {

  newtype u8 = x: int | 0 <= x < 0x100
  newtype u64 = x: int | 0 <= x < 0x1_0000_0000_0000_0000

  datatype Option<+T> = None | Some(value: T)

  /** A node of the folder tree (`FolderV2`). `folderType` is 1 for a common folder
      and 2 for a shared folder; an account root has none. */
  datatype FolderV2 = FolderV2(
    name: string,
    files: seq<string>,
    parent: string,
    children: seq<string>,
    folderType: Option<u8>,
    folderPassword: Option<string>,
    createdBy: string,
    createdAt: u64)

  /** A file's metadata; the content itself is addressed by `cid` elsewhere. */
  datatype File = File(
    cid: string,
    name: string,
    encryptedPassword: Option<string>,
    fileType: string,
    lastUpdate: u64,
    updateBy: string,
    createdAt: u64,
    createdBy: string)

  datatype User = User(publicKey: string, encryptedToken: string)

  /** A sharing grant; `permission` 2 is write access, `docType` 1 a file and 2 a folder. */
  datatype ShareDoc = ShareDoc(
    docId: string,
    sharePassword: string,
    permission: u8,
    createdAt: u64,
    docType: u8)

  /** Legacy records, written by sign-up and read by nothing in the contract. */
  datatype Folder = Folder(
    name: string,
    files: seq<string>,
    parent: string,
    children: seq<string>,
    createdAt: u64)

  datatype SharedFolder = SharedFolder(
    name: string,
    files: seq<string>,
    parent: string,
    children: seq<string>,
    folderPassword: Option<string>,
    createdBy: string,
    createdAt: u64)

  /** One constructor per aborting assertion of the contract's guards. */
  datatype Error =
    | NoRootFolder                    // verify_accessible: no top-level folder was resolved
    | WrongPermission(docId: string)  // a grant exists but its permission is not 2
    | NotShared(docId: string)        // no grant under the composite key
    | IdIsAccount                     // validate_folder: the id is a registered account
    | FolderExists                    // validate_folder: the id is a stored folder
    | FileExists                      // validate_file: the id is a stored file
    | OwnerMismatch                   // validate_user: the two accounts differ
    | RootNotFound                    // validate_folder_type: no root, or a root without a type
    | FolderTypeInvalid               // validate_folder_type: the type differs

  /** A call either passes its guard or aborts with an error; an abort commits nothing. */
  datatype Outcome = Pass | Fail(error: Error)

  /** Runs the guard `next` only when `first` passed, as consecutive assertions do. */
  function Then(first: Outcome, next: Outcome): Outcome
  {
    if first.Fail? then first else next
  }

  /** The permission value that grants write access. */
  const WritePermission: u8 := 2
  /** The folder type whose password is kept. */
  const SharedFolderType: u8 := 2
}
