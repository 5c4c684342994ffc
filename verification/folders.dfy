/** SafeCreateUserEmailAccountFolder
    (ciolite/api_users_email_accounts_folders.go): create a folder unless it
    already exists. The three API calls it may make are given by their
    outcomes; the model returns the calls it actually makes, in order. */
module Folders {
  import opened Base
  import opened GoErrors

  datatype Call =
    | GetFolder
    /** GetUserEmailAccountsFolders with the IncludeNamesOnly parameter. */
    | ListFolders(includeNamesOnly: bool)
    | CreateFolder

  /** What each call would return: the fetched folder's Name, the Names in
      the folder list, the Success flag of the create response. */
  datatype Outcomes = Outcomes(
    get: Result<string, GoError>,
    list: Result<seq<string>, GoError>,
    create: Result<bool, GoError>)

  /** The (bool, error) result and the calls made on the way. */
  datatype Verdict = Verdict(created: bool, err: Option<GoError>, calls: seq<Call>)

  const CreateFailed := Fundamental("Unable to create folder. CIO returned 200 but with Success=false")

  /** The folder is already known to exist after the first two calls. */
  predicate FoundBeforeCreate(folder: string, o: Outcomes)
  {
    (o.get.Ok? && o.get.value == folder) || (o.list.Ok? && folder in o.list.value)
  }

  function SafeCreate(folder: string, o: Outcomes): (v: Verdict)
    ensures v.created <==> CreateFolder in v.calls
    ensures v.created <==> !FoundBeforeCreate(folder, o)
    ensures v.err.Some? ==> v.created
    ensures |v.calls| > 0 && v.calls[0] == GetFolder
    ensures |v.calls| > 1 ==> v.calls[1] == ListFolders(true)
  {
    if o.get.Ok? && o.get.value == folder then
      Verdict(false, None, [GetFolder])
    else if o.list.Ok? && folder in o.list.value then
      Verdict(false, None, [GetFolder, ListFolders(true)])
    else
      var calls := [GetFolder, ListFolders(true), CreateFolder];
      match o.create
      case Err(e) => Verdict(true, Some(e), calls)
      case Ok(success) =>
        if !success then Verdict(true, Some(CreateFailed), calls)
        else Verdict(true, None, calls)
  }

  // ---------------------------------------------------------------------
  // Properties

  /** A successful GET of the folder settles it: no other call is made. */
  lemma ExistingFolder(folder: string, o: Outcomes)
    requires o.get == Ok(folder)
    ensures SafeCreate(folder, o) == Verdict(false, None, [GetFolder])
  {
  }

  /** A failed list call is swallowed: it acts like a list without the folder. */
  lemma ListFailureSwallowed(folder: string, o: Outcomes, e: GoError)
    requires o.list == Err(e)
    ensures SafeCreate(folder, o) == SafeCreate(folder, o.(list := Ok([])))
  {
  }

  /** Once the create call is made, its outcome decides the error. */
  lemma CreateDecides(folder: string, o: Outcomes)
    requires !FoundBeforeCreate(folder, o)
    ensures SafeCreate(folder, o).calls == [GetFolder, ListFolders(true), CreateFolder]
    ensures SafeCreate(folder, o).err ==
      match o.create
      case Err(e) => Some(e)
      case Ok(success) => if success then None else Some(CreateFailed)
  {
  }
}
