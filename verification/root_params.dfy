/** The hand-written parameter codec of the root package (params.go):
    `CioParams.FormValues` is a fixed run of guarded `values.Set` statements.
    Every statement is reproduced as written. Each guard tests the field the
    key is named after, but twelve statements write FirstName and one writes
    StatusOK instead of that field (see IntendedFormValues for the corrected
    codec). */
module RootParams {
  import opened Base
  import opened ParamFields
  import opened UrlValues

  datatype CioParams = CioParams(
    bodyType: string,
    callbackURL: string,
    delimiter: string,
    email: string,
    filterNotifURL: string,
    firstName: string,
    filterTo: string,
    filterFrom: string,
    filterCC: string,
    filterSubject: string,
    filterThread: string,
    filterNewImportant: string,
    filterFileName: string,
    filterFolderAdded: string,
    filterToDomain: string,
    filterFromDomain: string,
    migrateAccountID: string,
    newFolderID: string,
    lastName: string,
    password: string,
    providerRefreshToken: string,
    providerToken: string,
    providerTokenSecret: string,
    providerConsumerKey: string,
    server: string,
    sourceType: string,
    status: string,
    statusCallbackURL: string,
    statusOK: string,
    typ: string,
    username: string,
    active: bool,
    forceStatusCheck: bool,
    includeBody: bool,
    includeHeaders: bool,
    includeFlags: bool,
    includeNamesOnly: bool,
    raw: bool,
    rawFileList: bool,
    sourceRawFileList: bool,
    useSSL: bool,
    limit: Int64,
    offset: Int64,
    port: Int64)

  /** The parameters FormValues knows, one per Set statement. */
  datatype Key =
    | BodyType
    | CallbackURL
    | Delimiter
    | Email
    | FilterNotifURL
    | FirstName
    | FilterTo
    | FilterFrom
    | FilterCC
    | FilterSubject
    | FilterThread
    | FilterNewImportant
    | FilterFileName
    | FilterFolderAdded
    | FilterToDomain
    | FilterFromDomain
    | MigrateAccountID
    | NewFolderID
    | LastName
    | Password
    | ProviderRefreshToken
    | ProviderToken
    | ProviderTokenSecret
    | ProviderConsumerKey
    | Server
    | Status
    | StatusOK
    | StatusCallbackURL
    | Type
    | Username
    | SourceType
    | Active
    | ForceStatusCheck
    | IncludeBody
    | IncludeHeaders
    | IncludeFlags
    | IncludeNamesOnly
    | Raw
    | RawFileList
    | SourceRawFileList
    | UseSSL
    | Limit
    | Offset
    | Port

  /** The wire name of a parameter. */
  function Name(k: Key): string
  {
    match k
    case BodyType => "body_type"
    case CallbackURL => "callback_url"
    case Delimiter => "delimiter"
    case Email => "email"
    case FilterNotifURL => "failure_notif_url"
    case FirstName => "first_name"
    case FilterTo => "filter_to"
    case FilterFrom => "filter_from"
    case FilterCC => "filter_cc"
    case FilterSubject => "filter_subject"
    case FilterThread => "filter_thread"
    case FilterNewImportant => "filter_new_important"
    case FilterFileName => "filter_file_name"
    case FilterFolderAdded => "filter_folder_added"
    case FilterToDomain => "filter_to_domain"
    case FilterFromDomain => "filter_from_domain"
    case MigrateAccountID => "migrate_account_id"
    case NewFolderID => "new_folder_id"
    case LastName => "last_name"
    case Password => "password"
    case ProviderRefreshToken => "provider_refresh_token"
    case ProviderToken => "provider_token"
    case ProviderTokenSecret => "provider_token_secret"
    case ProviderConsumerKey => "provider_consumer_key"
    case Server => "server"
    case Status => "status"
    case StatusOK => "status_ok"
    case StatusCallbackURL => "status_callback_url"
    case Type => "type"
    case Username => "username"
    case SourceType => "source_type"
    case Active => "active"
    case ForceStatusCheck => "force_status_check"
    case IncludeBody => "include_body"
    case IncludeHeaders => "include_headers"
    case IncludeFlags => "include_flags"
    case IncludeNamesOnly => "include_names_only"
    case Raw => "raw"
    case RawFileList => "raw_file_list"
    case SourceRawFileList => "source_raw_file_list"
    case UseSSL => "use_ssl"
    case Limit => "limit"
    case Offset => "offset"
    case Port => "port"
  }

  /** The field a parameter is named after, as a reflective value. */
  function FieldOf(p: CioParams, k: Key): (v: FieldValue)
    ensures Supported(v)
  {
    match k
    case BodyType => StringValue(p.bodyType)
    case CallbackURL => StringValue(p.callbackURL)
    case Delimiter => StringValue(p.delimiter)
    case Email => StringValue(p.email)
    case FilterNotifURL => StringValue(p.filterNotifURL)
    case FirstName => StringValue(p.firstName)
    case FilterTo => StringValue(p.filterTo)
    case FilterFrom => StringValue(p.filterFrom)
    case FilterCC => StringValue(p.filterCC)
    case FilterSubject => StringValue(p.filterSubject)
    case FilterThread => StringValue(p.filterThread)
    case FilterNewImportant => StringValue(p.filterNewImportant)
    case FilterFileName => StringValue(p.filterFileName)
    case FilterFolderAdded => StringValue(p.filterFolderAdded)
    case FilterToDomain => StringValue(p.filterToDomain)
    case FilterFromDomain => StringValue(p.filterFromDomain)
    case MigrateAccountID => StringValue(p.migrateAccountID)
    case NewFolderID => StringValue(p.newFolderID)
    case LastName => StringValue(p.lastName)
    case Password => StringValue(p.password)
    case ProviderRefreshToken => StringValue(p.providerRefreshToken)
    case ProviderToken => StringValue(p.providerToken)
    case ProviderTokenSecret => StringValue(p.providerTokenSecret)
    case ProviderConsumerKey => StringValue(p.providerConsumerKey)
    case Server => StringValue(p.server)
    case Status => StringValue(p.status)
    case StatusOK => StringValue(p.statusOK)
    case StatusCallbackURL => StringValue(p.statusCallbackURL)
    case Type => StringValue(p.typ)
    case Username => StringValue(p.username)
    case SourceType => StringValue(p.sourceType)
    case Active => BoolValue(p.active)
    case ForceStatusCheck => BoolValue(p.forceStatusCheck)
    case IncludeBody => BoolValue(p.includeBody)
    case IncludeHeaders => BoolValue(p.includeHeaders)
    case IncludeFlags => BoolValue(p.includeFlags)
    case IncludeNamesOnly => BoolValue(p.includeNamesOnly)
    case Raw => BoolValue(p.raw)
    case RawFileList => BoolValue(p.rawFileList)
    case SourceRawFileList => BoolValue(p.sourceRawFileList)
    case UseSSL => BoolValue(p.useSSL)
    case Limit => IntValue(p.limit)
    case Offset => IntValue(p.offset)
    case Port => IntValue(p.port)
  }

  /** The guard of the statement that sets `k`, as written. */
  function Guard(p: CioParams, k: Key): bool
  {
    match k
    case BodyType => p.bodyType != ""
    case CallbackURL => p.callbackURL != ""
    case Delimiter => p.delimiter != ""
    case Email => p.email != ""
    case FilterNotifURL => p.filterNotifURL != ""
    case FirstName => p.firstName != ""
    case FilterTo => p.filterTo != ""
    case FilterFrom => p.filterFrom != ""
    case FilterCC => p.filterCC != ""
    case FilterSubject => p.filterSubject != ""
    case FilterThread => p.filterThread != ""
    case FilterNewImportant => p.filterNewImportant != ""
    case FilterFileName => p.filterFileName != ""
    case FilterFolderAdded => p.filterFolderAdded != ""
    case FilterToDomain => p.filterToDomain != ""
    case FilterFromDomain => p.filterFromDomain != ""
    case MigrateAccountID => p.migrateAccountID != ""
    case NewFolderID => p.newFolderID != ""
    case LastName => p.lastName != ""
    case Password => p.password != ""
    case ProviderRefreshToken => p.providerRefreshToken != ""
    case ProviderToken => p.providerToken != ""
    case ProviderTokenSecret => p.providerTokenSecret != ""
    case ProviderConsumerKey => p.providerConsumerKey != ""
    case Server => p.server != ""
    case Status => p.status != ""
    case StatusOK => p.statusOK != ""
    case StatusCallbackURL => p.statusCallbackURL != ""
    case Type => p.typ != ""
    case Username => p.username != ""
    case SourceType => p.sourceType != ""
    case Active => p.active
    case ForceStatusCheck => p.forceStatusCheck
    case IncludeBody => p.includeBody
    case IncludeHeaders => p.includeHeaders
    case IncludeFlags => p.includeFlags
    case IncludeNamesOnly => p.includeNamesOnly
    case Raw => p.raw
    case RawFileList => p.rawFileList
    case SourceRawFileList => p.sourceRawFileList
    case UseSSL => p.useSSL
    case Limit => p.limit != 0
    case Offset => p.offset != 0
    case Port => p.port != 0
  }

  /** The value the statement that sets `k` writes, as written. */
  function Written(p: CioParams, k: Key): string
  {
    match k
    case BodyType => p.bodyType
    case CallbackURL => p.callbackURL
    case Delimiter => p.delimiter
    case Email => p.email
    case FilterNotifURL => p.filterNotifURL
    case FirstName => p.firstName
    case FilterTo => p.firstName
    case FilterFrom => p.firstName
    case FilterCC => p.firstName
    case FilterSubject => p.firstName
    case FilterThread => p.firstName
    case FilterNewImportant => p.firstName
    case FilterFileName => p.firstName
    case FilterFolderAdded => p.firstName
    case FilterToDomain => p.firstName
    case FilterFromDomain => p.firstName
    case MigrateAccountID => p.firstName
    case NewFolderID => p.firstName
    case LastName => p.lastName
    case Password => p.password
    case ProviderRefreshToken => p.providerRefreshToken
    case ProviderToken => p.providerToken
    case ProviderTokenSecret => p.providerTokenSecret
    case ProviderConsumerKey => p.providerConsumerKey
    case Server => p.server
    case Status => p.status
    case StatusOK => p.statusOK
    case StatusCallbackURL => p.statusOK
    case Type => p.typ
    case Username => p.username
    case SourceType => p.sourceType
    case Active => "1"
    case ForceStatusCheck => "1"
    case IncludeBody => "1"
    case IncludeHeaders => "1"
    case IncludeFlags => "1"
    case IncludeNamesOnly => "1"
    case Raw => "1"
    case RawFileList => "1"
    case SourceRawFileList => "1"
    case UseSSL => "1"
    case Limit => Itoa(p.limit)
    case Offset => Itoa(p.offset)
    case Port => Itoa(p.port)
  }

  /** The statement `if <guard> { values.Set(<name>, <written>) }`. */
  function Statement(p: CioParams, k: Key): Step
  {
    Step(Name(k), Guard(p, k), Written(p, k))
  }

  const StatementCount := 44

  /** The statements in source order: strings, then bools, then ints. */
  function KeyAt(i: int): Key
    requires 0 <= i < StatementCount
  {
    if i == 0 then BodyType
    else if i == 1 then CallbackURL
    else if i == 2 then Delimiter
    else if i == 3 then Email
    else if i == 4 then FilterNotifURL
    else if i == 5 then FirstName
    else if i == 6 then FilterTo
    else if i == 7 then FilterFrom
    else if i == 8 then FilterCC
    else if i == 9 then FilterSubject
    else if i == 10 then FilterThread
    else if i == 11 then FilterNewImportant
    else if i == 12 then FilterFileName
    else if i == 13 then FilterFolderAdded
    else if i == 14 then FilterToDomain
    else if i == 15 then FilterFromDomain
    else if i == 16 then MigrateAccountID
    else if i == 17 then NewFolderID
    else if i == 18 then LastName
    else if i == 19 then Password
    else if i == 20 then ProviderRefreshToken
    else if i == 21 then ProviderToken
    else if i == 22 then ProviderTokenSecret
    else if i == 23 then ProviderConsumerKey
    else if i == 24 then Server
    else if i == 25 then Status
    else if i == 26 then StatusOK
    else if i == 27 then StatusCallbackURL
    else if i == 28 then Type
    else if i == 29 then Username
    else if i == 30 then SourceType
    else if i == 31 then Active
    else if i == 32 then ForceStatusCheck
    else if i == 33 then IncludeBody
    else if i == 34 then IncludeHeaders
    else if i == 35 then IncludeFlags
    else if i == 36 then IncludeNamesOnly
    else if i == 37 then Raw
    else if i == 38 then RawFileList
    else if i == 39 then SourceRawFileList
    else if i == 40 then UseSSL
    else if i == 41 then Limit
    else if i == 42 then Offset
    else Port
  }

  /** The inverse of KeyAt. */
  function Position(k: Key): (i: int)
    ensures 0 <= i < StatementCount
  {
    match k
    case BodyType => 0
    case CallbackURL => 1
    case Delimiter => 2
    case Email => 3
    case FilterNotifURL => 4
    case FirstName => 5
    case FilterTo => 6
    case FilterFrom => 7
    case FilterCC => 8
    case FilterSubject => 9
    case FilterThread => 10
    case FilterNewImportant => 11
    case FilterFileName => 12
    case FilterFolderAdded => 13
    case FilterToDomain => 14
    case FilterFromDomain => 15
    case MigrateAccountID => 16
    case NewFolderID => 17
    case LastName => 18
    case Password => 19
    case ProviderRefreshToken => 20
    case ProviderToken => 21
    case ProviderTokenSecret => 22
    case ProviderConsumerKey => 23
    case Server => 24
    case Status => 25
    case StatusOK => 26
    case StatusCallbackURL => 27
    case Type => 28
    case Username => 29
    case SourceType => 30
    case Active => 31
    case ForceStatusCheck => 32
    case IncludeBody => 33
    case IncludeHeaders => 34
    case IncludeFlags => 35
    case IncludeNamesOnly => 36
    case Raw => 37
    case RawFileList => 38
    case SourceRawFileList => 39
    case UseSSL => 40
    case Limit => 41
    case Offset => 42
    case Port => 43
  }

  // The facts below about all 44 keys at once would exceed what the solver
  // can check in one step, so names are told apart by a fingerprint and the
  // per-key facts are proved a few keys at a time (InGroup, StatementGroupN)
  // and gathered in StatementFacts.

  /** Length and last two characters: enough to tell the names apart. */
  function Fingerprint(s: string): int
  {
    if |s| < 2 then |s| else |s| * 0x1_0000 + s[|s| - 1] as int * 0x100 + s[|s| - 2] as int
  }

  function NameFingerprint(k: Key): int
  {
    match k
    case BodyType => 615792
    case CallbackURL => 814194
    case Delimiter => 619109
    case Email => 355433
    case FilterNotifURL => 1141874
    case FirstName => 681325
    case FilterTo => 618356
    case FilterFrom => 748911
    case FilterCC => 615267
    case FilterSubject => 947299
    case FilterThread => 877665
    case FilterNewImportant => 1340526
    case FilterFileName => 1074541
    case FilterFolderAdded => 1270885
    case FilterToDomain => 1076841
    case FilterFromDomain => 1207913
    case MigrateAccountID => 1205353
    case NewFolderID => 877673
    case LastName => 615789
    case Password => 550002
    case ProviderRefreshToken => 1470053
    case ProviderToken => 945765
    case ProviderTokenSecret => 1406053
    case ProviderConsumerKey => 1407333
    case Server => 422501
    case Status => 422773
    case StatusOK => 617327
    case StatusCallbackURL => 1272946
    case Type => 288112
    case Username => 550253
    case SourceType => 746864
    case Active => 419190
    case ForceStatusCheck => 1207139
    case IncludeBody => 817508
    case IncludeHeaders => 1012594
    case IncludeFlags => 881511
    case IncludeNamesOnly => 1210732
    case Raw => 227169
    case RawFileList => 881779
    case SourceRawFileList => 1340531
    case UseSSL => 486515
    case Limit => 357481
    case Offset => 423013
    case Port => 291954
  }

  /** The key a fingerprint belongs to, found by halving the sorted
      fingerprints. */
  function KeyOfFingerprint(n: int): Option<Key>
  {
    if n < 817508 then
      if n < 550253 then
        if n < 419190 then
          if n < 291954 then
            if n < 288112 then
              if n == 227169 then Some(Raw) else None
            else
              if n == 288112 then Some(Type) else None
          else
            if n < 355433 then
              if n == 291954 then Some(Port) else None
            else
              if n < 357481 then
                if n == 355433 then Some(Email) else None
              else
                if n == 357481 then Some(Limit) else None
        else
          if n < 423013 then
            if n < 422501 then
              if n == 419190 then Some(Active) else None
            else
              if n < 422773 then
                if n == 422501 then Some(Server) else None
              else
                if n == 422773 then Some(Status) else None
          else
            if n < 486515 then
              if n == 423013 then Some(Offset) else None
            else
              if n < 550002 then
                if n == 486515 then Some(UseSSL) else None
              else
                if n == 550002 then Some(Password) else None
      else
        if n < 618356 then
          if n < 615789 then
            if n < 615267 then
              if n == 550253 then Some(Username) else None
            else
              if n == 615267 then Some(FilterCC) else None
          else
            if n < 615792 then
              if n == 615789 then Some(LastName) else None
            else
              if n < 617327 then
                if n == 615792 then Some(BodyType) else None
              else
                if n == 617327 then Some(StatusOK) else None
        else
          if n < 746864 then
            if n < 619109 then
              if n == 618356 then Some(FilterTo) else None
            else
              if n < 681325 then
                if n == 619109 then Some(Delimiter) else None
              else
                if n == 681325 then Some(FirstName) else None
          else
            if n < 748911 then
              if n == 746864 then Some(SourceType) else None
            else
              if n < 814194 then
                if n == 748911 then Some(FilterFrom) else None
              else
                if n == 814194 then Some(CallbackURL) else None
    else
      if n < 1205353 then
        if n < 945765 then
          if n < 877673 then
            if n < 877665 then
              if n == 817508 then Some(IncludeBody) else None
            else
              if n == 877665 then Some(FilterThread) else None
          else
            if n < 881511 then
              if n == 877673 then Some(NewFolderID) else None
            else
              if n < 881779 then
                if n == 881511 then Some(IncludeFlags) else None
              else
                if n == 881779 then Some(RawFileList) else None
        else
          if n < 1074541 then
            if n < 947299 then
              if n == 945765 then Some(ProviderToken) else None
            else
              if n < 1012594 then
                if n == 947299 then Some(FilterSubject) else None
              else
                if n == 1012594 then Some(IncludeHeaders) else None
          else
            if n < 1076841 then
              if n == 1074541 then Some(FilterFileName) else None
            else
              if n < 1141874 then
                if n == 1076841 then Some(FilterToDomain) else None
              else
                if n == 1141874 then Some(FilterNotifURL) else None
      else
        if n < 1272946 then
          if n < 1207913 then
            if n < 1207139 then
              if n == 1205353 then Some(MigrateAccountID) else None
            else
              if n == 1207139 then Some(ForceStatusCheck) else None
          else
            if n < 1210732 then
              if n == 1207913 then Some(FilterFromDomain) else None
            else
              if n < 1270885 then
                if n == 1210732 then Some(IncludeNamesOnly) else None
              else
                if n == 1270885 then Some(FilterFolderAdded) else None
        else
          if n < 1406053 then
            if n < 1340526 then
              if n == 1272946 then Some(StatusCallbackURL) else None
            else
              if n < 1340531 then
                if n == 1340526 then Some(FilterNewImportant) else None
              else
                if n == 1340531 then Some(SourceRawFileList) else None
          else
            if n < 1407333 then
              if n == 1406053 then Some(ProviderTokenSecret) else None
            else
              if n < 1470053 then
                if n == 1407333 then Some(ProviderConsumerKey) else None
              else
                if n == 1470053 then Some(ProviderRefreshToken) else None
  }

  /** The fingerprints are checked a few keys at a time. */
  predicate InGroup(k: Key, g: nat)
  {
    if g == 0 then k.BodyType? || k.CallbackURL? || k.Delimiter? || k.Email?
    else if g == 1 then k.FilterNotifURL? || k.FirstName? || k.FilterTo? || k.FilterFrom?
    else if g == 2 then k.FilterCC? || k.FilterSubject? || k.FilterThread? || k.FilterNewImportant?
    else if g == 3 then k.FilterFileName? || k.FilterFolderAdded? || k.FilterToDomain? || k.FilterFromDomain?
    else if g == 4 then k.MigrateAccountID? || k.NewFolderID? || k.LastName? || k.Password?
    else if g == 5 then k.ProviderRefreshToken? || k.ProviderToken? || k.ProviderTokenSecret? || k.ProviderConsumerKey?
    else if g == 6 then k.Server? || k.Status? || k.StatusOK? || k.StatusCallbackURL?
    else if g == 7 then k.Type? || k.Username? || k.SourceType? || k.Active?
    else if g == 8 then k.ForceStatusCheck? || k.IncludeBody? || k.IncludeHeaders? || k.IncludeFlags?
    else if g == 9 then k.IncludeNamesOnly? || k.Raw? || k.RawFileList? || k.SourceRawFileList?
    else if g == 10 then k.UseSSL? || k.Limit? || k.Offset? || k.Port?
    else false
  }

  lemma FingerprintGroup0(k: Key)
    requires InGroup(k, 0)
    ensures Fingerprint(Name(k)) == NameFingerprint(k)
  {
  }

  lemma InverseGroup0(k: Key)
    requires InGroup(k, 0)
    ensures KeyOfFingerprint(NameFingerprint(k)) == Some(k)
  {
  }

  lemma FingerprintGroup1(k: Key)
    requires InGroup(k, 1)
    ensures Fingerprint(Name(k)) == NameFingerprint(k)
  {
  }

  lemma InverseGroup1(k: Key)
    requires InGroup(k, 1)
    ensures KeyOfFingerprint(NameFingerprint(k)) == Some(k)
  {
  }

  lemma FingerprintGroup2(k: Key)
    requires InGroup(k, 2)
    ensures Fingerprint(Name(k)) == NameFingerprint(k)
  {
  }

  lemma InverseGroup2(k: Key)
    requires InGroup(k, 2)
    ensures KeyOfFingerprint(NameFingerprint(k)) == Some(k)
  {
  }

  lemma FingerprintGroup3(k: Key)
    requires InGroup(k, 3)
    ensures Fingerprint(Name(k)) == NameFingerprint(k)
  {
  }

  lemma InverseGroup3(k: Key)
    requires InGroup(k, 3)
    ensures KeyOfFingerprint(NameFingerprint(k)) == Some(k)
  {
  }

  lemma FingerprintGroup4(k: Key)
    requires InGroup(k, 4)
    ensures Fingerprint(Name(k)) == NameFingerprint(k)
  {
  }

  lemma InverseGroup4(k: Key)
    requires InGroup(k, 4)
    ensures KeyOfFingerprint(NameFingerprint(k)) == Some(k)
  {
  }

  lemma FingerprintGroup5(k: Key)
    requires InGroup(k, 5)
    ensures Fingerprint(Name(k)) == NameFingerprint(k)
  {
  }

  lemma InverseGroup5(k: Key)
    requires InGroup(k, 5)
    ensures KeyOfFingerprint(NameFingerprint(k)) == Some(k)
  {
  }

  lemma FingerprintGroup6(k: Key)
    requires InGroup(k, 6)
    ensures Fingerprint(Name(k)) == NameFingerprint(k)
  {
  }

  lemma InverseGroup6(k: Key)
    requires InGroup(k, 6)
    ensures KeyOfFingerprint(NameFingerprint(k)) == Some(k)
  {
  }

  lemma FingerprintGroup7(k: Key)
    requires InGroup(k, 7)
    ensures Fingerprint(Name(k)) == NameFingerprint(k)
  {
  }

  lemma InverseGroup7(k: Key)
    requires InGroup(k, 7)
    ensures KeyOfFingerprint(NameFingerprint(k)) == Some(k)
  {
  }

  lemma FingerprintGroup8(k: Key)
    requires InGroup(k, 8)
    ensures Fingerprint(Name(k)) == NameFingerprint(k)
  {
  }

  lemma InverseGroup8(k: Key)
    requires InGroup(k, 8)
    ensures KeyOfFingerprint(NameFingerprint(k)) == Some(k)
  {
  }

  lemma FingerprintGroup9(k: Key)
    requires InGroup(k, 9)
    ensures Fingerprint(Name(k)) == NameFingerprint(k)
  {
  }

  lemma InverseGroup9(k: Key)
    requires InGroup(k, 9)
    ensures KeyOfFingerprint(NameFingerprint(k)) == Some(k)
  {
  }

  lemma FingerprintGroup10(k: Key)
    requires InGroup(k, 10)
    ensures Fingerprint(Name(k)) == NameFingerprint(k)
  {
  }

  lemma InverseGroup10(k: Key)
    requires InGroup(k, 10)
    ensures KeyOfFingerprint(NameFingerprint(k)) == Some(k)
  {
  }

  /** What the statement for `k` writes when its field is set: FirstName
      for the twelve miswired statements, StatusOK for status_callback_url,
      the key's own field rendered for all the others. */
  function StatementValue(p: CioParams, k: Key): string
  {
    if WritesFirstName(k) then p.firstName
    else if k == StatusCallbackURL then p.statusOK
    else Render(FieldOf(p, k))
  }

  lemma StatementGroup0(p: CioParams, k: Key)
    requires InGroup(k, 0)
    ensures Guard(p, k) == !IsZero(FieldOf(p, k))
    ensures !IsZero(FieldOf(p, k)) ==> Written(p, k) == StatementValue(p, k)
    ensures KeyAt(Position(k)) == k
  {
  }

  lemma StatementGroup1(p: CioParams, k: Key)
    requires InGroup(k, 1)
    ensures Guard(p, k) == !IsZero(FieldOf(p, k))
    ensures !IsZero(FieldOf(p, k)) ==> Written(p, k) == StatementValue(p, k)
    ensures KeyAt(Position(k)) == k
  {
  }

  lemma StatementGroup2(p: CioParams, k: Key)
    requires InGroup(k, 2)
    ensures Guard(p, k) == !IsZero(FieldOf(p, k))
    ensures !IsZero(FieldOf(p, k)) ==> Written(p, k) == StatementValue(p, k)
    ensures KeyAt(Position(k)) == k
  {
  }

  lemma StatementGroup3(p: CioParams, k: Key)
    requires InGroup(k, 3)
    ensures Guard(p, k) == !IsZero(FieldOf(p, k))
    ensures !IsZero(FieldOf(p, k)) ==> Written(p, k) == StatementValue(p, k)
    ensures KeyAt(Position(k)) == k
  {
  }

  lemma StatementGroup4(p: CioParams, k: Key)
    requires InGroup(k, 4)
    ensures Guard(p, k) == !IsZero(FieldOf(p, k))
    ensures !IsZero(FieldOf(p, k)) ==> Written(p, k) == StatementValue(p, k)
    ensures KeyAt(Position(k)) == k
  {
  }

  lemma StatementGroup5(p: CioParams, k: Key)
    requires InGroup(k, 5)
    ensures Guard(p, k) == !IsZero(FieldOf(p, k))
    ensures !IsZero(FieldOf(p, k)) ==> Written(p, k) == StatementValue(p, k)
    ensures KeyAt(Position(k)) == k
  {
  }

  lemma StatementGroup6(p: CioParams, k: Key)
    requires InGroup(k, 6)
    ensures Guard(p, k) == !IsZero(FieldOf(p, k))
    ensures !IsZero(FieldOf(p, k)) ==> Written(p, k) == StatementValue(p, k)
    ensures KeyAt(Position(k)) == k
  {
  }

  lemma StatementGroup7(p: CioParams, k: Key)
    requires InGroup(k, 7)
    ensures Guard(p, k) == !IsZero(FieldOf(p, k))
    ensures !IsZero(FieldOf(p, k)) ==> Written(p, k) == StatementValue(p, k)
    ensures KeyAt(Position(k)) == k
  {
  }

  lemma StatementGroup8(p: CioParams, k: Key)
    requires InGroup(k, 8)
    ensures Guard(p, k) == !IsZero(FieldOf(p, k))
    ensures !IsZero(FieldOf(p, k)) ==> Written(p, k) == StatementValue(p, k)
    ensures KeyAt(Position(k)) == k
  {
  }

  lemma StatementGroup9(p: CioParams, k: Key)
    requires k.IncludeNamesOnly? || k.Raw?
    ensures Guard(p, k) == !IsZero(FieldOf(p, k))
    ensures !IsZero(FieldOf(p, k)) ==> Written(p, k) == StatementValue(p, k)
    ensures KeyAt(Position(k)) == k
  {
  }

  lemma StatementGroup11(p: CioParams, k: Key)
    requires k.RawFileList? || k.SourceRawFileList?
    ensures Guard(p, k) == !IsZero(FieldOf(p, k))
    ensures !IsZero(FieldOf(p, k)) ==> Written(p, k) == StatementValue(p, k)
    ensures KeyAt(Position(k)) == k
  {
  }

  lemma StatementGroup10(p: CioParams, k: Key)
    requires k.UseSSL? || k.Limit?
    ensures Guard(p, k) == !IsZero(FieldOf(p, k))
    ensures !IsZero(FieldOf(p, k)) ==> Written(p, k) == StatementValue(p, k)
    ensures KeyAt(Position(k)) == k
  {
  }

  lemma StatementGroup12(p: CioParams, k: Key)
    requires k.Offset? || k.Port?
    ensures Guard(p, k) == !IsZero(FieldOf(p, k))
    ensures !IsZero(FieldOf(p, k)) ==> Written(p, k) == StatementValue(p, k)
    ensures KeyAt(Position(k)) == k
  {
  }

  /** Each statement's guard tests the field its key is named after, and
      what it writes; also KeyAt inverts Position. Checked a few keys at a
      time. */
  lemma StatementFacts(p: CioParams, k: Key)
    ensures Guard(p, k) == !IsZero(FieldOf(p, k))
    ensures !IsZero(FieldOf(p, k)) ==> Written(p, k) == StatementValue(p, k)
    ensures KeyAt(Position(k)) == k
  {
    if InGroup(k, 0) {
      StatementGroup0(p, k);
    } else if InGroup(k, 1) {
      StatementGroup1(p, k);
    } else if InGroup(k, 2) {
      StatementGroup2(p, k);
    } else if InGroup(k, 3) {
      StatementGroup3(p, k);
    } else if InGroup(k, 4) {
      StatementGroup4(p, k);
    } else if InGroup(k, 5) {
      StatementGroup5(p, k);
    } else if InGroup(k, 6) {
      StatementGroup6(p, k);
    } else if InGroup(k, 7) {
      StatementGroup7(p, k);
    } else if InGroup(k, 8) {
      StatementGroup8(p, k);
    } else if k.IncludeNamesOnly? || k.Raw? {
      StatementGroup9(p, k);
    } else if k.RawFileList? || k.SourceRawFileList? {
      StatementGroup11(p, k);
    } else if k.UseSSL? || k.Limit? {
      StatementGroup10(p, k);
    } else if k.Offset? || k.Port? {
      StatementGroup12(p, k);
    }
  }

  lemma NameFingerprintHolds(k: Key)
    ensures Fingerprint(Name(k)) == NameFingerprint(k)
    ensures KeyOfFingerprint(NameFingerprint(k)) == Some(k)
  {
    if InGroup(k, 0) {
      FingerprintGroup0(k);
      InverseGroup0(k);
    } else if InGroup(k, 1) {
      FingerprintGroup1(k);
      InverseGroup1(k);
    } else if InGroup(k, 2) {
      FingerprintGroup2(k);
      InverseGroup2(k);
    } else if InGroup(k, 3) {
      FingerprintGroup3(k);
      InverseGroup3(k);
    } else if InGroup(k, 4) {
      FingerprintGroup4(k);
      InverseGroup4(k);
    } else if InGroup(k, 5) {
      FingerprintGroup5(k);
      InverseGroup5(k);
    } else if InGroup(k, 6) {
      FingerprintGroup6(k);
      InverseGroup6(k);
    } else if InGroup(k, 7) {
      FingerprintGroup7(k);
      InverseGroup7(k);
    } else if InGroup(k, 8) {
      FingerprintGroup8(k);
      InverseGroup8(k);
    } else if InGroup(k, 9) {
      FingerprintGroup9(k);
      InverseGroup9(k);
    } else if InGroup(k, 10) {
      FingerprintGroup10(k);
      InverseGroup10(k);
    }
  }

  lemma NameInjective(a: Key, b: Key)
    requires Name(a) == Name(b)
    ensures a == b
  {
    NameFingerprintHolds(a);
    NameFingerprintHolds(b);
    hide Name, Fingerprint, NameFingerprint, KeyOfFingerprint;
  }

  lemma PositionOfKeyAt(i: int)
    requires 0 <= i < StatementCount
    ensures Position(KeyAt(i)) == i
  {
  }

  lemma KeyAtPosition(k: Key)
    ensures KeyAt(Position(k)) == k
  {
    StatementFacts(NoParams, k);
  }

  // ---------------------------------------------------------------------
  // The codec

  function Steps(p: CioParams): (steps: seq<Step>)
    ensures |steps| == StatementCount
    ensures forall i :: 0 <= i < StatementCount ==> steps[i] == Statement(p, KeyAt(i))
  {
    seq(StatementCount, i requires 0 <= i < StatementCount => Statement(p, KeyAt(i)))
  }

  /** CioParams.FormValues. */
  function FormValues(p: CioParams): (vs: seq<Entry>)
    ensures Sorted(vs)
  {
    Build([], Writes(Steps(p)))
  }

  /** CioParams.QueryString: "" for an empty encoding, otherwise "?" and the
      key-sorted encoding. */
  function QueryString(p: CioParams): (q: string)
    ensures q == "" <==> Pairs(FormValues(p)) == []
    ensures q != "" ==> q[0] == '?' && ParseQuery(q[1..]) == (BytePairs(Pairs(FormValues(p))), None)
  {
    var vs := FormValues(p);
    var q := QueryStringOf(vs);
    if q == "" then q else QueryStringRoundTrip(vs); q
  }

  // ---------------------------------------------------------------------
  // Properties

  /** One step per parameter, in source order. */
  predicate OneStepPerKey(steps: seq<Step>)
  {
    |steps| == StatementCount && forall i :: 0 <= i < StatementCount ==> steps[i].key == Name(KeyAt(i))
  }

  lemma StepsDistinct(steps: seq<Step>)
    requires OneStepPerKey(steps)
    ensures DistinctKeys(steps)
  {
    forall i, j | 0 <= i < j < |steps| ensures steps[i].key != steps[j].key {
      PositionOfKeyAt(i);
      PositionOfKeyAt(j);
      if Name(KeyAt(i)) == Name(KeyAt(j)) {
        NameInjective(KeyAt(i), KeyAt(j));
      }
    }
  }

  /** What FormValues holds under each parameter name: the value its
      statement writes when its guard holds, nothing otherwise; and no other
      key at all. */
  lemma StatementLookup(p: CioParams, k: Key)
    ensures Lookup(FormValues(p), Name(k)) ==
      (if Statement(p, k).guard then Some([Statement(p, k).value]) else None)
  {
    StepsDistinct(Steps(p));
    StepsLookup(Steps(p), Name(k));
    KeyAtPosition(k);
    assert Steps(p)[Position(k)].key == Name(k);
  }

  lemma OnlyKnownKeys(p: CioParams, s: string)
    requires forall k: Key :: Name(k) != s
    ensures Lookup(FormValues(p), s) == None
  {
    StepsDistinct(Steps(p));
    StepsLookup(Steps(p), s);
  }

  /** Every guard tests the field its key is named after: a key is present
      exactly when that field is non-zero. This covers each string key, each
      bool key (source_raw_file_list included) and limit, offset and port. */
  lemma KeyPresence(p: CioParams, k: Key)
    ensures Lookup(FormValues(p), Name(k)).Some? <==> !IsZero(FieldOf(p, k))
  {
    StatementLookup(p, k);
    StatementFacts(p, k);
    hide Guard, FieldOf, Written, Name, FormValues, Lookup, IsZero;
  }

  /** The statements that write FirstName instead of their own field. */
  predicate WritesFirstName(k: Key)
  {
    k in {FilterTo, FilterFrom, FilterCC, FilterSubject, FilterThread, FilterNewImportant,
          FilterFileName, FilterFolderAdded, FilterToDomain, FilterFromDomain,
          MigrateAccountID, NewFolderID}
  }

  /** The value written under a present key: FirstName for the twelve
      miswired statements, StatusOK for status_callback_url, and the key's
      own field, rendered ("1" for a true bool, decimal for an int), for all
      the others. */
  lemma KeyValue(p: CioParams, k: Key)
    requires !IsZero(FieldOf(p, k))
    ensures Lookup(FormValues(p), Name(k)) == Some([
      if WritesFirstName(k) then p.firstName
      else if k == StatusCallbackURL then p.statusOK
      else Render(FieldOf(p, k))])
  {
    StatementLookup(p, k);
    StatementFacts(p, k);
    hide Guard, FieldOf, Written, Name, FormValues, Lookup, IsZero, Render, WritesFirstName;
  }

  lemma WrittenField(p: CioParams, k: Key)
    requires !IsZero(FieldOf(p, k))
    ensures Written(p, k) ==
      if WritesFirstName(k) then p.firstName
      else if k == StatusCallbackURL then p.statusOK
      else Render(FieldOf(p, k))
  {
    StatementFacts(p, k);
  }

  // ---------------------------------------------------------------------
  // The codec as evidently intended: every statement writes the field it tests

  function IntendedSteps(p: CioParams): (steps: seq<Step>)
    ensures OneStepPerKey(steps)
    ensures forall i :: 0 <= i < StatementCount ==>
      steps[i] == Step(Name(KeyAt(i)), !IsZero(FieldOf(p, KeyAt(i))), Render(FieldOf(p, KeyAt(i))))
  {
    seq(StatementCount, i requires 0 <= i < StatementCount =>
      Step(Name(KeyAt(i)), !IsZero(FieldOf(p, KeyAt(i))), Render(FieldOf(p, KeyAt(i)))))
  }

  function IntendedFormValues(p: CioParams): (vs: seq<Entry>)
    ensures Sorted(vs)
  {
    Build([], Writes(IntendedSteps(p)))
  }

  /** In the corrected codec every present key carries its own field. */
  lemma IntendedKeyValue(p: CioParams, k: Key)
    ensures Lookup(IntendedFormValues(p), Name(k)) ==
      (if IsZero(FieldOf(p, k)) then None else Some([Render(FieldOf(p, k))]))
  {
    StepsDistinct(IntendedSteps(p));
    StepsLookup(IntendedSteps(p), Name(k));
    KeyAtPosition(k);
    assert IntendedSteps(p)[Position(k)].key == Name(k);
  }

  /** The two codecs agree on every key outside the thirteen miswired ones. */
  lemma AsWrittenAgreesElsewhere(p: CioParams, k: Key)
    requires !WritesFirstName(k) && k != StatusCallbackURL
    ensures Lookup(FormValues(p), Name(k)) == Lookup(IntendedFormValues(p), Name(k))
  {
    IntendedKeyValue(p, k);
    KeyPresence(p, k);
    if !IsZero(FieldOf(p, k)) {
      KeyValue(p, k);
    }
  }

  /** All parameters at their zero value. */
  const NoParams: CioParams := CioParams("", "", "", "", "", "", "", "", "", "", "", "", "", "", "", "", "", "", "", "", "", "", "", "", "", "", "", "", "", "", "", false, false, false, false, false, false, false, false, false, false, 0, 0, 0)

  /** A filter given without a first name is sent empty: filter_to=inbox is
      requested but filter_to= goes out. */
  lemma FilterWritesFirstName()
    ensures Lookup(FormValues(NoParams.(filterTo := "inbox")), "filter_to") == Some([""])
    ensures Lookup(IntendedFormValues(NoParams.(filterTo := "inbox")), "filter_to") == Some(["inbox"])
  {
    hide FormValues, IntendedFormValues, Lookup, Build, Steps, IntendedSteps;
    var p := NoParams.(filterTo := "inbox");
    assert Name(FilterTo) == "filter_to";
    assert p.firstName == "" && FieldOf(p, FilterTo) == StringValue("inbox");
    assert WritesFirstName(FilterTo);
    KeyValue(p, FilterTo);
    IntendedKeyValue(p, FilterTo);
  }

  /** A status callback URL is replaced by the status_ok value. */
  lemma StatusCallbackWritesStatusOK()
    ensures Lookup(FormValues(NoParams.(statusCallbackURL := "https://cb")), "status_callback_url") == Some([""])
    ensures Lookup(IntendedFormValues(NoParams.(statusCallbackURL := "https://cb")), "status_callback_url")
      == Some(["https://cb"])
  {
    hide FormValues, IntendedFormValues, Lookup, Build, Steps, IntendedSteps;
    var p := NoParams.(statusCallbackURL := "https://cb");
    assert Name(StatusCallbackURL) == "status_callback_url";
    assert p.statusOK == "" && FieldOf(p, StatusCallbackURL) == StringValue("https://cb");
    assert !WritesFirstName(StatusCallbackURL);
    KeyValue(p, StatusCallbackURL);
    IntendedKeyValue(p, StatusCallbackURL);
  }
}
