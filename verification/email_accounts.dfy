/** FindEmailAccountMatching and upToSeparator
    (ciolite/api_users_email_accounts.go): pick the account an email address
    belongs to, first by the whole address, then by its local part. */
module EmailAccounts {
  import opened Base
  import opened GoErrors

  /** GetUsersEmailAccountsResponse, field for field. */
  datatype Account = Account(
    status: string,
    resourceURL: string,
    typ: string,
    authenticationType: string,
    server: string,
    accountLabel: string,
    username: string,
    useSSL: bool,
    port: Int64)

  /** upToSeparator: the text before the first occurrence of `sep`, or all of
      `s` when `sep` does not occur. */
  function UpToSeparator(s: string, sep: string): (r: string)
    ensures HasPrefix(s, r)
    ensures |r| == |s| || OccursAt(s, sep, |r|)
    ensures forall j :: 0 <= j < |r| ==> !OccursAt(s, sep, j)
  {
    var idx := Index(s, sep);
    if idx >= 0 then s[..idx] else s
  }

  /** A non-empty separator does not occur in the result. */
  lemma UpToSeparatorFree(s: string, sep: string)
    requires sep != ""
    ensures forall j :: !OccursAt(UpToSeparator(s, sep), sep, j)
  {
    var r := UpToSeparator(s, sep);
    forall j | OccursAt(r, sep, j) ensures false {
      assert s[j..j + |sep|] == r[j..j + |sep|];
      assert OccursAt(s, sep, j);
    }
  }

  /** Cutting twice at the same separator changes nothing. */
  lemma UpToSeparatorIdempotent(s: string, sep: string)
    ensures UpToSeparator(UpToSeparator(s, sep), sep) == UpToSeparator(s, sep)
  {
    var r := UpToSeparator(s, sep);
    if sep == "" {
      assert OccursAt(s, sep, 0);
      assert OccursAt(r, sep, 0);
    } else {
      UpToSeparatorFree(s, sep);
      assert forall j :: 0 <= j <= |r| ==> !OccursAt(r, sep, j);
    }
  }

  /** Pass 1: the username is the whole address, ignoring case. */
  predicate ExactMatch(email: string, a: Account)
  {
    ToLower(email) == ToLower(a.username)
  }

  /** Pass 2: the local part of the address (before the first "@") is the
      local part of the username or the label up to its first ":". */
  predicate LocalMatch(email: string, a: Account)
  {
    var localPart := ToLower(UpToSeparator(email, "@"));
    localPart == ToLower(UpToSeparator(a.username, "@"))
    || localPart == ToLower(UpToSeparator(a.accountLabel, ":"))
  }

  /** Go's `%v` rendering of an account: its fields in order, space separated,
      in braces. */
  function AccountText(a: Account): string
  {
    "{" + a.status + " " + a.resourceURL + " " + a.typ + " " + a.authenticationType
    + " " + a.server + " " + a.accountLabel + " " + a.username + " "
    + (if a.useSSL then "true" else "false") + " " + Itoa(a.port) + "}"
  }

  /** Go's `%v` rendering of a slice of accounts; a nil slice prints as "[]". */
  function AccountsText(accounts: seq<Account>): string
  {
    "[" + AccountsJoined(accounts) + "]"
  }

  function AccountsJoined(accounts: seq<Account>): string
    decreases |accounts|
  {
    if |accounts| == 0 then ""
    else if |accounts| == 1 then AccountText(accounts[0])
    else AccountText(accounts[0]) + " " + AccountsJoined(accounts[1..])
  }

  /** The error returned when no account matches (built with errors.Errorf). */
  function NoMatchError(accounts: seq<Account>, email: string): GoError
  {
    Fundamental("No email accounts match " + email + " in " + AccountsText(accounts))
  }

  /** The first index whose account satisfies the pass, if any. */
  predicate FirstWith(accounts: seq<Account>, email: string, exact: bool, i: int)
  {
    0 <= i < |accounts|
    && (if exact then ExactMatch(email, accounts[i]) else LocalMatch(email, accounts[i]))
    && forall k :: 0 <= k < i ==>
      !(if exact then ExactMatch(email, accounts[k]) else LocalMatch(email, accounts[k]))
  }

  /** FindEmailAccountMatching. `None` stands for a nil slice, which behaves
      as an empty one. */
  method FindEmailAccountMatching(emailAccounts: Option<seq<Account>>, email: string)
    returns (r: Result<Account, GoError>)
    ensures var accounts := if emailAccounts.Some? then emailAccounts.value else [];
      && (r.Ok? <==> exists i :: 0 <= i < |accounts| && (ExactMatch(email, accounts[i]) || LocalMatch(email, accounts[i])))
      && (r.Ok? ==> r.value in accounts)
      && (forall i :: FirstWith(accounts, email, true, i) ==> r == Ok(accounts[i]))
      && (forall i :: FirstWith(accounts, email, false, i) && (forall k :: 0 <= k < |accounts| ==> !ExactMatch(email, accounts[k]))
            ==> r == Ok(accounts[i]))
      && (r.Err? ==> r.error == NoMatchError(accounts, email))
  {
    hide ToLower, UpToSeparator, NoMatchError;
    var accounts := if emailAccounts.Some? then emailAccounts.value else [];
    if emailAccounts.Some? {
      var i := 0;
      while i < |accounts|
        invariant 0 <= i <= |accounts|
        invariant forall k :: 0 <= k < i ==> !ExactMatch(email, accounts[k])
      {
        if ToLower(email) == ToLower(accounts[i].username) {
          assert FirstWith(accounts, email, true, i);
          return Ok(accounts[i]);
        }
        i := i + 1;
      }
      var localPart := ToLower(UpToSeparator(email, "@"));
      var j := 0;
      while j < |accounts|
        invariant 0 <= j <= |accounts|
        invariant forall k :: 0 <= k < j ==> !LocalMatch(email, accounts[k])
      {
        if localPart == ToLower(UpToSeparator(accounts[j].username, "@"))
          || localPart == ToLower(UpToSeparator(accounts[j].accountLabel, ":")) {
          assert FirstWith(accounts, email, false, j);
          return Ok(accounts[j]);
        }
        j := j + 1;
      }
    }
    return Err(NoMatchError(accounts, email));
  }
}
