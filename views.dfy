/** Which page the server renders after a request: an archived month, the
    ledger, an alert telling the household to pay rent first, or the page of
    a disabled server. */
module Views {
  import opened LedgerTypes

  datatype View = ArchivePage | IndexPage | AlertPage(message: string) | DisabledPage

  const RefreshAlert := "It is time to pay rent."
  const ExpenseAlert := "It is time to pay rent. Submit your expense on the next month once rent has been paid."

  /** Requests that only refresh the ledger. */
  const UpdateRequests: seq<string> := ["/refresh"]

  /** Requests that try to edit the expense list. */
  const ExpenseRequests: seq<string> := ["/submit", "/delete", "/undo"]

  /** The characters 1 to 7 of the path spell "archive", as for any path
      under "/archive/". */
  predicate IsArchivePath(path: string)
  {
    |path| >= 8 && path[1..8] == "archive"
  }

  /** The page for a request on `path` while the server is in `state`. */
  function SelectView(path: string, state: State): (v: View)
    ensures v == ArchivePage <==> IsArchivePath(path)
    ensures v == IndexPage <==> !IsArchivePath(path) && state == Active
    ensures v.AlertPage? <==>
      !IsArchivePath(path) && state == Disabled && (path in UpdateRequests || path in ExpenseRequests)
    ensures v == DisabledPage <==>
      !IsArchivePath(path) && state == Disabled && path !in UpdateRequests && path !in ExpenseRequests
  {
    if IsArchivePath(path) then ArchivePage
    else if state.Active? then IndexPage
    else if path in UpdateRequests then AlertPage(RefreshAlert)
    else if path in ExpenseRequests then AlertPage(ExpenseAlert)
    else DisabledPage
  }

  /** An archived month looks the same whatever the server's state. */
  lemma ArchiveIgnoresState(path: string)
    requires IsArchivePath(path)
    ensures SelectView(path, Active) == SelectView(path, Disabled) == ArchivePage
  {
  }

  /** While disabled, an attempt to edit the list is answered with the alert
      asking for the expense to be submitted next month. */
  lemma DisabledEditsAlert(path: string)
    requires path in ExpenseRequests
    ensures SelectView(path, Disabled) == AlertPage(ExpenseAlert)
  {
    assert |path| < 8;
  }

  /** While disabled, a refresh is answered with the plain reminder. */
  lemma DisabledRefreshAlert()
    ensures SelectView("/refresh", Disabled) == AlertPage(RefreshAlert)
  {
    assert "/refresh"[1..8][0] == 'r' != "archive"[0];
  }

  /** The page of a disabled server answers "/disabled", which is neither
      an archive path nor a request that edits or refreshes the ledger. */
  lemma DisabledShowsDisabledPage()
    ensures SelectView("/disabled", Disabled) == DisabledPage
  {
    assert "/disabled"[1..8][0] == 'd' != "archive"[0];
  }
}
