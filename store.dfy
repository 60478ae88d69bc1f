/** The server: its state, the active month's ledger and the archive of closed
    months, with one method per request. A request renders a page from a
    ledger (or fails before rendering) and may change the state, the active
    ledger or the archive first. */
module Lifecycle {
  import opened LedgerTypes
  import opened RentBalancer
  import opened Formatter
  import opened Months
  import opened Views

  /** What a request gets back: a rendered page showing a computed ledger and
      its rows, or an error thrown before anything was rendered. */
  datatype Response = Page(view: View, ledger: ComputedLedger, rows: seq<Entry>) | Crash

  /** The page rendered for a request on `path`: the ledger is computed, its
      rows shaped, and the view chosen from the path and the state. Formatting
      the month label throws when the ledger's date is not a date. */
  function PageFor(mates: seq<Mate>, state: State, path: string, ledger: Ledger): Response
    requires LiveFit(mates, ledger.list)
  {
    if ParseKey(ledger.date).None? then Crash
    else Page(SelectView(path, state), Computed(mates, ledger), Format(ledger.list))
  }

  class Store {
    var state: State
    var active: Ledger
    /** Closed months, keyed by the date of their ledger. */
    var archive: map<string, ComputedLedger>
    /** The housemates and their rents, from the server configuration. */
    const mates: seq<Mate>
    /** The empty ledger a new month starts from. */
    const template: Ledger

    /** The active ledger and every archived one are dated by a month key and
        hold only expenses the balancer can apply. */
    ghost predicate Valid()
      reads this
    {
      IsMonthKey(active.date) && AllFit(mates, active.list) && AllFit(mates, template.list)
      && forall key :: key in archive ==>
           archive[key].date == key && IsMonthKey(key) && AllFit(mates, archive[key].list)
    }

    /** The server as it starts from its configuration and stored ledgers. */
    constructor(mates: seq<Mate>, template: Ledger, state: State, active: Ledger, archive: map<string, ComputedLedger>)
      requires IsMonthKey(active.date) && AllFit(mates, active.list) && AllFit(mates, template.list)
      requires forall key :: key in archive ==>
        archive[key].date == key && IsMonthKey(key) && AllFit(mates, archive[key].list)
      ensures Valid()
      ensures this.mates == mates && this.template == template
      ensures this.state == state && this.active == active && this.archive == archive
    {
      this.mates := mates;
      this.template := template;
      this.state := state;
      this.active := active;
      this.archive := archive;
    }

    /** Computes and formats `ledger` and renders the page the path and the
        state call for. */
    method UpdateClient(path: string, ledger: Ledger) returns (resp: Response)
      requires LiveFit(mates, ledger.list)
      ensures resp == PageFor(mates, state, path, ledger)
    {
      var computed := ComputeLedger(mates, ledger);
      if ParseKey(computed.date).None? {
        return Crash;
      }
      var rows := FormatList(computed.list);
      resp := Page(SelectView(path, state), computed, rows);
    }

    /** GET /: the active ledger, never an error. */
    method Home() returns (resp: Response)
      requires Valid()
      ensures resp.Page? && resp == PageFor(mates, state, "/", active)
    {
      resp := UpdateClient("/", active);
    }

    /** POST /refresh: the active ledger again; while disabled, with the
        reminder to pay rent. */
    method Refresh() returns (resp: Response)
      requires Valid()
      ensures resp.Page? && resp == PageFor(mates, state, "/refresh", active)
      ensures state == Disabled ==> resp.view == AlertPage(RefreshAlert)
    {
      resp := UpdateClient("/refresh", active);
      DisabledRefreshAlert();
    }

    /** GET /archive/<name>: "active" names the active ledger, any other name
        an archived month; a name with no archived month fails to load. */
    method ShowArchive(name: string) returns (resp: Response)
      requires Valid()
      ensures name == "active" ==> resp == PageFor(mates, state, "/archive/" + name, active)
      ensures name != "active" && name in archive ==>
        resp == PageFor(mates, state, "/archive/" + name, Ledger(archive[name].date, archive[name].list))
      ensures name != "active" && name !in archive ==> resp == Crash
      ensures name == "active" || name in archive ==> resp.Page? && resp.view == ArchivePage
    {
      var path := "/archive/" + name;
      assert path[1..8] == "archive";
      if name == "active" {
        resp := UpdateClient(path, active);
      } else if name in archive {
        var closed := archive[name];
        resp := UpdateClient(path, Ledger(closed.date, closed.list));
      } else {
        resp := Crash;
      }
    }

    /** GET /disabled: an active server is disabled, a disabled one stays so;
        the ledgers are untouched. */
    method Disable() returns (resp: Response)
      requires Valid()
      modifies this
      ensures Valid() && state == Disabled && active == old(active) && archive == old(archive)
      ensures resp == PageFor(mates, Disabled, "/disabled", active) && resp.Page? && resp.view == DisabledPage
    {
      if state == Active {
        state := Disabled;
      }
      resp := UpdateClient("/disabled", active);
      DisabledShowsDisabledPage();
    }

    /** GET /back: the server is active again, whatever its state; the ledgers
        are untouched. */
    method Back() returns (resp: Response)
      requires Valid()
      modifies this
      ensures Valid() && state == Active && active == old(active) && archive == old(archive)
      ensures resp == PageFor(mates, Active, "/back", active) && resp.Page? && resp.view == IndexPage
    {
      state := Active;
      resp := UpdateClient("/back", active);
    }

    /** GET /reset: closes the month of a disabled server. The server becomes
        active, the computed ledger is archived under its date, and the
        template dated one month later becomes the active ledger. On an active
        server the ledger to render is still undefined, so computing it throws
        before anything is written. */
    method Reset() returns (resp: Response)
      requires Valid()
      modifies this
      ensures Valid()
      ensures old(state) == Active ==>
        resp == Crash && state == Active && active == old(active) && archive == old(archive)
      ensures old(state) == Disabled ==>
        state == Active && archive == old(archive)[old(active).date := Computed(mates, old(active))]
      ensures old(state) == Disabled && ParseKey(old(active).date).value != YearMonth(9999, 12) ==>
        active == template.(date := NextMonthKey(old(active).date))
        && MonthNumber(ParseKey(active.date).value) == MonthNumber(ParseKey(old(active).date).value) + 1
        && resp == PageFor(mates, Active, "/reset", active) && resp.Page? && resp.view == IndexPage
      ensures old(state) == Disabled && ParseKey(old(active).date).value == YearMonth(9999, 12) ==>
        active == old(active) && resp == Crash
    {
      if state == Disabled {
        state := Active;
        var computed := ComputeLedger(mates, active);
        archive := archive[computed.date := computed];
        var next := template.(date := NextMonthKey(computed.date));
        NextKeyStaysKey(computed.date);
        resp := UpdateClient("/reset", next);
        // the new ledger is written only once its page has rendered
        if resp.Page? {
          active := next;
        }
      } else {
        resp := Crash;
      }
    }

    /** POST /submit: while active, the expense is appended unmarked at the
        end of the list; while disabled, the ledger is written back unchanged
        and an alert answers. */
    method Submit(whoPaid: string, amount: int, portions: seq<int>, date: int) returns (resp: Response)
      requires Valid()
      requires state == Active ==> Fits(mates, Expense(whoPaid, amount, portions, date, false))
      modifies this
      ensures Valid() && state == old(state) && archive == old(archive) && active.date == old(active).date
      ensures old(state) == Active ==>
        active.list == old(active).list + [Expense(whoPaid, amount, portions, date, false)]
      ensures resp.Page? && resp == PageFor(mates, state, "/submit", active)
      ensures old(state) == Disabled ==> active == old(active) && resp.view == AlertPage(ExpenseAlert)
    {
      if state == Active {
        active := active.(list := active.list + [Expense(whoPaid, amount, portions, date, false)]);
      }
      resp := UpdateClient("/submit", active);
      DisabledEditsAlert("/submit");
    }

    /** POST /delete: while active, the expense at `k` is marked deleted; a
        position outside the list has no expense to mark and the request
        fails. While disabled, nothing changes. */
    method Delete(k: int) returns (resp: Response)
      requires Valid()
      modifies this
      ensures Valid() && state == old(state) && archive == old(archive)
      ensures old(state) == Active && 0 <= k < |old(active).list| ==>
        active == old(active).(list := WithDeleted(old(active).list, k, true))
        && resp == PageFor(mates, state, "/delete", active)
      ensures old(state) == Active && !(0 <= k < |old(active).list|) ==> active == old(active) && resp == Crash
      ensures old(state) == Disabled ==>
        active == old(active) && resp == PageFor(mates, state, "/delete", active)
        && resp.Page? && resp.view == AlertPage(ExpenseAlert)
    {
      resp := SetDeleted(k, true, "/delete");
    }

    /** POST /undo: as a delete, but the expense at `k` is marked live again. */
    method Undo(k: int) returns (resp: Response)
      requires Valid()
      modifies this
      ensures Valid() && state == old(state) && archive == old(archive)
      ensures old(state) == Active && 0 <= k < |old(active).list| ==>
        active == old(active).(list := WithDeleted(old(active).list, k, false))
        && resp == PageFor(mates, state, "/undo", active)
      ensures old(state) == Active && !(0 <= k < |old(active).list|) ==> active == old(active) && resp == Crash
      ensures old(state) == Disabled ==>
        active == old(active) && resp == PageFor(mates, state, "/undo", active)
        && resp.Page? && resp.view == AlertPage(ExpenseAlert)
    {
      resp := SetDeleted(k, false, "/undo");
    }

    /** The shared body of the delete and undo requests: sets the deleted flag
        of the expense at `k` while active, then renders `path`. */
    method SetDeleted(k: int, flag: bool, path: string) returns (resp: Response)
      requires Valid() && path in ExpenseRequests
      modifies this
      ensures Valid() && state == old(state) && archive == old(archive)
      ensures old(state) == Active && 0 <= k < |old(active).list| ==>
        active == old(active).(list := WithDeleted(old(active).list, k, flag))
        && resp == PageFor(mates, state, path, active)
      ensures old(state) == Active && !(0 <= k < |old(active).list|) ==> active == old(active) && resp == Crash
      ensures old(state) == Disabled ==>
        active == old(active) && resp == PageFor(mates, state, path, active)
        && resp.Page? && resp.view == AlertPage(ExpenseAlert)
    {
      if state == Active {
        if !(0 <= k < |active.list|) {
          // the list has no expense at `k`, so setting its flag throws
          return Crash;
        }
        active := active.(list := WithDeleted(active.list, k, flag));
      }
      resp := UpdateClient(path, active);
      DisabledEditsAlert(path);
    }
  }
}
