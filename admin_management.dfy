/**
 * The administrator management page (`GestionAdministradores`): loading the
 * list, with its second flag pass and its fallback, and the add and remove
 * actions with their own checks in front of the services.
 */
module AdminManagement {
  import opened Wrappers
  import opened Addresses
  import opened Records
  import ContractServices

  /**
   * The page's state: the shown administrators, the error banner, whether
   * the success banner is shown, and the text of the address input.
   */
  datatype AdminPage = AdminPage(admins: seq<Address>, error: Option<Error>, success: bool, input: string)

  /**
   * The page's own pass over the service's list: every address's flag is
   * read again, and a single failed read fails the whole pass (the loop has
   * no per-address catch).
   */
  function Reverified(L: Ledger, list: seq<Address>): Option<seq<Address>>
    decreases |list|
  {
    if list == [] then Some([])
    else
      match Reverified(L, list[..|list| - 1])
      case None => None
      case Some(acc) =>
        match L.ReadAdminFlag(list[|list| - 1])
        case None => None
        case Some(isAdmin) => Some(acc + if isAdmin then [Lower(list[|list| - 1])] else [])
  }

  /** What the catch block shows: a fixed error, and the user's own address when the user is an administrator. */
  function Fallback(page: AdminPage, user: Option<User>): AdminPage
  {
    page.(error := Some(CallFailed),
          admins := if user.Some? && user.value.isAdmin then [Lower(user.value.address)] else page.admins)
  }

  /**
   * The page after `cargarAdministradores`. The service reads `contract`;
   * the page's own flag reads are separate calls made afterwards, and
   * `recheck` is the ledger as they see it: a read may fail there, or a flag
   * may have changed since the service's pass.
   */
  function Loaded(page: AdminPage, contract: Option<Ledger>, recheck: Ledger, user: Option<User>): AdminPage
  {
    var cleared := page.(error := None);
    if contract.None? || contract.value.adminList.None? then Fallback(cleared, user)
    else
      var L := contract.value;
      match Reverified(recheck, ContractServices.ActiveAdmins(L, L.adminList.value))
      case None => Fallback(cleared, user)
      case Some(active) => cleared.(admins := active)
  }

  /** Loading falls into the catch block: no contract, a failed enumeration, or a failed flag read of the page's pass. */
  ghost predicate LoadFails(contract: Option<Ledger>, recheck: Ledger)
  {
    || contract.None?
    || contract.value.adminList.None?
    || exists a :: a in ContractServices.ActiveAdmins(contract.value, contract.value.adminList.value) && recheck.ReadAdminFlag(a).None?
  }

  /** A pass fails exactly when one of the flag reads fails. */
  lemma {:induction false} ReverifiedFails(L: Ledger, list: seq<Address>)
    ensures Reverified(L, list).None? <==> exists i :: 0 <= i < |list| && L.ReadAdminFlag(list[i]).None?
    decreases |list|
  {
    if list != [] {
      var init := list[..|list| - 1];
      ReverifiedFails(L, init);
      if exists i :: 0 <= i < |init| && L.ReadAdminFlag(init[i]).None? {
        var i :| 0 <= i < |init| && L.ReadAdminFlag(init[i]).None?;
        assert list[i] == init[i];
      }
      if exists i :: 0 <= i < |list| && L.ReadAdminFlag(list[i]).None? {
        var i :| 0 <= i < |list| && L.ReadAdminFlag(list[i]).None?;
        if i < |init| {
          assert init[i] == list[i];
        }
      }
    }
  }

  /** A pass that succeeds keeps the same addresses as the service's own filter. */
  lemma {:induction false} ReverifiedFilters(L: Ledger, list: seq<Address>)
    requires Reverified(L, list).Some?
    ensures Reverified(L, list).value == ContractServices.ActiveAdmins(L, list)
    decreases |list|
  {
    if list != [] {
      ReverifiedFilters(L, list[..|list| - 1]);
    }
  }

  /** A failed pass is not repaired by further addresses. */
  lemma {:induction false} ReverifiedFailureSticks(L: Ledger, list: seq<Address>, k: nat)
    requires k <= |list| && Reverified(L, list[..k]).None?
    ensures Reverified(L, list).None?
    decreases |list|
  {
    if k == |list| {
      assert list[..k] == list;
    } else {
      var init := list[..|list| - 1];
      assert init[..k] == list[..k];
      ReverifiedFailureSticks(L, init, k);
    }
  }

  lemma {:induction false} ReverifiedFixed(L: Ledger, list: seq<Address>)
    requires forall a :: a in list ==> L.ReadAdminFlag(a) == Some(true) && Lower(a) == a
    ensures Reverified(L, list) == Some(list)
    decreases |list|
  {
    if list != [] {
      var init := list[..|list| - 1];
      assert forall a :: a in init ==> a in list;
      ReverifiedFixed(L, init);
      assert list == init + [list[|list| - 1]];
    }
  }

  /**
   * On one ledger state the second pass is redundant: every address the
   * service returns reads as an administrator again, lower-cased already.
   */
  lemma SnapshotReverifies(L: Ledger, list: seq<Address>)
    ensures Reverified(L, ContractServices.ActiveAdmins(L, list)) == Some(ContractServices.ActiveAdmins(L, list))
  {
    var active := ContractServices.ActiveAdmins(L, list);
    ContractServices.ActiveAdminsMembers(L, list);
    forall a | a in active
      ensures L.ReadAdminFlag(a) == Some(true) && Lower(a) == a
    {
      var i :| 0 <= i < |list| && L.ReadAdminFlag(list[i]) == Some(true) && a == Lower(list[i]);
      LowerIdempotent(list[i]);
    }
    ReverifiedFixed(L, active);
  }

  /**
   * When the page's pass sees the same ledger state as the service's, a
   * readable enumeration always shows the service's active list and clears
   * the error: the second pass then neither fails nor changes anything.
   */
  lemma LoadShowsActiveAdmins(page: AdminPage, L: Ledger, user: Option<User>)
    requires L.adminList.Some?
    ensures Loaded(page, Some(L), L, user) == page.(admins := ContractServices.ActiveAdmins(L, L.adminList.value), error := None)
  {
    SnapshotReverifies(L, L.adminList.value);
  }

  /**
   * When the page's reads all succeed but flags changed between the two
   * passes, the page shows those of the service's addresses whose flag still
   * reads true, in the service's order.
   */
  lemma LoadWithChangedFlags(page: AdminPage, L: Ledger, recheck: Ledger, user: Option<User>)
    requires L.adminList.Some? && !LoadFails(Some(L), recheck)
    ensures Loaded(page, Some(L), recheck, user) ==
      page.(admins := ContractServices.ActiveAdmins(recheck, ContractServices.ActiveAdmins(L, L.adminList.value)), error := None)
  {
    var active := ContractServices.ActiveAdmins(L, L.adminList.value);
    ReverifiedFails(recheck, active);
    ReverifiedFilters(recheck, active);
  }

  /**
   * The catch block runs exactly on a missing contract, a failed enumeration
   * or any failed flag read of the page's pass; it then shows the fixed error
   * and, to an administrator, exactly their own address, lower-cased.
   */
  lemma FallbackShowsSelf(page: AdminPage, contract: Option<Ledger>, recheck: Ledger, user: User)
    ensures Loaded(page, contract, recheck, Some(user)).error.Some? <==> LoadFails(contract, recheck)
    ensures LoadFails(contract, recheck) ==> Loaded(page, contract, recheck, Some(user)).error == Some(CallFailed)
    ensures LoadFails(contract, recheck) && user.isAdmin ==> Loaded(page, contract, recheck, Some(user)).admins == [Lower(user.address)]
    ensures LoadFails(contract, recheck) && !user.isAdmin ==> Loaded(page, contract, recheck, Some(user)).admins == page.admins
  {
    if contract.Some? && contract.value.adminList.Some? {
      var active := ContractServices.ActiveAdmins(contract.value, contract.value.adminList.value);
      ReverifiedFails(recheck, active);
      if exists a :: a in active && recheck.ReadAdminFlag(a).None? {
        var a :| a in active && recheck.ReadAdminFlag(a).None?;
        var i :| 0 <= i < |active| && active[i] == a;
      }
    }
  }

  /** `cargarAdministradores`. */
  method LoadAdmins(page: AdminPage, contract: Option<Ledger>, recheck: Ledger, user: Option<User>) returns (next: AdminPage)
    ensures next == Loaded(page, contract, recheck, user)
  {
    var cleared := page.(error := None);
    var listed := ContractServices.ListAdmins(contract);
    if listed.Failure? {
      return Fallback(cleared, user);
    }
    var admins := listed.value;
    var active: seq<Address> := [];
    for i := 0 to |admins|
      invariant Reverified(recheck, admins[..i]) == Some(active)
    {
      assert admins[..i + 1][..i] == admins[..i] && admins[..i + 1][i] == admins[i];
      match recheck.ReadAdminFlag(admins[i]) {
        case None =>
          ReverifiedFailureSticks(recheck, admins, i + 1);
          return Fallback(cleared, user);
        case Some(isAdmin) =>
          assert Reverified(recheck, admins[..i + 1]) == Some(active + if isAdmin then [Lower(admins[i])] else []);
          if isAdmin {
            active := active + [Lower(admins[i])];
          } else {
            assert active + [] == active;
          }
      }
    }
    assert admins[..|admins|] == admins;
    return cleared.(admins := active);
  }

  predicate IsSpace(c: char)
  {
    c == ' ' || c == '\t' || c == '\n' || c == '\r' || c == '\U{0B}' || c == '\U{0C}'
  }

  /** `!s.trim()`: nothing but whitespace. */
  predicate Blank(s: string)
  {
    forall i :: 0 <= i < |s| ==> IsSpace(s[i])
  }

  /**
   * `agregarAdmin`: a blank input does nothing; the page checks the address
   * before any call; after a confirmed write the input is cleared, the
   * success banner shown and the list loaded again from the ledger
   * (`recheck` is that reload's view for its own flag reads).
   */
  method AddAdminAction(page: AdminPage, contract: Option<Ledger>, user: User, isAddress: Address -> bool,
                        outcome: Result<Ledger, Error>, recheck: Ledger) returns (calls: seq<Call>, next: AdminPage)
    ensures Blank(page.input) ==> calls == [] && next == page
    ensures !Blank(page.input) && !isAddress(page.input) ==>
      calls == [] && next == page.(error := Some(InvalidAddress), success := false)
    ensures !Blank(page.input) && isAddress(page.input) ==>
      calls == ContractServices.AddAdmin(contract, page.input, user.address, isAddress).calls
    ensures !Blank(page.input) && isAddress(page.input) &&
            ContractServices.AddAdmin(contract, page.input, user.address, isAddress).result.Failure? ==>
      next == page.(error := Some(ContractServices.AddAdmin(contract, page.input, user.address, isAddress).result.error),
                    success := false)
    ensures !Blank(page.input) && ContractServices.AddAdmin(contract, page.input, user.address, isAddress).result.Success? ==>
      match outcome
      case Failure(e) => next == page.(error := Some(e), success := false)
      case Success(after) => next == Loaded(page.(success := true, input := ""), Some(after), recheck, Some(user))
  {
    if Blank(page.input) {
      return [], page;
    }
    next := page.(error := None, success := false);
    if !isAddress(page.input) {
      return [], next.(error := Some(InvalidAddress));
    }
    var run := ContractServices.AddAdmin(contract, page.input, user.address, isAddress);
    calls := run.calls;
    if run.result.Failure? {
      return calls, next.(error := Some(run.result.error));
    }
    if outcome.Failure? {
      return calls, next.(error := Some(outcome.error));
    }
    next := next.(success := true, input := "");
    next := LoadAdmins(next, Some(outcome.value), recheck, Some(user));
  }

  /**
   * `quitarAdmin`, once the confirmation dialog is accepted: the page refuses
   * the user's own address, in any spelling, before any call. `recheck` is
   * the reload's view for its own flag reads.
   */
  method RemoveAdminAction(page: AdminPage, contract: Option<Ledger>, user: User, who: Address, isAddress: Address -> bool,
                           outcome: Result<Ledger, Error>, recheck: Ledger) returns (calls: seq<Call>, next: AdminPage)
    ensures SameAddress(who, user.address) ==> calls == [] && next == page.(error := Some(SelfRemoval), success := false)
    ensures !SameAddress(who, user.address) ==>
      calls == ContractServices.RemoveAdmin(contract, who, user.address, isAddress).calls
    ensures !SameAddress(who, user.address) && ContractServices.RemoveAdmin(contract, who, user.address, isAddress).result.Failure? ==>
      next == page.(error := Some(ContractServices.RemoveAdmin(contract, who, user.address, isAddress).result.error),
                    success := false)
    ensures !SameAddress(who, user.address) && ContractServices.RemoveAdmin(contract, who, user.address, isAddress).result.Success? ==>
      match outcome
      case Failure(e) => next == page.(error := Some(e), success := false)
      case Success(after) => next == Loaded(page.(success := true), Some(after), recheck, Some(user))
  {
    next := page.(error := None, success := false);
    if Lower(who) == Lower(user.address) {
      return [], next.(error := Some(SelfRemoval));
    }
    var run := ContractServices.RemoveAdmin(contract, who, user.address, isAddress);
    calls := run.calls;
    if run.result.Failure? {
      return calls, next.(error := Some(run.result.error));
    }
    if outcome.Failure? {
      return calls, next.(error := Some(outcome.error));
    }
    next := LoadAdmins(next.(success := true), Some(outcome.value), recheck, Some(user));
  }

  /** The remove button is rendered for every listed address except the user's own. */
  predicate RemoveOffered(admin: Address, user: User)
  {
    Lower(admin) != Lower(user.address)
  }

  /**
   * The button is never offered for the user's own address, and when it is
   * offered the self-removal refusal cannot fire: a valid address reaches the
   * ledger's flag read.
   */
  lemma RemoveOfferedPassesSelfCheck(admin: Address, user: User, contract: Ledger, isAddress: Address -> bool)
    ensures !RemoveOffered(user.address, user)
    ensures RemoveOffered(admin, user) <==> !SameAddress(admin, user.address)
    ensures RemoveOffered(admin, user) && isAddress(admin) ==>
      ContractServices.RemoveAdmin(Some(contract), admin, user.address, isAddress).calls[..1] == [ReadAdminFlagCall(admin)]
  {
  }
}
