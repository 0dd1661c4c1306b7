/**
 * The tender list page (`ListarLicitaciones`): the status label derived from
 * the deadline and the raw status, who may delete, which buttons are offered,
 * and the delete-then-reload action.
 */
module TenderList {
  import opened Wrappers
  import opened Addresses
  import opened Records
  import ContractServices

  /** The label shown on a tender card. */
  datatype TenderLabel =
    | Created        // 'Creada'
    | Open           // 'Abierta'
    | InEvaluation   // 'En Evaluación'
    | Awarded        // 'Adjudicada'
    | Cancelled      // 'Cancelada'
    | Closed         // 'Cerrada'
    | NoLabel        // a raw status outside the table reads as `undefined`

  /** The labels of raw statuses 0 .. 4. */
  const STATUS_LABELS: seq<TenderLabel> := [Created, Open, InEvaluation, Awarded, Cancelled]

  /**
   * `getEstadoLicitacion(estado, fechaLimite)` at wall-clock time `nowMs`
   * (milliseconds): the current second is `floor(nowMs / 1000)`, and the
   * deadline wins over the raw status once it is strictly in the past.
   */
  function LabelOf(status: nat, deadline: nat, nowMs: nat): (l: TenderLabel)
    ensures l == Closed <==> deadline < nowMs / 1000
    ensures l == NoLabel <==> deadline >= nowMs / 1000 && status >= |STATUS_LABELS|
    ensures deadline >= nowMs / 1000 && status < |STATUS_LABELS| ==> l == STATUS_LABELS[status]
  {
    var nowSeconds := nowMs / 1000;
    if deadline < nowSeconds then Closed
    else if status < |STATUS_LABELS| then STATUS_LABELS[status]
    else NoLabel
  }

  /** A deadline equal to the current second is not yet closed, whatever the raw status. */
  lemma DeadlineSecondStillOpen(status: nat, deadline: nat, nowMs: nat)
    requires deadline * 1000 <= nowMs < (deadline + 1) * 1000
    ensures LabelOf(status, deadline, nowMs) != Closed
    ensures status == 1 ==> LabelOf(status, deadline, nowMs) == Open
  {
    assert nowMs / 1000 == deadline;
  }

  /** `puedeEliminar`: the user is an administrator or the tender's creator, addresses compared without case. */
  predicate CanDelete(user: Option<User>, creator: Address)
  {
    user.Some? && MayDelete(user.value.isAdmin, creator, user.value.address)
  }

  /** The delete button is shown: `puedeEliminar && estado !== 'Adjudicada'`. */
  predicate DeleteOffered(user: Option<User>, t: Tender, nowMs: nat)
  {
    CanDelete(user, t.creator) && LabelOf(t.status, t.deadline, nowMs) != Awarded
  }

  /** The proposal button is enabled: `estado === 'Abierta'`. */
  predicate ProposalEnabled(t: Tender, nowMs: nat)
  {
    LabelOf(t.status, t.deadline, nowMs) == Open
  }

  /** A proposal can be started only on a tender whose raw status is Open and whose deadline has not passed; Created is not enough. */
  lemma ProposalEnabledExactly(t: Tender, nowMs: nat)
    ensures ProposalEnabled(t, nowMs) <==> t.status == 1 && t.deadline >= nowMs / 1000
  {
  }

  /**
   * The page's `puedeEliminar` agrees with the service's guard whenever the
   * session's administrator flag agrees with the ledger's: the service lets
   * the delete through exactly when the page would offer the right, so an
   * offered button never ends in the permission refusal.
   */
  lemma DeleteOfferedMatchesService(u: User, i: nat, nowMs: nat, L: Ledger)
    requires i in L.tenders && L.tenders[i].creator != ZERO
    requires L.ReadAdminFlag(u.address) == Some(u.isAdmin)
    ensures ContractServices.DeleteTender(Some(L), i, u.address).result.Success? <==> CanDelete(Some(u), L.tenders[i].creator)
    ensures DeleteOffered(Some(u), L.tenders[i].(id := i), nowMs) ==>
      ContractServices.DeleteTender(Some(L), i, u.address).result.Success?
  {
  }

  /** The page's state: the listed tenders and the error banner. */
  datatype ListPage = ListPage(tenders: seq<Tender>, error: Option<Error>)

  /** `cargarLicitaciones`: the list is replaced by a fresh scan, or kept when the scan throws. */
  function Reload(page: ListPage, contract: Option<Ledger>): (next: ListPage)
    ensures contract.Some? ==> next == ListPage(ContractServices.Scan(contract.value), None)
    ensures contract.None? ==> next == page.(error := Some(NotInitialized))
  {
    match contract
    case None => page.(error := Some(NotInitialized))
    case Some(L) => ListPage(ContractServices.Scan(L), None)
  }

  /**
   * `eliminarLicitacion` on the page, after the confirmation dialog.
   * `outcome` is the ledger's verdict on the submitted write: the ledger as it
   * stands once the write is confirmed, or the rejection.
   */
  function DeleteFromList(page: ListPage, contract: Option<Ledger>, id: nat, user: User, outcome: Result<Ledger, Error>): (next: ListPage)
    ensures ContractServices.DeleteTender(contract, id, user.address).result.Failure? ==>
      next == page.(error := Some(ContractServices.DeleteTender(contract, id, user.address).result.error))
    ensures ContractServices.DeleteTender(contract, id, user.address).result.Success? && outcome.Failure? ==>
      next == page.(error := Some(outcome.error))
    // after a confirmed delete the list is fetched again, never patched
    ensures ContractServices.DeleteTender(contract, id, user.address).result.Success? && outcome.Success? ==>
      next == ListPage(ContractServices.Scan(outcome.value), None)
  {
    var run := ContractServices.DeleteTender(contract, id, user.address);
    match run.result
    case Failure(e) => page.(error := Some(e))
    case Success(_) =>
      match outcome
      case Failure(e) => page.(error := Some(e))
      case Success(after) => Reload(page, Some(after)).(error := None)
  }
}
