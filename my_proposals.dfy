/**
 * The account's proposals page (`MisPropuestas`): the status label of a
 * proposal, when deleting it is offered, and the delete-then-reload action.
 */
module MyProposals {
  import opened Wrappers
  import opened Addresses
  import opened Records
  import ContractServices
  import TenderList

  /** The label shown on a proposal card. */
  datatype ProposalLabel =
    | Winning           // 'Ganadora'
    | NotSelected       // 'No Seleccionada'
    | TenderClosed      // 'Licitación Cerrada'
    | UnderEvaluation   // 'En Evaluación'

  /**
   * `getEstadoPropuesta` for a viewer at wall-clock time `nowMs`
   * (milliseconds). The winner is compared with the viewer's address exactly,
   * case included, and the deadline with `nowMs / 1000` as a real number.
   */
  function LabelOf(winner: Address, viewer: Address, deadline: nat, nowMs: nat): (l: ProposalLabel)
    ensures l == Winning <==> winner == viewer
    ensures l == NotSelected <==> winner != viewer && winner != ZERO
    ensures l == TenderClosed <==> winner != viewer && winner == ZERO && deadline * 1000 < nowMs
    ensures l == UnderEvaluation <==> winner != viewer && winner == ZERO && deadline * 1000 >= nowMs
  {
    if winner == viewer then Winning
    else if winner != ZERO then NotSelected
    else if (deadline as real) < (nowMs as real) / 1000.0 then TenderClosed
    else UnderEvaluation
  }

  /** The winner's own proposal reads Winning even long after the deadline. */
  lemma WinnerIgnoresDeadline(viewer: Address, deadline: nat, nowMs: nat)
    ensures LabelOf(viewer, viewer, deadline, nowMs) == Winning
  {
  }

  /** The winner comparison is case-sensitive: the same account spelled in another case reads NotSelected. */
  lemma WinnerComparedWithCase(winner: Address, viewer: Address, deadline: nat, nowMs: nat)
    requires winner != viewer && SameAddress(winner, viewer) && winner != ZERO
    ensures LabelOf(winner, viewer, deadline, nowMs) == NotSelected
  {
  }

  /** A tender the list shows as Closed makes an unawarded proposal read TenderClosed. */
  lemma ClosedTenderClosesProposal(t: Tender, viewer: Address, nowMs: nat)
    requires TenderList.LabelOf(t.status, t.deadline, nowMs) == TenderList.Closed
    requires t.winner == ZERO && viewer != ZERO
    ensures LabelOf(t.winner, viewer, t.deadline, nowMs) == TenderClosed
  {
    assert t.deadline < nowMs / 1000;
    assert (nowMs / 1000) * 1000 <= nowMs;
  }

  /**
   * The two pages disagree within the deadline's own second: past its first
   * millisecond the proposal already reads TenderClosed while the tender
   * list does not yet show Closed.
   */
  lemma LabelsDisagreeWithinDeadlineSecond(t: Tender, viewer: Address, nowMs: nat)
    requires t.winner == ZERO && viewer != ZERO
    requires t.deadline * 1000 < nowMs < (t.deadline + 1) * 1000
    ensures LabelOf(t.winner, viewer, t.deadline, nowMs) == TenderClosed
    ensures TenderList.LabelOf(t.status, t.deadline, nowMs) != TenderList.Closed
  {
    assert nowMs / 1000 == t.deadline;
  }

  /** The delete button is shown: the label is neither Winning nor NotSelected. */
  predicate DeleteOffered(l: ProposalLabel)
  {
    l != Winning && l != NotSelected
  }

  /** Delete is offered exactly while no winner is chosen, unless the viewer is spelled exactly as the zero address. */
  lemma DeleteOfferedExactly(winner: Address, viewer: Address, deadline: nat, nowMs: nat)
    requires viewer != ZERO
    ensures DeleteOffered(LabelOf(winner, viewer, deadline, nowMs)) <==> winner == ZERO
  {
  }

  /** The page's state: the listed proposals with their tenders, and the error banner. */
  datatype MinePage = MinePage(items: seq<ContractServices.Owned>, error: Option<Error>)

  /** `cargarPropuestas`: the list is replaced by a fresh aggregation, or kept when it throws. */
  function Reload(page: MinePage, contract: Option<Ledger>, user: User): (next: MinePage)
    ensures contract.None? ==> next == page.(error := Some(NotInitialized))
    ensures contract.Some? && ContractServices.Mine(contract.value, ContractServices.Scan(contract.value), user.address).Success? ==>
      next == MinePage(ContractServices.Mine(contract.value, ContractServices.Scan(contract.value), user.address).value, None)
    ensures contract.Some? && ContractServices.Mine(contract.value, ContractServices.Scan(contract.value), user.address).Failure? ==>
      next == page.(error := Some(CallFailed))
  {
    match contract
    case None => page.(error := Some(NotInitialized))
    case Some(L) =>
      ContractServices.MineFails(L, ContractServices.Scan(L), user.address);
      match ContractServices.Mine(L, ContractServices.Scan(L), user.address)
      case Failure(e) => page.(error := Some(e))
      case Success(items) => MinePage(items, None)
  }

  /**
   * `eliminarPropuesta` on the page, after the confirmation dialog;
   * `outcome` is the ledger's verdict on the submitted write.
   */
  function DeleteFromList(page: MinePage, contract: Option<Ledger>, tenderId: nat, proposalId: nat, user: User,
                          outcome: Result<Ledger, Error>): (next: MinePage)
    ensures ContractServices.DeleteProposal(contract, tenderId, proposalId, user.address).result.Failure? ==>
      next == page.(error := Some(ContractServices.DeleteProposal(contract, tenderId, proposalId, user.address).result.error))
    ensures ContractServices.DeleteProposal(contract, tenderId, proposalId, user.address).result.Success? && outcome.Failure? ==>
      next == page.(error := Some(outcome.error))
    // after a confirmed delete the list is aggregated again, never patched
    ensures ContractServices.DeleteProposal(contract, tenderId, proposalId, user.address).result.Success? && outcome.Success? ==>
      next == Reload(page, Some(outcome.value), user).(error := None)
  {
    var run := ContractServices.DeleteProposal(contract, tenderId, proposalId, user.address);
    match run.result
    case Failure(e) => page.(error := Some(e))
    case Success(_) =>
      match outcome
      case Failure(e) => page.(error := Some(e))
      case Success(after) => Reload(page, Some(after), user).(error := None)
  }
}
