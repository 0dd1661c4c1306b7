/**
 * The proposal submission page (`EnviarPropuesta`): loading the tender it is
 * for, and the form's checks in front of `enviarPropuesta`.
 */
module ProposalForm {
  import opened Wrappers
  import opened Addresses
  import opened Records
  import ContractServices

  /** The page's state: the tender once loaded, and the error banner. */
  datatype FormPage = FormPage(tender: Option<Tender>, error: Option<Error>)

  /**
   * `cargarLicitacion`: a tender whose creator is the zero address does not
   * exist and is not stored; on success the banner is left as it was.
   */
  function LoadTender(page: FormPage, contract: Option<Ledger>, id: nat): (next: FormPage)
    ensures contract.None? ==> next == page.(error := Some(NotInitialized))
    ensures contract.Some? && contract.value.ReadTender(id).None? ==> next == page.(error := Some(CallFailed))
    ensures next.tender != page.tender ==>
      && contract.Some?
      && contract.value.ReadTender(id).Some?
      && contract.value.ReadTender(id).value.creator != ZERO
      && next == page.(tender := contract.value.ReadTender(id))
    ensures contract.Some? && contract.value.ReadTender(id).Some? && contract.value.ReadTender(id).value.creator == ZERO ==>
      next.tender == page.tender && next.error == Some(TenderMissing)
    ensures contract.Some? && contract.value.ReadTender(id).Some? && contract.value.ReadTender(id).value.creator != ZERO ==>
      next.tender == contract.value.ReadTender(id) && next.error == page.error
  {
    if contract.None? then page.(error := Some(NotInitialized))
    else
      match contract.value.ReadTender(id)
      case None => page.(error := Some(CallFailed))
      case Some(t) =>
        if t.creator == ZERO then page.(error := Some(TenderMissing))
        else page.(tender := Some(t))
  }

  /**
   * `handleSubmit`. `amountWei` is `toWei(montoPropuesto, 'ether')`, `None`
   * when the text cannot be converted. The checks run in this order: a
   * connection and a user, the amount, a loaded tender, the budget (strictly
   * greater fails), and then the service.
   */
  function SubmitForm(page: FormPage, contract: Option<Ledger>, user: Option<User>, amountWei: Option<int>,
                  tenderId: nat, description: string): (r: Run<Write>)
    ensures SubmitsOnlyOnSuccess(r)
    ensures contract.None? || user.None? ==> r == Run([], Failure(NoConnection))
    ensures contract.Some? && user.Some? && amountWei.None? ==> r == Run([], Failure(AmountUnreadable))
    ensures contract.Some? && user.Some? && amountWei.Some? && page.tender.None? ==>
      r == Run([], Failure(TenderNotLoaded))
    ensures contract.Some? && user.Some? && amountWei.Some? && page.tender.Some? && amountWei.value > page.tender.value.budget ==>
      r == Run([], Failure(BudgetExceeded))
    ensures r.result.Success? <==>
      && contract.Some? && user.Some? && amountWei.Some? && page.tender.Some?
      && amountWei.value <= page.tender.value.budget
    ensures r.result.Success? ==>
      r.result.value == Write(EnviarPropuesta(tenderId, description, amountWei.value), user.value.address)
  {
    if contract.None? || user.None? then Run([], Failure(NoConnection))
    else if amountWei.None? then Run([], Failure(AmountUnreadable))
    else if page.tender.None? then Run([], Failure(TenderNotLoaded))
    else if amountWei.value > page.tender.value.budget then Run([], Failure(BudgetExceeded))
    else ContractServices.SubmitProposal(contract, tenderId, description, amountWei.value, user.value.address)
  }

  /**
   * The banner after a submission: the check's or the ledger's error, or
   * cleared when the write is confirmed (the page then navigates away).
   */
  function AfterSubmit(page: FormPage, run: Run<Write>, outcome: Result<Ledger, Error>): (next: FormPage)
    ensures next.tender == page.tender
    ensures next.error.None? <==> run.result.Success? && outcome.Success?
    ensures run.result.Failure? ==> next.error == Some(run.result.error)
  {
    match run.result
    case Failure(e) => page.(error := Some(e))
    case Success(_) =>
      match outcome
      case Failure(e) => page.(error := Some(e))
      case Success(_) => page.(error := None)
  }

  /** An amount equal to the budget is accepted: only strictly greater is refused. */
  lemma BudgetIsInclusive(page: FormPage, contract: Ledger, user: User, tenderId: nat, description: string)
    requires page.tender.Some?
    ensures SubmitForm(page, Some(contract), Some(user), Some(page.tender.value.budget as int), tenderId, description).result.Success?
    ensures SubmitForm(page, Some(contract), Some(user), Some(page.tender.value.budget + 1), tenderId, description).result
      == Failure(BudgetExceeded)
  {
  }

  /** A negative amount passes the budget check: the form does not refuse it. */
  lemma NegativeAmountPasses(page: FormPage, contract: Ledger, user: User, amount: int, tenderId: nat, description: string)
    requires page.tender.Some? && amount < 0
    ensures SubmitForm(page, Some(contract), Some(user), Some(amount), tenderId, description).result.Success?
  {
  }

  /**
   * The budget is checked against the tender as it was loaded: a loaded
   * tender's budget bounds every amount the form sends.
   */
  lemma SubmittedWithinLoadedBudget(page: FormPage, contract: Option<Ledger>, user: Option<User>, amountWei: Option<int>,
                                    tenderId: nat, description: string)
    requires SubmitForm(page, contract, user, amountWei, tenderId, description).result.Success?
    ensures SubmitForm(page, contract, user, amountWei, tenderId, description).calls
      == [Records.Submit(Write(EnviarPropuesta(tenderId, description, amountWei.value), user.value.address))]
    ensures amountWei.value <= page.tender.value.budget
  {
  }
}
