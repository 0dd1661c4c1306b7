/**
 * The records the client reads from the tender contract, the ledger as a value,
 * the calls the client makes on it, and the errors its services raise.
 */
module Records {
  import opened Wrappers
  import opened Addresses

  /** A tender (`licitaciones(id)` on the contract). */
  datatype Tender = Tender(
    id: nat,
    creator: Address,      // creador
    title: string,         // titulo
    description: string,   // descripcion
    budget: nat,           // presupuesto, in wei
    deadline: nat,         // fechaLimite, unix seconds
    active: bool,          // activa
    winner: Address,       // ganador, ZERO while none is chosen
    status: nat)           // estado, the contract's uint8 enum

  /** A proposal (an element of `obtenerPropuestas(licitacionId)`). */
  datatype Proposal = Proposal(
    id: nat,
    tenderId: nat,         // licitacionId
    proponent: Address,    // proponente
    description: string,
    amount: nat,           // montoPropuesto, in wei
    selected: bool,        // seleccionada
    status: nat)

  /** The connected account, as the session context holds it. */
  datatype User = User(address: Address, isAdmin: bool)

  /**
   * One snapshot of the contract as its read calls see it. A key missing from
   * a map (or `None` for the admin enumeration) means that call fails.
   */
  datatype Ledger = Ledger(
    tenders: map<nat, Tender>,
    proposals: map<nat, seq<Proposal>>,
    adminList: Option<seq<Address>>,
    adminFlags: map<Address, bool>)
  {
    /** `licitaciones(id).call()` */
    function ReadTender(id: nat): Option<Tender>
    {
      if id in tenders then Some(tenders[id]) else None
    }

    /** `obtenerPropuestas(id).call()` */
    function ReadProposals(id: nat): Option<seq<Proposal>>
    {
      if id in proposals then Some(proposals[id]) else None
    }

    /** `administradores(a).call()`; the contract's address type has no case, so the flag is keyed by the lower-cased address. */
    function ReadAdminFlag(a: Address): Option<bool>
    {
      if Lower(a) in adminFlags then Some(adminFlags[Lower(a)]) else None
    }
  }

  /** The state-changing contract methods the client submits. */
  datatype Tx =
    | CrearLicitacion(title: string, description: string, budget: nat, deadline: nat)
    | EliminarLicitacion(tenderId: nat)
    | EnviarPropuesta(tenderId: nat, description: string, amount: int)
    | EliminarPropuesta(tenderId: nat, proposalId: nat)
    | AgregarAdministrador(who: Address)
    | QuitarAdministrador(who: Address)
    | SeleccionarGanador(tenderId: nat, proposalId: nat)

  /** A submission: `contract.methods.<tx>.send({ from })`. */
  datatype Write = Write(tx: Tx, from: Address)

  /** One call on the contract, read or submission. */
  datatype Call =
    | ReadTenderCall(id: nat)
    | ReadProposalsCall(tenderId: nat)
    | ReadAdminFlagCall(who: Address)
    | Submit(write: Write)

  /** The errors the client raises or passes on. */
  datatype Error =
    | NotInitialized       // 'Contrato no inicializado'
    | CallFailed           // a read call rejected by the ledger or the network
    | TenderMissing        // 'La licitación no existe'
    | ProposalMissing      // 'La propuesta no existe'
    | NotPermitted         // 'No tienes permisos para eliminar ...'
    | InvalidAddress       // 'Dirección de Ethereum inválida'
    | AlreadyAdmin         // 'Esta dirección ya es administrador'
    | SelfRemoval          // 'No puedes quitarte a ti mismo como administrador'
    | NotAdmin             // 'Esta dirección no es administrador'
    | NoConnection         // 'No hay conexión con el contrato o usuario'
    | AmountUnreadable     // the amount could not be converted to wei
    | TenderNotLoaded      // the form's tender is still null
    | BudgetExceeded       // 'El monto propuesto excede el presupuesto de la licitación'
    | WriteRejected        // a submitted write that the ledger did not confirm

  /** What a service did: the calls it made, in order, and what it returned or threw. */
  datatype Run<T> = Run(calls: seq<Call>, result: Result<T, Error>)

  /**
   * The run submits at most one write, as its very last call, and it submits
   * exactly when it succeeds: the write submitted is then its result.
   */
  predicate SubmitsOnlyOnSuccess(r: Run<Write>)
  {
    && (forall i :: 0 <= i < |r.calls| - 1 ==> !r.calls[i].Submit?)
    && (r.result.Success? ==> |r.calls| > 0 && r.calls[|r.calls| - 1] == Submit(r.result.value))
    && (r.result.Failure? ==> forall i :: 0 <= i < |r.calls| ==> !r.calls[i].Submit?)
  }

  /** Who may delete a tender or a proposal: an administrator or its owner, addresses compared without case. */
  predicate MayDelete(isAdmin: bool, owner: Address, account: Address)
  {
    isAdmin || SameAddress(owner, account)
  }
}
