/**
 * The evaluation page (`EvaluacionPropuestas`): the tenders still waiting for
 * a winner and, for each of them, its proposals, with a per-tender fallback
 * to none; and the select-winner-then-reload action.
 */
module Evaluation {
  import opened Wrappers
  import opened Addresses
  import opened Records
  import opened Seqs
  import ContractServices

  /** The tenders whose winner is still the zero address (compared exactly), in scan order. */
  function Pending(ts: seq<Tender>): seq<Tender>
    decreases |ts|
  {
    if ts == [] then []
    else
      var last := ts[|ts| - 1];
      Pending(ts[..|ts| - 1]) + (if last.winner == ZERO then [last] else [])
  }

  /** Pending keeps scan order and holds exactly the tenders without a winner. */
  lemma {:induction false} PendingFilters(ts: seq<Tender>)
    ensures Subseq(Pending(ts), ts)
    ensures forall t :: t in Pending(ts) <==> t in ts && t.winner == ZERO
    decreases |ts|
  {
    if ts != [] {
      var init, x := ts[..|ts| - 1], ts[|ts| - 1];
      PendingFilters(init);
      assert ts == init + [x];
      if x.winner == ZERO {
        SubseqKeep(Pending(init), init, x);
      } else {
        assert Pending(ts) == Pending(init);
        SubseqSkip(Pending(init), init, x);
      }
    }
  }

  /** The proposals stored for one tender: what the ledger returns, or none when the read fails. */
  function ProposalsOrNone(L: Ledger, id: nat): seq<Proposal>
  {
    match ContractServices.ProposalsFor(Some(L), id).result
    case Success(ps) => ps
    case Failure(_) => []
  }

  /** The proposals map built for the tenders `ts`. */
  function ProposalsByTender(L: Ledger, ts: seq<Tender>): map<nat, seq<Proposal>>
    decreases |ts|
  {
    if ts == [] then map[]
    else ProposalsByTender(L, ts[..|ts| - 1])[ts[|ts| - 1].id := ProposalsOrNone(L, ts[|ts| - 1].id)]
  }

  /** Every listed tender has exactly one entry, no other id has one, and a failed read leaves an empty entry. */
  lemma {:induction false} ProposalsByTenderEntries(L: Ledger, ts: seq<Tender>)
    ensures forall id :: id in ProposalsByTender(L, ts) <==> exists t :: t in ts && t.id == id
    ensures forall t :: t in ts ==>
      ProposalsByTender(L, ts)[t.id] == (if t.id in L.proposals then L.proposals[t.id] else [])
    decreases |ts|
  {
    if ts != [] {
      var init := ts[..|ts| - 1];
      ProposalsByTenderEntries(L, init);
      assert ts == init + [ts[|ts| - 1]];
    }
  }

  /** The page's state: the pending tenders, their proposals, and the error banner. */
  datatype EvaluationPage = EvaluationPage(pending: seq<Tender>, proposals: map<nat, seq<Proposal>>, error: Option<Error>)

  /**
   * `cargarLicitacionesYPropuestas`. A failed scan sets the error and assigns
   * nothing; otherwise the pending list and the proposals map are replaced.
   * The error banner is never cleared here.
   */
  method Reload(page: EvaluationPage, contract: Option<Ledger>) returns (next: EvaluationPage)
    ensures contract.None? ==> next == page.(error := Some(NotInitialized))
    ensures contract.Some? ==> next == EvaluationPage(
      Pending(ContractServices.Scan(contract.value)),
      ProposalsByTender(contract.value, Pending(ContractServices.Scan(contract.value))),
      page.error)
  {
    var scanned, probes := ContractServices.ScanTenders(contract);
    if scanned.Failure? {
      return page.(error := Some(scanned.error));
    }
    var L := contract.value;
    var pending := Pending(scanned.value);
    var proposals: map<nat, seq<Proposal>> := map[];
    for i := 0 to |pending|
      invariant proposals == ProposalsByTender(L, pending[..i])
    {
      assert pending[..i + 1][..i] == pending[..i];
      var run := ContractServices.ProposalsFor(contract, pending[i].id);
      match run.result {
        case Success(ps) => proposals := proposals[pending[i].id := ps];
        case Failure(_) => proposals := proposals[pending[i].id := []];
      }
    }
    assert pending[..|pending|] == pending;
    return EvaluationPage(pending, proposals, page.error);
  }

  /**
   * `seleccionarGanador` on the page; `outcome` is the ledger's verdict on
   * the submitted write. A confirmed selection is followed by a full reload.
   */
  method SelectWinnerAndReload(page: EvaluationPage, contract: Option<Ledger>, tenderId: nat, proposalId: nat, user: User,
                               outcome: Result<Ledger, Error>) returns (next: EvaluationPage)
    ensures contract.None? ==> next == page.(error := Some(NotInitialized))
    ensures contract.Some? && outcome.Failure? ==> next == page.(error := Some(outcome.error))
    ensures contract.Some? && outcome.Success? ==> next == EvaluationPage(
      Pending(ContractServices.Scan(outcome.value)),
      ProposalsByTender(outcome.value, Pending(ContractServices.Scan(outcome.value))),
      page.error)
  {
    var run := ContractServices.SelectWinner(contract, tenderId, proposalId, user.address);
    if run.result.Failure? {
      return page.(error := Some(run.result.error));
    }
    match outcome {
      case Failure(e) =>
        next := page.(error := Some(e));
      case Success(after) =>
        next := Reload(page, Some(after));
    }
  }
}
