# Public procurement dApp: client layer

This project models the client-side layer of a public-procurement dApp. React pages talk to a
tender smart contract through a service object. The contract is a ledger of tenders
(*licitaciones*), the proposals submitted to each tender (*propuestas*), and an administrator set.
The model covers four parts.

- **Ledger reads.** Tenders are listed by bounded linear probing: ids 1 to 99, empty slots skipped,
  and the scan stops at the first failed read. The administrator list is re-checked address by
  address. "My proposals" are collected across all tenders with a case-insensitive address filter.
- **Client-side guards.** Each write is preceded by local checks: the record exists (a non-zero
  creator), the caller is an administrator or the owner, no self-removal, not already an
  administrator, and the amount is within the budget. A write is submitted only when every check
  passes.
- **Status labels.** A tender's label comes from its deadline and raw status. A proposal's label
  comes from the winner, the viewer and the deadline. The action buttons and the pending-evaluation
  filter depend on these.
- **Event history.** Three event streams are tagged and concatenated, then stably sorted newest
  first. Loading is all-or-nothing.

The ledger is a value (`Records.Ledger`). A map key that is missing means the read call for it
fails. Administrator flags are keyed by the lower-cased address, because the chain's address type
has no letter case. Each guard service that precedes a write, and the page checks in front of it,
returns a `Run`: the calls it made, in order, plus its result. That makes "fails before any ledger
call" and "submits only when every check passes" statable. The three read loops return their
result directly: `ScanTenders` also returns the ids it probed, while `ListAdmins` and
`CollectMyProposals` return only a `Result`. A page is
a datatype holding its React state. A page action receives `outcome`, the ledger's verdict on a
submitted write: the ledger after the write is confirmed, or the rejection. The page then reloads
from that ledger.

Modules: `Wrappers` (Option, Result), `Seqs` (subsequence), `Addresses` (lower-casing, the zero
address), `Records` (records, ledger, calls, errors), `ContractServices`, and one module per page:
`TenderList`, `MyProposals`, `Evaluation`, `History`, `ProposalForm`, `AdminManagement`.

Two behaviours of the code are worth stating up front.
- `obtenerMisPropuestas` aborts as a whole when one tender's proposal read fails. It does not skip
  that tender.
- The history merges three streams only. There is no deletion stream, no timestamp lookup and no
  truncation. Events are ordered by block number alone.

## Model

| member | source | states |
|---|---|---|
| ContractServices.ScanTenders | src/services/contractServices.jsx:5-35 | Without a contract it fails with "not initialised" and probes nothing. Otherwise it probes ids 1, 2, 3, ... consecutively, fewer than 100 of them, never id 0, and returns `Scan` of the ledger. |
| ContractServices.ScanEnd | src/services/contractServices.jsx:15-27 | The probing stops at the first id from which the read fails, or at 100. Every id before that point reads successfully. |
| ContractServices.ScanContents | src/services/contractServices.jsx:18-24 | A tender is listed exactly when some probed id before the stop reads successfully, with a non-zero creator, and the tender is that record with its `id` set to the probe index. |
| ContractServices.ScanOrdered | src/services/contractServices.jsx:12-24 | Listed ids lie in 1..99 and are strictly increasing. |
| ContractServices.ScanStopsAtFirstFailure | src/services/contractServices.jsx:25-30 | Ids after the first failing probe are never looked at. Two ledgers that agree up to the stop give the same list, so the tenders found before a failure are returned unchanged and no error is raised. |
| ContractServices.ListAdmins | src/services/contractServices.jsx:37-62 | No contract gives "not initialised" and a failed enumeration gives a failure. Otherwise the result is `ActiveAdmins` of the enumeration: a failed per-address flag read only skips that address. |
| ContractServices.ActiveAdminsSubseq | src/services/contractServices.jsx:43-57 | The active list keeps enumeration order: it is a subsequence of the lower-cased enumeration. |
| ContractServices.ActiveAdminsMembers | src/services/contractServices.jsx:43-57 | An address is listed exactly when it is the lower-cased form of an enumerated address whose flag reads true. |
| ContractServices.CollectMyProposals | src/services/contractServices.jsx:236-261 | Without a contract it fails with "not initialised". Otherwise it returns `Mine` over the scanned tenders. |
| ContractServices.ProposalsOfFilters | src/services/contractServices.jsx:247-249 | The filter keeps exactly the proposals whose proponent equals the account case-insensitively, in ledger order. |
| ContractServices.MineMembers | src/services/contractServices.jsx:242-256 | An item is collected exactly when it is a matching proposal of a scanned tender, paired with that tender. |
| ContractServices.MineOrdered | src/services/contractServices.jsx:242-256 | When the tenders come in increasing id order, as the scan gives them, the collected items are in non-decreasing tender id order. |
| ContractServices.MineByTender | src/services/contractServices.jsx:245-253 | When the tenders come in increasing id order, each tender's items in a successful aggregation are exactly the account's proposals on it, in ledger order, each paired with that tender. Together with `MineOrdered`, the result is ordered by tender id and then by ledger order. |
| ContractServices.MineFails | src/services/contractServices.jsx:245-258 | The aggregation fails exactly when the proposal read of some scanned tender fails, and then with that call's error. |
| ContractServices.MineFailureSticks | src/services/contractServices.jsx:245-254 | Once a per-tender read fails, later tenders do not change the outcome. |
| ContractServices.CreateTender | src/services/contractServices.jsx:64-77 | The only check is the contract-missing check, made before any call. With a contract it submits exactly the creation write from the account. |
| ContractServices.DeleteTender | src/services/contractServices.jsx:79-104 | It submits only if the tender reads with a non-zero creator and the caller's flag reads true or the caller is the creator, case-insensitively. A zero creator fails with "does not exist" before the permission read. A caller who is neither fails with "no permission" after exactly the tender read and the flag read. A write is submitted only on success. |
| ContractServices.SubmitProposal | src/services/contractServices.jsx:106-119 | The only check is the contract-missing check. With a contract it submits exactly the proposal write with the given amount. |
| ContractServices.FindProposal | src/services/contractServices.jsx:135 | It returns the first proposal with an equal id, or nothing when no proposal has that id. |
| ContractServices.DeleteProposal | src/services/contractServices.jsx:121-154 | It submits only if the tender exists, a proposal with an equal id is found, and the caller is an administrator or the proponent, case-insensitively. The failures come in that order, each before any write. A caller who is neither fails with "no permission" after exactly the three reads. |
| ContractServices.ProposalsFor | src/services/contractServices.jsx:156-167 | No contract gives "not initialised" with no call. Otherwise it makes one read that succeeds exactly when the ledger has the tender's proposals, and then returns them. |
| ContractServices.AddAdmin | src/services/contractServices.jsx:169-191 | Failures in this order: no contract, invalid address (both with no call), then already an administrator after one flag read. It submits exactly when the flag reads false. |
| ContractServices.RemoveAdmin | src/services/contractServices.jsx:193-219 | Failures in this order: no contract, invalid address, self-removal compared case-insensitively (all three with no call), then not an administrator after one flag read. It submits exactly when the flag reads true. |
| ContractServices.SelectWinner | src/services/contractServices.jsx:221-234 | The only check is the contract-missing check. With a contract it submits exactly the winner-selection write. |
| ContractServices.CheckAdmin | src/services/contractServices.jsx:263-277 | No contract, then an invalid address, each fail with no call. Otherwise it succeeds exactly when the flag read succeeds, and returns the flag. |
| TenderList.LabelOf | src/components/ListarLicitaciones.jsx:83-93 | The label is "Cerrada" exactly when the deadline is strictly before the current whole second. Otherwise status 0..4 maps to Creada, Abierta, En Evaluación, Adjudicada or Cancelada, and a larger status has no label. |
| TenderList.DeadlineSecondStillOpen | src/components/ListarLicitaciones.jsx:88 | A deadline equal to the current second is not "Cerrada", and status 1 is then "Abierta". |
| TenderList.DeleteOfferedMatchesService | src/components/ListarLicitaciones.jsx:173-181 | For a stored tender with a non-zero creator, listed with its slot as id, and a session flag that agrees with the ledger's, the service lets the delete through exactly when `puedeEliminar` holds. So an offered delete button never ends in the permission refusal. |
| TenderList.ProposalEnabledExactly | src/components/ListarLicitaciones.jsx:230 | Submitting a proposal is enabled exactly when the status is 1 and the deadline has not passed. Status 0 ("Creada") does not allow it. |
| TenderList.Reload | src/components/ListarLicitaciones.jsx:35-46 | With a contract the page shows `Scan` of the ledger and clears the error. Without one it only sets the error. |
| TenderList.DeleteFromList | src/components/ListarLicitaciones.jsx:48-63 | A failed guard or a rejected write sets the error and keeps the list. A confirmed delete re-fetches the list from the resulting ledger instead of patching it, and clears the error. |
| MyProposals.LabelOf | src/components/MisPropuestas.jsx:88-93 | Exactly one of four labels. "Ganadora" when the winner equals the viewer exactly. Otherwise "No Seleccionada" when there is a winner. Otherwise "Licitación Cerrada" when deadline·1000 < now in milliseconds. Otherwise "En Evaluación". |
| MyProposals.WinnerIgnoresDeadline | src/components/MisPropuestas.jsx:89 | The viewer's own win is "Ganadora" whatever the deadline. |
| MyProposals.WinnerComparedWithCase | src/components/MisPropuestas.jsx:89 | The winner compare is case-sensitive. For any winner that is the viewer's address in another spelling, and so passes the service's case-insensitive filter, the label is "No Seleccionada". |
| MyProposals.ClosedTenderClosesProposal | src/components/MisPropuestas.jsx:91 | When a tender has no winner and is "Cerrada" on the list page, its proposals are "Licitación Cerrada". |
| MyProposals.LabelsDisagreeWithinDeadlineSecond | src/components/MisPropuestas.jsx:91 | Within the deadline's own second, the proposal is already "Licitación Cerrada" while the list page still does not call the tender "Cerrada". This follows from real-valued versus floored division. |
| MyProposals.DeleteOfferedExactly | src/components/MisPropuestas.jsx:188 | Delete is offered exactly when the tender has no winner. |
| MyProposals.Reload | src/components/MisPropuestas.jsx:36-47 | A successful aggregation replaces the items and clears the error. A failed one only sets the error. |
| MyProposals.DeleteFromList | src/components/MisPropuestas.jsx:49-69 | A failed guard or a rejected write sets the error. A confirmed delete re-fetches from the resulting ledger and then clears the error. |
| Evaluation.PendingFilters | src/components/EvaluacionPropuestas.jsx:37-40 | The pending tenders are exactly the scanned tenders whose winner equals the zero address as a string, in scan order. |
| Evaluation.ProposalsByTenderEntries | src/components/EvaluacionPropuestas.jsx:43-54 | Every pending tender has exactly one entry and no other id has one. An entry holds the tender's proposals, or none when their read fails. |
| Evaluation.Reload | src/components/EvaluacionPropuestas.jsx:34-60 | Without a contract it sets the error and assigns nothing. Otherwise it replaces the pending list and the proposals map, filled tender by tender with a per-tender fallback, and leaves the error as it was. |
| Evaluation.SelectWinnerAndReload | src/components/EvaluacionPropuestas.jsx:62-78 | A failed guard or a rejected write sets the error. A confirmed selection is followed by a full reload from the resulting ledger. |
| History.SortSorted | src/components/HistorialTransacciones.jsx:48-64 | The sorted list is non-increasing by block number and a permutation of its input. |
| History.SortStable | src/components/HistorialTransacciones.jsx:64 | For every block, the events of that block keep their input order. |
| History.InsertAtBlock | src/components/HistorialTransacciones.jsx:64 | Inserting an event adds it to its own block's events ahead of the equal-block events already placed, which are the later ones in the input. Other blocks are unchanged. |
| History.MergeSpec | src/components/HistorialTransacciones.jsx:33-66 | The merged history has the three lengths' sum and is non-increasing by block. It is a permutation of the three tagged streams concatenated, each block in concatenation order, and every event carries one of the three kind labels. |
| History.Tag | src/components/HistorialTransacciones.jsx:48-63 | Tagging keeps each event's return values, hash and block, adds the stream's kind, and keeps length and order. |
| History.Load | src/components/HistorialTransacciones.jsx:30-73 | Any failed stream sets the error and leaves the shown events unchanged. When all three succeed the events become the merged history and the error is left as it was. |
| History.DetailsOf | src/components/HistorialTransacciones.jsx:75-106 | The address and id fields are picked by kind: creador/id, proponente/propuestaId, ganador/licitacionId. A created tender's title is its non-empty `titulo`, otherwise "Nueva Licitación". The other two titles are "Propuesta para Licitación #" and "Ganador Licitación #" followed by `licitacionId`, or "undefined" when it is absent. An unknown kind gives "Evento Desconocido" with empty address and id. |
| History.MergedDetailsByKind | src/components/HistorialTransacciones.jsx:75-98 | No merged event falls to the unknown-kind branch. Each row shows its own kind's address and id fields. |
| ProposalForm.LoadTender | src/components/EnviarPropuesta.jsx:33-50 | A tender with the zero creator is reported as missing and not stored. A failed read or a missing contract sets the error. Only an existing tender is stored, and then the error is left alone. |
| ProposalForm.SubmitForm | src/components/EnviarPropuesta.jsx:52-85 | Failures in this order, all before any call: no contract or no user, an unreadable amount, no loaded tender, an amount strictly above the loaded budget ("exceeds budget"). It submits exactly when all checks pass. |
| ProposalForm.AfterSubmit | src/components/EnviarPropuesta.jsx:77-84 | The error is clear exactly when the checks passed and the write was confirmed. A failed check shows its own error. The loaded tender is kept. |
| ProposalForm.BudgetIsInclusive | src/components/EnviarPropuesta.jsx:66 | An amount equal to the budget passes. One wei more fails with "exceeds budget". |
| ProposalForm.NegativeAmountPasses | src/components/EnviarPropuesta.jsx:64-68 | A negative converted amount passes the budget check. |
| ProposalForm.SubmittedWithinLoadedBudget | src/components/EnviarPropuesta.jsx:64-76 | A submission makes exactly one call, the proposal write, and its amount is within the loaded tender's budget. |
| AdminManagement.LoadAdmins | src/components/GestionAdministradores.jsx:37-61 | It clears the error, lists the administrators through the service, then re-reads every flag in its own calls, which see the ledger `recheck`. Any failure, with no per-address catch, gives the fixed error and `[Lower(user.address)]` for an administrator. It is proved against `Loaded`. |
| AdminManagement.ReverifiedFails | src/components/GestionAdministradores.jsx:43-50 | The page's pass fails exactly when one of its flag reads fails. |
| AdminManagement.ReverifiedFilters | src/components/GestionAdministradores.jsx:43-50 | A pass that succeeds keeps exactly the service's own filter of the list. |
| AdminManagement.SnapshotReverifies | src/components/GestionAdministradores.jsx:41-50 | When both passes see one ledger state, the second pass returns the service's list unchanged. |
| AdminManagement.LoadShowsActiveAdmins | src/components/GestionAdministradores.jsx:37-61 | When the page's pass sees the same ledger as the service and the enumeration can be read, the page shows the lower-cased administrators in enumeration order and clears the error. |
| AdminManagement.LoadWithChangedFlags | src/components/GestionAdministradores.jsx:43-51 | When flags changed between the two passes but every page read succeeds, the page shows the service's addresses whose flag still reads true, in the service's order, and clears the error. |
| AdminManagement.FallbackShowsSelf | src/components/GestionAdministradores.jsx:52-57 | The catch block runs exactly on a missing contract, a failed enumeration, or any failed flag read of the page's own pass. It then sets the fixed error. An administrator then sees exactly their own lower-cased address, and anyone else keeps the previous list. |
| AdminManagement.AddAdminAction | src/components/GestionAdministradores.jsx:63-85 | A blank input does nothing. An invalid address fails before any call. Otherwise the service's calls are made. A confirmed write clears the input, shows success and reloads the list from the resulting ledger, with the reload's own flag reads seeing `recheck`. |
| AdminManagement.RemoveAdminAction | src/components/GestionAdministradores.jsx:87-109 | The user's own address, in any letter case, is refused before any call. Otherwise the service's calls are made. A confirmed write shows success and reloads the list. |
| AdminManagement.RemoveOfferedPassesSelfCheck | src/components/GestionAdministradores.jsx:242 | The remove button is offered exactly for addresses other than the user's own, compared case-insensitively. It is never offered for the user's own address. When it is offered for a valid address, the service gets past the self check to its flag read. |

## Left out

- Wallet connection, Web3 initialisation and the contract ABI (`AuthContext`) are not part of this model. A contract is `Option<Ledger>` and the user is `Option<User>`.
- Routing, JSX, styling, icons, `window.confirm`, `alert`, navigation, and the loading flags are presentation. Confirmation dialogs are taken as accepted.
- `Web3.utils.isAddress` is the parameter `isAddress`. `toWei` is the converted amount `amountWei: Option<int>`. `Date.now()` is `nowMs`. `fromWei` and date formatting are not modelled.
- The ledger's own enforcement, gas, receipts and confirmation are the opaque `outcome` of a write.
- `Promise.all` runs the three history fetches in parallel. The model combines them in fetch order, so when several fail, the first one's error is shown.
- The tender creation page only converts units and forwards the call. Only its service, `CreateTender`, is modelled.
- `Addresses.Lower` lower-cases ASCII letters only. Addresses are hexadecimal, so this matches for every valid address. `IsSpace` covers ASCII whitespace only, not all of `trim()`'s Unicode whitespace.
- `Number(...)` conversions of block numbers and deadlines are taken as exact naturals. Precision loss above 2^53 is not modelled.
- `ContractServices.FindProposal`: ids are compared as numbers. The source uses strict equality between a decoded call value and the page's id. Whether those have the same JavaScript type depends on web3's decoding, which is not part of this model.
- `getEstadoLicitacion`'s catch branch ("Estado desconocido") is unreachable for natural inputs and is not modelled.
- `ProposalForm.LoadTender`: the error banner is not cleared on a successful load, matching the code. The message text is not modelled.
- `AdminManagement.LoadAdmins`: the fixed banner text on failure is the error `CallFailed`.
- `verificarAdmin` (`CheckAdmin`) is modelled, but the login flow that calls it is left out.
- The user-page redirect of non-administrators away from the administrator page is navigation and is left out.
