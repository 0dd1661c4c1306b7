/**
 * The service layer between the pages and the tender contract
 * (`contractServices`): bounded enumeration of tenders, the re-verified
 * administrator list, the per-account proposal aggregation, and the guard
 * sequences that run before each write.
 */
module ContractServices {
  import opened Wrappers
  import opened Addresses
  import opened Records
  import opened Seqs

  /** Tender ids are probed while `index < 100`. */
  const SCAN_BOUND: nat := 100

  // ---------------------------------------------------------------------------
  // obtenerLicitaciones: bounded linear probing
  // ---------------------------------------------------------------------------

  /** The first id at or after `i` whose read fails, or the bound when every read below it succeeds. */
  function ScanEnd(L: Ledger, i: nat): (e: nat)
    requires 1 <= i <= SCAN_BOUND
    ensures i <= e <= SCAN_BOUND
    ensures forall j :: i <= j < e ==> j in L.tenders
    ensures e < SCAN_BOUND ==> e !in L.tenders
    decreases SCAN_BOUND - i
  {
    if i == SCAN_BOUND || i !in L.tenders then i else ScanEnd(L, i + 1)
  }

  /** What a successful probe of id `i` contributes: the record with its `id` set to `i`, unless its creator is ZERO. */
  function Kept(L: Ledger, i: nat): seq<Tender>
  {
    match L.ReadTender(i)
    case Some(t) => if t.creator != ZERO then [t.(id := i)] else []
    case None => []
  }

  /** The tenders collected from probing ids 1 .. n - 1. */
  function Collected(L: Ledger, n: nat): seq<Tender>
    decreases n
  {
    if n <= 1 then [] else Collected(L, n - 1) + Kept(L, n - 1)
  }

  /** The list `obtenerLicitaciones` returns for a connected contract. */
  function Scan(L: Ledger): seq<Tender>
  {
    Collected(L, ScanEnd(L, 1))
  }

  /** How many ids the scan probes: up to and including the first failing one, or all of 1 .. 99. */
  function ProbeCount(L: Ledger): nat
  {
    var e := ScanEnd(L, 1);
    if e < SCAN_BOUND then e else SCAN_BOUND - 1
  }

  /** Probing id `i` yields `t`: the slot exists, its creator is not ZERO, and `t` is it with `id == i`. */
  ghost predicate Listed(L: Ledger, i: nat, t: Tender)
  {
    1 <= i && i in L.tenders && L.tenders[i].creator != ZERO && t == L.tenders[i].(id := i)
  }

  lemma {:induction false} CollectedMembers(L: Ledger, n: nat)
    ensures forall t :: t in Collected(L, n) <==> exists i :: 1 <= i < n && Listed(L, i, t)
    decreases n
  {
    if n > 1 {
      CollectedMembers(L, n - 1);
      forall t
        ensures t in Collected(L, n) <==> exists i :: 1 <= i < n && Listed(L, i, t)
      {
        if t in Kept(L, n - 1) {
          assert Listed(L, n - 1, t);
        }
        if Listed(L, n - 1, t) {
          assert t in Kept(L, n - 1);
        }
      }
    }
  }

  lemma {:induction false} CollectedOrdered(L: Ledger, n: nat)
    ensures forall k :: 0 <= k < |Collected(L, n)| ==> 1 <= Collected(L, n)[k].id < n
    ensures forall a, b :: 0 <= a < b < |Collected(L, n)| ==> Collected(L, n)[a].id < Collected(L, n)[b].id
    decreases n
  {
    if n > 1 {
      CollectedOrdered(L, n - 1);
    }
  }

  lemma {:induction false} CollectedAgree(L1: Ledger, L2: Ledger, n: nat)
    requires forall j :: 1 <= j < n ==> L1.ReadTender(j) == L2.ReadTender(j)
    ensures Collected(L1, n) == Collected(L2, n)
    decreases n
  {
    if n > 1 {
      CollectedAgree(L1, L2, n - 1);
    }
  }

  /** A first failing id found any other way is the one `ScanEnd` gives. */
  lemma ScanEndFrom(L: Ledger, i: nat, e: nat)
    requires 1 <= i <= e <= SCAN_BOUND
    requires forall j :: i <= j < e ==> j in L.tenders
    requires e < SCAN_BOUND ==> e !in L.tenders
    ensures ScanEnd(L, i) == e
  {
  }

  /** The scan returns exactly the tenders of the probed ids before the first failure whose creator is not ZERO, each with `id` set to its probe index. */
  lemma ScanContents(L: Ledger)
    ensures forall t :: t in Scan(L) <==> exists i :: 1 <= i < ScanEnd(L, 1) && Listed(L, i, t)
  {
    CollectedMembers(L, ScanEnd(L, 1));
  }

  /** The scan lists tenders in strictly ascending id order, every id in 1 .. 99. */
  lemma ScanOrdered(L: Ledger)
    ensures forall k :: 0 <= k < |Scan(L)| ==> 1 <= Scan(L)[k].id < SCAN_BOUND
    ensures forall a, b :: 0 <= a < b < |Scan(L)| ==> Scan(L)[a].id < Scan(L)[b].id
  {
    CollectedOrdered(L, ScanEnd(L, 1));
  }

  /** Nothing after the first failing probe is ever seen: two ledgers that agree up to and including it scan alike. */
  lemma ScanStopsAtFirstFailure(L1: Ledger, L2: Ledger)
    requires forall j :: 1 <= j <= ScanEnd(L1, 1) && j < SCAN_BOUND ==> L1.ReadTender(j) == L2.ReadTender(j)
    ensures ScanEnd(L2, 1) == ScanEnd(L1, 1)
    ensures Scan(L2) == Scan(L1)
  {
    var e := ScanEnd(L1, 1);
    forall j | 1 <= j < e
      ensures j in L2.tenders
    {
      assert L1.ReadTender(j) == L2.ReadTender(j);
    }
    if e < SCAN_BOUND {
      assert L1.ReadTender(e) == L2.ReadTender(e);
    }
    ScanEndFrom(L2, 1, e);
    CollectedAgree(L1, L2, e);
  }

  /**
   * `obtenerLicitaciones(contract)`. `probes` lists the ids passed to
   * `licitaciones(index)`, in order.
   */
  method ScanTenders(contract: Option<Ledger>) returns (r: Result<seq<Tender>, Error>, probes: seq<nat>)
    ensures contract.None? ==> r == Failure(NotInitialized) && probes == []
    ensures contract.Some? ==> r == Success(Scan(contract.value))
    ensures contract.Some? ==> |probes| == ProbeCount(contract.value)
    ensures forall k :: 0 <= k < |probes| ==> probes[k] == k + 1
    ensures |probes| < SCAN_BOUND
  {
    if contract.None? {
      return Failure(NotInitialized), [];
    }
    var L := contract.value;
    var found: seq<Tender> := [];
    var index: nat := 1;
    var going := true;
    probes := [];
    while going && index < SCAN_BOUND
      invariant 1 <= index <= SCAN_BOUND
      invariant forall j :: 1 <= j < index ==> j in L.tenders
      invariant !going ==> index < SCAN_BOUND && index !in L.tenders
      invariant found == Collected(L, index)
      invariant |probes| == if going then index - 1 else index
      invariant forall k :: 0 <= k < |probes| ==> probes[k] == k + 1
      decreases SCAN_BOUND - index, if going then 1 else 0
    {
      probes := probes + [index];
      match L.ReadTender(index) {
        case Some(t) =>
          if t.creator != ZERO {
            found := found + [t.(id := index)];
          }
          index := index + 1;
        case None =>
          going := false;
      }
    }
    ScanEndFrom(L, 1, index);
    return Success(found), probes;
  }

  // ---------------------------------------------------------------------------
  // obtenerAdministradores: enumeration re-verified against the per-address flag
  // ---------------------------------------------------------------------------

  function LowerAll(list: seq<Address>): (r: seq<Address>)
    ensures |r| == |list|
    ensures forall i :: 0 <= i < |list| ==> r[i] == Lower(list[i])
  {
    seq(|list|, i requires 0 <= i < |list| => Lower(list[i]))
  }

  /** What checking one enumerated address contributes; a failed flag read contributes nothing. */
  function AdminEntry(L: Ledger, a: Address): seq<Address>
  {
    if L.ReadAdminFlag(a) == Some(true) then [Lower(a)] else []
  }

  /** The enumerated addresses whose flag reads true, lower-cased, in enumeration order. */
  function ActiveAdmins(L: Ledger, list: seq<Address>): seq<Address>
    decreases |list|
  {
    if list == [] then [] else ActiveAdmins(L, list[..|list| - 1]) + AdminEntry(L, list[|list| - 1])
  }

  /** The active list keeps enumeration order: it is a subsequence of the lower-cased enumeration. */
  lemma {:induction false} ActiveAdminsSubseq(L: Ledger, list: seq<Address>)
    ensures Subseq(ActiveAdmins(L, list), LowerAll(list))
    decreases |list|
  {
    if list != [] {
      var init, x := list[..|list| - 1], list[|list| - 1];
      ActiveAdminsSubseq(L, init);
      assert LowerAll(list) == LowerAll(init) + [Lower(x)];
      if L.ReadAdminFlag(x) == Some(true) {
        SubseqKeep(ActiveAdmins(L, init), LowerAll(init), Lower(x));
      } else {
        assert AdminEntry(L, x) == [];
        assert ActiveAdmins(L, list) == ActiveAdmins(L, init);
        SubseqSkip(ActiveAdmins(L, init), LowerAll(init), Lower(x));
      }
    }
  }

  /** An address is listed exactly when some enumerated spelling of it has its flag read as true. */
  lemma {:induction false} ActiveAdminsMembers(L: Ledger, list: seq<Address>)
    ensures forall a :: a in ActiveAdmins(L, list) <==>
      exists i :: 0 <= i < |list| && L.ReadAdminFlag(list[i]) == Some(true) && a == Lower(list[i])
    decreases |list|
  {
    if list != [] {
      var init := list[..|list| - 1];
      ActiveAdminsMembers(L, init);
      forall a
        ensures a in ActiveAdmins(L, list) <==>
          exists i :: 0 <= i < |list| && L.ReadAdminFlag(list[i]) == Some(true) && a == Lower(list[i])
      {
        if exists i :: 0 <= i < |list| && L.ReadAdminFlag(list[i]) == Some(true) && a == Lower(list[i]) {
          var i :| 0 <= i < |list| && L.ReadAdminFlag(list[i]) == Some(true) && a == Lower(list[i]);
          if i < |init| {
            assert init[i] == list[i];
          }
        }
        if a in ActiveAdmins(L, init) {
          var i :| 0 <= i < |init| && L.ReadAdminFlag(init[i]) == Some(true) && a == Lower(init[i]);
          assert list[i] == init[i];
        }
      }
    }
  }

  /** `obtenerAdministradores(contract)` */
  method ListAdmins(contract: Option<Ledger>) returns (r: Result<seq<Address>, Error>)
    ensures contract.None? ==> r == Failure(NotInitialized)
    ensures contract.Some? && contract.value.adminList.None? ==> r == Failure(CallFailed)
    ensures contract.Some? && contract.value.adminList.Some? ==>
      r == Success(ActiveAdmins(contract.value, contract.value.adminList.value))
  {
    if contract.None? {
      return Failure(NotInitialized);
    }
    var L := contract.value;
    if L.adminList.None? {
      return Failure(CallFailed);
    }
    var list := L.adminList.value;
    var active: seq<Address> := [];
    for i := 0 to |list|
      invariant active == ActiveAdmins(L, list[..i])
    {
      assert list[..i + 1][..i] == list[..i];
      match L.ReadAdminFlag(list[i]) {
        case Some(isAdmin) =>
          if isAdmin {
            active := active + [Lower(list[i])];
          }
        case None =>
          // the failed check is logged and the address skipped
      }
    }
    assert list[..|list|] == list;
    return Success(active);
  }

  // ---------------------------------------------------------------------------
  // obtenerMisPropuestas: proposals of one account across all tenders
  // ---------------------------------------------------------------------------

  /** A proposal paired with its tender (`{ ...p, licitacion }`). */
  datatype Owned = Owned(proposal: Proposal, tender: Tender)

  /** The proposals whose proponent is `account`, addresses compared without case, in ledger order. */
  function ProposalsOf(ps: seq<Proposal>, account: Address): seq<Proposal>
    decreases |ps|
  {
    if ps == [] then []
    else
      var last := ps[|ps| - 1];
      ProposalsOf(ps[..|ps| - 1], account) + (if SameAddress(last.proponent, account) then [last] else [])
  }

  function PairWith(ps: seq<Proposal>, t: Tender): (r: seq<Owned>)
    ensures |r| == |ps|
    ensures forall i :: 0 <= i < |ps| ==> r[i] == Owned(ps[i], t)
  {
    seq(|ps|, i requires 0 <= i < |ps| => Owned(ps[i], t))
  }

  /** The aggregation over the tenders `ts`: it fails as soon as one tender's proposals cannot be read. */
  function Mine(L: Ledger, ts: seq<Tender>, account: Address): Result<seq<Owned>, Error>
    decreases |ts|
  {
    if ts == [] then Success([])
    else
      match Mine(L, ts[..|ts| - 1], account)
      case Failure(e) => Failure(e)
      case Success(acc) =>
        match L.ReadProposals(ts[|ts| - 1].id)
        case None => Failure(CallFailed)
        case Some(ps) => Success(acc + PairWith(ProposalsOf(ps, account), ts[|ts| - 1]))
  }

  /** The account's proposals keep the ledger's order and are exactly those it proposed. */
  lemma {:induction false} ProposalsOfFilters(ps: seq<Proposal>, account: Address)
    ensures Subseq(ProposalsOf(ps, account), ps)
    ensures forall p :: p in ProposalsOf(ps, account) <==> p in ps && SameAddress(p.proponent, account)
    decreases |ps|
  {
    if ps != [] {
      var init, x := ps[..|ps| - 1], ps[|ps| - 1];
      ProposalsOfFilters(init, account);
      assert ps == init + [x];
      if SameAddress(x.proponent, account) {
        SubseqKeep(ProposalsOf(init, account), init, x);
      } else {
        assert ProposalsOf(ps, account) == ProposalsOf(init, account);
        SubseqSkip(ProposalsOf(init, account), init, x);
      }
    }
  }

  /** The whole aggregation fails exactly when some tender's proposal read fails. */
  lemma {:induction false} MineFails(L: Ledger, ts: seq<Tender>, account: Address)
    ensures Mine(L, ts, account).Failure? <==> exists i :: 0 <= i < |ts| && ts[i].id !in L.proposals
    ensures Mine(L, ts, account).Failure? ==> Mine(L, ts, account).error == CallFailed
    decreases |ts|
  {
    if ts != [] {
      var init := ts[..|ts| - 1];
      MineFails(L, init, account);
      if exists i :: 0 <= i < |init| && init[i].id !in L.proposals {
        var i :| 0 <= i < |init| && init[i].id !in L.proposals;
        assert ts[i] == init[i];
      }
      if exists i :: 0 <= i < |ts| && ts[i].id !in L.proposals {
        var i :| 0 <= i < |ts| && ts[i].id !in L.proposals;
        if i < |init| {
          assert init[i] == ts[i];
        }
      }
    }
  }

  /** `o` is one of the account's proposals on tender `t`, paired with `t`. */
  ghost predicate Belongs(L: Ledger, t: Tender, account: Address, o: Owned)
  {
    o.tender == t && t.id in L.proposals && o.proposal in L.proposals[t.id]
    && SameAddress(o.proposal.proponent, account)
  }

  lemma PairedMembers(L: Ledger, t: Tender, account: Address)
    requires t.id in L.proposals
    ensures forall o :: o in PairWith(ProposalsOf(L.proposals[t.id], account), t) <==> Belongs(L, t, account, o)
  {
    var mine := ProposalsOf(L.proposals[t.id], account);
    ProposalsOfFilters(L.proposals[t.id], account);
    forall o | Belongs(L, t, account, o)
      ensures o in PairWith(mine, t)
    {
      var k :| 0 <= k < |mine| && mine[k] == o.proposal;
      assert PairWith(mine, t)[k] == o;
    }
  }

  /** A successful aggregation holds exactly the account's proposals, each paired with its own tender. */
  lemma {:induction false} MineMembers(L: Ledger, ts: seq<Tender>, account: Address)
    requires Mine(L, ts, account).Success?
    ensures forall o :: o in Mine(L, ts, account).value <==> exists i :: 0 <= i < |ts| && Belongs(L, ts[i], account, o)
    decreases |ts|
  {
    if ts != [] {
      var init, t := ts[..|ts| - 1], ts[|ts| - 1];
      MineMembers(L, init, account);
      PairedMembers(L, t, account);
      forall o
        ensures o in Mine(L, ts, account).value <==> exists i :: 0 <= i < |ts| && Belongs(L, ts[i], account, o)
      {
        if exists i :: 0 <= i < |ts| && Belongs(L, ts[i], account, o) {
          var i :| 0 <= i < |ts| && Belongs(L, ts[i], account, o);
          if i < |init| {
            assert init[i] == ts[i];
          }
        }
        if exists i :: 0 <= i < |init| && Belongs(L, init[i], account, o) {
          var i :| 0 <= i < |init| && Belongs(L, init[i], account, o);
          assert ts[i] == init[i];
        }
      }
    }
  }

  /** Over tenders in ascending id order, the aggregation is ordered by tender id. */
  lemma {:induction false} MineOrdered(L: Ledger, ts: seq<Tender>, account: Address)
    requires forall a, b :: 0 <= a < b < |ts| ==> ts[a].id < ts[b].id
    requires Mine(L, ts, account).Success?
    ensures forall a, b :: 0 <= a < b < |Mine(L, ts, account).value| ==>
      Mine(L, ts, account).value[a].tender.id <= Mine(L, ts, account).value[b].tender.id
    decreases |ts|
  {
    if ts != [] {
      var init, t := ts[..|ts| - 1], ts[|ts| - 1];
      MineOrdered(L, init, account);
      MineMembers(L, init, account);
      var acc := Mine(L, init, account).value;
      var r := Mine(L, ts, account).value;
      var tail := PairWith(ProposalsOf(L.proposals[t.id], account), t);
      assert r == acc + tail;
      forall a, b | 0 <= a < b < |r|
        ensures r[a].tender.id <= r[b].tender.id
      {
        if b >= |acc| {
          assert r[b] == tail[b - |acc|];
          if a < |acc| {
            assert r[a] in acc;
            var i :| 0 <= i < |init| && Belongs(L, init[i], account, r[a]);
            assert init[i] == ts[i];
          } else {
            assert r[a] == tail[a - |acc|];
          }
        } else {
          assert r[a] == acc[a] && r[b] == acc[b];
        }
      }
    }
  }

  /** The items of `os` paired with tender `t`, in their order in `os`. */
  function OfTender(os: seq<Owned>, t: Tender): seq<Owned>
    decreases |os|
  {
    if os == [] then []
    else
      var last := os[|os| - 1];
      OfTender(os[..|os| - 1], t) + (if last.tender == t then [last] else [])
  }

  lemma {:induction false} OfTenderConcat(a: seq<Owned>, b: seq<Owned>, t: Tender)
    ensures OfTender(a + b, t) == OfTender(a, t) + OfTender(b, t)
    decreases |b|
  {
    if b != [] {
      var init := b[..|b| - 1];
      OfTenderConcat(a, init, t);
      assert (a + b)[..|a + b| - 1] == a + init;
    } else {
      assert a + b == a;
    }
  }

  lemma {:induction false} OfTenderPaired(ps: seq<Proposal>, u: Tender, t: Tender)
    ensures OfTender(PairWith(ps, u), t) == if u == t then PairWith(ps, u) else []
    decreases |ps|
  {
    if ps != [] {
      var init := ps[..|ps| - 1];
      OfTenderPaired(init, u, t);
      assert PairWith(ps, u)[..|ps| - 1] == PairWith(init, u);
    }
  }

  lemma {:induction false} OfTenderAbsent(os: seq<Owned>, t: Tender)
    requires forall o :: o in os ==> o.tender != t
    ensures OfTender(os, t) == []
    decreases |os|
  {
    if os != [] {
      OfTenderAbsent(os[..|os| - 1], t);
    }
  }

  /**
   * Over tenders in ascending id order, each tender's items in a successful
   * aggregation are exactly the account's proposals on it, in ledger order,
   * each paired with that tender: the items form one block per tender.
   */
  lemma {:induction false} MineByTender(L: Ledger, ts: seq<Tender>, account: Address, k: nat)
    requires forall a, b :: 0 <= a < b < |ts| ==> ts[a].id < ts[b].id
    requires Mine(L, ts, account).Success? && k < |ts|
    ensures ts[k].id in L.proposals
    ensures OfTender(Mine(L, ts, account).value, ts[k]) == PairWith(ProposalsOf(L.proposals[ts[k].id], account), ts[k])
    decreases |ts|
  {
    var init, t := ts[..|ts| - 1], ts[|ts| - 1];
    assert Mine(L, init, account).Success?;
    var acc := Mine(L, init, account).value;
    var tail := PairWith(ProposalsOf(L.proposals[t.id], account), t);
    assert Mine(L, ts, account).value == acc + tail;
    OfTenderConcat(acc, tail, ts[k]);
    OfTenderPaired(ProposalsOf(L.proposals[t.id], account), t, ts[k]);
    if k == |ts| - 1 {
      MineMembers(L, init, account);
      forall o | o in acc
        ensures o.tender != t
      {
        var i :| 0 <= i < |init| && Belongs(L, init[i], account, o);
        assert init[i] == ts[i];
      }
      OfTenderAbsent(acc, t);
    } else {
      assert init[k] == ts[k];
      MineByTender(L, init, account, k);
      assert ts[k].id < t.id;
    }
  }

  lemma {:induction false} MineFailureSticks(L: Ledger, ts: seq<Tender>, k: nat, account: Address)
    requires k <= |ts| && Mine(L, ts[..k], account).Failure?
    ensures Mine(L, ts, account) == Mine(L, ts[..k], account)
    decreases |ts| - k
  {
    if k < |ts| {
      assert ts[..k + 1][..k] == ts[..k];
      MineFailureSticks(L, ts, k + 1, account);
    } else {
      assert ts[..k] == ts;
    }
  }

  /** `obtenerMisPropuestas(contract, account)` */
  method CollectMyProposals(contract: Option<Ledger>, account: Address) returns (r: Result<seq<Owned>, Error>)
    ensures contract.None? ==> r == Failure(NotInitialized)
    ensures contract.Some? ==> r == Mine(contract.value, Scan(contract.value), account)
  {
    if contract.None? {
      return Failure(NotInitialized);
    }
    var L := contract.value;
    var scanned, probes := ScanTenders(contract);
    var ts := scanned.value;
    var mine: seq<Owned> := [];
    for i := 0 to |ts|
      invariant Mine(L, ts[..i], account) == Success(mine)
    {
      assert ts[..i + 1][..i] == ts[..i];
      match L.ReadProposals(ts[i].id) {
        case None =>
          MineFailureSticks(L, ts, i + 1, account);
          return Failure(CallFailed);
        case Some(ps) =>
          mine := mine + PairWith(ProposalsOf(ps, account), ts[i]);
      }
    }
    assert ts[..|ts|] == ts;
    return Success(mine);
  }

  // ---------------------------------------------------------------------------
  // Writes and the guard sequences that run before them
  // ---------------------------------------------------------------------------

  /** `crearLicitacion(contract, titulo, descripcion, presupuesto, fechaLimite, account)` */
  function CreateTender(contract: Option<Ledger>, title: string, description: string, budget: nat, deadline: nat, account: Address): (r: Run<Write>)
    ensures SubmitsOnlyOnSuccess(r)
    ensures contract.None? ==> r == Run([], Failure(NotInitialized))
    ensures r.result.Success? <==> contract.Some?
    ensures r.result.Success? ==> r.result.value == Write(CrearLicitacion(title, description, budget, deadline), account)
  {
    if contract.None? then Run([], Failure(NotInitialized))
    else
      var w := Write(CrearLicitacion(title, description, budget, deadline), account);
      Run([Submit(w)], Success(w))
  }

  /** `eliminarLicitacion(contract, licitacionId, account)` */
  function DeleteTender(contract: Option<Ledger>, id: nat, account: Address): (r: Run<Write>)
    ensures SubmitsOnlyOnSuccess(r)
    ensures contract.None? ==> r == Run([], Failure(NotInitialized))
    ensures r.result.Success? <==>
      && contract.Some?
      && contract.value.ReadTender(id).Some?
      && contract.value.ReadTender(id).value.creator != ZERO
      && contract.value.ReadAdminFlag(account).Some?
      && MayDelete(contract.value.ReadAdminFlag(account).value, contract.value.ReadTender(id).value.creator, account)
    ensures r.result.Success? ==> r.result.value == Write(EliminarLicitacion(id), account)
    // existence is settled before the permission flag is read
    ensures contract.Some? && contract.value.ReadTender(id).Some? && contract.value.ReadTender(id).value.creator == ZERO ==>
      r == Run([ReadTenderCall(id)], Failure(TenderMissing))
    // neither an administrator nor the creator: refused after the two reads
    ensures (&& contract.Some?
             && contract.value.ReadTender(id).Some?
             && contract.value.ReadTender(id).value.creator != ZERO
             && contract.value.ReadAdminFlag(account) == Some(false)
             && !SameAddress(contract.value.ReadTender(id).value.creator, account)) ==>
      r == Run([ReadTenderCall(id), ReadAdminFlagCall(account)], Failure(NotPermitted))
  {
    match contract
    case None => Run([], Failure(NotInitialized))
    case Some(L) =>
      var read := [ReadTenderCall(id)];
      match L.ReadTender(id)
      case None => Run(read, Failure(CallFailed))
      case Some(t) =>
        if t.creator == ZERO then Run(read, Failure(TenderMissing))
        else
          var checked := read + [ReadAdminFlagCall(account)];
          match L.ReadAdminFlag(account)
          case None => Run(checked, Failure(CallFailed))
          case Some(isAdmin) =>
            if !isAdmin && Lower(t.creator) != Lower(account) then Run(checked, Failure(NotPermitted))
            else
              var w := Write(EliminarLicitacion(id), account);
              Run(checked + [Submit(w)], Success(w))
  }

  /** `enviarPropuesta(contract, licitacionId, descripcion, montoPropuesto, account)` */
  function SubmitProposal(contract: Option<Ledger>, tenderId: nat, description: string, amount: int, account: Address): (r: Run<Write>)
    ensures SubmitsOnlyOnSuccess(r)
    ensures contract.None? ==> r == Run([], Failure(NotInitialized))
    ensures r.result.Success? <==> contract.Some?
    ensures r.result.Success? ==> r.result.value == Write(EnviarPropuesta(tenderId, description, amount), account)
  {
    if contract.None? then Run([], Failure(NotInitialized))
    else
      var w := Write(EnviarPropuesta(tenderId, description, amount), account);
      Run([Submit(w)], Success(w))
  }

  /** `propuestas.find(p => p.id === propuestaId)`: the first proposal with that id. */
  function FindProposal(ps: seq<Proposal>, id: nat): (r: Option<Proposal>)
    ensures r.None? <==> forall p :: p in ps ==> p.id != id
    ensures r.Some? ==>
      exists k :: 0 <= k < |ps| && ps[k] == r.value && r.value.id == id && (forall j :: 0 <= j < k ==> ps[j].id != id)
    decreases |ps|
  {
    if ps == [] then None
    else if ps[0].id == id then Some(ps[0])
    else
      var r := FindProposal(ps[1..], id);
      assert forall p :: p in ps ==> p == ps[0] || p in ps[1..];
      r
  }

  /** `eliminarPropuesta(contract, licitacionId, propuestaId, account)` */
  function DeleteProposal(contract: Option<Ledger>, tenderId: nat, proposalId: nat, account: Address): (r: Run<Write>)
    ensures SubmitsOnlyOnSuccess(r)
    ensures contract.None? ==> r == Run([], Failure(NotInitialized))
    ensures r.result.Success? <==>
      && contract.Some?
      && contract.value.ReadTender(tenderId).Some?
      && contract.value.ReadTender(tenderId).value.creator != ZERO
      && contract.value.ReadProposals(tenderId).Some?
      && FindProposal(contract.value.ReadProposals(tenderId).value, proposalId).Some?
      && contract.value.ReadAdminFlag(account).Some?
      && MayDelete(contract.value.ReadAdminFlag(account).value,
                   FindProposal(contract.value.ReadProposals(tenderId).value, proposalId).value.proponent, account)
    ensures r.result.Success? ==> r.result.value == Write(EliminarPropuesta(tenderId, proposalId), account)
    // the tender's existence is settled before its proposals are read
    ensures contract.Some? && contract.value.ReadTender(tenderId).Some? && contract.value.ReadTender(tenderId).value.creator == ZERO ==>
      r == Run([ReadTenderCall(tenderId)], Failure(TenderMissing))
    // and the proposal's before the permission flag is read
    ensures (&& contract.Some?
             && contract.value.ReadTender(tenderId).Some?
             && contract.value.ReadTender(tenderId).value.creator != ZERO
             && contract.value.ReadProposals(tenderId).Some?
             && (forall p :: p in contract.value.ReadProposals(tenderId).value ==> p.id != proposalId)) ==>
      r == Run([ReadTenderCall(tenderId), ReadProposalsCall(tenderId)], Failure(ProposalMissing))
    // neither an administrator nor the proponent: refused after the three reads
    ensures (&& contract.Some?
             && contract.value.ReadTender(tenderId).Some?
             && contract.value.ReadTender(tenderId).value.creator != ZERO
             && contract.value.ReadProposals(tenderId).Some?
             && FindProposal(contract.value.ReadProposals(tenderId).value, proposalId).Some?
             && contract.value.ReadAdminFlag(account) == Some(false)
             && !SameAddress(FindProposal(contract.value.ReadProposals(tenderId).value, proposalId).value.proponent, account)) ==>
      r == Run([ReadTenderCall(tenderId), ReadProposalsCall(tenderId), ReadAdminFlagCall(account)], Failure(NotPermitted))
  {
    match contract
    case None => Run([], Failure(NotInitialized))
    case Some(L) =>
      var c1 := [ReadTenderCall(tenderId)];
      match L.ReadTender(tenderId)
      case None => Run(c1, Failure(CallFailed))
      case Some(t) =>
        if t.creator == ZERO then Run(c1, Failure(TenderMissing))
        else
          var c2 := c1 + [ReadProposalsCall(tenderId)];
          match L.ReadProposals(tenderId)
          case None => Run(c2, Failure(CallFailed))
          case Some(ps) =>
            match FindProposal(ps, proposalId)
            case None => Run(c2, Failure(ProposalMissing))
            case Some(p) =>
              var c3 := c2 + [ReadAdminFlagCall(account)];
              match L.ReadAdminFlag(account)
              case None => Run(c3, Failure(CallFailed))
              case Some(isAdmin) =>
                if !isAdmin && Lower(p.proponent) != Lower(account) then Run(c3, Failure(NotPermitted))
                else
                  var w := Write(EliminarPropuesta(tenderId, proposalId), account);
                  Run(c3 + [Submit(w)], Success(w))
  }

  /** `obtenerPropuestasPorLicitacion(contract, licitacionId)` */
  function ProposalsFor(contract: Option<Ledger>, tenderId: nat): (r: Run<seq<Proposal>>)
    ensures contract.None? ==> r == Run([], Failure(NotInitialized))
    ensures contract.Some? ==> r.calls == [ReadProposalsCall(tenderId)]
    ensures r.result.Success? <==> contract.Some? && tenderId in contract.value.proposals
    ensures r.result.Success? ==> r.result.value == contract.value.proposals[tenderId]
  {
    match contract
    case None => Run([], Failure(NotInitialized))
    case Some(L) =>
      match L.ReadProposals(tenderId)
      case None => Run([ReadProposalsCall(tenderId)], Failure(CallFailed))
      case Some(ps) => Run([ReadProposalsCall(tenderId)], Success(ps))
  }

  /** `agregarAdministrador(contract, adminAddress, account)`; `isAddress` is the library's address format check. */
  function AddAdmin(contract: Option<Ledger>, who: Address, account: Address, isAddress: Address -> bool): (r: Run<Write>)
    ensures SubmitsOnlyOnSuccess(r)
    ensures contract.None? ==> r == Run([], Failure(NotInitialized))
    ensures contract.Some? && !isAddress(who) ==> r == Run([], Failure(InvalidAddress))
    ensures contract.Some? && isAddress(who) && contract.value.ReadAdminFlag(who) == Some(true) ==>
      r == Run([ReadAdminFlagCall(who)], Failure(AlreadyAdmin))
    ensures r.result.Success? <==> contract.Some? && isAddress(who) && contract.value.ReadAdminFlag(who) == Some(false)
    ensures r.result.Success? ==> r.result.value == Write(AgregarAdministrador(who), account)
  {
    match contract
    case None => Run([], Failure(NotInitialized))
    case Some(L) =>
      if !isAddress(who) then Run([], Failure(InvalidAddress))
      else
        var read := [ReadAdminFlagCall(who)];
        match L.ReadAdminFlag(who)
        case None => Run(read, Failure(CallFailed))
        case Some(isAdmin) =>
          if isAdmin then Run(read, Failure(AlreadyAdmin))
          else
            var w := Write(AgregarAdministrador(who), account);
            Run(read + [Submit(w)], Success(w))
  }

  /** `quitarAdministrador(contract, adminAddress, account)` */
  function RemoveAdmin(contract: Option<Ledger>, who: Address, account: Address, isAddress: Address -> bool): (r: Run<Write>)
    ensures SubmitsOnlyOnSuccess(r)
    ensures contract.None? ==> r == Run([], Failure(NotInitialized))
    ensures contract.Some? && !isAddress(who) ==> r == Run([], Failure(InvalidAddress))
    // self-removal is refused without a single ledger call
    ensures contract.Some? && isAddress(who) && SameAddress(who, account) ==> r == Run([], Failure(SelfRemoval))
    ensures contract.Some? && isAddress(who) && !SameAddress(who, account) && contract.value.ReadAdminFlag(who) == Some(false) ==>
      r == Run([ReadAdminFlagCall(who)], Failure(NotAdmin))
    ensures r.result.Success? <==>
      contract.Some? && isAddress(who) && !SameAddress(who, account) && contract.value.ReadAdminFlag(who) == Some(true)
    ensures r.result.Success? ==> r.result.value == Write(QuitarAdministrador(who), account)
  {
    match contract
    case None => Run([], Failure(NotInitialized))
    case Some(L) =>
      if !isAddress(who) then Run([], Failure(InvalidAddress))
      else if Lower(who) == Lower(account) then Run([], Failure(SelfRemoval))
      else
        var read := [ReadAdminFlagCall(who)];
        match L.ReadAdminFlag(who)
        case None => Run(read, Failure(CallFailed))
        case Some(isAdmin) =>
          if !isAdmin then Run(read, Failure(NotAdmin))
          else
            var w := Write(QuitarAdministrador(who), account);
            Run(read + [Submit(w)], Success(w))
  }

  /** `seleccionarGanador(contract, licitacionId, propuestaId, account)` */
  function SelectWinner(contract: Option<Ledger>, tenderId: nat, proposalId: nat, account: Address): (r: Run<Write>)
    ensures SubmitsOnlyOnSuccess(r)
    ensures contract.None? ==> r == Run([], Failure(NotInitialized))
    ensures r.result.Success? <==> contract.Some?
    ensures r.result.Success? ==> r.result.value == Write(SeleccionarGanador(tenderId, proposalId), account)
  {
    if contract.None? then Run([], Failure(NotInitialized))
    else
      var w := Write(SeleccionarGanador(tenderId, proposalId), account);
      Run([Submit(w)], Success(w))
  }

  /** `verificarAdmin(contract, address)` */
  function CheckAdmin(contract: Option<Ledger>, who: Address, isAddress: Address -> bool): (r: Run<bool>)
    ensures contract.None? ==> r == Run([], Failure(NotInitialized))
    ensures contract.Some? && !isAddress(who) ==> r == Run([], Failure(InvalidAddress))
    ensures r.result.Success? <==> contract.Some? && isAddress(who) && contract.value.ReadAdminFlag(who).Some?
    ensures r.result.Success? ==> Some(r.result.value) == contract.value.ReadAdminFlag(who)
  {
    match contract
    case None => Run([], Failure(NotInitialized))
    case Some(L) =>
      if !isAddress(who) then Run([], Failure(InvalidAddress))
      else
        match L.ReadAdminFlag(who)
        case None => Run([ReadAdminFlagCall(who)], Failure(CallFailed))
        case Some(isAdmin) => Run([ReadAdminFlagCall(who)], Success(isAdmin))
  }
}
