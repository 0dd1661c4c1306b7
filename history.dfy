/**
 * The transaction history page (`HistorialTransacciones`): three event
 * streams tagged with their kind, concatenated and stably sorted by block
 * number, newest first; all-or-nothing loading; and the per-kind details.
 */
module History {
  import opened Wrappers
  import opened Addresses
  import opened Records

  /** The kind labels given to each stream. */
  const TENDER_CREATED: string := "Licitación Creada"
  const PROPOSAL_SENT: string := "Propuesta Enviada"
  const WINNER_SELECTED: string := "Ganador Seleccionado"

  /** A past event as `getPastEvents` returns it; return values are kept as their decimal or hex text. */
  datatype RawEvent = RawEvent(returnValues: map<string, string>, transactionHash: string, blockNumber: nat)

  /** A tagged event (`{ ...e, tipo, blockNumber }`). */
  datatype Event = Event(kind: string, returnValues: map<string, string>, transactionHash: string, blockNumber: nat)

  function Tag(s: seq<RawEvent>, kind: string): (r: seq<Event>)
    ensures |r| == |s|
    ensures forall i :: 0 <= i < |s| ==>
      r[i] == Event(kind, s[i].returnValues, s[i].transactionHash, s[i].blockNumber)
  {
    seq(|s|, i requires 0 <= i < |s| => Event(kind, s[i].returnValues, s[i].transactionHash, s[i].blockNumber))
  }

  /** Places `e` before the first element whose block is not later than its own. */
  function Insert(e: Event, s: seq<Event>): seq<Event>
    decreases |s|
  {
    if s == [] then [e]
    else if s[0].blockNumber <= e.blockNumber then [e] + s
    else [s[0]] + Insert(e, s[1..])
  }

  /** `sort((a, b) => b.blockNumber - a.blockNumber)`, a stable sort. */
  function SortByBlockDesc(s: seq<Event>): seq<Event>
    decreases |s|
  {
    if s == [] then [] else Insert(s[0], SortByBlockDesc(s[1..]))
  }

  ghost predicate NonIncreasing(s: seq<Event>)
  {
    forall i, j :: 0 <= i < j < |s| ==> s[i].blockNumber >= s[j].blockNumber
  }

  /** The events of block `b`, in their order in `s`. */
  function AtBlock(s: seq<Event>, b: nat): seq<Event>
    decreases |s|
  {
    if s == [] then [] else (if s[0].blockNumber == b then [s[0]] else []) + AtBlock(s[1..], b)
  }

  lemma {:induction false} InsertPermutes(e: Event, s: seq<Event>)
    ensures multiset(Insert(e, s)) == multiset(s) + multiset{e}
    decreases |s|
  {
    if s != [] && s[0].blockNumber > e.blockNumber {
      InsertPermutes(e, s[1..]);
      assert s == [s[0]] + s[1..];
    }
  }

  lemma {:induction false} InsertSorted(e: Event, s: seq<Event>)
    requires NonIncreasing(s)
    ensures NonIncreasing(Insert(e, s))
    decreases |s|
  {
    if s != [] && s[0].blockNumber > e.blockNumber {
      InsertSorted(e, s[1..]);
      InsertPermutes(e, s[1..]);
      var r := Insert(e, s[1..]);
      forall k | 0 <= k < |r|
        ensures s[0].blockNumber >= r[k].blockNumber
      {
        assert r[k] in multiset(r);
        if r[k] != e {
          assert r[k] in multiset(s[1..]);
          var j :| 0 <= j < |s[1..]| && s[1..][j] == r[k];
          assert s[j + 1] == r[k];
        }
      }
      var whole := [s[0]] + r;
      forall i, j | 0 <= i < j < |whole|
        ensures whole[i].blockNumber >= whole[j].blockNumber
      {
        if i > 0 {
          assert whole[i] == r[i - 1] && whole[j] == r[j - 1];
        } else {
          assert whole[j] == r[j - 1];
        }
      }
    }
  }

  lemma {:induction false} InsertAtBlock(e: Event, s: seq<Event>, b: nat)
    ensures AtBlock(Insert(e, s), b) == (if e.blockNumber == b then [e] else []) + AtBlock(s, b)
    decreases |s|
  {
    if s == [] {
    } else if s[0].blockNumber <= e.blockNumber {
      assert ([e] + s)[1..] == s;
    } else {
      InsertAtBlock(e, s[1..], b);
      assert ([s[0]] + Insert(e, s[1..]))[1..] == Insert(e, s[1..]);
    }
  }

  /** The sorted list is newest first and a permutation of its input. */
  lemma {:induction false} SortSorted(s: seq<Event>)
    ensures NonIncreasing(SortByBlockDesc(s))
    ensures multiset(SortByBlockDesc(s)) == multiset(s)
    ensures |SortByBlockDesc(s)| == |s|
    decreases |s|
  {
    if s != [] {
      SortSorted(s[1..]);
      InsertSorted(s[0], SortByBlockDesc(s[1..]));
      InsertPermutes(s[0], SortByBlockDesc(s[1..]));
      assert s == [s[0]] + s[1..];
      assert |multiset(SortByBlockDesc(s))| == |multiset(s)|;
    }
  }

  /** Stability: the events of any one block keep their input order. */
  lemma {:induction false} SortStable(s: seq<Event>, b: nat)
    ensures AtBlock(SortByBlockDesc(s), b) == AtBlock(s, b)
    decreases |s|
  {
    if s != [] {
      SortStable(s[1..], b);
      InsertAtBlock(s[0], SortByBlockDesc(s[1..]), b);
    }
  }

  /** The three streams tagged and concatenated in fetch order. */
  function Concatenated(created: seq<RawEvent>, sent: seq<RawEvent>, awarded: seq<RawEvent>): seq<Event>
  {
    Tag(created, TENDER_CREATED) + Tag(sent, PROPOSAL_SENT) + Tag(awarded, WINNER_SELECTED)
  }

  /** `todosEventos`: the merged history. */
  function Merge(created: seq<RawEvent>, sent: seq<RawEvent>, awarded: seq<RawEvent>): seq<Event>
  {
    SortByBlockDesc(Concatenated(created, sent, awarded))
  }

  /**
   * The merged history is a newest-first permutation of the three tagged
   * streams, nothing dropped, events of one block in concatenation order,
   * and every event tagged with one of the three kinds.
   */
  lemma MergeSpec(created: seq<RawEvent>, sent: seq<RawEvent>, awarded: seq<RawEvent>)
    ensures |Merge(created, sent, awarded)| == |created| + |sent| + |awarded|
    ensures NonIncreasing(Merge(created, sent, awarded))
    ensures multiset(Merge(created, sent, awarded)) == multiset(Concatenated(created, sent, awarded))
    ensures forall b: nat :: AtBlock(Merge(created, sent, awarded), b) == AtBlock(Concatenated(created, sent, awarded), b)
    ensures forall e :: e in Merge(created, sent, awarded) ==> e.kind in {TENDER_CREATED, PROPOSAL_SENT, WINNER_SELECTED}
  {
    var all := Concatenated(created, sent, awarded);
    SortSorted(all);
    forall b: nat
      ensures AtBlock(Merge(created, sent, awarded), b) == AtBlock(all, b)
    {
      SortStable(all, b);
    }
    forall e | e in Merge(created, sent, awarded)
      ensures e.kind in {TENDER_CREATED, PROPOSAL_SENT, WINNER_SELECTED}
    {
      assert e in multiset(all);
    }
  }

  /** The page's state: the shown events and the error banner. */
  datatype HistoryPage = HistoryPage(events: seq<Event>, error: Option<Error>)

  /**
   * `cargarEventos` given the three fetches' outcomes. Loading is
   * all-or-nothing: any failed stream sets the error and keeps the shown
   * events; success replaces them and leaves the banner as it was.
   */
  function Load(page: HistoryPage, created: Result<seq<RawEvent>, Error>, sent: Result<seq<RawEvent>, Error>,
                awarded: Result<seq<RawEvent>, Error>): (next: HistoryPage)
    ensures created.Failure? || sent.Failure? || awarded.Failure? ==>
      next.events == page.events && next.error.Some?
    ensures created.Success? && sent.Success? && awarded.Success? ==>
      next == HistoryPage(Merge(created.value, sent.value, awarded.value), page.error)
  {
    if created.Failure? then page.(error := Some(created.error))
    else if sent.Failure? then page.(error := Some(sent.error))
    else if awarded.Failure? then page.(error := Some(awarded.error))
    else HistoryPage(Merge(created.value, sent.value, awarded.value), page.error)
  }

  /** What a history row shows: title, address and id. `None` is JavaScript's `undefined`. */
  datatype Details = Details(title: string, address: Option<Address>, id: string)

  function Get(m: map<string, string>, k: string): Option<string>
  {
    if k in m then Some(m[k]) else None
  }

  /** `v?.toString() || ''` */
  function TextOrEmpty(v: Option<string>): string
  {
    if v.Some? then v.value else ""
  }

  /** `${v?.toString()}` inside a template literal. */
  function Interpolated(v: Option<string>): string
  {
    if v.Some? then v.value else "undefined"
  }

  /** `obtenerDetallesEvento(evento)` */
  function DetailsOf(e: Event): (d: Details)
    ensures e.kind == TENDER_CREATED ==>
      d.address == Get(e.returnValues, "creador") && d.id == TextOrEmpty(Get(e.returnValues, "id")) && d.title != ""
    // the title is the tender's own when it has a non-empty one, the fallback otherwise
    ensures e.kind == TENDER_CREATED && TextOrEmpty(Get(e.returnValues, "titulo")) != "" ==>
      d.title == e.returnValues["titulo"]
    ensures e.kind == TENDER_CREATED && TextOrEmpty(Get(e.returnValues, "titulo")) == "" ==>
      d.title == "Nueva Licitación"
    ensures e.kind == PROPOSAL_SENT ==>
      d.address == Get(e.returnValues, "proponente") && d.id == TextOrEmpty(Get(e.returnValues, "propuestaId"))
    ensures e.kind == PROPOSAL_SENT ==>
      d.title == "Propuesta para Licitación #" + Interpolated(Get(e.returnValues, "licitacionId"))
    ensures e.kind == WINNER_SELECTED ==>
      d.address == Get(e.returnValues, "ganador") && d.id == TextOrEmpty(Get(e.returnValues, "licitacionId"))
    // the title names the tender whose id the row also shows
    ensures e.kind == WINNER_SELECTED ==>
      d.title == "Ganador Licitación #" + Interpolated(Get(e.returnValues, "licitacionId"))
    ensures e.kind == WINNER_SELECTED && "licitacionId" in e.returnValues ==>
      d.title == "Ganador Licitación #" + d.id
    ensures e.kind !in {TENDER_CREATED, PROPOSAL_SENT, WINNER_SELECTED} ==>
      d == Details("Evento Desconocido", Some(""), "")
  {
    var rv := e.returnValues;
    if e.kind == TENDER_CREATED then
      var title := Get(rv, "titulo");
      Details(if title.Some? && title.value != "" then title.value else "Nueva Licitación",
              Get(rv, "creador"), TextOrEmpty(Get(rv, "id")))
    else if e.kind == PROPOSAL_SENT then
      Details("Propuesta para Licitación #" + Interpolated(Get(rv, "licitacionId")),
              Get(rv, "proponente"), TextOrEmpty(Get(rv, "propuestaId")))
    else if e.kind == WINNER_SELECTED then
      Details("Ganador Licitación #" + Interpolated(Get(rv, "licitacionId")),
              Get(rv, "ganador"), TextOrEmpty(Get(rv, "licitacionId")))
    else
      Details("Evento Desconocido", Some(""), "")
  }

  /** The field a kind's row takes its address from. */
  function AddressField(kind: string): string
  {
    if kind == TENDER_CREATED then "creador" else if kind == PROPOSAL_SENT then "proponente" else "ganador"
  }

  /** The field a kind's row takes its id from. */
  function IdField(kind: string): string
  {
    if kind == TENDER_CREATED then "id" else if kind == PROPOSAL_SENT then "propuestaId" else "licitacionId"
  }

  /**
   * No merged event falls to the unknown-kind branch: every row shows the
   * address and id fields of its own kind.
   */
  lemma MergedDetailsByKind(created: seq<RawEvent>, sent: seq<RawEvent>, awarded: seq<RawEvent>)
    ensures forall e :: e in Merge(created, sent, awarded) ==>
      && DetailsOf(e).address == Get(e.returnValues, AddressField(e.kind))
      && DetailsOf(e).id == TextOrEmpty(Get(e.returnValues, IdField(e.kind)))
  {
    MergeSpec(created, sent, awarded);
  }
}
