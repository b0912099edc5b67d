/** Document rows and their files under backend/app/api/v1/documents.py.  Every point
    at which an endpoint can be interleaved with others, or fail, is a step, so a
    run mixes any number of uploads, replaces, deletes and deferred file deletes. */
module DocumentStore {
  import opened Text

  datatype DocumentType = RateConfirmation | BillOfLading | ProofOfDelivery | Invoice | AnyOther(name: string)

  /** The four types of which a load keeps one document each. */
  predicate IsSingleton(t: DocumentType) {
    !t.AnyOther?
  }

  /** When a document was received, and when its row was created. */
  datatype Stamp = Stamp(received: int, created: int)
  {
    predicate NewerThan(other: Stamp) {
      received > other.received || (received == other.received && created > other.created)
    }
  }

  datatype Row = Row(organization: int, load: Option<int>, documentType: DocumentType, key: int, stamp: Stamp)

  datatype Request = Request(
    organization: int, load: Option<int>, documentType: DocumentType, replace: bool, byDriver: bool)

  /** A row as an endpoint read it. */
  datatype Snapshot = Snapshot(id: int, key: int)

  datatype Stage =
    | Looked                  // the existing document, if any, is known
    | Stored(key: int)        // the file is written, its key not yet noted for clean-up
    | Recorded(key: int)      // the key is noted
    | Unlinked(key: int)      // driver path: the replaced file is already gone
    | Committed(key: int)     // the row change is durable, the answer not yet sent

  datatype Upload = Upload(request: Request, found: Option<Snapshot>, stage: Stage)
  {
    predicate HasKey() { !stage.Looked? }
    predicate InFlight() { HasKey() && !stage.Committed? }
  }

  /** The database, the file store, the scheduled file deletes, the requests at work,
      and every storage key and row id ever handed out. */
  datatype Store = Store(
    rows: map<int, Row>, files: set<int>, pending: multiset<int>,
    uploads: map<int, Upload>, deletes: map<int, Snapshot>,
    usedKeys: set<int>, usedIds: set<int>)

  const EMPTY := Store(map[], {}, multiset{}, map[], map[], {}, {})

  datatype Step =
    | BeginUpload(u: int, request: Request, found: Option<int>)
    | SaveFile(u: int, key: int)
    | RecordKey(u: int)
    | UnlinkOld(u: int)
    | CommitUpload(u: int, newId: int, stamp: Stamp)
    | Respond(u: int)
    | FailUpload(u: int, cleaned: bool)
    | BeginDelete(d: int, id: int)
    | CommitDelete(d: int, responds: bool)
    | FailDelete(d: int)
    | RunDeferredDelete(key: int, ok: bool)

  // ---------- one step ----------

  predicate Limited(q: Request) {
    IsSingleton(q.documentType) && q.load.Some?
  }

  predicate InSlot(r: Row, q: Request) {
    r.organization == q.organization && r.load == q.load && r.documentType == q.documentType
  }

  /** What `find_required_document_for_load` may answer: the latest document of the slot,
      or any of them if several have one stamp. */
  predicate IsAnswer(rows: map<int, Row>, q: Request, found: Option<int>) {
    match found
    case Some(i) =>
      && Limited(q) && i in rows && InSlot(rows[i], q)
      && forall j | j in rows && InSlot(rows[j], q) :: !rows[j].stamp.NewerThan(rows[i].stamp)
    case None => Limited(q) ==> forall i | i in rows :: !InSlot(rows[i], q)
  }

  /** The 409 answer to a second document of a singleton type. */
  predicate IsDuplicate(q: Request, found: Option<int>) {
    found.Some? && !q.replace
  }

  predicate Enabled(s: Store, e: Step) {
    match e
    case BeginUpload(u, q, found) => u !in s.uploads && IsAnswer(s.rows, q, found)
    case SaveFile(u, key) => u in s.uploads && s.uploads[u].stage.Looked? && key !in s.usedKeys && key !in s.files
    case RecordKey(u) => u in s.uploads && s.uploads[u].stage.Stored?
    case UnlinkOld(u) =>
      u in s.uploads && s.uploads[u].stage.Recorded? && s.uploads[u].request.byDriver && s.uploads[u].found.Some?
    case CommitUpload(u, newId, stamp) =>
      && u in s.uploads
      && (if s.uploads[u].found.Some?
          then s.uploads[u].found.value.id in s.rows
               && (if s.uploads[u].request.byDriver then s.uploads[u].stage.Unlinked? else s.uploads[u].stage.Recorded?)
          else newId !in s.usedIds && s.uploads[u].stage.Recorded?)
    case Respond(u) => u in s.uploads && s.uploads[u].stage.Committed?
    case FailUpload(u, _) => u in s.uploads
    case BeginDelete(d, id) => d !in s.deletes && id in s.rows
    case CommitDelete(d, _) => d in s.deletes
    case FailDelete(d) => d in s.deletes
    case RunDeferredDelete(key, _) => key in s.pending
  }

  /** A row after a replace: the file is new, and received anew. */
  function Refiled(r: Row, key: int, stamp: Stamp): Row {
    r.(key := key, stamp := r.stamp.(received := stamp.received))
  }

  function Stored(s: Store, u: int, stage: Stage): Store
    requires u in s.uploads
  {
    s.(uploads := s.uploads[u := s.uploads[u].(stage := stage)])
  }

  function Next(s: Store, e: Step): Store
    requires Enabled(s, e)
  {
    match e
    case BeginUpload(u, q, found) =>
      if IsDuplicate(q, found) then s
      else s.(uploads := s.uploads[u := Upload(q,
                if found.Some? then Some(Snapshot(found.value, s.rows[found.value].key)) else None, Looked)])
    case SaveFile(u, key) =>
      Stored(s, u, Stage.Stored(key)).(files := s.files + {key}, usedKeys := s.usedKeys + {key})
    case RecordKey(u) => Stored(s, u, Recorded(s.uploads[u].stage.key))
    case UnlinkOld(u) =>
      Stored(s, u, Unlinked(s.uploads[u].stage.key)).(files := s.files - {s.uploads[u].found.value.key})
    case CommitUpload(u, newId, stamp) =>
      var up := s.uploads[u];
      var after := Stored(s, u, Committed(up.stage.key));
      if up.found.Some? then
        var id := up.found.value.id;
        after.(rows := s.rows[id := Refiled(s.rows[id], up.stage.key, stamp)])
      else
        var q := up.request;
        after.(rows := s.rows[newId := Row(q.organization, q.load, q.documentType, up.stage.key, stamp)],
               usedIds := s.usedIds + {newId})
    case Respond(u) =>
      var up := s.uploads[u];
      s.(uploads := s.uploads - {u},
         pending := if up.found.Some? && !up.request.byDriver then s.pending + multiset{up.found.value.key}
                    else s.pending)
    case FailUpload(u, cleaned) =>
      var stage := s.uploads[u].stage;
      s.(uploads := s.uploads - {u},
         files := if cleaned && !stage.Looked? && !stage.Stored? then s.files - {stage.key} else s.files)
    case BeginDelete(d, id) =>
      if s.rows[id].documentType == Invoice then s
      else s.(deletes := s.deletes[d := Snapshot(id, s.rows[id].key)])
    case CommitDelete(d, responds) =>
      s.(rows := s.rows - {s.deletes[d].id}, deletes := s.deletes - {d},
         pending := if responds then s.pending + multiset{s.deletes[d].key} else s.pending)
    case FailDelete(d) => s.(deletes := s.deletes - {d})
    case RunDeferredDelete(key, ok) =>
      s.(pending := s.pending - multiset{key}, files := if ok then s.files - {key} else s.files)
  }

  // ---------- what every step keeps ----------

  /** No two rows name one file, and no scheduled delete is aimed at a row's file. */
  ghost predicate RowsOk(s: Store) {
    && (forall i, j | i in s.rows && j in s.rows && i != j :: s.rows[i].key != s.rows[j].key)
    && (forall i | i in s.rows :: s.rows[i].key !in s.pending)
    && (forall i | i in s.rows :: i in s.usedIds && s.rows[i].key in s.usedKeys)
    && (forall k | k in s.pending :: k in s.usedKeys)
  }

  /** The file of an upload at work is there and belongs to nobody else. */
  ghost predicate FlightsOk(s: Store) {
    && (forall u | u in s.uploads && s.uploads[u].InFlight() ::
          s.uploads[u].stage.key in s.files && s.uploads[u].stage.key !in s.pending)
    && (forall u, i | u in s.uploads && s.uploads[u].InFlight() && i in s.rows ::
          s.rows[i].key != s.uploads[u].stage.key)
    && (forall u, v | u in s.uploads && v in s.uploads && u != v && s.uploads[u].HasKey() && s.uploads[v].HasKey() ::
          s.uploads[u].stage.key != s.uploads[v].stage.key)
    && (forall u | u in s.uploads && s.uploads[u].HasKey() :: s.uploads[u].stage.key in s.usedKeys)
  }

  /** A key that an upload read from a row can be in use at that row only, is not
      about to be given to any row, and is out of use once the upload has committed. */
  ghost predicate FoundOk(s: Store) {
    && (forall u | u in s.uploads && s.uploads[u].found.Some? ::
          var f := s.uploads[u].found.value; f.key in s.usedKeys && f.id in s.usedIds)
    && (forall u, i | u in s.uploads && s.uploads[u].found.Some? && i in s.rows ::
          var f := s.uploads[u].found.value;
          s.rows[i].key == f.key ==> i == f.id && !s.uploads[u].stage.Committed?)
    && (forall u, v | u in s.uploads && v in s.uploads && s.uploads[u].found.Some? && s.uploads[v].InFlight() ::
          s.uploads[v].stage.key != s.uploads[u].found.value.key)
  }

  /** What an upload found is a document of its own singleton slot. */
  ghost predicate SlotsOk(s: Store) {
    forall u | u in s.uploads && s.uploads[u].found.Some? ::
      var f := s.uploads[u].found.value;
      && Limited(s.uploads[u].request) && s.uploads[u].request.replace
      && (f.id in s.rows ==> InSlot(s.rows[f.id], s.uploads[u].request))
  }

  /** The same for the key that a delete read, which is never an invoice's. */
  ghost predicate DeletesOk(s: Store) {
    && (forall d | d in s.deletes :: s.deletes[d].key in s.usedKeys && s.deletes[d].id in s.usedIds)
    && (forall d, i | d in s.deletes && i in s.rows :: s.rows[i].key == s.deletes[d].key ==> i == s.deletes[d].id)
    && (forall d, v | d in s.deletes && v in s.uploads && s.uploads[v].InFlight() ::
          s.uploads[v].stage.key != s.deletes[d].key)
    && (forall d | d in s.deletes && s.deletes[d].id in s.rows :: s.rows[s.deletes[d].id].documentType != Invoice)
  }

  ghost predicate Inv(s: Store) {
    RowsOk(s) && FlightsOk(s) && FoundOk(s) && SlotsOk(s) && DeletesOk(s)
  }

  // Each step keeps each part of the invariant.

  lemma BeginKeepsFound(s: Store, e: Step)
    requires FoundOk(s) && RowsOk(s) && FlightsOk(s) && Enabled(s, e) && e.BeginUpload?
    ensures FoundOk(Next(s, e))
  {
  }

  lemma BeginKeepsData(s: Store, e: Step)
    requires RowsOk(s) && SlotsOk(s) && DeletesOk(s) && Enabled(s, e) && e.BeginUpload?
    ensures RowsOk(Next(s, e)) && SlotsOk(Next(s, e)) && DeletesOk(Next(s, e))
  {
  }

  lemma BeginKeepsFlights(s: Store, e: Step)
    requires FlightsOk(s) && Enabled(s, e) && e.BeginUpload?
    ensures FlightsOk(Next(s, e))
  {
  }

  lemma BeginKeepsInv(s: Store, e: Step)
    requires Inv(s) && Enabled(s, e) && e.BeginUpload?
    ensures Inv(Next(s, e))
  {
    BeginKeepsFound(s, e);
    BeginKeepsData(s, e);
    BeginKeepsFlights(s, e);
  }

  lemma SaveKeepsFlights(s: Store, e: Step)
    requires FlightsOk(s) && RowsOk(s) && Enabled(s, e) && e.SaveFile?
    ensures FlightsOk(Next(s, e))
  {
  }

  lemma SaveKeepsData(s: Store, e: Step)
    requires RowsOk(s) && SlotsOk(s) && DeletesOk(s) && Enabled(s, e) && e.SaveFile?
    ensures RowsOk(Next(s, e)) && SlotsOk(Next(s, e)) && DeletesOk(Next(s, e))
  {
  }

  lemma SaveKeepsFound(s: Store, e: Step)
    requires FoundOk(s) && Enabled(s, e) && e.SaveFile?
    ensures FoundOk(Next(s, e))
  {
  }

  lemma SaveKeepsInv(s: Store, e: Step)
    requires Inv(s) && Enabled(s, e) && e.SaveFile?
    ensures Inv(Next(s, e))
  {
    SaveKeepsFlights(s, e);
    SaveKeepsData(s, e);
    SaveKeepsFound(s, e);
  }

  lemma RecordKeepsData(s: Store, e: Step)
    requires RowsOk(s) && SlotsOk(s) && DeletesOk(s) && Enabled(s, e) && e.RecordKey?
    ensures RowsOk(Next(s, e)) && SlotsOk(Next(s, e)) && DeletesOk(Next(s, e))
  {
  }

  lemma RecordKeepsFlights(s: Store, e: Step)
    requires FlightsOk(s) && Enabled(s, e) && e.RecordKey?
    ensures FlightsOk(Next(s, e))
  {
  }

  lemma RecordKeepsFound(s: Store, e: Step)
    requires FoundOk(s) && Enabled(s, e) && e.RecordKey?
    ensures FoundOk(Next(s, e))
  {
  }

  lemma RecordKeepsInv(s: Store, e: Step)
    requires Inv(s) && Enabled(s, e) && e.RecordKey?
    ensures Inv(Next(s, e))
  {
    RecordKeepsData(s, e);
    RecordKeepsFlights(s, e);
    RecordKeepsFound(s, e);
  }

  lemma UnlinkKeepsFlights(s: Store, e: Step)
    requires FlightsOk(s) && FoundOk(s) && Enabled(s, e) && e.UnlinkOld?
    ensures FlightsOk(Next(s, e))
  {
  }

  lemma UnlinkKeepsData(s: Store, e: Step)
    requires RowsOk(s) && SlotsOk(s) && DeletesOk(s) && Enabled(s, e) && e.UnlinkOld?
    ensures RowsOk(Next(s, e)) && SlotsOk(Next(s, e)) && DeletesOk(Next(s, e))
  {
  }

  lemma UnlinkKeepsFound(s: Store, e: Step)
    requires FoundOk(s) && Enabled(s, e) && e.UnlinkOld?
    ensures FoundOk(Next(s, e))
  {
  }

  lemma UnlinkKeepsInv(s: Store, e: Step)
    requires Inv(s) && Enabled(s, e) && e.UnlinkOld?
    ensures Inv(Next(s, e))
  {
    UnlinkKeepsFlights(s, e);
    UnlinkKeepsData(s, e);
    UnlinkKeepsFound(s, e);
  }

  lemma FailKeepsData(s: Store, e: Step)
    requires RowsOk(s) && SlotsOk(s) && DeletesOk(s) && Enabled(s, e) && e.FailUpload?
    ensures RowsOk(Next(s, e)) && SlotsOk(Next(s, e)) && DeletesOk(Next(s, e))
  {
  }

  lemma FailKeepsFlights(s: Store, e: Step)
    requires FlightsOk(s) && Enabled(s, e) && e.FailUpload?
    ensures FlightsOk(Next(s, e))
  {
  }

  lemma FailKeepsFound(s: Store, e: Step)
    requires FoundOk(s) && Enabled(s, e) && e.FailUpload?
    ensures FoundOk(Next(s, e))
  {
  }

  lemma FailKeepsInv(s: Store, e: Step)
    requires Inv(s) && Enabled(s, e) && e.FailUpload?
    ensures Inv(Next(s, e))
  {
    FailKeepsData(s, e);
    FailKeepsFlights(s, e);
    FailKeepsFound(s, e);
  }

  lemma RespondKeepsRows(s: Store, e: Step)
    requires RowsOk(s) && FoundOk(s) && Enabled(s, e) && e.Respond?
    ensures RowsOk(Next(s, e))
  {
  }

  lemma RespondKeepsFlights(s: Store, e: Step)
    requires FlightsOk(s) && FoundOk(s) && Enabled(s, e) && e.Respond?
    ensures FlightsOk(Next(s, e))
  {
  }

  lemma RespondKeepsData(s: Store, e: Step)
    requires SlotsOk(s) && DeletesOk(s) && Enabled(s, e) && e.Respond?
    ensures SlotsOk(Next(s, e)) && DeletesOk(Next(s, e))
  {
  }

  lemma RespondKeepsFound(s: Store, e: Step)
    requires FoundOk(s) && Enabled(s, e) && e.Respond?
    ensures FoundOk(Next(s, e))
  {
  }

  lemma RespondKeepsInv(s: Store, e: Step)
    requires Inv(s) && Enabled(s, e) && e.Respond?
    ensures Inv(Next(s, e))
  {
    RespondKeepsRows(s, e);
    RespondKeepsFlights(s, e);
    RespondKeepsData(s, e);
    RespondKeepsFound(s, e);
  }

  lemma InsertKeepsRows(s: Store, e: Step)
    requires RowsOk(s) && FlightsOk(s) && Enabled(s, e) && e.CommitUpload? && s.uploads[e.u].found.None?
    ensures RowsOk(Next(s, e))
  {
  }

  lemma InsertKeepsSlots(s: Store, e: Step)
    requires SlotsOk(s) && FoundOk(s) && Enabled(s, e) && e.CommitUpload? && s.uploads[e.u].found.None?
    ensures SlotsOk(Next(s, e))
  {
  }

  lemma InsertKeepsDeletes(s: Store, e: Step)
    requires DeletesOk(s) && Enabled(s, e) && e.CommitUpload? && s.uploads[e.u].found.None?
    ensures DeletesOk(Next(s, e))
  {
  }

  lemma InsertKeepsFlights(s: Store, e: Step)
    requires FlightsOk(s) && Enabled(s, e) && e.CommitUpload? && s.uploads[e.u].found.None?
    ensures FlightsOk(Next(s, e))
  {
  }

  lemma InsertKeepsFound(s: Store, e: Step)
    requires FoundOk(s) && Enabled(s, e) && e.CommitUpload? && s.uploads[e.u].found.None?
    ensures FoundOk(Next(s, e))
  {
  }

  lemma InsertKeepsInv(s: Store, e: Step)
    requires Inv(s) && Enabled(s, e) && e.CommitUpload? && s.uploads[e.u].found.None?
    ensures Inv(Next(s, e))
  {
    InsertKeepsRows(s, e);
    InsertKeepsSlots(s, e);
    InsertKeepsDeletes(s, e);
    InsertKeepsFlights(s, e);
    InsertKeepsFound(s, e);
  }

  lemma ReplaceKeepsRows(s: Store, e: Step)
    requires RowsOk(s) && FlightsOk(s) && Enabled(s, e) && e.CommitUpload? && s.uploads[e.u].found.Some?
    ensures RowsOk(Next(s, e))
  {
  }

  lemma ReplaceKeepsFound(s: Store, e: Step)
    requires FoundOk(s) && RowsOk(s) && Enabled(s, e) && e.CommitUpload? && s.uploads[e.u].found.Some?
    ensures FoundOk(Next(s, e))
  {
  }

  lemma ReplaceKeepsData(s: Store, e: Step)
    requires SlotsOk(s) && DeletesOk(s) && Enabled(s, e) && e.CommitUpload? && s.uploads[e.u].found.Some?
    ensures SlotsOk(Next(s, e)) && DeletesOk(Next(s, e))
  {
  }

  lemma ReplaceKeepsFlights(s: Store, e: Step)
    requires FlightsOk(s) && Enabled(s, e) && e.CommitUpload? && s.uploads[e.u].found.Some?
    ensures FlightsOk(Next(s, e))
  {
  }

  lemma ReplaceKeepsInv(s: Store, e: Step)
    requires Inv(s) && Enabled(s, e) && e.CommitUpload? && s.uploads[e.u].found.Some?
    ensures Inv(Next(s, e))
  {
    ReplaceKeepsRows(s, e);
    ReplaceKeepsFound(s, e);
    ReplaceKeepsData(s, e);
    ReplaceKeepsFlights(s, e);
  }

  lemma BeginDeleteKeepsDeletes(s: Store, e: Step)
    requires DeletesOk(s) && RowsOk(s) && FlightsOk(s) && Enabled(s, e) && e.BeginDelete?
    ensures DeletesOk(Next(s, e))
  {
  }

  lemma BeginDeleteKeepsData(s: Store, e: Step)
    requires RowsOk(s) && SlotsOk(s) && Enabled(s, e) && e.BeginDelete?
    ensures RowsOk(Next(s, e)) && SlotsOk(Next(s, e))
  {
  }

  lemma BeginDeleteKeepsFlights(s: Store, e: Step)
    requires FlightsOk(s) && Enabled(s, e) && e.BeginDelete?
    ensures FlightsOk(Next(s, e))
  {
  }

  lemma BeginDeleteKeepsFound(s: Store, e: Step)
    requires FoundOk(s) && Enabled(s, e) && e.BeginDelete?
    ensures FoundOk(Next(s, e))
  {
  }

  lemma BeginDeleteKeepsInv(s: Store, e: Step)
    requires Inv(s) && Enabled(s, e) && e.BeginDelete?
    ensures Inv(Next(s, e))
  {
    BeginDeleteKeepsDeletes(s, e);
    BeginDeleteKeepsData(s, e);
    BeginDeleteKeepsFlights(s, e);
    BeginDeleteKeepsFound(s, e);
  }

  lemma CommitDeleteKeepsRows(s: Store, e: Step)
    requires RowsOk(s) && DeletesOk(s) && Enabled(s, e) && e.CommitDelete?
    ensures RowsOk(Next(s, e))
  {
  }

  lemma CommitDeleteKeepsFlights(s: Store, e: Step)
    requires FlightsOk(s) && DeletesOk(s) && Enabled(s, e) && e.CommitDelete?
    ensures FlightsOk(Next(s, e))
  {
  }

  lemma CommitDeleteKeepsData(s: Store, e: Step)
    requires SlotsOk(s) && DeletesOk(s) && Enabled(s, e) && e.CommitDelete?
    ensures SlotsOk(Next(s, e)) && DeletesOk(Next(s, e))
  {
  }

  lemma CommitDeleteKeepsFound(s: Store, e: Step)
    requires FoundOk(s) && Enabled(s, e) && e.CommitDelete?
    ensures FoundOk(Next(s, e))
  {
  }

  lemma CommitDeleteKeepsInv(s: Store, e: Step)
    requires Inv(s) && Enabled(s, e) && e.CommitDelete?
    ensures Inv(Next(s, e))
  {
    CommitDeleteKeepsRows(s, e);
    CommitDeleteKeepsFlights(s, e);
    CommitDeleteKeepsData(s, e);
    CommitDeleteKeepsFound(s, e);
  }

  lemma FailDeleteKeepsData(s: Store, e: Step)
    requires RowsOk(s) && SlotsOk(s) && DeletesOk(s) && Enabled(s, e) && e.FailDelete?
    ensures RowsOk(Next(s, e)) && SlotsOk(Next(s, e)) && DeletesOk(Next(s, e))
  {
  }

  lemma FailDeleteKeepsFlights(s: Store, e: Step)
    requires FlightsOk(s) && Enabled(s, e) && e.FailDelete?
    ensures FlightsOk(Next(s, e))
  {
  }

  lemma FailDeleteKeepsFound(s: Store, e: Step)
    requires FoundOk(s) && Enabled(s, e) && e.FailDelete?
    ensures FoundOk(Next(s, e))
  {
  }

  lemma FailDeleteKeepsInv(s: Store, e: Step)
    requires Inv(s) && Enabled(s, e) && e.FailDelete?
    ensures Inv(Next(s, e))
  {
    FailDeleteKeepsData(s, e);
    FailDeleteKeepsFlights(s, e);
    FailDeleteKeepsFound(s, e);
  }

  lemma DeferredKeepsData(s: Store, e: Step)
    requires RowsOk(s) && SlotsOk(s) && DeletesOk(s) && Enabled(s, e) && e.RunDeferredDelete?
    ensures RowsOk(Next(s, e)) && SlotsOk(Next(s, e)) && DeletesOk(Next(s, e))
  {
  }

  lemma DeferredKeepsFlights(s: Store, e: Step)
    requires FlightsOk(s) && Enabled(s, e) && e.RunDeferredDelete?
    ensures FlightsOk(Next(s, e))
  {
  }

  lemma DeferredKeepsFound(s: Store, e: Step)
    requires FoundOk(s) && Enabled(s, e) && e.RunDeferredDelete?
    ensures FoundOk(Next(s, e))
  {
  }

  lemma DeferredKeepsInv(s: Store, e: Step)
    requires Inv(s) && Enabled(s, e) && e.RunDeferredDelete?
    ensures Inv(Next(s, e))
  {
    DeferredKeepsData(s, e);
    DeferredKeepsFlights(s, e);
    DeferredKeepsFound(s, e);
  }

  lemma StepKeepsInv(s: Store, e: Step)
    requires Inv(s) && Enabled(s, e)
    ensures Inv(Next(s, e))
  {
    match e
    case BeginUpload(_, _, _) => BeginKeepsInv(s, e);
    case SaveFile(_, _) => SaveKeepsInv(s, e);
    case RecordKey(_) => RecordKeepsInv(s, e);
    case UnlinkOld(_) => UnlinkKeepsInv(s, e);
    case CommitUpload(u, _, _) => if s.uploads[u].found.None? { InsertKeepsInv(s, e); } else { ReplaceKeepsInv(s, e); }
    case Respond(_) => RespondKeepsInv(s, e);
    case FailUpload(_, _) => FailKeepsInv(s, e);
    case BeginDelete(_, _) => BeginDeleteKeepsInv(s, e);
    case CommitDelete(_, _) => CommitDeleteKeepsInv(s, e);
    case FailDelete(_) => FailDeleteKeepsInv(s, e);
    case RunDeferredDelete(_, _) => DeferredKeepsInv(s, e);
  }

  // ---------- files ----------

  /** Every row's file exists. */
  ghost predicate FilesOk(s: Store) {
    forall i | i in s.rows :: s.rows[i].key in s.files
  }

  /** Row i is stored under key k. */
  predicate LiveAt(s: Store, k: int, i: int) {
    i in s.rows && s.rows[i].key == k
  }

  /** The steps that take a row's own file away: the clean-up of an upload that fails
      after it has committed, and the driver path's early delete of a replaced file. */
  ghost predicate TakesRowFile(s: Store, e: Step) {
    match e
    case FailUpload(u, cleaned) =>
      cleaned && u in s.uploads && s.uploads[u].stage.Committed? && exists i :: LiveAt(s, s.uploads[u].stage.key, i)
    case UnlinkOld(u) =>
      u in s.uploads && s.uploads[u].found.Some? && exists i :: LiveAt(s, s.uploads[u].found.value.key, i)
    case _ => false
  }

  /** A step leaves every row with its file exactly when it is not one of those. */
  lemma FilesKeptIff(s: Store, e: Step)
    requires Inv(s) && FilesOk(s) && Enabled(s, e)
    ensures FilesOk(Next(s, e)) <==> !TakesRowFile(s, e)
  {
    var s' := Next(s, e);
    if TakesRowFile(s, e) {
      var k := if e.FailUpload? then s.uploads[e.u].stage.key else s.uploads[e.u].found.value.key;
      var i :| LiveAt(s, k, i);
      assert i in s'.rows && s'.rows[i].key !in s'.files;
    } else {
      FilesKept(s, e);
    }
  }

  lemma FilesKept(s: Store, e: Step)
    requires Inv(s) && FilesOk(s) && Enabled(s, e) && !TakesRowFile(s, e)
    ensures FilesOk(Next(s, e))
  {
    var s' := Next(s, e);
    forall i | i in s'.rows ensures s'.rows[i].key in s'.files {
      if e.FailUpload? && s.uploads[e.u].stage.Committed? {
        assert !LiveAt(s, s.uploads[e.u].stage.key, i) || !e.cleaned;
      }
      if e.UnlinkOld? { assert !LiveAt(s, s.uploads[e.u].found.value.key, i); }
    }
  }

  // ---------- singleton documents ----------

  predicate SameSlot(a: Row, b: Row) {
    a.organization == b.organization && a.load == b.load && a.documentType == b.documentType
  }

  /** Each load has at most one document of each singleton type. */
  ghost predicate SlotsUnique(s: Store) {
    RowsUnique(s.rows)
  }

  ghost predicate RowsUnique(rows: map<int, Row>) {
    forall i, j | i in rows && j in rows && i != j && IsSingleton(rows[i].documentType) && rows[i].load.Some? ::
      !SameSlot(rows[i], rows[j])
  }

  /** An upload about to insert a row whose slot has been filled since it looked. */
  ghost predicate FillsTakenSlot(s: Store, e: Step) {
    && e.CommitUpload? && e.u in s.uploads && s.uploads[e.u].found.None? && Limited(s.uploads[e.u].request)
    && exists i :: i in s.rows && InSlot(s.rows[i], s.uploads[e.u].request)
  }

  /** A step keeps slots unique exactly when it does not insert into a taken slot. */
  lemma SlotsKeptIff(s: Store, e: Step)
    requires Inv(s) && SlotsUnique(s) && Enabled(s, e)
    ensures SlotsUnique(Next(s, e)) <==> !FillsTakenSlot(s, e)
  {
    if FillsTakenSlot(s, e) {
      var i :| i in s.rows && InSlot(s.rows[i], s.uploads[e.u].request);
      var s' := Next(s, e);
      assert i in s.usedIds && i != e.newId;
      assert s'.rows[i] == s.rows[i] && SameSlot(s'.rows[i], s'.rows[e.newId]);
    } else if e.CommitUpload? && s.uploads[e.u].found.None? {
      assert forall i | i in s.rows :: Limited(s.uploads[e.u].request) ==> !InSlot(s.rows[i], s.uploads[e.u].request);
    }
  }

  /** Rows keep their identity: only a delete removes one, and never an invoice; only
      a commit adds one; and a row that stays keeps its organization, load and type. */
  lemma RowsKeepIdentity(s: Store, e: Step, i: int)
    requires Inv(s) && Enabled(s, e)
    ensures var s' := Next(s, e);
            && (i in s.rows && i in s'.rows ==> SameSlot(s.rows[i], s'.rows[i]))
            && (i in s.rows && i !in s'.rows ==> e.CommitDelete? && s.rows[i].documentType != Invoice)
            && (i !in s.rows && i in s'.rows ==> e.CommitUpload? && s.uploads[e.u].found.None? && i !in s.usedIds)
            && (e.CommitUpload? && s.uploads[e.u].found.Some? ==> s'.rows.Keys == s.rows.Keys)
  {
  }

  // ---------- whole runs ----------

  /** The run `t` of enabled steps leads from store a to store b. */
  ghost predicate Leads(a: Store, t: seq<Step>, b: Store)
    decreases |t|
  {
    if t == [] then b == a else Enabled(a, t[0]) && Leads(Next(a, t[0]), t[1..], b)
  }

  /** No step of the run fails after its commit, and none is the driver path's early delete. */
  ghost predicate FailsOnlyBeforeCommit(a: Store, t: seq<Step>)
    decreases |t|
  {
    t != [] && Enabled(a, t[0]) ==>
      && !t[0].UnlinkOld?
      && (t[0].FailUpload? ==> !a.uploads[t[0].u].stage.Committed?)
      && FailsOnlyBeforeCommit(Next(a, t[0]), t[1..])
  }

  lemma {:induction false} RunKeepsInv(a: Store, t: seq<Step>, b: Store)
    requires Inv(a) && Leads(a, t, b)
    ensures Inv(b)
    decreases |t|
  {
    if t != [] {
      StepKeepsInv(a, t[0]);
      RunKeepsInv(Next(a, t[0]), t[1..], b);
    }
  }

  lemma {:induction false} RunKeepsFiles(a: Store, t: seq<Step>, b: Store)
    requires Inv(a) && FilesOk(a) && Leads(a, t, b) && FailsOnlyBeforeCommit(a, t)
    ensures Inv(b) && FilesOk(b)
    decreases |t|
  {
    if t != [] {
      StepKeepsInv(a, t[0]);
      FilesKept(a, t[0]);
      RunKeepsFiles(Next(a, t[0]), t[1..], b);
    }
  }

  /** Storage integrity.  However staff uploads, replaces and deletes are interleaved,
      wherever they fail before their commit, and whenever deferred deletes run: every
      row's file exists, no two rows share one, and no scheduled delete is aimed at one. */
  lemma StorageIntegrity(t: seq<Step>, s: Store)
    requires Leads(EMPTY, t, s) && FailsOnlyBeforeCommit(EMPTY, t)
    ensures forall i | i in s.rows :: s.rows[i].key in s.files && s.rows[i].key !in s.pending
    ensures forall i, j | i in s.rows && j in s.rows && i != j :: s.rows[i].key != s.rows[j].key
  {
    RunKeepsFiles(EMPTY, t, s);
  }

  /** Keys stay distinct and scheduled deletes harmless in every run at all. */
  lemma KeysNeverShared(t: seq<Step>, s: Store)
    requires Leads(EMPTY, t, s)
    ensures forall i | i in s.rows :: s.rows[i].key !in s.pending
    ensures forall i, j | i in s.rows && j in s.rows && i != j :: s.rows[i].key != s.rows[j].key
  {
    RunKeepsInv(EMPTY, t, s);
  }
}
