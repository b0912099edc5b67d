/** The upload and delete endpoints of backend/app/api/v1/documents.py, each run from
    start to end, with the steps of `DocumentStore` that it takes. */
module DocumentEndpoints {
  import opened Text
  import opened Counting
  import opened DocumentStore

  /** Where an upload raises, if it does. */
  datatype Fault = NoFault | BeforeSave | BeforeRecord | BeforeCommit | AfterUnlink | AfterCommit

  datatype Answer = Created(id: int) | Replaced(id: int) | Conflict | Failed | Deleted | NotFound

  /** A store between requests. */
  predicate Quiet(s: Store) {
    s.uploads == map[] && s.deletes == map[]
  }

  /** What one upload is given: its request, and the key, row id, stamp and clean-up it would get. */
  datatype Attempt = Attempt(request: Request, key: int, newId: int, stamp: Stamp, fault: Fault, cleaned: bool)

  predicate Ready(s: Store, a: Attempt, found: Option<int>) {
    a.key !in s.usedKeys && a.key !in s.files && a.newId !in s.usedIds && IsAnswer(s.rows, a.request, found)
  }

  /** The early delete, and so a fault after it, is met only by a driver's replace. */
  function FaultMet(a: Attempt, found: Option<int>): Fault {
    if a.fault == AfterUnlink && !(a.request.byDriver && found.Some?) then NoFault else a.fault
  }

  /** The rows once an upload has committed. */
  function CommittedRows(rows: map<int, Row>, a: Attempt, found: Option<int>): map<int, Row>
    requires found.Some? ==> found.value in rows
  {
    match found
    case Some(i) => rows[i := Refiled(rows[i], a.key, a.stamp)]
    case None => rows[a.newId := Row(a.request.organization, a.request.load, a.request.documentType, a.key, a.stamp)]
  }

  /** What an upload makes of a store, and how it answers. */
  function Uploaded(s: Store, a: Attempt, found: Option<int>): (r: (Store, Answer))
    requires Ready(s, a, found)
  {
    var replaced := if found.Some? then {s.rows[found.value].key} else {};
    var early := if a.request.byDriver then replaced else {};
    var kept := if a.cleaned then {} else {a.key};
    var used := s.(usedKeys := s.usedKeys + {a.key});
    var durable := used.(
      rows := CommittedRows(s.rows, a, found),
      usedIds := if found.None? then s.usedIds + {a.newId} else s.usedIds);
    if IsDuplicate(a.request, found) then (s, Conflict)
    else
      match FaultMet(a, found)
      case BeforeSave => (s, Failed)
      case BeforeRecord => (used.(files := s.files + {a.key}), Failed)
      case BeforeCommit => (used.(files := s.files + kept), Failed)
      case AfterUnlink => (used.(files := (s.files - replaced) + kept), Failed)
      case AfterCommit => (durable.(files := (s.files - early) + kept), Failed)
      case NoFault =>
        (durable.(
           files := (s.files - early) + {a.key},
           pending := if found.Some? && !a.request.byDriver then s.pending + multiset{s.rows[found.value].key}
                      else s.pending),
         if found.Some? then Replaced(found.value) else Created(a.newId))
  }

  function Removed(s: Store, id: int, organization: int, fails: bool): (Store, Answer) {
    if id !in s.rows || s.rows[id].organization != organization then (s, NotFound)
    else if s.rows[id].documentType == Invoice then (s, Conflict)
    else if fails then (s, Failed)
    else (s.(rows := s.rows - {id}, pending := s.pending + multiset{s.rows[id].key}), Deleted)
  }

  // ---------- an endpoint is a run of steps ----------

  /** The steps that an upload takes when nothing interleaves with it. */
  function UploadSteps(a: Attempt, found: Option<int>): seq<Step> {
    var begin, stop := BeginUpload(0, a.request, found), FailUpload(0, a.cleaned);
    var stored := [begin, SaveFile(0, a.key)];
    var recorded := stored + [RecordKey(0)];
    var unlinked := if a.request.byDriver && found.Some? then recorded + [UnlinkOld(0)] else recorded;
    var committed := unlinked + [CommitUpload(0, a.newId, a.stamp)];
    if IsDuplicate(a.request, found) then [begin]
    else
      match FaultMet(a, found)
      case BeforeSave => [begin, stop]
      case BeforeRecord => stored + [stop]
      case BeforeCommit => recorded + [stop]
      case AfterUnlink => unlinked + [stop]
      case AfterCommit => committed + [stop]
      case NoFault => committed + [Respond(0)]
  }

  lemma LeadsOnce(s: Store, e: Step)
    requires Enabled(s, e)
    ensures Leads(s, [e], Next(s, e))
  {
    assert [e][1..] == [];
  }

  lemma LeadsFirst(s: Store, e: Step, rest: seq<Step>, t: seq<Step>, b: Store)
    requires Enabled(s, e) && Leads(Next(s, e), rest, b)
    requires t != [] && t[0] == e && t[1..] == rest
    ensures Leads(s, t, b)
  {
  }

  lemma {:induction false} LeadsOn(s: Store, t: seq<Step>, m: Store, e: Step)
    requires Leads(s, t, m) && Enabled(m, e)
    ensures Leads(s, t + [e], Next(m, e))
    decreases |t|
  {
    if t == [] {
      LeadsOnce(s, e);
      assert t + [e] == [e];
      return;
    }
    var next, rest := Next(s, t[0]), t[1..];
    LeadsOn(next, rest, m, e);
    LeadsFirst(s, t[0], rest + [e], t + [e], Next(m, e));
  }

  function Found(s: Store, found: Option<int>): Option<Snapshot>
    requires found.Some? ==> found.value in s.rows
  {
    if found.Some? then Some(Snapshot(found.value, s.rows[found.value].key)) else None
  }

  predicate Unlinks(a: Attempt, found: Option<int>) {
    a.request.byDriver && found.Some?
  }

  // The store at three points of an upload that nothing interleaves with.

  function SavedStore(s: Store, a: Attempt, found: Option<int>): Store
    requires Ready(s, a, found)
  {
    s.(files := s.files + {a.key}, usedKeys := s.usedKeys + {a.key},
       uploads := map[0 := Upload(a.request, Found(s, found), Stored(a.key))])
  }

  function NotedStore(s: Store, a: Attempt, found: Option<int>): Store
    requires Ready(s, a, found)
  {
    s.(files := (s.files + {a.key}) - (if Unlinks(a, found) then {s.rows[found.value].key} else {}),
       usedKeys := s.usedKeys + {a.key},
       uploads := map[0 := Upload(a.request, Found(s, found),
                                  if Unlinks(a, found) then Unlinked(a.key) else Recorded(a.key))])
  }

  function CommittedStore(s: Store, a: Attempt, found: Option<int>): Store
    requires Ready(s, a, found)
  {
    NotedStore(s, a, found).(
      rows := CommittedRows(s.rows, a, found),
      usedIds := if found.None? then s.usedIds + {a.newId} else s.usedIds,
      uploads := map[0 := Upload(a.request, Found(s, found), Committed(a.key))])
  }

  predicate Goes(s: Store, a: Attempt, found: Option<int>) {
    Quiet(s) && Ready(s, a, found) && !IsDuplicate(a.request, found)
  }

  lemma SaveSteps(s: Store, a: Attempt, found: Option<int>)
    requires Goes(s, a, found)
    ensures Leads(s, [BeginUpload(0, a.request, found), SaveFile(0, a.key)], SavedStore(s, a, found))
  {
    var begin := BeginUpload(0, a.request, found);
    var b := s.(uploads := map[0 := Upload(a.request, Found(s, found), Looked)]);
    assert Next(s, begin) == b;
    assert Next(b, SaveFile(0, a.key)).uploads == SavedStore(s, a, found).uploads;
    LeadsOn(s, [], s, begin);
    assert [] + [begin] == [begin];
    LeadsOn(s, [begin], b, SaveFile(0, a.key));
    assert [begin] + [SaveFile(0, a.key)] == [begin, SaveFile(0, a.key)];
  }

  function NotedSteps(a: Attempt, found: Option<int>): seq<Step> {
    [BeginUpload(0, a.request, found), SaveFile(0, a.key)] + [RecordKey(0)]
    + (if Unlinks(a, found) then [UnlinkOld(0)] else [])
  }

  function RecordedStore(s: Store, a: Attempt, found: Option<int>): Store
    requires Ready(s, a, found)
  {
    SavedStore(s, a, found).(uploads := map[0 := Upload(a.request, Found(s, found), Recorded(a.key))])
  }

  lemma RecordStep(s: Store, a: Attempt, found: Option<int>)
    requires Goes(s, a, found)
    ensures Enabled(SavedStore(s, a, found), RecordKey(0))
    ensures Next(SavedStore(s, a, found), RecordKey(0)) == RecordedStore(s, a, found)
  {
  }

  lemma UnlinkStep(s: Store, a: Attempt, found: Option<int>)
    requires Goes(s, a, found)
    ensures Unlinks(a, found) ==> Enabled(RecordedStore(s, a, found), UnlinkOld(0))
    ensures Unlinks(a, found) ==> Next(RecordedStore(s, a, found), UnlinkOld(0)) == NotedStore(s, a, found)
    ensures !Unlinks(a, found) ==> RecordedStore(s, a, found) == NotedStore(s, a, found)
  {
  }

  lemma CommitStep(s: Store, a: Attempt, found: Option<int>)
    requires Goes(s, a, found)
    ensures Enabled(NotedStore(s, a, found), CommitUpload(0, a.newId, a.stamp))
    ensures Next(NotedStore(s, a, found), CommitUpload(0, a.newId, a.stamp)) == CommittedStore(s, a, found)
  {
  }

  lemma RecordSteps(s: Store, a: Attempt, found: Option<int>)
    requires Goes(s, a, found)
    ensures Leads(s, [BeginUpload(0, a.request, found), SaveFile(0, a.key)] + [RecordKey(0)],
                  RecordedStore(s, a, found))
  {
    SaveSteps(s, a, found);
    RecordStep(s, a, found);
    LeadsOn(s, [BeginUpload(0, a.request, found), SaveFile(0, a.key)], SavedStore(s, a, found), RecordKey(0));
  }

  lemma NoteSteps(s: Store, a: Attempt, found: Option<int>)
    requires Goes(s, a, found)
    ensures Leads(s, NotedSteps(a, found), NotedStore(s, a, found))
  {
    var t := [BeginUpload(0, a.request, found), SaveFile(0, a.key)] + [RecordKey(0)];
    RecordSteps(s, a, found);
    UnlinkStep(s, a, found);
    if Unlinks(a, found) {
      LeadsOn(s, t, RecordedStore(s, a, found), UnlinkOld(0));
    } else {
      assert t + [] == t;
    }
  }

  lemma CommitSteps(s: Store, a: Attempt, found: Option<int>)
    requires Goes(s, a, found)
    ensures Leads(s, NotedSteps(a, found) + [CommitUpload(0, a.newId, a.stamp)], CommittedStore(s, a, found))
  {
    NoteSteps(s, a, found);
    CommitStep(s, a, found);
    LeadsOn(s, NotedSteps(a, found), NotedStore(s, a, found), CommitUpload(0, a.newId, a.stamp));
  }

  // The last step, at each point at which an upload can end.

  lemma EndAfterSave(s: Store, a: Attempt, found: Option<int>)
    requires Goes(s, a, found) && FaultMet(a, found) == BeforeRecord
    ensures Next(SavedStore(s, a, found), FailUpload(0, a.cleaned)) == Uploaded(s, a, found).0
  {
  }

  lemma EndAfterRecord(s: Store, a: Attempt, found: Option<int>)
    requires Goes(s, a, found) && FaultMet(a, found) == BeforeCommit
    ensures Next(RecordedStore(s, a, found), FailUpload(0, a.cleaned)) == Uploaded(s, a, found).0
  {
  }

  lemma EndAfterUnlink(s: Store, a: Attempt, found: Option<int>)
    requires Goes(s, a, found) && FaultMet(a, found) == AfterUnlink && s.rows[found.value].key != a.key
    ensures Next(NotedStore(s, a, found), FailUpload(0, a.cleaned)) == Uploaded(s, a, found).0
  {
  }

  lemma EndAfterCommit(s: Store, a: Attempt, found: Option<int>)
    requires Goes(s, a, found) && FaultMet(a, found) == AfterCommit
    requires found.Some? ==> s.rows[found.value].key != a.key
    ensures Next(CommittedStore(s, a, found), FailUpload(0, a.cleaned)) == Uploaded(s, a, found).0
  {
  }

  lemma EndWithAnswer(s: Store, a: Attempt, found: Option<int>)
    requires Goes(s, a, found) && FaultMet(a, found) == NoFault
    requires found.Some? ==> s.rows[found.value].key != a.key
    ensures Next(CommittedStore(s, a, found), Respond(0)) == Uploaded(s, a, found).0
  {
  }

  /** An upload that never gets as far as saving its file. */
  lemma ShortUploadIsARun(s: Store, a: Attempt, found: Option<int>)
    requires Quiet(s) && Ready(s, a, found) && (IsDuplicate(a.request, found) || FaultMet(a, found) == BeforeSave)
    ensures Leads(s, UploadSteps(a, found), Uploaded(s, a, found).0)
  {
    var begin, stop := BeginUpload(0, a.request, found), FailUpload(0, a.cleaned);
    LeadsOn(s, [], s, begin);
    assert [] + [begin] == [begin];
    if !IsDuplicate(a.request, found) {
      LeadsOn(s, [begin], Next(s, begin), stop);
      assert [begin] + [stop] == [begin, stop];
      assert Next(Next(s, begin), stop).uploads == map[];
    }
  }

  lemma EarlyFaultIsARun(s: Store, a: Attempt, found: Option<int>)
    requires Goes(s, a, found) && (FaultMet(a, found) == BeforeRecord || FaultMet(a, found) == BeforeCommit)
    ensures Leads(s, UploadSteps(a, found), Uploaded(s, a, found).0)
  {
    var t := [BeginUpload(0, a.request, found), SaveFile(0, a.key)];
    if FaultMet(a, found) == BeforeRecord {
      SaveSteps(s, a, found);
      EndAfterSave(s, a, found);
      LeadsOn(s, t, SavedStore(s, a, found), FailUpload(0, a.cleaned));
    } else {
      RecordSteps(s, a, found);
      EndAfterRecord(s, a, found);
      LeadsOn(s, t + [RecordKey(0)], RecordedStore(s, a, found), FailUpload(0, a.cleaned));
    }
  }

  lemma UnlinkedUploadIsARun(s: Store, a: Attempt, found: Option<int>)
    requires Goes(s, a, found) && FaultMet(a, found) == AfterUnlink && s.rows[found.value].key != a.key
    ensures Leads(s, UploadSteps(a, found), Uploaded(s, a, found).0)
  {
    NoteSteps(s, a, found);
    EndAfterUnlink(s, a, found);
    LeadsOn(s, NotedSteps(a, found), NotedStore(s, a, found), FailUpload(0, a.cleaned));
  }

  lemma CommittedUploadIsARun(s: Store, a: Attempt, found: Option<int>)
    requires Goes(s, a, found) && (FaultMet(a, found) == AfterCommit || FaultMet(a, found) == NoFault)
    requires found.Some? ==> s.rows[found.value].key != a.key
    ensures Leads(s, UploadSteps(a, found), Uploaded(s, a, found).0)
  {
    var t := NotedSteps(a, found) + [CommitUpload(0, a.newId, a.stamp)];
    var last := if FaultMet(a, found) == AfterCommit then FailUpload(0, a.cleaned) else Respond(0);
    CommitSteps(s, a, found);
    if FaultMet(a, found) == AfterCommit { EndAfterCommit(s, a, found); } else { EndWithAnswer(s, a, found); }
    LeadsOn(s, t, CommittedStore(s, a, found), last);
    assert UploadSteps(a, found) == t + [last];
  }

  /** An upload endpoint makes of a store what its steps make of it, one by one. */
  lemma UploadIsARun(s: Store, a: Attempt, found: Option<int>)
    requires Quiet(s) && Inv(s) && Ready(s, a, found)
    ensures Leads(s, UploadSteps(a, found), Uploaded(s, a, found).0)
  {
    assert found.Some? ==> s.rows[found.value].key != a.key;
    if IsDuplicate(a.request, found) || FaultMet(a, found) == BeforeSave {
      ShortUploadIsARun(s, a, found);
    } else {
      match FaultMet(a, found)
      case AfterUnlink => UnlinkedUploadIsARun(s, a, found);
      case BeforeRecord => EarlyFaultIsARun(s, a, found);
      case BeforeCommit => EarlyFaultIsARun(s, a, found);
      case AfterCommit => CommittedUploadIsARun(s, a, found);
      case NoFault => CommittedUploadIsARun(s, a, found);
    }
  }

  lemma UploadKeepsInv(s: Store, a: Attempt, found: Option<int>)
    requires Quiet(s) && Inv(s) && Ready(s, a, found)
    ensures Quiet(Uploaded(s, a, found).0) && Inv(Uploaded(s, a, found).0)
    ensures found.Some? ==> s.rows[found.value].key != a.key
  {
    UploadIsARun(s, a, found);
    RunKeepsInv(s, UploadSteps(a, found), Uploaded(s, a, found).0);
  }

  /** A delete endpoint likewise: it reads the row, and removes it or gives up. */
  lemma RemovalIsARun(s: Store, id: int, organization: int, fails: bool)
    requires Quiet(s) && Inv(s) && id in s.rows && s.rows[id].organization == organization
    ensures var steps := if s.rows[id].documentType == Invoice then [BeginDelete(0, id)]
                         else [BeginDelete(0, id), if fails then FailDelete(0) else CommitDelete(0, true)];
            Leads(s, steps, Removed(s, id, organization, fails).0)
  {
    var begin, last := BeginDelete(0, id), if fails then FailDelete(0) else CommitDelete(0, true);
    var m := Next(s, begin);
    LeadsOn(s, [], s, begin);
    assert [] + [begin] == [begin];
    if s.rows[id].documentType != Invoice {
      assert m.deletes == map[0 := Snapshot(id, s.rows[id].key)];
      LeadsOn(s, [begin], m, last);
      assert [begin] + [last] == [begin, last];
      assert Next(m, last).deletes == map[];
      assert Next(m, last) == Removed(s, id, organization, fails).0;
    }
  }

  lemma RemovalKeepsInv(s: Store, id: int, organization: int, fails: bool)
    requires Quiet(s) && Inv(s)
    ensures Quiet(Removed(s, id, organization, fails).0) && Inv(Removed(s, id, organization, fails).0)
  {
    if id in s.rows && s.rows[id].organization == organization {
      RemovalIsARun(s, id, organization, fails);
      RunKeepsInv(s, if s.rows[id].documentType == Invoice then [BeginDelete(0, id)]
                     else [BeginDelete(0, id), if fails then FailDelete(0) else CommitDelete(0, true)],
                  Removed(s, id, organization, fails).0);
    }
  }

  class Documents {
    var rows: map<int, Row>
    var files: set<int>
    var pending: multiset<int>
    ghost var usedKeys: set<int>
    ghost var usedIds: set<int>

    ghost function State(): Store
      reads this
    {
      Store(rows, files, pending, map[], map[], usedKeys, usedIds)
    }

    /** Every key that a row holds was handed out before. */
    ghost predicate Valid()
      reads this
    {
      forall i | i in rows :: rows[i].key in usedKeys
    }

    constructor ()
      ensures Valid() && State() == EMPTY
    {
      rows, files, pending, usedKeys, usedIds := map[], {}, multiset{}, {}, {};
    }

    /** `find_required_document_for_load`, asked for the singleton types of a load only. */
    method FindRequired(q: Request) returns (found: Option<int>)
      ensures IsAnswer(rows, q, found)
    {
      found := None;
      if !Limited(q) {
        return;
      }
      var ids := rows.Keys;
      while |ids| > 0
        invariant ids <= rows.Keys
        invariant found.None? ==> forall i | i in rows && i !in ids :: !InSlot(rows[i], q)
        invariant found.Some? ==> found.value in rows && InSlot(rows[found.value], q)
        invariant found.Some? ==>
          forall i | i in rows && i !in ids && InSlot(rows[i], q) :: !rows[i].stamp.NewerThan(rows[found.value].stamp)
        decreases ids
      {
        ghost var some := Pick(ids);
        var i :| i in ids;
        if InSlot(rows[i], q) && (found.None? || rows[i].stamp.NewerThan(rows[found.value].stamp)) {
          found := Some(i);
        }
        ids := ids - {i};
      }
    }

    /** The row change of an upload, and its commit. */
    method CommitRow(a: Attempt, found: Option<int>) returns (answer: Answer)
      requires found.Some? ==> found.value in rows
      modifies this`rows, this`usedIds
      ensures rows == CommittedRows(old(rows), a, found)
      ensures usedIds == if found.None? then old(usedIds) + {a.newId} else old(usedIds)
      ensures answer == if found.Some? then Replaced(found.value) else Created(a.newId)
    {
      if found.Some? {
        rows := rows[found.value := Refiled(rows[found.value], a.key, a.stamp)];
        answer := Replaced(found.value);
      } else {
        rows := rows[a.newId := Row(a.request.organization, a.request.load, a.request.documentType, a.key, a.stamp)];
        usedIds := usedIds + {a.newId};
        answer := Created(a.newId);
      }
    }

    /** `upload_document`: the replaced file is left for a deferred delete. */
    method UploadDocument(a: Attempt) returns (answer: Answer, found: Option<int>)
      requires Valid()
      requires a.key !in usedKeys && a.key !in files && a.newId !in usedIds && !a.request.byDriver
      modifies this
      ensures Valid() && Ready(old(State()), a, found)
      ensures (State(), answer) == Uploaded(old(State()), a, found)
    {
      found := FindRequired(a.request);
      CleanUndoesSave(files, a, {});
      if found.Some? && !a.request.replace {
        return Conflict, found;
      }
      if a.fault == BeforeSave {
        return Failed, found;
      }
      files := files + {a.key};
      usedKeys := usedKeys + {a.key};
      if a.fault == BeforeRecord {
        return Failed, found;
      }
      if a.fault == BeforeCommit {
        files := Clean(files, a);
        return Failed, found;
      }
      var replacedKey := if found.Some? then Some(rows[found.value].key) else None;
      answer := CommitRow(a, found);
      if a.fault == AfterCommit {
        files := Clean(files, a);
        assert old(files) - {} == old(files);
        return Failed, found;
      }
      if replacedKey.Some? && replacedKey.value != a.key {
        pending := pending + multiset{replacedKey.value};
      }
      assert old(files) - {} == old(files);
    }

    /** `upload_driver_document`: the replaced file goes before the commit. */
    method UploadDriverDocument(a: Attempt) returns (answer: Answer, found: Option<int>)
      requires Valid()
      requires a.key !in usedKeys && a.key !in files && a.newId !in usedIds && a.request.byDriver
      modifies this
      ensures Valid() && Ready(old(State()), a, found)
      ensures (State(), answer) == Uploaded(old(State()), a, found)
    {
      found := FindRequired(a.request);
      ghost var early := if found.Some? then {rows[found.value].key} else {};
      CleanUndoesSave(files, a, early);
      if found.Some? && !a.request.replace {
        return Conflict, found;
      }
      if a.fault == BeforeSave {
        return Failed, found;
      }
      files := files + {a.key};
      usedKeys := usedKeys + {a.key};
      if a.fault == BeforeRecord {
        return Failed, found;
      }
      if a.fault == BeforeCommit {
        files := Clean(files, a);
        return Failed, found;
      }
      if found.Some? {
        var replacedKey := rows[found.value].key;
        if replacedKey != a.key {
          files := files - {replacedKey};
        }
        if a.fault == AfterUnlink {
          files := Clean(files, a);
          return Failed, found;
        }
      }
      answer := CommitRow(a, found);
      assert files == (old(files) - early) + {a.key};
      if a.fault == AfterCommit {
        files := Clean(files, a);
        assert files == (old(files) - early) + (if a.cleaned then {} else {a.key});
        return Failed, found;
      }
    }

    method DeleteDocument(id: int, organization: int, fails: bool) returns (answer: Answer)
      requires Valid()
      modifies this
      ensures Valid()
      ensures (State(), answer) == Removed(old(State()), id, organization, fails)
    {
      if id !in rows || rows[id].organization != organization {
        return NotFound;
      }
      if rows[id].documentType == Invoice {
        return Conflict;
      }
      if fails {
        return Failed;
      }
      var storageKey := rows[id].key;
      rows := rows - {id};
      pending := pending + multiset{storageKey};
      return Deleted;
    }

    method RunDeferredStorageDelete(key: int, ok: bool)
      requires Valid() && key in pending
      modifies this
      ensures Valid()
      ensures State() == Next(old(State()), RunDeferredDelete(key, ok))
    {
      pending := pending - multiset{key};
      if ok {
        files := files - {key};
      }
    }
  }

  lemma CleanUndoesSave(files: set<int>, a: Attempt, early: set<int>)
    requires a.key !in files && a.key !in early
    ensures Clean((files + {a.key}) - early, a) == (files - early) + (if a.cleaned then {} else {a.key})
    ensures Clean(files + {a.key}, a) == files + (if a.cleaned then {} else {a.key})
  {
  }

  /** The failure handlers: delete the new file, if the file store lets them. */
  function Clean(files: set<int>, a: Attempt): set<int> {
    if a.cleaned then files - {a.key} else files
  }

  // ---------- requests one at a time ----------

  /** The two faults that cost a row its file: one after the commit, when the handler
      deletes the new file, and on the driver path one after the early delete. */
  predicate LosesFile(a: Attempt, found: Option<int>) {
    && !IsDuplicate(a.request, found)
    && ((FaultMet(a, found) == AfterCommit && a.cleaned) || FaultMet(a, found) == AfterUnlink)
  }

  /** An upload leaves every row with its file exactly when it meets neither. */
  lemma UploadKeepsFilesIff(s: Store, a: Attempt, found: Option<int>)
    requires Quiet(s) && Inv(s) && FilesOk(s) && Ready(s, a, found)
    ensures FilesOk(Uploaded(s, a, found).0) <==> !LosesFile(a, found)
  {
    if LosesFile(a, found) {
      var r := Uploaded(s, a, found).0;
      var i := if found.Some? then found.value else a.newId;
      assert i in r.rows && r.rows[i].key !in r.files;
    } else {
      UploadKeepsFiles(s, a, found);
    }
  }

  lemma UploadKeepsFiles(s: Store, a: Attempt, found: Option<int>)
    requires RowsOk(s) && FilesOk(s) && Ready(s, a, found) && !LosesFile(a, found)
    ensures FilesOk(Uploaded(s, a, found).0)
  {
    assert forall i | i in s.rows :: s.rows[i].key != a.key;
  }

  /** The upload is turned away, or fails where nothing it did has to be undone or all of
      it is: before its file is saved, or once the key is noted and before any other
      effect, if the clean-up succeeds. */
  predicate UndoneByHandler(a: Attempt, found: Option<int>) {
    || IsDuplicate(a.request, found)
    || FaultMet(a, found) == BeforeSave
    || (FaultMet(a, found) == BeforeCommit && a.cleaned)
  }

  /** An upload leaves rows, files and scheduled deletes as they were exactly then. */
  lemma LeavesNoTraceIff(s: Store, a: Attempt, found: Option<int>)
    requires Quiet(s) && Inv(s) && FilesOk(s) && Ready(s, a, found)
    ensures Uploaded(s, a, found).0.(usedKeys := s.usedKeys) == s <==> UndoneByHandler(a, found)
    ensures UndoneByHandler(a, found) ==> Uploaded(s, a, found).1 == Conflict || Uploaded(s, a, found).1 == Failed
  {
    var r := Uploaded(s, a, found).0;
    if UndoneByHandler(a, found) {
      assert s.files + {} == s.files;
    } else if FaultMet(a, found) == AfterUnlink {
      assert s.rows[found.value].key in s.files && s.rows[found.value].key !in r.files;
    } else if FaultMet(a, found) == NoFault || FaultMet(a, found) == AfterCommit {
      var i := if found.Some? then found.value else a.newId;
      assert i in r.rows && r.rows[i].key == a.key;
      assert i in s.rows ==> s.rows[i].key != a.key;
    } else {
      assert a.key in r.files && a.key !in s.files;
    }
  }

  /** Where slots are unique the row that a lookup answers is determined. */
  lemma AnswerIsUnique(rows: map<int, Row>, q: Request, found: Option<int>, other: Option<int>)
    requires RowsUnique(rows) && IsAnswer(rows, q, found) && IsAnswer(rows, q, other)
    ensures found == other
  {
  }

  lemma CommitKeepsUnique(rows: map<int, Row>, a: Attempt, found: Option<int>)
    requires RowsUnique(rows) && IsAnswer(rows, a.request, found) && (found.None? ==> a.newId !in rows)
    ensures RowsUnique(CommittedRows(rows, a, found))
  {
  }

  /** One at a time, uploads keep one document for each singleton type of a load. */
  lemma UploadKeepsSlots(s: Store, a: Attempt, found: Option<int>)
    requires RowsOk(s) && SlotsUnique(s) && Ready(s, a, found)
    ensures SlotsUnique(Uploaded(s, a, found).0)
  {
    CommitKeepsUnique(s.rows, a, found);
  }

  /** A completed replace changes the key of the one row it found and schedules, or has
      already done, the delete of the old file; a completed create adds one row. */
  lemma UploadChangesOneRow(s: Store, a: Attempt, found: Option<int>, i: int)
    requires Quiet(s) && Inv(s) && Ready(s, a, found) && a.fault == NoFault && !IsDuplicate(a.request, found)
    ensures var (r, answer) := Uploaded(s, a, found);
            && a.key in r.files
            && (found.Some? ==>
                  && answer == Replaced(found.value) && r.rows.Keys == s.rows.Keys
                  && SameSlot(r.rows[found.value], s.rows[found.value]) && r.rows[found.value].key == a.key
                  && r.rows[found.value].stamp == Stamp(a.stamp.received, s.rows[found.value].stamp.created)
                  && (i in s.rows && i != found.value ==> r.rows[i] == s.rows[i])
                  && (if a.request.byDriver then s.rows[found.value].key !in r.files
                      else r.pending == s.pending + multiset{s.rows[found.value].key}))
            && (found.None? ==>
                  && answer == Created(a.newId) && r.rows.Keys == s.rows.Keys + {a.newId}
                  && a.newId !in s.rows && InSlot(r.rows[a.newId], a.request) && r.rows[a.newId].key == a.key
                  && r.rows[a.newId].stamp == a.stamp
                  && (i in s.rows ==> r.rows[i] == s.rows[i]) && r.pending == s.pending)
  {
  }

  /** The row is of the request's organization, load and type, and the type one of the four of
      which a load keeps one. */
  predicate Fills(r: Row, q: Request) {
    && r.organization == q.organization && r.load.Some? && r.load == q.load && r.documentType == q.documentType
    && (|| r.documentType == RateConfirmation || r.documentType == BillOfLading
        || r.documentType == ProofOfDelivery || r.documentType == Invoice)
  }

  /** An upload is turned away exactly when such a row exists and it is not to be replaced;
      it replaces the latest such row, and adds one only where there is none. */
  lemma UploadAnswers(s: Store, a: Attempt, found: Option<int>)
    requires Ready(s, a, found)
    ensures var answer := Uploaded(s, a, found).1;
            && (answer == Conflict <==>
                  !a.request.replace && exists i | i in s.rows :: Fills(s.rows[i], a.request))
            && (answer.Created? ==> forall i | i in s.rows :: !Fills(s.rows[i], a.request))
            && (answer.Replaced? ==>
                  a.request.replace && answer.id in s.rows && Fills(s.rows[answer.id], a.request))
    ensures var answer := Uploaded(s, a, found).1;
            answer.Replaced? ==>
              forall j | j in s.rows && Fills(s.rows[j], a.request) ::
                var latest, other := s.rows[answer.id].stamp, s.rows[j].stamp;
                other.received < latest.received
                || (other.received == latest.received && other.created <= latest.created)
  {
    forall i | i in s.rows
      ensures Fills(s.rows[i], a.request) <==> Limited(a.request) && InSlot(s.rows[i], a.request)
    {
    }
  }

  datatype Op =
    | Add(attempt: Attempt, found: Option<int>)
    | Remove(id: int, organization: int, fails: bool)
    | Deferred(key: int, ok: bool)

  predicate CanDo(s: Store, op: Op) {
    match op
    case Add(a, found) => Ready(s, a, found)
    case Remove(_, _, _) => true
    case Deferred(key, _) => key in s.pending
  }

  function Do(s: Store, op: Op): Store
    requires CanDo(s, op)
  {
    match op
    case Add(a, found) => Uploaded(s, a, found).0
    case Remove(id, organization, fails) => Removed(s, id, organization, fails).0
    case Deferred(key, ok) => Next(s, RunDeferredDelete(key, ok))
  }

  /** The requests `ops`, one after another, lead from store a to store b. */
  ghost predicate Does(a: Store, ops: seq<Op>, b: Store)
    decreases |ops|
  {
    if ops == [] then b == a else CanDo(a, ops[0]) && Does(Do(a, ops[0]), ops[1..], b)
  }

  lemma OpKeepsInv(s: Store, op: Op)
    requires Quiet(s) && Inv(s) && CanDo(s, op)
    ensures Quiet(Do(s, op)) && Inv(Do(s, op))
  {
    match op
    case Add(a, found) => UploadKeepsInv(s, a, found);
    case Remove(id, organization, fails) => RemovalKeepsInv(s, id, organization, fails);
    case Deferred(key, ok) => StepKeepsInv(s, RunDeferredDelete(key, ok));
  }

  lemma OpKeepsSlots(s: Store, op: Op)
    requires RowsOk(s) && SlotsUnique(s) && CanDo(s, op)
    ensures SlotsUnique(Do(s, op))
  {
    if op.Add? { UploadKeepsSlots(s, op.attempt, op.found); }
  }

  lemma OpKeeps(s: Store, op: Op)
    requires Quiet(s) && Inv(s) && SlotsUnique(s) && CanDo(s, op)
    ensures Quiet(Do(s, op)) && Inv(Do(s, op)) && SlotsUnique(Do(s, op))
  {
    OpKeepsInv(s, op);
    OpKeepsSlots(s, op);
  }

  lemma OpKeepsFiles(s: Store, op: Op)
    requires Quiet(s) && Inv(s) && FilesOk(s) && CanDo(s, op)
    requires op.Add? ==> !LosesFile(op.attempt, op.found)
    ensures FilesOk(Do(s, op))
  {
    match op
    case Add(a, found) => UploadKeepsFilesIff(s, a, found);
    case Remove(id, organization, fails) =>
    case Deferred(key, ok) => FilesKept(s, RunDeferredDelete(key, ok));
  }

  /** Over any sequence of staff and driver uploads, deletes and deferred deletes, each
      failing wherever it may, a load has at most one document of a singleton type. */
  lemma {:induction false} SingletonsStaySingle(s: Store, ops: seq<Op>, b: Store)
    requires Quiet(s) && Inv(s) && SlotsUnique(s) && Does(s, ops, b)
    ensures Quiet(b) && Inv(b) && SlotsUnique(b)
    decreases |ops|
  {
    if ops != [] {
      OpKeeps(s, ops[0]);
      SingletonsStaySingle(Do(s, ops[0]), ops[1..], b);
    }
  }

  ghost predicate NoneLosesFile(ops: seq<Op>) {
    forall i | 0 <= i < |ops| && ops[i].Add? :: !LosesFile(ops[i].attempt, ops[i].found)
  }

  lemma NoneLosesFileLater(ops: seq<Op>)
    requires ops != [] && NoneLosesFile(ops)
    ensures NoneLosesFile(ops[1..]) && (ops[0].Add? ==> !LosesFile(ops[0].attempt, ops[0].found))
  {
  }

  /** Without one of the two losing faults every row keeps its file, driver replaces
      included. */
  lemma {:induction false} FilesStay(s: Store, ops: seq<Op>, b: Store)
    requires Quiet(s) && Inv(s) && SlotsUnique(s) && FilesOk(s) && Does(s, ops, b)
    requires NoneLosesFile(ops)
    ensures FilesOk(b)
    decreases |ops|
  {
    if ops != [] {
      NoneLosesFileLater(ops);
      OpKeeps(s, ops[0]);
      OpKeepsFiles(s, ops[0]);
      FilesStay(Do(s, ops[0]), ops[1..], b);
    }
  }

  lemma UploadKeepsInvoice(s: Store, a: Attempt, found: Option<int>, i: int)
    requires RowsOk(s) && Ready(s, a, found) && i in s.rows && s.rows[i].documentType == Invoice
    ensures i in Uploaded(s, a, found).0.rows && SameSlot(Uploaded(s, a, found).0.rows[i], s.rows[i])
  {
    assert a.newId !in s.rows;
    CommittedKeepsRow(s.rows, a, found, i);
    assert Uploaded(s, a, found).0.rows in {s.rows, CommittedRows(s.rows, a, found)};
  }

  lemma CommittedKeepsRow(rows: map<int, Row>, a: Attempt, found: Option<int>, i: int)
    requires (found.Some? ==> found.value in rows) && a.newId !in rows && i in rows
    ensures i in CommittedRows(rows, a, found) && SameSlot(CommittedRows(rows, a, found)[i], rows[i])
  {
  }

  lemma OpKeepsInvoice(s: Store, op: Op, i: int)
    requires RowsOk(s) && CanDo(s, op) && i in s.rows && s.rows[i].documentType == Invoice
    ensures i in Do(s, op).rows && SameSlot(Do(s, op).rows[i], s.rows[i])
  {
    match op
    case Add(a, found) => UploadKeepsInvoice(s, a, found, i);
    case Remove(id, organization, fails) =>
      assert Removed(s, id, organization, fails).0.rows in {s.rows, s.rows - {id}};
    case Deferred(key, ok) =>
  }

  /** An invoice row is never removed, and never becomes anything else. */
  lemma {:induction false} InvoicesStay(s: Store, ops: seq<Op>, b: Store, i: int)
    requires Quiet(s) && Inv(s) && SlotsUnique(s) && Does(s, ops, b)
    requires i in s.rows && s.rows[i].documentType == Invoice
    ensures i in b.rows && SameSlot(b.rows[i], s.rows[i])
    decreases |ops|
  {
    if ops != [] {
      OpKeeps(s, ops[0]);
      OpKeepsInvoice(s, ops[0], i);
      InvoicesStay(Do(s, ops[0]), ops[1..], b, i);
    }
  }

  // ---------- organizations are kept apart ----------

  /** The organization on whose behalf an operation runs; a deferred delete has none. */
  function ActsFor(op: Op): Option<int> {
    match op
    case Add(a, _) => Some(a.request.organization)
    case Remove(_, organization, _) => Some(organization)
    case Deferred(_, _) => None
  }

  /** A row leaves in one way only: its own organization deletes it, it is no invoice, and
      nothing fails. */
  lemma RemovedIff(s: Store, op: Op, i: int)
    requires RowsOk(s) && CanDo(s, op) && i in s.rows
    ensures i !in Do(s, op).rows <==>
              && op.Remove? && op.id == i && op.organization == s.rows[i].organization
              && s.rows[i].documentType != Invoice && !op.fails
  {
    if op.Add? { CommittedKeepsRow(s.rows, op.attempt, op.found, i); }
  }

  /** What a delete answers, and what it leaves of the store, in each case. */
  lemma DeleteAnswers(s: Store, id: int, organization: int, fails: bool)
    ensures var (r, answer) := Removed(s, id, organization, fails);
            && (answer == NotFound <==> !(id in s.rows && s.rows[id].organization == organization))
            && (answer == Conflict <==>
                  id in s.rows && s.rows[id].organization == organization && s.rows[id].documentType == Invoice)
            && (answer == Deleted <==> id in s.rows && id !in r.rows)
            && (answer != Deleted ==> r == s)
            && (answer == Deleted ==> r.pending == s.pending + multiset{s.rows[id].key} && r.files == s.files)
  {
  }

  /** A delete by another organization finds nothing and changes nothing. */
  lemma ForeignDeleteIsNotFound(s: Store, id: int, organization: int, fails: bool)
    requires id in s.rows && s.rows[id].organization != organization
    ensures Removed(s, id, organization, fails) == (s, NotFound)
  {
  }

  /** The row is as it was and its file is neither deleted nor scheduled to be. */
  predicate Untouched(s: Store, r: Store, i: int)
    requires i in s.rows
  {
    && i in r.rows && r.rows[i] == s.rows[i]
    && s.rows[i].key !in r.pending
    && (s.rows[i].key in s.files ==> s.rows[i].key in r.files)
  }

  /** No operation for one organization changes a row of another, schedules a delete of its
      file or deletes it. */
  lemma OthersUntouched(s: Store, op: Op, i: int)
    requires Quiet(s) && Inv(s) && CanDo(s, op) && i in s.rows && ActsFor(op) != Some(s.rows[i].organization)
    ensures Untouched(s, Do(s, op), i)
  {
    match op
    case Add(a, found) =>
      OpKeepsInv(s, op);
      OthersUntouchedByUpload(s, a, found, i);
    case Remove(id, organization, fails) => OthersUntouchedByDelete(s, id, organization, fails, i);
    case Deferred(key, ok) =>
  }

  lemma OthersUntouchedByDelete(s: Store, id: int, organization: int, fails: bool, i: int)
    requires RowsOk(s) && i in s.rows && s.rows[i].organization != organization
    ensures Untouched(s, Removed(s, id, organization, fails).0, i)
  {
    if id in s.rows && id != i { assert s.rows[id].key != s.rows[i].key; }
  }

  lemma OthersUntouchedByUpload(s: Store, a: Attempt, found: Option<int>, i: int)
    requires Quiet(s) && Inv(s) && Ready(s, a, found) && i in s.rows && s.rows[i].organization != a.request.organization
    ensures var r := Uploaded(s, a, found).0;
            && i in r.rows && r.rows[i] == s.rows[i]
            && (s.rows[i].key in s.files ==> s.rows[i].key in r.files)
  {
    assert found != Some(i) && a.newId != i && s.rows[i].key != a.key;
    assert found.Some? ==> s.rows[found.value].key != s.rows[i].key;
  }

  ghost predicate NoneActsFor(ops: seq<Op>, organization: int) {
    forall j | 0 <= j < |ops| :: ActsFor(ops[j]) != Some(organization)
  }

  lemma NoneActsForLater(ops: seq<Op>, organization: int)
    requires ops != [] && NoneActsFor(ops, organization)
    ensures NoneActsFor(ops[1..], organization) && ActsFor(ops[0]) != Some(organization)
  {
  }

  /** Over any sequence of operations none of which runs for it, an organization's rows stay
      as they are, with their files. */
  lemma {:induction false} OrganizationsAreApart(s: Store, ops: seq<Op>, b: Store, i: int)
    requires Quiet(s) && Inv(s) && Does(s, ops, b) && i in s.rows
    requires NoneActsFor(ops, s.rows[i].organization)
    ensures i in b.rows && b.rows[i] == s.rows[i] && (s.rows[i].key in s.files ==> s.rows[i].key in b.files)
    decreases |ops|
  {
    if ops != [] {
      OpKeepsInv(s, ops[0]);
      NoneActsForLater(ops, s.rows[i].organization);
      OthersUntouched(s, ops[0], i);
      OrganizationsAreApart(Do(s, ops[0]), ops[1..], b, i);
    }
  }

  // ---------- what the code does not promise ----------

  const STAMP := Stamp(0, 0)

  /** An upload that fails after its file is saved but before the key is noted keeps the
      file although no row names it and nothing is scheduled, clean-up or not. */
  lemma UnnotedKeyLeaksFile(byDriver: bool, cleaned: bool)
    ensures exists a: Attempt ::
              && a.request.byDriver == byDriver && a.cleaned == cleaned && Ready(EMPTY, a, None)
              && var (r, answer) := Uploaded(EMPTY, a, None);
                 answer == Failed && r.rows == map[] && r.files == {a.key} && r.pending == multiset{}
  {
    var a := Attempt(Request(1, None, AnyOther("other"), false, byDriver), 10, 20, STAMP, BeforeRecord, cleaned);
    var (r, answer) := Uploaded(EMPTY, a, None);
    assert answer == Failed && r.rows == map[] && r.files == {10};
  }

  /** A driver's upload that fails just after its commit leaves a row without a file. */
  lemma PostCommitFaultLosesFile()
    ensures exists a: Attempt ::
              a.request.byDriver && Ready(EMPTY, a, None) && !FilesOk(Uploaded(EMPTY, a, None).0)
  {
    var a := Attempt(Request(1, None, AnyOther("other"), false, true), 10, 20, STAMP, AfterCommit, true);
    var r := Uploaded(EMPTY, a, None).0;
    assert r.rows[20].key == 10 && r.files == {};
  }

  /** A driver's replace that fails after deleting the old file does the same. */
  lemma DriverFaultLosesFile(s: Store, b: Attempt)
    requires s == Store(map[20 := Row(1, Some(2), ProofOfDelivery, 10, STAMP)], {10}, multiset{}, map[], map[],
                        {10}, {20})
    requires b == Attempt(Request(1, Some(2), ProofOfDelivery, true, true), 11, 21, STAMP, AfterUnlink, true)
    ensures exists ops :: Does(EMPTY, ops, s)
    ensures Ready(s, b, Some(20)) && !FilesOk(Uploaded(s, b, Some(20)).0)
  {
    var first := Add(Attempt(b.request, 10, 20, STAMP, NoFault, true), None);
    assert Do(EMPTY, first) == s;
    assert Does(s, [], s) && [first][1..] == [];
    assert Does(EMPTY, [first], s);
    assert 20 in Uploaded(s, b, Some(20)).0.rows;
  }

  /** Two uploads that both look before either commits fill one slot twice. */
  lemma RacingUploadsDuplicate()
    ensures exists t: seq<Step>, s: Store :: Leads(EMPTY, t, s) && !SlotsUnique(s)
  {
    var q := Request(1, Some(2), BillOfLading, false, false);
    var s := EMPTY.(uploads := map[0 := Upload(q, None, Looked)]);
    var t := Extend([], EMPTY, BeginUpload(0, q, None), s);
    var s1 := s.(uploads := map[0 := Upload(q, None, Looked), 1 := Upload(q, None, Looked)]);
    t := Extend(t, s, BeginUpload(1, q, None), s1);
    RacingFirstUpload(t, q, s1);
  }

  lemma RacingFirstUpload(t: seq<Step>, q: Request, s: Store)
    requires q == Request(1, Some(2), BillOfLading, false, false)
    requires s == EMPTY.(uploads := map[0 := Upload(q, None, Looked), 1 := Upload(q, None, Looked)])
    requires Leads(EMPTY, t, s)
    ensures exists t: seq<Step>, s: Store :: Leads(EMPTY, t, s) && !SlotsUnique(s)
  {
    var s1 := s.(files := {10}, usedKeys := {10}, uploads := s.uploads[0 := Upload(q, None, Stored(10))]);
    var t1 := Extend(t, s, SaveFile(0, 10), s1);
    var s2 := s1.(uploads := s.uploads[0 := Upload(q, None, Recorded(10))]);
    var t2 := Extend(t1, s1, RecordKey(0), s2);
    RacingFirstCommit(t2, q, s2);
  }

  lemma RacingFirstCommit(t: seq<Step>, q: Request, s: Store)
    requires q == Request(1, Some(2), BillOfLading, false, false)
    requires s == EMPTY.(files := {10}, usedKeys := {10},
                         uploads := map[0 := Upload(q, None, Recorded(10)), 1 := Upload(q, None, Looked)])
    requires Leads(EMPTY, t, s)
    ensures exists t: seq<Step>, s: Store :: Leads(EMPTY, t, s) && !SlotsUnique(s)
  {
    var s1 := s.(rows := map[20 := Row(1, Some(2), BillOfLading, 10, STAMP)], usedIds := {20},
                 uploads := map[0 := Upload(q, None, Committed(10)), 1 := Upload(q, None, Looked)]);
    var t1 := Extend(t, s, CommitUpload(0, 20, STAMP), s1);
    RacingSecondUpload(t1, q, s1);
  }

  lemma RacingSecondUpload(t: seq<Step>, q: Request, s: Store)
    requires q == Request(1, Some(2), BillOfLading, false, false)
    requires s == Store(map[20 := Row(1, Some(2), BillOfLading, 10, STAMP)], {10}, multiset{},
                        map[0 := Upload(q, None, Committed(10)), 1 := Upload(q, None, Looked)], map[], {10}, {20})
    requires Leads(EMPTY, t, s)
    ensures exists t: seq<Step>, s: Store :: Leads(EMPTY, t, s) && !SlotsUnique(s)
  {
    var uploads := map[0 := Upload(q, None, Committed(10)), 1 := Upload(q, None, Stored(11))];
    var s1 := s.(files := {10, 11}, usedKeys := {10, 11}, uploads := uploads);
    assert s.uploads[1 := Upload(q, None, Stored(11))] == uploads;
    var t1 := Extend(t, s, SaveFile(1, 11), s1);
    RacingSecondCommit(t1, q, s1);
  }

  lemma RacingSecondCommit(t: seq<Step>, q: Request, s: Store)
    requires q == Request(1, Some(2), BillOfLading, false, false)
    requires s == Store(map[20 := Row(1, Some(2), BillOfLading, 10, STAMP)], {10, 11}, multiset{},
                        map[0 := Upload(q, None, Committed(10)), 1 := Upload(q, None, Stored(11))], map[],
                        {10, 11}, {20})
    requires Leads(EMPTY, t, s)
    ensures exists t: seq<Step>, s: Store :: Leads(EMPTY, t, s) && !SlotsUnique(s)
  {
    var s2 := s.(uploads := map[0 := Upload(q, None, Committed(10)), 1 := Upload(q, None, Recorded(11))]);
    var t2 := Extend(t, s, RecordKey(1), s2);
    var s3 := Next(s2, CommitUpload(1, 21, STAMP));
    var t3 := Extend(t2, s2, CommitUpload(1, 21, STAMP), s3);
    assert 20 in s3.rows && 21 in s3.rows && SameSlot(s3.rows[20], s3.rows[21]);
  }

  lemma Extend(t: seq<Step>, s: Store, e: Step, s': Store) returns (t': seq<Step>)
    requires Leads(EMPTY, t, s) && Enabled(s, e) && Next(s, e) == s'
    ensures Leads(EMPTY, t', s')
  {
    LeadsOn(EMPTY, t, s, e);
    t' := t + [e];
  }
}
