/** What becomes of the files behind backend/app/api/v1/documents.py: when a row's file
    is missing only for a while, and which steps leave a file that nothing owns. */
module DocumentFiles {
  import opened Text
  import opened DocumentStore
  import opened DocumentEndpoints

  // ---------- rows whose file is gone only until a commit ----------

  /** Some driver upload has deleted the file under key k and is about to replace it. */
  ghost predicate Promised(s: Store, k: int) {
    exists u :: IsPromise(s, k, u)
  }

  predicate IsPromise(s: Store, k: int, u: int) {
    u in s.uploads && s.uploads[u].stage.Unlinked? && s.uploads[u].found.Some? && s.uploads[u].found.value.key == k
  }

  /** Every row's file exists, or is about to be replaced by a driver upload. */
  ghost predicate FilesCovered(s: Store) {
    forall i | i in s.rows :: RowCovered(s, i)
  }

  ghost predicate RowCovered(s: Store, i: int)
    requires i in s.rows
  {
    s.rows[i].key in s.files || Promised(s, s.rows[i].key)
  }

  /** The key whose file, or whose promised replacement, a failing upload takes away. */
  function KeyGivenUp(up: Upload, cleaned: bool): Option<int> {
    match up.stage
    case Committed(key) => if cleaned then Some(key) else None
    case Unlinked(_) => if up.found.Some? then Some(up.found.value.key) else None
    case _ => None
  }

  /** The step is a failure after a commit or after an early delete, and it leaves a row
      with neither a file nor another upload about to give it one. */
  ghost predicate Strands(s: Store, e: Step) {
    && e.FailUpload? && e.u in s.uploads
    && var k := KeyGivenUp(s.uploads[e.u], e.cleaned);
       && k.Some? && (exists i :: LiveAt(s, k.value, i))
       && !(k.value in s.files && s.uploads[e.u].stage.Unlinked?)
       && forall v | v != e.u :: !IsPromise(s, k.value, v)
  }

  lemma PromiseStays(s: Store, e: Step, k: int, u: int)
    requires Enabled(s, e) && IsPromise(s, k, u)
    requires !(e.CommitUpload? && e.u == u) && !(e.FailUpload? && e.u == u)
    ensures IsPromise(Next(s, e), k, u)
  {
  }

  /** A step leaves every row covered exactly when it strands none. */
  lemma FilesCoveredIff(s: Store, e: Step)
    requires Inv(s) && FilesCovered(s) && Enabled(s, e)
    ensures FilesCovered(Next(s, e)) <==> !Strands(s, e)
  {
    if Strands(s, e) {
      StrandedIsUncovered(s, e);
    } else {
      forall i | i in Next(s, e).rows ensures RowCovered(Next(s, e), i) {
        RowStaysCovered(s, e, i);
      }
    }
  }

  lemma StrandedIsUncovered(s: Store, e: Step)
    requires Inv(s) && Enabled(s, e) && Strands(s, e)
    ensures !FilesCovered(Next(s, e))
  {
    var s', k := Next(s, e), KeyGivenUp(s.uploads[e.u], e.cleaned).value;
    var i :| LiveAt(s, k, i);
    assert i in s'.rows && s'.rows[i].key == k && k !in s'.files;
    forall v ensures !IsPromise(s', k, v) {
      assert IsPromise(s', k, v) ==> v != e.u && IsPromise(s, k, v);
    }
  }

  lemma RowStaysCovered(s: Store, e: Step, i: int)
    requires Inv(s) && FilesCovered(s) && Enabled(s, e) && !Strands(s, e) && i in Next(s, e).rows
    ensures RowCovered(Next(s, e), i)
  {
    var s' := Next(s, e);
    var k := s'.rows[i].key;
    if e.CommitUpload? && !(i in s.rows && s.rows[i].key == k) {
      assert k == s.uploads[e.u].stage.key;
    } else {
      assert LiveAt(s, k, i);
      if k in s.files {
        KeptOrPromised(s, e, i);
      } else {
        var u :| IsPromise(s, k, u);
        if e.FailUpload? && e.u == u {
          var v :| v != u && IsPromise(s, k, v);
          PromiseStays(s, e, k, v);
        } else {
          PromiseStays(s, e, k, u);
        }
      }
    }
  }

  /** A row whose key stays keeps its file, unless a driver upload takes it early or a
      late failure takes it from a row that has been promised another. */
  lemma KeptOrPromised(s: Store, e: Step, i: int)
    requires Inv(s) && Enabled(s, e) && !Strands(s, e) && i in s.rows && i in Next(s, e).rows
    requires Next(s, e).rows[i].key == s.rows[i].key && s.rows[i].key in s.files
    ensures RowCovered(Next(s, e), i)
  {
    var s', k := Next(s, e), s.rows[i].key;
    assert LiveAt(s, k, i);
    if e.UnlinkOld? && s.uploads[e.u].found.value.key == k {
      assert IsPromise(s', k, e.u);
    } else if e.FailUpload? && KeyGivenUp(s.uploads[e.u], e.cleaned) == Some(k) && s.uploads[e.u].stage.Committed? {
      var v :| v != e.u && IsPromise(s, k, v);
      PromiseStays(s, e, k, v);
    }
  }

  ghost predicate StrandsNothing(a: Store, t: seq<Step>)
    decreases |t|
  {
    t != [] && Enabled(a, t[0]) ==> !Strands(a, t[0]) && StrandsNothing(Next(a, t[0]), t[1..])
  }

  lemma {:induction false} RunKeepsCovered(a: Store, t: seq<Step>, b: Store)
    requires Inv(a) && FilesCovered(a) && Leads(a, t, b) && StrandsNothing(a, t)
    ensures FilesCovered(b)
    decreases |t|
  {
    if t != [] {
      StepKeepsInv(a, t[0]);
      FilesCoveredIff(a, t[0]);
      RunKeepsCovered(Next(a, t[0]), t[1..], b);
    }
  }

  /** However staff and driver uploads, replaces and deletes are interleaved: if no failure
      strands a row, every row's file exists or is about to be replaced, and it exists
      whenever no driver upload is between its early delete and its commit. */
  lemma DriverStorageIntegrity(t: seq<Step>, s: Store)
    requires Leads(EMPTY, t, s) && StrandsNothing(EMPTY, t)
    ensures FilesCovered(s)
    ensures (forall u | u in s.uploads :: !s.uploads[u].stage.Unlinked?) ==> FilesOk(s)
  {
    RunKeepsCovered(EMPTY, t, s);
    if forall u | u in s.uploads :: !s.uploads[u].stage.Unlinked? {
      forall i | i in s.rows ensures s.rows[i].key in s.files {
        assert RowCovered(s, i);
      }
    }
  }

  // ---------- files that nothing owns ----------

  /** The upload has stored the file, or has replaced it and will schedule its delete. */
  predicate HeldBy(s: Store, k: int, u: int) {
    && u in s.uploads
    && var up := s.uploads[u];
       (up.HasKey() && up.stage.key == k)
       || (up.stage.Committed? && up.found.Some? && !up.request.byDriver && up.found.value.key == k)
  }

  /** A row names the file, a delete of it is scheduled, or an upload still has it in hand. */
  ghost predicate Owned(s: Store, k: int) {
    (exists i :: LiveAt(s, k, i)) || k in s.pending || (exists u :: HeldBy(s, k, u))
  }

  ghost predicate NoOrphans(s: Store) {
    forall k | k in s.files :: Owned(s, k)
  }

  /** The keys of which a row, a scheduled delete or an upload lets go in the step. */
  function LetGo(s: Store, e: Step): set<int>
    requires Enabled(s, e)
  {
    match e
    case FailUpload(u, _) =>
      var up := s.uploads[u];
      (if up.HasKey() then {up.stage.key} else {})
      + (if up.stage.Committed? && up.found.Some? then {up.found.value.key} else {})
    case Respond(u) => {s.uploads[u].stage.key}
    case CommitUpload(u, _, _) =>
      if s.uploads[u].found.Some? then {s.rows[s.uploads[u].found.value.id].key} else {}
    case CommitDelete(d, _) => if s.deletes[d].id in s.rows then {s.rows[s.deletes[d].id].key} else {}
    case RunDeferredDelete(key, _) => {key}
    case _ => {}
  }

  lemma RowOwnerStays(s: Store, e: Step, k: int, i: int)
    requires Inv(s) && Enabled(s, e) && LiveAt(s, k, i) && k !in LetGo(s, e)
    ensures LiveAt(Next(s, e), k, i)
  {
  }

  lemma ScheduleStays(s: Store, e: Step, k: int)
    requires Enabled(s, e) && k in s.pending && k !in LetGo(s, e)
    ensures k in Next(s, e).pending
  {
  }

  lemma HolderStays(s: Store, e: Step, k: int, u: int)
    requires Enabled(s, e) && HeldBy(s, k, u) && k !in LetGo(s, e)
    ensures HeldBy(Next(s, e), k, u) || k in Next(s, e).pending
  {
  }

  lemma OwnerStays(s: Store, e: Step, k: int)
    requires Inv(s) && Enabled(s, e) && Owned(s, k) && k !in LetGo(s, e)
    ensures Owned(Next(s, e), k)
  {
    if i :| LiveAt(s, k, i) {
      RowOwnerStays(s, e, k, i);
    } else if k in s.pending {
      ScheduleStays(s, e, k);
    } else {
      var u :| HeldBy(s, k, u);
      HolderStays(s, e, k, u);
    }
  }

  // What is known before a step about the file of which it lets go.

  /** The step does not delete the file. */
  predicate FileStays(s: Store, e: Step, k: int)
    requires Enabled(s, e)
  {
    && k in s.files
    && match e
       case FailUpload(u, cleaned) =>
         var stage := s.uploads[u].stage;
         !(cleaned && (stage.Recorded? || stage.Unlinked? || stage.Committed?) && stage.key == k)
       case RunDeferredDelete(_, ok) => !ok
       case _ => true
  }

  /** A row names the file that the step neither replaces nor removes. */
  ghost predicate OtherRow(s: Store, e: Step, k: int)
    requires Enabled(s, e)
  {
    exists i :: LiveAt(s, k, i) && !ChangesRow(s, e, i)
  }

  predicate ChangesRow(s: Store, e: Step, i: int)
    requires Enabled(s, e)
  {
    match e
    case CommitUpload(u, _, _) => s.uploads[u].found.Some? && s.uploads[u].found.value.id == i
    case CommitDelete(d, _) => s.deletes[d].id == i
    case _ => false
  }

  /** A delete of the file is scheduled besides the one that runs, or gets scheduled. */
  predicate OtherSchedule(s: Store, e: Step, k: int)
    requires Enabled(s, e)
  {
    match e
    case RunDeferredDelete(_, _) => s.pending[k] > 1
    case CommitDelete(d, responds) => k in s.pending || (responds && s.deletes[d].key == k)
    case Respond(u) => k in s.pending || ReplacesForStaff(s.uploads[u], k)
    case _ => k in s.pending
  }

  predicate ReplacesForStaff(up: Upload, k: int) {
    up.found.Some? && !up.request.byDriver && up.found.value.key == k
  }

  /** An upload has the file in hand besides the one that steps, or takes it in hand: a
      staff replace does so at its commit with the file that it had found. */
  ghost predicate OtherHolder(s: Store, e: Step, k: int)
    requires Enabled(s, e)
  {
    || (exists v :: HeldBy(s, k, v) && !StepsItself(e, v))
    || (e.CommitUpload? && ReplacesForStaff(s.uploads[e.u], k))
  }

  predicate StepsItself(e: Step, v: int) {
    (e.FailUpload? || e.Respond? || e.CommitUpload?) && e.u == v
  }

  /** The step lets go of a file that stays and that nothing else owns. */
  ghost predicate Orphans(s: Store, e: Step, k: int)
    requires Enabled(s, e)
  {
    k in LetGo(s, e) && FileStays(s, e, k) && !OtherRow(s, e, k) && !OtherSchedule(s, e, k) && !OtherHolder(s, e, k)
  }

  lemma FileStaysIff(s: Store, e: Step, k: int)
    requires Enabled(s, e) && k in LetGo(s, e)
    ensures k in Next(s, e).files <==> FileStays(s, e, k)
  {
  }

  lemma OtherRowIff(s: Store, e: Step, k: int)
    requires Inv(s) && Enabled(s, e) && k in LetGo(s, e)
    ensures (exists i :: LiveAt(Next(s, e), k, i)) <==> OtherRow(s, e, k)
  {
    var s' := Next(s, e);
    if i :| LiveAt(s', k, i) {
      assert LiveAt(s, k, i) && !ChangesRow(s, e, i);
    }
    if i :| LiveAt(s, k, i) && !ChangesRow(s, e, i) {
      assert LiveAt(s', k, i);
    }
  }

  lemma OtherScheduleIff(s: Store, e: Step, k: int)
    requires Enabled(s, e) && k in LetGo(s, e)
    ensures k in Next(s, e).pending <==> OtherSchedule(s, e, k)
  {
  }

  lemma OtherHolderIff(s: Store, e: Step, k: int)
    requires Inv(s) && Enabled(s, e) && k in LetGo(s, e)
    ensures (exists v :: HeldBy(Next(s, e), k, v)) <==> OtherHolder(s, e, k)
  {
    var s' := Next(s, e);
    if v :| HeldBy(s', k, v) {
      if !StepsItself(e, v) { assert HeldBy(s, k, v); }
    }
    if v :| HeldBy(s, k, v) && !StepsItself(e, v) {
      assert HeldBy(s', k, v);
    }
    if e.CommitUpload? && ReplacesForStaff(s.uploads[e.u], k) {
      assert HeldBy(s', k, e.u);
    }
  }

  lemma OrphanIff(s: Store, e: Step, k: int)
    requires Inv(s) && Enabled(s, e) && k in LetGo(s, e)
    ensures k in Next(s, e).files && !Owned(Next(s, e), k) <==> Orphans(s, e, k)
  {
    FileStaysIff(s, e, k);
    OtherRowIff(s, e, k);
    OtherScheduleIff(s, e, k);
    OtherHolderIff(s, e, k);
  }

  lemma NewFileIsHeld(s: Store, e: Step, k: int)
    requires Enabled(s, e) && k in Next(s, e).files && k !in s.files
    ensures Owned(Next(s, e), k)
  {
    assert HeldBy(Next(s, e), k, e.u);
  }

  /** A step leaves every file with an owner exactly when it orphans none, which is seen
      from the store before it. */
  lemma NoOrphansIff(s: Store, e: Step)
    requires Inv(s) && NoOrphans(s) && Enabled(s, e)
    ensures NoOrphans(Next(s, e)) <==> forall k :: !Orphans(s, e, k)
  {
    var s' := Next(s, e);
    forall k | Orphans(s, e, k) ensures k in s'.files && !Owned(s', k) {
      OrphanIff(s, e, k);
    }
    if forall k :: !Orphans(s, e, k) {
      forall k | k in s'.files ensures Owned(s', k) {
        if k !in s.files {
          NewFileIsHeld(s, e, k);
        } else if k in LetGo(s, e) {
          OrphanIff(s, e, k);
        } else {
          OwnerStays(s, e, k);
        }
      }
    }
  }

  ghost predicate OrphansNothing(a: Store, t: seq<Step>)
    decreases |t|
  {
    t != [] && Enabled(a, t[0]) ==> (forall k :: !Orphans(a, t[0], k)) && OrphansNothing(Next(a, t[0]), t[1..])
  }

  lemma {:induction false} RunKeepsOwners(a: Store, t: seq<Step>, b: Store)
    requires Inv(a) && NoOrphans(a) && Leads(a, t, b) && OrphansNothing(a, t)
    ensures NoOrphans(b)
    decreases |t|
  {
    if t != [] {
      StepKeepsInv(a, t[0]);
      NoOrphansIff(a, t[0]);
      RunKeepsOwners(Next(a, t[0]), t[1..], b);
    }
  }

  /** In every interleaved run without such a step each file has an owner, and between
      requests each is a row's or scheduled to be deleted. */
  lemma EveryFileIsOwned(t: seq<Step>, s: Store)
    requires Leads(EMPTY, t, s) && OrphansNothing(EMPTY, t)
    ensures NoOrphans(s)
    ensures Quiet(s) ==> forall k | k in s.files :: k in s.pending || exists i :: LiveAt(s, k, i)
  {
    RunKeepsOwners(EMPTY, t, s);
    if Quiet(s) { AccountedAtRest(s); }
  }

  /** One at a time, an operation leaks a file if an upload fails with its file saved and
      not cleaned up, if a staff replace fails after its commit and so never schedules the
      old file's delete, or if the last scheduled delete of a file fails. */
  predicate Leaks(s: Store, op: Op) {
    match op
    case Add(a, found) =>
      && !IsDuplicate(a.request, found)
      && (match FaultMet(a, found)
          case BeforeRecord => true
          case BeforeCommit => !a.cleaned
          case AfterUnlink => !a.cleaned
          case AfterCommit => found.Some? && !a.request.byDriver
          case BeforeSave => false
          case NoFault => false)
    case Remove(_, _, _) => false
    case Deferred(key, ok) => !ok && key in s.files && s.pending[key] == 1
  }

  /** Every file is a row's or scheduled to be deleted. */
  ghost predicate FilesAccounted(s: Store) {
    forall k | k in s.files :: k in s.pending || exists i :: LiveAt(s, k, i)
  }

  /** Between requests that is to say that no file is without an owner. */
  lemma AccountedAtRest(s: Store)
    requires Quiet(s)
    ensures FilesAccounted(s) <==> NoOrphans(s)
  {
    assert forall k, u :: !HeldBy(s, k, u);
  }

  lemma UploadAccountsIff(s: Store, a: Attempt, found: Option<int>)
    requires Quiet(s) && Inv(s) && FilesOk(s) && FilesAccounted(s) && Ready(s, a, found)
    ensures FilesAccounted(Uploaded(s, a, found).0) <==> !Leaks(s, Add(a, found))
  {
    var r := Uploaded(s, a, found).0;
    if Leaks(s, Add(a, found)) {
      UploadLeaks(s, a, found);
    } else {
      UploadAccounts(s, a, found);
    }
  }

  lemma UploadLeaks(s: Store, a: Attempt, found: Option<int>)
    requires Quiet(s) && Inv(s) && FilesOk(s) && Ready(s, a, found) && Leaks(s, Add(a, found))
    ensures !FilesAccounted(Uploaded(s, a, found).0)
  {
    var r := Uploaded(s, a, found).0;
    var k := if FaultMet(a, found) == AfterCommit then s.rows[found.value].key else a.key;
    UploadKeepsInv(s, a, found);
    assert k in r.files && k !in r.pending;
    forall i ensures !LiveAt(r, k, i) {
    }
  }

  lemma UploadAccounts(s: Store, a: Attempt, found: Option<int>)
    requires Quiet(s) && Inv(s) && FilesAccounted(s) && Ready(s, a, found) && !Leaks(s, Add(a, found))
    ensures FilesAccounted(Uploaded(s, a, found).0)
  {
    var r := Uploaded(s, a, found).0;
    forall k | k in r.files ensures k in r.pending || exists i :: LiveAt(r, k, i) {
      if k == a.key {
        assert LiveAt(r, k, if found.Some? then found.value else a.newId);
      } else if i :| LiveAt(s, k, i) {
        if i in r.rows && r.rows[i].key == k { assert LiveAt(r, k, i); }
      }
    }
  }

  /** Between requests, an operation keeps every file accounted for exactly when it leaks none. */
  lemma FilesAccountedIff(s: Store, op: Op)
    requires Quiet(s) && Inv(s) && FilesOk(s) && FilesAccounted(s) && CanDo(s, op)
    ensures FilesAccounted(Do(s, op)) <==> !Leaks(s, op)
  {
    if op.Add? {
      UploadAccountsIff(s, op.attempt, op.found);
    } else if Leaks(s, op) {
      assert forall i :: !LiveAt(s, op.key, i);
      assert op.key in Do(s, op).files && op.key !in Do(s, op).pending;
    } else {
      OthersAccount(s, op);
    }
  }

  lemma OthersAccount(s: Store, op: Op)
    requires FilesAccounted(s) && CanDo(s, op) && !op.Add? && !Leaks(s, op)
    ensures FilesAccounted(Do(s, op))
  {
    var r := Do(s, op);
    forall k | k in r.files ensures k in r.pending || exists i :: LiveAt(r, k, i) {
      if i :| LiveAt(s, k, i) {
        if i in r.rows { assert LiveAt(r, k, i); }
      }
    }
  }

  /** No operation of the sequence leaks a file or takes a row's file. */
  ghost predicate Careful(s: Store, ops: seq<Op>)
    decreases |ops|
  {
    ops != [] && CanDo(s, ops[0]) ==>
      && !Leaks(s, ops[0])
      && (ops[0].Add? ==> !LosesFile(ops[0].attempt, ops[0].found))
      && Careful(Do(s, ops[0]), ops[1..])
  }

  lemma {:induction false} CarefulKeepsFiles(s: Store, ops: seq<Op>, b: Store)
    requires Quiet(s) && Inv(s) && FilesOk(s) && FilesAccounted(s) && Does(s, ops, b) && Careful(s, ops)
    ensures FilesOk(b) && FilesAccounted(b)
    decreases |ops|
  {
    if ops != [] {
      OpKeepsInv(s, ops[0]);
      OpKeepsFiles(s, ops[0]);
      FilesAccountedIff(s, ops[0]);
      CarefulKeepsFiles(Do(s, ops[0]), ops[1..], b);
    }
  }

  function RowKeys(s: Store): set<int> {
    set i | i in s.rows :: s.rows[i].key
  }

  lemma AccountedKeys(s: Store)
    requires FilesOk(s) && FilesAccounted(s)
    ensures RowKeys(s) <= s.files && forall k | k in s.files :: k in s.pending || k in RowKeys(s)
  {
    forall k | k in s.files && k !in s.pending ensures k in RowKeys(s) {
      var i :| LiveAt(s, k, i);
      assert s.rows[i].key in RowKeys(s);
    }
  }

  /** After any such sequence every row has its file, and each other file is scheduled to
      be deleted; once nothing is scheduled the files are exactly the rows' files. */
  lemma FilesAreTheRows(ops: seq<Op>, s: Store)
    requires Does(EMPTY, ops, s) && Careful(EMPTY, ops)
    ensures RowKeys(s) <= s.files && forall k | k in s.files :: k in s.pending || k in RowKeys(s)
    ensures s.pending == multiset{} ==> s.files == RowKeys(s)
  {
    CarefulKeepsFiles(EMPTY, ops, s);
    AccountedKeys(s);
  }

  // ---------- a delete that overtakes a replace ----------

  predicate Fails(e: Step) {
    e.FailUpload? || e.FailDelete? || (e.CommitDelete? && !e.responds) || (e.RunDeferredDelete? && !e.ok)
  }

  ghost predicate NothingFails(t: seq<Step>) {
    forall i | 0 <= i < |t| :: !Fails(t[i])
  }

  lemma Onward(t: seq<Step>, s: Store, e: Step, s': Store) returns (t': seq<Step>)
    requires Leads(EMPTY, t, s) && NothingFails(t) && !Fails(e) && Enabled(s, e) && Next(s, e) == s'
    ensures Leads(EMPTY, t', s') && NothingFails(t')
  {
    LeadsOn(EMPTY, t, s, e);
    t' := t + [e];
  }

  const ROW := Row(1, Some(2), BillOfLading, 10, STAMP)
  const REPLACE := Request(1, Some(2), BillOfLading, true, false)
  const READ := Snapshot(20, 10)

  lemma CompleteStepsDoNotFail(a: Attempt, found: Option<int>)
    requires a.fault == NoFault
    ensures NothingFails(UploadSteps(a, found))
  {
  }

  lemma FirstUpload(a: Attempt)
    requires a == Attempt(REPLACE, 10, 20, STAMP, NoFault, true)
    ensures Ready(EMPTY, a, None)
    ensures Uploaded(EMPTY, a, None).0 == Store(map[20 := ROW], {10}, multiset{}, map[], map[], {10}, {20})
  {
  }

  lemma StoredDocument() returns (t: seq<Step>, s: Store)
    ensures Leads(EMPTY, t, s) && NothingFails(t)
    ensures s == Store(map[20 := ROW], {10}, multiset{}, map[], map[], {10}, {20})
  {
    var a := Attempt(REPLACE, 10, 20, STAMP, NoFault, true);
    FirstUpload(a);
    UploadIsARun(EMPTY, a, None);
    CompleteStepsDoNotFail(a, None);
    t, s := UploadSteps(a, None), Uploaded(EMPTY, a, None).0;
  }

  lemma ReplacementLooked(t: seq<Step>, s: Store) returns (t': seq<Step>, s': Store)
    requires Leads(EMPTY, t, s) && NothingFails(t)
    requires s == Store(map[20 := ROW], {10}, multiset{}, map[], map[0 := READ], {10}, {20})
    ensures Leads(EMPTY, t', s') && NothingFails(t')
    ensures s' == s.(uploads := map[0 := Upload(REPLACE, Some(READ), Looked)])
  {
    s' := s.(uploads := map[0 := Upload(REPLACE, Some(READ), Looked)]);
    t' := Onward(t, s, BeginUpload(0, REPLACE, Some(20)), s');
  }

  lemma ReplacementSaved(t: seq<Step>, s: Store) returns (t': seq<Step>, s': Store)
    requires Leads(EMPTY, t, s) && NothingFails(t)
    requires s == Store(map[20 := ROW], {10}, multiset{}, map[0 := Upload(REPLACE, Some(READ), Looked)], map[0 := READ],
                        {10}, {20})
    ensures Leads(EMPTY, t', s') && NothingFails(t')
    ensures s' == s.(files := {10, 11}, usedKeys := {10, 11},
                     uploads := map[0 := Upload(REPLACE, Some(READ), Stage.Stored(11))])
  {
    s' := s.(files := {10, 11}, usedKeys := {10, 11},
             uploads := map[0 := Upload(REPLACE, Some(READ), Stage.Stored(11))]);
    t' := Onward(t, s, SaveFile(0, 11), s');
  }

  lemma ReplacementStored(t: seq<Step>, s: Store) returns (t': seq<Step>, s': Store)
    requires Leads(EMPTY, t, s) && NothingFails(t)
    requires s == Store(map[20 := ROW], {10}, multiset{}, map[], map[0 := READ], {10}, {20})
    ensures Leads(EMPTY, t', s') && NothingFails(t')
    ensures s' == Store(map[20 := ROW], {10, 11}, multiset{}, map[0 := Upload(REPLACE, Some(READ), Recorded(11))],
                        map[0 := READ], {10, 11}, {20})
  {
    var t1, s1 := ReplacementLooked(t, s);
    var t2, s2 := ReplacementSaved(t1, s1);
    s' := s2.(uploads := map[0 := Upload(REPLACE, Some(READ), Recorded(11))]);
    t' := Onward(t2, s2, RecordKey(0), s');
  }

  lemma ReplacementCommitted(t: seq<Step>, s: Store) returns (t': seq<Step>, s': Store)
    requires Leads(EMPTY, t, s) && NothingFails(t)
    requires s == Store(map[20 := ROW], {10, 11}, multiset{}, map[0 := Upload(REPLACE, Some(READ), Recorded(11))],
                        map[0 := READ], {10, 11}, {20})
    ensures Leads(EMPTY, t', s') && NothingFails(t')
    ensures s' == Store(map[20 := ROW.(key := 11)], {10, 11}, multiset{10}, map[], map[0 := READ], {10, 11}, {20})
  {
    var s1 := s.(rows := map[20 := ROW.(key := 11)], uploads := map[0 := Upload(REPLACE, Some(READ), Committed(11))]);
    t' := Onward(t, s, CommitUpload(0, 21, STAMP), s1);
    s' := s1.(uploads := map[], pending := multiset{10});
    t' := Onward(t', s1, Respond(0), s');
  }

  /** A delete that reads its row before a replace commits and removes it afterwards leaves
      the new file behind, although nothing has failed. */
  lemma DeleteRaceLeaksFile()
    ensures exists t: seq<Step>, s: Store :: Leads(EMPTY, t, s) && NothingFails(t) && Quiet(s) && !NoOrphans(s)
  {
    var t, s := StoredDocument();
    var s1 := s.(deletes := map[0 := READ]);
    t := Onward(t, s, BeginDelete(0, 20), s1);
    var s2, s3;
    t, s2 := ReplacementStored(t, s1);
    t, s3 := ReplacementCommitted(t, s2);
    RaceEnds(t, s3);
  }

  lemma RaceEnds(t: seq<Step>, s: Store)
    requires Leads(EMPTY, t, s) && NothingFails(t)
    requires s == Store(map[20 := ROW.(key := 11)], {10, 11}, multiset{10}, map[], map[0 := READ], {10, 11}, {20})
    ensures exists t: seq<Step>, s: Store :: Leads(EMPTY, t, s) && NothingFails(t) && Quiet(s) && !NoOrphans(s)
  {
    var s' := s.(rows := map[], deletes := map[], pending := multiset{10, 10});
    var t' := Onward(t, s, CommitDelete(0, true), s');
    assert 11 in s'.files && !Owned(s', 11);
  }
}
