/**
 * processFileUploads (script.js) as an event-driven state machine. The synchronous part
 * walks the four inputs and starts one FileReader per file with a positive size; after
 * that each read either loads (its descriptor is pushed and the counter moves) or fails
 * (the promise is rejected). Events arrive one at a time in any order.
 *
 * UploadBatch is the code as written: its counter also moves for an input with no entries
 * (compared with the number of inputs, 4) and for an entry of size 0 (compared with the
 * number of files to read), so the promise can settle before or never after the reads.
 * CorrectedUploadBatch counts completed reads only.
 */
module FileUploads {
  import opened FileSelection

  /** The promise: still open, fulfilled with the collected files, or rejected. */
  datatype Settlement = Pending | Resolved(files: Categories<Descriptor>) | Rejected

  /** The indices of the entries with a positive size: the ones a FileReader is started for. */
  function PositiveIndices(xs: seq<File>): set<nat>
  {
    set i: nat | i < |xs| && xs[i].size > 0
  }

  lemma PositiveIndicesSnoc(xs: seq<File>, i: nat)
    requires i < |xs|
    ensures PositiveIndices(xs[..i + 1]) ==
            PositiveIndices(xs[..i]) + (if xs[i].size > 0 then {i} else {})
  {
  }

  /** One started read per file with a positive size. */
  lemma {:induction false} PositiveIndicesCount(xs: seq<File>)
    ensures |PositiveIndices(xs)| == PositiveCount(xs)
    decreases |xs|
  {
    if xs != [] {
      var init := xs[..|xs| - 1];
      PositiveIndicesCount(init);
      assert xs == init + [xs[|xs| - 1]];
      PositiveCountAppend(init, [xs[|xs| - 1]]);
      assert [xs[|xs| - 1]][1..] == [];
      PositiveIndicesSnoc(xs, |xs| - 1);
      assert xs[..|xs|] == xs;
    }
  }

  /** For every input, the reads started for it. */
  function StartedReads(sel: Categories<File>): map<Field, set<nat>>
  {
    map[Passport := PositiveIndices(sel.passport), Cv := PositiveIndices(sel.cv),
        Certificates := PositiveIndices(sel.certificates), OtherDocuments := PositiveIndices(sel.otherDocuments)]
  }

  function NoReads(): map<Field, set<nat>>
  {
    map[Passport := {}, Cv := {}, Certificates := {}, OtherDocuments := {}]
  }

  function NoLoads(): map<Field, seq<nat>>
  {
    map[Passport := [], Cv := [], Certificates := [], OtherDocuments := []]
  }

  predicate Covers<T>(m: map<Field, T>)
  {
    Passport in m && Cv in m && Certificates in m && OtherDocuments in m
  }

  function SumCards(m: map<Field, set<nat>>): nat
    requires Covers(m)
  {
    |m[Passport]| + |m[Cv]| + |m[Certificates]| + |m[OtherDocuments]|
  }

  /** Entry `j` of an input has a positive size, so a read was started for it. */
  predicate Started(xs: seq<File>, j: nat)
  {
    j < |xs| && xs[j].size > 0
  }

  /**
   * The accounting for one input. `loaded[k]` is the entry whose read put `ds[k]` into the
   * list, and `ds[k]` describes that entry. Every started read has loaded (exactly once),
   * is still unread, or has failed; no read is in two of these states, and no index names
   * an entry that was not started.
   */
  ghost predicate FieldAccounted(xs: seq<File>, ds: seq<Descriptor>, loaded: seq<nat>, unread: set<nat>, failed: set<nat>)
  {
    |ds| == |loaded| &&
    (forall k | 0 <= k < |loaded| :: loaded[k] < |xs| && xs[loaded[k]].size > 0 && ds[k].file == xs[loaded[k]]) &&
    (forall k, l | 0 <= k < l < |loaded| :: loaded[k] != loaded[l]) &&
    (forall j | j in unread :: Started(xs, j) && j !in failed && j !in loaded) &&
    (forall j | j in failed :: Started(xs, j) && j !in loaded) &&
    (forall j: nat | Started(xs, j) :: j in loaded || j in unread || j in failed) &&
    |ds| + |unread| + |failed| == PositiveCount(xs)
  }

  /** The accounting, input by input. */
  ghost predicate Accounted(sel: Categories<File>, files: Categories<Descriptor>, loaded: map<Field, seq<nat>>,
                            unread: map<Field, set<nat>>, failed: map<Field, set<nat>>)
  {
    Covers(loaded) && Covers(unread) && Covers(failed) &&
    forall f: Field {:trigger FieldAccounted(sel.Of(f), files.Of(f), loaded[f], unread[f], failed[f])} ::
      FieldAccounted(sel.Of(f), files.Of(f), loaded[f], unread[f], failed[f])
  }

  lemma AccountedAt(sel: Categories<File>, files: Categories<Descriptor>, loaded: map<Field, seq<nat>>,
                    unread: map<Field, set<nat>>, failed: map<Field, set<nat>>, f: Field)
    requires Accounted(sel, files, loaded, unread, failed)
    ensures FieldAccounted(sel.Of(f), files.Of(f), loaded[f], unread[f], failed[f])
  {
  }

  /** With nothing left over all inputs, nothing is left in any one. */
  lemma NoneLeft(m: map<Field, set<nat>>, f: Field)
    requires Covers(m) && SumCards(m) == 0
    ensures m[f] == {}
  {
  }

  /** A running read belongs to an entry of its input with a positive size. */
  lemma UnreadIsStarted(sel: Categories<File>, files: Categories<Descriptor>, loaded: map<Field, seq<nat>>,
                        unread: map<Field, set<nat>>, failed: map<Field, set<nat>>, f: Field, i: nat)
    requires Accounted(sel, files, loaded, unread, failed) && i in unread[f]
    ensures i < |sel.Of(f)| && sel.Of(f)[i].size > 0
  {
    AccountedAt(sel, files, loaded, unread, failed, f);
  }

  /** Nothing read yet: every started read is unread. */
  lemma AccountedAtStart(sel: Categories<File>)
    ensures Accounted(sel, NoFiles(), NoLoads(), StartedReads(sel), NoReads())
  {
    forall f: Field
      ensures FieldAccounted(sel.Of(f), NoFiles<Descriptor>().Of(f), NoLoads()[f], StartedReads(sel)[f], NoReads()[f])
    {
      PositiveIndicesCount(sel.Of(f));
    }
  }

  lemma FieldAfterLoad(xs: seq<File>, ds: seq<Descriptor>, loaded: seq<nat>, unread: set<nat>, failed: set<nat>,
                       i: nat, d: Descriptor)
    requires FieldAccounted(xs, ds, loaded, unread, failed) && i in unread
    requires i < |xs| && d.file == xs[i]
    ensures FieldAccounted(xs, ds + [d], loaded + [i], unread - {i}, failed)
  {
  }

  lemma FieldAfterFailure(xs: seq<File>, ds: seq<Descriptor>, loaded: seq<nat>, unread: set<nat>, failed: set<nat>, i: nat)
    requires FieldAccounted(xs, ds, loaded, unread, failed) && i in unread
    ensures FieldAccounted(xs, ds, loaded, unread - {i}, failed + {i})
  {
    assert i !in failed;
  }

  /** A loaded read moves its index from `unread` to `loaded` and its descriptor into its input's list. */
  lemma AccountedAfterLoad(sel: Categories<File>, files: Categories<Descriptor>, loaded: map<Field, seq<nat>>,
                           unread: map<Field, set<nat>>, failed: map<Field, set<nat>>,
                           f: Field, i: nat, d: Descriptor)
    requires Accounted(sel, files, loaded, unread, failed) && i in unread[f]
    requires i < |sel.Of(f)| && d.file == sel.Of(f)[i]
    ensures Accounted(sel, files.With(f, files.Of(f) + [d]), loaded[f := loaded[f] + [i]],
                      unread[f := unread[f] - {i}], failed)
  {
    var files', loaded', unread' := files.With(f, files.Of(f) + [d]), loaded[f := loaded[f] + [i]], unread[f := unread[f] - {i}];
    forall g: Field
      ensures FieldAccounted(sel.Of(g), files'.Of(g), loaded'[g], unread'[g], failed[g])
    {
      AccountedAt(sel, files, loaded, unread, failed, g);
      if g == f {
        FieldAfterLoad(sel.Of(f), files.Of(f), loaded[f], unread[f], failed[f], i, d);
      }
    }
  }

  /** A failed read moves one index from `unread` to `failed`. */
  lemma AccountedAfterFailure(sel: Categories<File>, files: Categories<Descriptor>, loaded: map<Field, seq<nat>>,
                              unread: map<Field, set<nat>>, failed: map<Field, set<nat>>,
                              f: Field, i: nat)
    requires Accounted(sel, files, loaded, unread, failed) && i in unread[f]
    ensures Accounted(sel, files, loaded, unread[f := unread[f] - {i}], failed[f := failed[f] + {i}])
  {
    var unread', failed' := unread[f := unread[f] - {i}], failed[f := failed[f] + {i}];
    forall g: Field
      ensures FieldAccounted(sel.Of(g), files.Of(g), loaded[g], unread'[g], failed'[g])
    {
      AccountedAt(sel, files, loaded, unread, failed, g);
      if g == f {
        FieldAfterFailure(sel.Of(f), files.Of(f), loaded[f], unread[f], failed[f], i);
      }
    }
  }

  /** Each started read has loaded, has failed or is still running. */
  lemma Balance(sel: Categories<File>, files: Categories<Descriptor>, loaded: map<Field, seq<nat>>,
                unread: map<Field, set<nat>>, failed: map<Field, set<nat>>)
    requires Accounted(sel, files, loaded, unread, failed)
    ensures |files.All()| + SumCards(unread) + SumCards(failed) ==
            PositiveCount(sel.passport) + PositiveCount(sel.cv) +
            PositiveCount(sel.certificates) + PositiveCount(sel.otherDocuments)
  {
    AccountedAt(sel, files, loaded, unread, failed, Passport);
    AccountedAt(sel, files, loaded, unread, failed, Cv);
    AccountedAt(sel, files, loaded, unread, failed, Certificates);
    AccountedAt(sel, files, loaded, unread, failed, OtherDocuments);
  }

  /** Adding one descriptor to one input adds one to the whole list. */
  lemma AllAfterPush(files: Categories<Descriptor>, f: Field, d: Descriptor)
    ensures |files.With(f, files.Of(f) + [d]).All()| == |files.All()| + 1
  {
  }

  // ----- the synchronous walk as written -----

  /** For each entry of size 0, in order: the number the incremented counter is compared with. */
  function ZeroChecks(fileList: seq<File>, total: nat): seq<nat>
  {
    if fileList == [] then []
    else (if fileList[0].size > 0 then [] else [total]) + ZeroChecks(fileList[1..], total)
  }

  lemma {:induction false} ZeroChecksAppend(a: seq<File>, b: seq<File>, total: nat)
    ensures ZeroChecks(a + b, total) == ZeroChecks(a, total) + ZeroChecks(b, total)
  {
    if a == [] {
      assert a + b == b;
    } else {
      assert (a + b)[0] == a[0];
      assert (a + b)[1..] == a[1..] + b;
      ZeroChecksAppend(a[1..], b, total);
      var head := if a[0].size > 0 then [] else [total];
      assert ZeroChecks(a + b, total) == head + (ZeroChecks(a[1..], total) + ZeroChecks(b, total));
      assert ZeroChecks(a, total) == head + ZeroChecks(a[1..], total);
    }
  }

  /** For one input: an input with no entries is compared with the number of inputs. */
  function FieldChecks(fileList: seq<File>, total: nat): seq<nat>
  {
    if fileList == [] then [|FileFields|] else ZeroChecks(fileList, total)
  }

  /** The comparisons made while walking the first `n` inputs. */
  function SyncChecks(sel: Categories<File>, total: nat, n: nat): seq<nat>
    requires n <= |FileFields|
  {
    if n == 0 then [] else SyncChecks(sel, total, n - 1) + FieldChecks(sel.Of(FileFields[n - 1]), total)
  }

  /** Some comparison succeeded: the counter, after its k-th increment, equalled its bound. */
  predicate HitsCount(checks: seq<nat>)
  {
    exists k | 0 <= k < |checks| :: checks[k] == k + 1
  }

  lemma HitsCountSnoc(checks: seq<nat>, bound: nat)
    ensures HitsCount(checks + [bound]) <==> HitsCount(checks) || bound == |checks| + 1
  {
    var c := checks + [bound];
    assert forall k | 0 <= k < |checks| :: c[k] == checks[k];
    assert c[|checks|] == bound;
  }

  /** The reads started while walking the first `n` inputs. */
  function StartedUpTo(sel: Categories<File>, n: nat): map<Field, set<nat>>
    requires n <= |FileFields|
  {
    if n == 0 then map[]
    else StartedUpTo(sel, n - 1)[FileFields[n - 1] := PositiveIndices(sel.Of(FileFields[n - 1]))]
  }

  lemma StartedUpToAll(sel: Categories<File>)
    ensures StartedUpTo(sel, |FileFields|) == StartedReads(sel)
  {
    assert StartedUpTo(sel, 1) == map[Passport := PositiveIndices(sel.passport)];
    assert StartedUpTo(sel, 2) == StartedUpTo(sel, 1)[Cv := PositiveIndices(sel.cv)];
    assert StartedUpTo(sel, 3) == StartedUpTo(sel, 2)[Certificates := PositiveIndices(sel.certificates)];
    assert StartedUpTo(sel, 4) == StartedUpTo(sel, 3)[OtherDocuments := PositiveIndices(sel.otherDocuments)];
  }

  /**
   * The callback for one input: an input with no entries counts once against the number
   * of inputs; otherwise each entry of size 0 counts against `total` and each other entry
   * starts a read. `checks` are the comparisons made before this input.
   */
  method WalkField(fileList: seq<File>, total: nat, count: nat, resolved: bool, ghost checks: seq<nat>)
    returns (count': nat, resolved': bool, indices: set<nat>)
    requires count == |checks| && resolved == HitsCount(checks)
    ensures count' == |checks + FieldChecks(fileList, total)|
    ensures resolved' == HitsCount(checks + FieldChecks(fileList, total))
    ensures indices == PositiveIndices(fileList)
  {
    count', resolved', indices := count, resolved, {};
    if |fileList| == 0 {
      HitsCountSnoc(checks, |FileFields|);
      count' := count' + 1;
      if count' == |FileFields| {
        resolved' := true;
      }
      return;
    }
    ghost var seen := checks;
    var i := 0;
    assert fileList[..0] == [];
    while i < |fileList|
      invariant 0 <= i <= |fileList|
      invariant seen == checks + ZeroChecks(fileList[..i], total)
      invariant count' == |seen|
      invariant resolved' == HitsCount(seen)
      invariant indices == PositiveIndices(fileList[..i])
    {
      assert fileList[..i + 1] == fileList[..i] + [fileList[i]];
      ZeroChecksAppend(fileList[..i], [fileList[i]], total);
      assert [fileList[i]][1..] == [];
      PositiveIndicesSnoc(fileList, i);
      if fileList[i].size > 0 {
        indices := indices + {i};
      } else {
        HitsCountSnoc(seen, total);
        count' := count' + 1;
        seen := seen + [total];
        if count' == total {
          resolved' := true;
        }
      }
      i := i + 1;
    }
    assert fileList[..i] == fileList;
  }

  /** One more input walked: its comparisons follow, and its started reads are recorded. */
  lemma SyncChecksStep(sel: Categories<File>, total: nat, f: nat)
    requires f < |FileFields|
    ensures SyncChecks(sel, total, f + 1) == SyncChecks(sel, total, f) + FieldChecks(sel.Of(FileFields[f]), total)
    ensures StartedUpTo(sel, f + 1) == StartedUpTo(sel, f)[FileFields[f] := PositiveIndices(sel.Of(FileFields[f]))]
  {
  }

  /**
   * The forEach of processFileUploads up to the last started read: `processedCount` after
   * the walk, whether some resolve() call during it fired, and the reads started.
   */
  method SynchronousWalk(sel: Categories<File>, total: nat)
    returns (processedCount: nat, resolved: bool, started: map<Field, set<nat>>)
    ensures processedCount == |SyncChecks(sel, total, |FileFields|)|
    ensures resolved == HitsCount(SyncChecks(sel, total, |FileFields|))
    ensures started == StartedReads(sel)
  {
    processedCount, resolved, started := 0, false, map[];
    var f := 0;
    while f < |FileFields|
      invariant 0 <= f <= |FileFields|
      invariant processedCount == |SyncChecks(sel, total, f)|
      invariant resolved == HitsCount(SyncChecks(sel, total, f))
      invariant started == StartedUpTo(sel, f)
    {
      var fieldName := FileFields[f];
      var indices;
      ghost var checks := SyncChecks(sel, total, f);
      processedCount, resolved, indices := WalkField(sel.Of(fieldName), total, processedCount, resolved, checks);
      SyncChecksStep(sel, total, f);
      started := started[fieldName := indices];
      f := f + 1;
    }
    StartedUpToAll(sel);
  }

  /** A processFileUploads call as written, after its synchronous part. */
  class UploadBatch {
    const selection: Categories<File>
    /** getTotalFileCount(formData); the form data does not change, so neither does it. */
    const total: nat
    /** The increments made by the synchronous walk. */
    const walkCount: nat
    var processedCount: nat
    var files: Categories<Descriptor>
    var outcome: Settlement
    ghost var loaded: map<Field, seq<nat>>
    ghost var unread: map<Field, set<nat>>
    ghost var failed: map<Field, set<nat>>

    ghost predicate Valid()
      reads this
    {
      Accounted(selection, files, loaded, unread, failed) &&
      total == PositiveCount(selection.All()) &&
      processedCount == walkCount + |files.All()|
    }

    constructor (sel: Categories<File>)
      ensures Valid()
      ensures selection == sel && files == NoFiles()
      ensures walkCount == processedCount == |SyncChecks(sel, total, |FileFields|)|
      ensures loaded == NoLoads() && unread == StartedReads(sel) && failed == NoReads()
      ensures outcome == if HitsCount(SyncChecks(sel, total, |FileFields|)) || total == 0
                         then Resolved(NoFiles()) else Pending
    {
      var t := TotalFileCount(sel);
      var p, r, s := SynchronousWalk(sel, t);
      selection, total, walkCount, processedCount, files := sel, t, p, p, NoFiles();
      loaded, unread, failed := NoLoads(), s, NoReads();
      outcome := if r || t == 0 then Resolved(NoFiles()) else Pending;
      AccountedAtStart(sel);
    }

    /** reader.onload: push the descriptor, count it, resolve if the count equals the total. */
    method ReadLoaded(f: Field, i: nat, data: string, uploadDate: string)
      requires Valid() && i in unread[f]
      modifies this
      ensures Valid()
      ensures i < |selection.Of(f)| && selection.Of(f)[i].size > 0
      ensures loaded == old(loaded)[f := old(loaded)[f] + [i]]
      ensures unread == old(unread)[f := old(unread)[f] - {i}] && failed == old(failed)
      ensures files == old(files).With(f, old(files).Of(f) + [Descriptor(selection.Of(f)[i], data, uploadDate)])
      ensures processedCount == old(processedCount) + 1
      ensures outcome == if old(outcome).Pending? && processedCount == total then Resolved(files) else old(outcome)
    {
      UnreadIsStarted(selection, files, loaded, unread, failed, f, i);
      var d := Descriptor(selection.Of(f)[i], data, uploadDate);
      AccountedAfterLoad(selection, files, loaded, unread, failed, f, i, d);
      AllAfterPush(files, f, d);
      files := files.With(f, files.Of(f) + [d]);
      loaded := loaded[f := loaded[f] + [i]];
      unread := unread[f := unread[f] - {i}];
      processedCount := processedCount + 1;
      if processedCount == total && outcome.Pending? {
        outcome := Resolved(files);
      }
    }

    /** reader.onerror: reject (a no-op once the promise has settled). */
    method ReadFailed(f: Field, i: nat)
      requires Valid() && i in unread[f]
      modifies this
      ensures Valid()
      ensures unread == old(unread)[f := old(unread)[f] - {i}] && failed == old(failed)[f := old(failed)[f] + {i}]
      ensures loaded == old(loaded) && files == old(files) && processedCount == old(processedCount)
      ensures outcome == if old(outcome).Pending? then Rejected else old(outcome)
    {
      AccountedAfterFailure(selection, files, loaded, unread, failed, f, i);
      unread := unread[f := unread[f] - {i}];
      failed := failed[f := failed[f] + {i}];
      if outcome.Pending? {
        outcome := Rejected;
      }
    }
  }

  // ----- the two ways the code as written goes wrong -----

  /** What the browser hands over for a file input left empty: one nameless entry of size 0. */
  const Placeholder: File := File("", 0, "application/octet-stream")

  /**
   * A 1200-byte passport with the three other inputs left empty: the counter reaches 1,
   * the number of files to read, at the cv placeholder, before the passport is read.
   */
  lemma EarlyResolution()
    ensures var sel := Categories([File("passport.jpg", 1200, "image/jpeg")], [Placeholder], [Placeholder], [Placeholder]);
      PositiveCount(sel.All()) == 1 &&
      SyncChecks(sel, 1, |FileFields|) == [1, 1, 1] &&
      HitsCount(SyncChecks(sel, 1, |FileFields|)) &&
      StartedReads(sel)[Passport] == {0}
  {
    var sel := Categories([File("passport.jpg", 1200, "image/jpeg")], [Placeholder], [Placeholder], [Placeholder]);
    SingleEntry(sel.passport[0], 1);
    SingleEntry(Placeholder, 1);
    PositiveCountAll(sel);
    assert SyncChecks(sel, 1, 1) == [];
    assert SyncChecks(sel, 1, 2) == [1];
    assert SyncChecks(sel, 1, 3) == [1, 1];
    assert SyncChecks(sel, 1, 4) == [1, 1, 1];
    var checks := SyncChecks(sel, 1, |FileFields|);
    assert checks[0] == 0 + 1;
    assert PositiveIndices(sel.passport) == {0} by {
      assert 0 in PositiveIndices(sel.passport);
    }
  }

  lemma SingleEntry(x: File, total: nat)
    ensures PositiveCount([x]) == if x.size > 0 then 1 else 0
    ensures ZeroChecks([x], total) == if x.size > 0 then [] else [total]
  {
    assert [x][1..] == [];
  }

  /**
   * The same form submitted: the promise is fulfilled with no passport while its read is
   * still running, and validateFiles then reports the passport as missing.
   */
  method PassportReportedMissing() returns (errors: seq<FileError>)
    ensures errors == [PassportRequired]
  {
    var sel := Categories([File("passport.jpg", 1200, "image/jpeg")], [Placeholder], [Placeholder], [Placeholder]);
    EarlyResolution();
    var batch := new UploadBatch(sel);
    assert batch.outcome == Resolved(NoFiles()) && 0 in batch.unread[Passport];
    errors := ValidateFiles(batch.outcome.files);
    assert NoFiles<Descriptor>().All() == [];
  }

  /**
   * A passport only, with inputs that yield no entries: the walk leaves the counter at 3,
   * the passport read takes it to 4, never to 1; no read is left and nothing settles.
   */
  method NeverSettles() returns (batch: UploadBatch)
    ensures batch.Valid()
    ensures batch.outcome == Pending
    ensures SumCards(batch.unread) == 0 && SumCards(batch.failed) == 0
    ensures batch.files.passport ==
            [Descriptor(File("passport.jpg", 1200, "image/jpeg"), "data:image/jpeg;base64,", "2024-05-01T10:00:00.000Z")]
  {
    batch := PassportOnlyBatch();
    batch.ReadLoaded(Passport, 0, "data:image/jpeg;base64,", "2024-05-01T10:00:00.000Z");
  }

  /** The batch for that selection after its synchronous part: the passport read alone is running. */
  method PassportOnlyBatch() returns (batch: UploadBatch)
    ensures fresh(batch) && batch.Valid() && batch.outcome == Pending
    ensures batch.total == 1 && batch.processedCount == 3
    ensures batch.selection.passport == [File("passport.jpg", 1200, "image/jpeg")]
    ensures batch.files == NoFiles() && batch.loaded == NoLoads() && batch.failed == NoReads()
    ensures batch.unread == map[Passport := {0}, Cv := {}, Certificates := {}, OtherDocuments := {}]
  {
    var sel := Categories([File("passport.jpg", 1200, "image/jpeg")], [], [], []);
    PassportOnly();
    batch := new UploadBatch(sel);
  }

  /** The walk over a passport-only selection whose other inputs yield no entries. */
  lemma PassportOnly()
    ensures var sel := Categories([File("passport.jpg", 1200, "image/jpeg")], [], [], []);
      PositiveCount(sel.All()) == 1 &&
      SyncChecks(sel, 1, |FileFields|) == [4, 4, 4] &&
      !HitsCount(SyncChecks(sel, 1, |FileFields|)) &&
      StartedReads(sel) == map[Passport := {0}, Cv := {}, Certificates := {}, OtherDocuments := {}]
  {
    var sel := Categories([File("passport.jpg", 1200, "image/jpeg")], [], [], []);
    assert sel.All() == [sel.passport[0]];
    SingleEntry(sel.passport[0], 1);
    assert SyncChecks(sel, 1, 1) == [];
    assert SyncChecks(sel, 1, 2) == [4];
    assert SyncChecks(sel, 1, 3) == [4, 4];
    assert PositiveIndices(sel.passport) == {0} by {
      assert 0 in PositiveIndices(sel.passport);
    }
    assert PositiveIndices(sel.cv) == {};
    assert StartedReads(sel) == map[Passport := {0}, Cv := {}, Certificates := {}, OtherDocuments := {}];
  }

  // ----- the evidently intended machine -----

  /** The forEach with only reads counted: start one read per file with a positive size. */
  method StartReads(sel: Categories<File>) returns (started: map<Field, set<nat>>)
    ensures started == StartedReads(sel)
  {
    started := map[];
    var f := 0;
    while f < |FileFields|
      invariant 0 <= f <= |FileFields|
      invariant started == StartedUpTo(sel, f)
    {
      var fieldName := FileFields[f];
      var fileList := sel.Of(fieldName);
      var indices: set<nat> := {};
      var i := 0;
      assert fileList[..0] == [];
      while i < |fileList|
        invariant 0 <= i <= |fileList|
        invariant indices == PositiveIndices(fileList[..i])
      {
        PositiveIndicesSnoc(fileList, i);
        if fileList[i].size > 0 {
          indices := indices + {i};
        }
        i := i + 1;
      }
      assert fileList[..i] == fileList;
      started := started[fieldName := indices];
      f := f + 1;
    }
    StartedUpToAll(sel);
  }

  /** The state of the corrected machine: the accounting plus what each settlement implies. */
  ghost predicate CorrectlySettled(sel: Categories<File>, total: nat, processedCount: nat,
                                   files: Categories<Descriptor>, outcome: Settlement, loaded: map<Field, seq<nat>>,
                                   unread: map<Field, set<nat>>, failed: map<Field, set<nat>>)
  {
    Accounted(sel, files, loaded, unread, failed) &&
    total == PositiveCount(sel.passport) + PositiveCount(sel.cv) +
             PositiveCount(sel.certificates) + PositiveCount(sel.otherDocuments) &&
    processedCount == |files.All()| &&
    (outcome.Pending? ==> SumCards(failed) == 0 && SumCards(unread) > 0) &&
    (outcome.Resolved? ==> outcome.files == files && SumCards(unread) == 0 && SumCards(failed) == 0) &&
    (outcome.Rejected? ==> SumCards(failed) > 0)
  }

  /** A load that reaches the total is exactly the last running read, so the state stays settled correctly. */
  lemma CorrectAfterLoad(sel: Categories<File>, total: nat, processedCount: nat,
                         files: Categories<Descriptor>, outcome: Settlement, loaded: map<Field, seq<nat>>,
                         unread: map<Field, set<nat>>, failed: map<Field, set<nat>>,
                         f: Field, i: nat, d: Descriptor)
    requires CorrectlySettled(sel, total, processedCount, files, outcome, loaded, unread, failed) && i in unread[f]
    requires i < |sel.Of(f)| && d.file == sel.Of(f)[i]
    ensures var files' := files.With(f, files.Of(f) + [d]);
            var loaded' := loaded[f := loaded[f] + [i]];
            var unread' := unread[f := unread[f] - {i}];
            var outcome' := if processedCount + 1 == total && outcome.Pending? then Resolved(files') else outcome;
            CorrectlySettled(sel, total, processedCount + 1, files', outcome', loaded', unread', failed) &&
            outcome' == if outcome.Pending? && SumCards(unread') == 0 then Resolved(files') else outcome
  {
    var files' := files.With(f, files.Of(f) + [d]);
    var loaded' := loaded[f := loaded[f] + [i]];
    var unread' := unread[f := unread[f] - {i}];
    AccountedAfterLoad(sel, files, loaded, unread, failed, f, i, d);
    assert SumCards(unread') + 1 == SumCards(unread);
    AllAfterPush(files, f, d);
    Balance(sel, files', loaded', unread', failed);
  }

  /** A failure rejects an open promise and leaves a settled one alone. */
  lemma CorrectAfterFailure(sel: Categories<File>, total: nat, processedCount: nat,
                            files: Categories<Descriptor>, outcome: Settlement, loaded: map<Field, seq<nat>>,
                            unread: map<Field, set<nat>>, failed: map<Field, set<nat>>,
                            f: Field, i: nat)
    requires CorrectlySettled(sel, total, processedCount, files, outcome, loaded, unread, failed) && i in unread[f]
    ensures CorrectlySettled(sel, total, processedCount, files, if outcome.Pending? then Rejected else outcome,
                             loaded, unread[f := unread[f] - {i}], failed[f := failed[f] + {i}])
  {
    AccountedAt(sel, files, loaded, unread, failed, f);
    AccountedAfterFailure(sel, files, loaded, unread, failed, f, i);
    var unread' := unread[f := unread[f] - {i}];
    var failed' := failed[f := failed[f] + {i}];
    assert SumCards(failed') == SumCards(failed) + 1;
    if outcome.Resolved? {
      assert false;
    }
  }

  /** With no read running or failed, each input holds one descriptor per file with a positive size. */
  lemma SettledField(sel: Categories<File>, files: Categories<Descriptor>, loaded: map<Field, seq<nat>>,
                     unread: map<Field, set<nat>>, failed: map<Field, set<nat>>, f: Field)
    requires Accounted(sel, files, loaded, unread, failed) && SumCards(unread) == 0 && SumCards(failed) == 0
    ensures FieldAccounted(sel.Of(f), files.Of(f), loaded[f], {}, {})
  {
    NoneLeft(unread, f);
    NoneLeft(failed, f);
    AccountedAt(sel, files, loaded, unread, failed, f);
  }

  /** Every file with a positive size is described. */
  lemma SettledFileDescribed(xs: seq<File>, ds: seq<Descriptor>, loaded: seq<nat>, i: nat)
    requires FieldAccounted(xs, ds, loaded, {}, {}) && i in PositiveIndices(xs)
    ensures exists k | 0 <= k < |ds| :: ds[k].file == xs[i]
  {
    assert Started(xs, i);
    var k :| 0 <= k < |loaded| && loaded[k] == i;
    assert ds[k].file == xs[i];
  }

  /** Every descriptor describes a file with a positive size. */
  lemma SettledDescriptorStarted(xs: seq<File>, ds: seq<Descriptor>, loaded: seq<nat>, k: nat)
    requires FieldAccounted(xs, ds, loaded, {}, {}) && k < |ds|
    ensures exists i | i in PositiveIndices(xs) :: ds[k].file == xs[i]
  {
    assert loaded[k] in PositiveIndices(xs);
  }

  /** processFileUploads counting completed reads only; resolves at once when there is nothing to read. */
  class CorrectedUploadBatch {
    const selection: Categories<File>
    const total: nat
    var processedCount: nat
    var files: Categories<Descriptor>
    var outcome: Settlement
    ghost var loaded: map<Field, seq<nat>>
    ghost var unread: map<Field, set<nat>>
    ghost var failed: map<Field, set<nat>>

    /**
     * Beyond the accounting: the promise is open exactly while no read has failed and some
     * read is still running; once fulfilled it holds every read file.
     */
    ghost predicate Valid()
      reads this
    {
      CorrectlySettled(selection, total, processedCount, files, outcome, loaded, unread, failed)
    }

    constructor (sel: Categories<File>)
      ensures Valid()
      ensures selection == sel && files == NoFiles() && processedCount == 0
      ensures loaded == NoLoads() && unread == StartedReads(sel) && failed == NoReads()
      ensures outcome == if total == 0 then Resolved(NoFiles()) else Pending
    {
      var t := TotalFileCount(sel);
      var s := StartReads(sel);
      PositiveCountAll(sel);
      AccountedAtStart(sel);
      selection, total, processedCount, files := sel, t, 0, NoFiles();
      loaded, unread, failed := NoLoads(), s, NoReads();
      outcome := if t == 0 then Resolved(NoFiles()) else Pending;
      assert NoFiles<Descriptor>().All() == [];
      Balance(sel, NoFiles(), NoLoads(), s, NoReads());
    }

    /** reader.onload: push, count, and resolve exactly when this was the last read. */
    method ReadLoaded(f: Field, i: nat, data: string, uploadDate: string)
      requires Valid() && i in unread[f]
      modifies this
      ensures Valid()
      ensures i < |selection.Of(f)| && selection.Of(f)[i].size > 0
      ensures loaded == old(loaded)[f := old(loaded)[f] + [i]]
      ensures unread == old(unread)[f := old(unread)[f] - {i}] && failed == old(failed)
      ensures files == old(files).With(f, old(files).Of(f) + [Descriptor(selection.Of(f)[i], data, uploadDate)])
      ensures outcome == if old(outcome).Pending? && SumCards(unread) == 0 then Resolved(files) else old(outcome)
    {
      UnreadIsStarted(selection, files, loaded, unread, failed, f, i);
      var d := Descriptor(selection.Of(f)[i], data, uploadDate);
      CorrectAfterLoad(selection, total, processedCount, files, outcome, loaded, unread, failed, f, i, d);
      files := files.With(f, files.Of(f) + [d]);
      loaded := loaded[f := loaded[f] + [i]];
      unread := unread[f := unread[f] - {i}];
      processedCount := processedCount + 1;
      if processedCount == total && outcome.Pending? {
        outcome := Resolved(files);
      }
    }

    /** reader.onerror: reject (a no-op once the promise has settled). */
    method ReadFailed(f: Field, i: nat)
      requires Valid() && i in unread[f]
      modifies this
      ensures Valid()
      ensures unread == old(unread)[f := old(unread)[f] - {i}] && failed == old(failed)[f := old(failed)[f] + {i}]
      ensures loaded == old(loaded) && files == old(files)
      ensures outcome == if old(outcome).Pending? then Rejected else old(outcome)
    {
      CorrectAfterFailure(selection, total, processedCount, files, outcome, loaded, unread, failed, f, i);
      unread := unread[f := unread[f] - {i}];
      failed := failed[f := failed[f] + {i}];
      if outcome.Pending? {
        outcome := Rejected;
      }
    }

    /**
     * A fulfilled promise holds, input by input, one descriptor for every file with a
     * positive size and nothing else: each such file is described, each descriptor
     * describes one, and there are as many descriptors as such files.
     */
    lemma ResolvedHoldsEveryFile()
      requires Valid() && outcome.Resolved?
      ensures forall f: Field, i | i in PositiveIndices(selection.Of(f)) ::
                exists k | 0 <= k < |outcome.files.Of(f)| :: outcome.files.Of(f)[k].file == selection.Of(f)[i]
      ensures forall f: Field, k | 0 <= k < |outcome.files.Of(f)| ::
                exists i | i in PositiveIndices(selection.Of(f)) :: outcome.files.Of(f)[k].file == selection.Of(f)[i]
      ensures forall f: Field :: |outcome.files.Of(f)| == PositiveCount(selection.Of(f))
    {
      forall f: Field
        ensures |outcome.files.Of(f)| == PositiveCount(selection.Of(f))
      {
        SettledField(selection, files, loaded, unread, failed, f);
      }
      forall f: Field, i | i in PositiveIndices(selection.Of(f))
        ensures exists k | 0 <= k < |outcome.files.Of(f)| :: outcome.files.Of(f)[k].file == selection.Of(f)[i]
      {
        SettledField(selection, files, loaded, unread, failed, f);
        SettledFileDescribed(selection.Of(f), files.Of(f), loaded[f], i);
      }
      forall f: Field, k | 0 <= k < |outcome.files.Of(f)|
        ensures exists i | i in PositiveIndices(selection.Of(f)) :: outcome.files.Of(f)[k].file == selection.Of(f)[i]
      {
        SettledField(selection, files, loaded, unread, failed, f);
        SettledDescriptorStarted(selection.Of(f), files.Of(f), loaded[f], k);
      }
    }
  }
}
