/** The upload store: a map from a generated id to the file's name and the
    file itself. The ids `crypto.randomUUID()` would produce are supplied by
    the caller, one per file, in the order they are drawn. */
module Uploads {
  import opened Files

  type UploadId = string

  datatype Upload = Upload(name: string, file: File)

  datatype UploadState = UploadState(uploads: map<UploadId, Upload>)

  /** The store as created: no uploads. */
  function InitialState(): (initial: UploadState) {
    UploadState(map[])
  }

  /** The record stored for a file. */
  function UploadOf(file: File): (upload: Upload) {
    Upload(file.name, file)
  }

  /** The ids a call draws, as a set. */
  function IdSet(ids: seq<UploadId>): (drawn: set<UploadId>) {
    set id | id in ids
  }

  predicate Distinct(ids: seq<UploadId>) {
    forall i, j :: 0 <= i < j < |ids| ==> ids[i] != ids[j]
  }

  /** No later id equals the one at position `i`: the file at `i` is the
      last one stored under that id. */
  predicate LastDrawn(ids: seq<UploadId>, i: nat) {
    forall j :: i < j < |ids| ==> ids[j] != ids[i]
  }

  /** None of the ids is already a key of the store. */
  predicate Fresh(state: UploadState, ids: seq<UploadId>) {
    forall i :: 0 <= i < |ids| ==> ids[i] !in state.uploads
  }

  /** `addUploads`: the files are visited in order and each is stored under
      its id, a later file replacing an earlier one under the same id. */
  function AddUploads(state: UploadState, files: seq<File>, ids: seq<UploadId>): (next: UploadState)
    requires |ids| == |files|
    decreases |files|
  {
    if |files| == 0 then
      state
    else
      var n := |files| - 1;
      var before := AddUploads(state, files[..n], ids[..n]);
      UploadState(before.uploads[ids[n] := UploadOf(files[n])])
  }

  /** The keys after a call are the keys before it plus the ids drawn. */
  lemma {:induction false} AddUploadsKeys(state: UploadState, files: seq<File>, ids: seq<UploadId>)
    requires |ids| == |files|
    ensures forall k :: k in AddUploads(state, files, ids).uploads <==> k in state.uploads || k in ids
    decreases |files|
  {
    if |files| > 0 {
      var n := |files| - 1;
      AddUploadsKeys(state, files[..n], ids[..n]);
      LastIdSplit(ids);
    }
  }

  /** An entry whose key is not among the ids drawn is left as it was. */
  lemma {:induction false} AddUploadsKeepsOthers(state: UploadState, files: seq<File>, ids: seq<UploadId>)
    requires |ids| == |files|
    ensures forall k :: k in state.uploads && k !in ids ==>
      k in AddUploads(state, files, ids).uploads && AddUploads(state, files, ids).uploads[k] == state.uploads[k]
    decreases |files|
  {
    if |files| > 0 {
      var n := |files| - 1;
      AddUploadsKeepsOthers(state, files[..n], ids[..n]);
      LastIdSplit(ids);
    }
  }

  /** Each file is stored, with its own name, under its id, unless a later
      file of the same call drew the same id. */
  lemma {:induction false} AddUploadsStoresFiles(state: UploadState, files: seq<File>, ids: seq<UploadId>)
    requires |ids| == |files|
    ensures forall i :: 0 <= i < |files| && LastDrawn(ids, i) ==>
      ids[i] in AddUploads(state, files, ids).uploads &&
      AddUploads(state, files, ids).uploads[ids[i]] == Upload(files[i].name, files[i])
    decreases |files|
  {
    if |files| > 0 {
      var n := |files| - 1;
      var before := AddUploads(state, files[..n], ids[..n]).uploads;
      var after := AddUploads(state, files, ids).uploads;
      assert after == before[ids[n] := UploadOf(files[n])];
      AddUploadsStoresFiles(state, files[..n], ids[..n]);
      forall i | 0 <= i < n && LastDrawn(ids, i)
        ensures ids[i] in after && after[ids[i]] == Upload(files[i].name, files[i])
      {
        assert ids[i] != ids[n];
        assert LastDrawn(ids[..n], i) by {
          forall j | i < j < n ensures ids[..n][j] != ids[..n][i] {
            assert ids[j] != ids[i];
          }
        }
        assert files[..n][i] == files[i] && ids[..n][i] == ids[i];
      }
    }
  }

  /** How the ids of a call relate to those of the call without its last
      file. */
  lemma LastIdSplit(ids: seq<UploadId>)
    requires |ids| > 0
    ensures var n := |ids| - 1;
            forall k :: k in ids <==> k in ids[..n] || k == ids[n]
  {
  }

  /** With pairwise distinct ids every file is stored under its own id. */
  lemma {:induction false} EveryFileRegistered(state: UploadState, files: seq<File>, ids: seq<UploadId>)
    requires |ids| == |files| && Distinct(ids)
    ensures forall i :: 0 <= i < |files| ==>
      ids[i] in AddUploads(state, files, ids).uploads &&
      AddUploads(state, files, ids).uploads[ids[i]] == Upload(files[i].name, files[i])
  {
    AddUploadsStoresFiles(state, files, ids);
  }

  /** With fresh, pairwise distinct ids the store grows by exactly one entry
      per file. */
  lemma {:induction false} AddUploadsGrowsByFileCount(state: UploadState, files: seq<File>, ids: seq<UploadId>)
    requires |ids| == |files| && Distinct(ids) && Fresh(state, ids)
    ensures |AddUploads(state, files, ids).uploads| == |state.uploads| + |files|
  {
    var r := AddUploads(state, files, ids);
    AddUploadsKeys(state, files, ids);
    DistinctIdSetSize(ids);
    assert r.uploads.Keys == state.uploads.Keys + IdSet(ids);
    assert state.uploads.Keys !! IdSet(ids);
    assert |r.uploads.Keys| == |state.uploads.Keys| + |IdSet(ids)|;
  }

  /** An empty file list leaves the store as it is. */
  lemma AddNoUploads(state: UploadState)
    ensures AddUploads(state, [], []) == state
  {
  }

  /** Starting from the initial store, the keys are exactly the ids drawn,
      one per file. */
  lemma {:induction false} AddUploadsToInitialState(files: seq<File>, ids: seq<UploadId>)
    requires |ids| == |files| && Distinct(ids)
    ensures AddUploads(InitialState(), files, ids).uploads.Keys == IdSet(ids)
    ensures |AddUploads(InitialState(), files, ids).uploads| == |files|
  {
    AddUploadsKeys(InitialState(), files, ids);
    AddUploadsGrowsByFileCount(InitialState(), files, ids);
  }

  /** Two consecutive calls store the same as one call with both lists. */
  lemma {:induction false} AddUploadsConcat(state: UploadState, files1: seq<File>, ids1: seq<UploadId>,
                                            files2: seq<File>, ids2: seq<UploadId>)
    requires |ids1| == |files1| && |ids2| == |files2|
    ensures AddUploads(AddUploads(state, files1, ids1), files2, ids2) == AddUploads(state, files1 + files2, ids1 + ids2)
    decreases |files2|
  {
    if |files2| == 0 {
      assert files1 + files2 == files1;
      assert ids1 + ids2 == ids1;
    } else {
      var n := |files2| - 1;
      var m := |files1| + n;
      var files, ids := files1 + files2, ids1 + ids2;
      AddUploadsConcat(state, files1, ids1, files2[..n], ids2[..n]);
      assert files[..m] == files1 + files2[..n];
      assert ids[..m] == ids1 + ids2[..n];
      assert files[m] == files2[n] && ids[m] == ids2[n];
      var before := AddUploads(state, files[..m], ids[..m]);
      assert AddUploads(state, files, ids) == UploadState(before.uploads[ids[m] := UploadOf(files[m])]);
    }
  }

  /** A sequence of distinct ids has as many elements as its set. */
  lemma {:induction false} DistinctIdSetSize(ids: seq<UploadId>)
    requires Distinct(ids)
    ensures |IdSet(ids)| == |ids|
  {
    if |ids| > 0 {
      var n := |ids| - 1;
      DistinctIdSetSize(ids[..n]);
      assert ids == ids[..n] + [ids[n]];
      assert IdSet(ids) == IdSet(ids[..n]) + {ids[n]};
      assert ids[n] !in IdSet(ids[..n]);
    }
  }
}
