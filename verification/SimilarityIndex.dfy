/**
  The similarity index: FAISS row numbers on one side, the manifest's labels and paths
  on the other, and what a search result means when the two are read back together.
  An inner-product search is taken by its contract, as an exact ranking.
 */
module SimilarityIndex {
  import opened Common
  import opened Selection

  type Vector = seq<real>

  /** A two-dimensional array: it has a width even without rows. */
  datatype Matrix = Matrix(width: nat, rows: seq<Vector>)

  predicate Rectangular(m: Matrix) {
    forall i | 0 <= i < |m.rows| :: |m.rows[i]| == m.width
  }

  datatype Index = Index(dim: nat, rows: seq<Vector>)
  datatype Manifest = Manifest(labels: seq<nat>, paths: seq<string>)
  datatype Metadata = Metadata(numVectors: nat, dim: nat, sourceModel: string, imageSize: nat)

  /** A JSON file: missing, not parseable, or parsed. */
  datatype File<+T> = Absent | Broken | Present(content: T)

  /** Parsed metadata; Incomplete lacks one of the fields that append_to_index reads back. */
  datatype MetadataJson = NoObject | Incomplete(numVectors: Option<nat>) | Complete(metadata: Metadata)

  /** The three files of an artefact directory; a missing index is None. */
  datatype Artifacts = Artifacts(index: Option<Index>, manifest: File<Manifest>, metadata: File<MetadataJson>)

  datatype StoreError =
    | FileNotFound | NotUnitNorm | WrongDimension | Diverged | RowOutOfRange
    | Undecodable   // json.loads raises
    | Unassignable  // TypeError: the metadata is no object
    | MissingField  // KeyError: the metadata lacks a field
    | Unavailable   // ModelUnavailableError

  // ----------------------------------------------------------- unit-norm checks

  function Dot(a: Vector, b: Vector): real
    requires |a| == |b|
  {
    if a == [] then 0.0 else Dot(a[..|a| - 1], b[..|b| - 1]) + a[|a| - 1] * b[|b| - 1]
  }

  /** np.allclose(norm, 1.0, atol=1e-3) with its default rtol, stated on the square of the norm. */
  const TOLERANCE := 0.00101

  function Products(a: Vector, b: Vector): (products: seq<real>)
    requires |a| == |b|
    ensures |products| == |a| && forall i | 0 <= i < |a| :: products[i] == a[i] * b[i]
  {
    seq(|a|, i requires 0 <= i < |a| => a[i] * b[i])
  }

  /** The inner product: the products of the components, summed. */
  lemma {:induction false} DotIsSum(a: Vector, b: Vector)
    requires |a| == |b|
    ensures Dot(a, b) == Sum(Products(a, b))
  {
    if a != [] {
      var n := |a| - 1;
      DotIsSum(a[..n], b[..n]);
      assert forall i | 0 <= i < n :: Products(a, b)[..n][i] == a[..n][i] * b[..n][i];
      assert Products(a, b)[..n] == Products(a[..n], b[..n]);
    }
  }

  predicate UnitNorm(v: Vector) {
    (1.0 - TOLERANCE) * (1.0 - TOLERANCE) <= Dot(v, v) <= (1.0 + TOLERANCE) * (1.0 + TOLERANCE)
  }

  /** The norm itself: it misses one by at most the tolerance. */
  lemma UnitNormExactly(v: Vector, norm: real)
    requires norm >= 0.0 && norm * norm == Dot(v, v)
    ensures UnitNorm(v) <==> 1.0 - TOLERANCE <= norm <= 1.0 + TOLERANCE
  {
    hide Dot;
    SquaresOrder(1.0 - TOLERANCE, norm);
    SquaresOrder(norm, 1.0 + TOLERANCE);
  }

  lemma SquaresOrder(x: real, y: real)
    requires x >= 0.0 && y >= 0.0
    ensures x * x <= y * y <==> x <= y
  {
    if x > y {
      SquareGrows(y, x - y);
    } else if x < y {
      SquareGrows(x, y - x);
    }
  }

  lemma SquareGrows(x: real, d: real)
    requires x >= 0.0 && d > 0.0
    ensures (x + d) * (x + d) > x * x
  {
    assert (x + d) * (x + d) == x * x + 2.0 * (x * d) + d * d;
  }

  predicate AllUnit(m: Matrix) {
    forall i | 0 <= i < |m.rows| :: UnitNorm(m.rows[i])
  }

  // ------------------------------------------------------- what the writers mean

  function Built(m: Matrix, labels: seq<nat>, paths: seq<string>, sourceModel: string, imageSize: nat): Artifacts {
    Artifacts(Some(Index(m.width, m.rows)), Present(Manifest(labels, paths)),
              Present(Complete(Metadata(|m.rows|, m.width, sourceModel, imageSize))))
  }

  /** The metadata step of append_to_index, after index and manifest are written. */
  function Recorded(file: File<MetadataJson>, size: nat, dim: nat): (File<MetadataJson>, Result<Metadata, StoreError>) {
    match file
    case Absent => (file, Err(FileNotFound))
    case Broken => (file, Err(Undecodable))
    case Present(NoObject) => (file, Err(Unassignable))
    case Present(Incomplete(_)) => (Present(Incomplete(Some(size))), Err(MissingField))
    case Present(Complete(m)) => (Present(Complete(m.(numVectors := size))), Ok(m.(numVectors := size, dim := dim)))
  }

  function Appended(s: Artifacts, m: Matrix, labels: seq<nat>, paths: seq<string>)
    : (Artifacts, Result<Metadata, StoreError>)
  {
    if s.index.None? then (s, Err(FileNotFound))
    else if !AllUnit(m) then (s, Err(NotUnitNorm))
    else if s.index.value.dim != m.width then (s, Err(WrongDimension))
    else if s.manifest.Absent? then (s, Err(FileNotFound))
    else if s.manifest.Broken? then (s, Err(Undecodable))
    else
      var rows := s.index.value.rows + m.rows;
      var manifest := Manifest(s.manifest.content.labels + labels, s.manifest.content.paths + paths);
      if |rows| != |manifest.labels| then (s, Err(Diverged))
      else
        var (metadata, r) := Recorded(s.metadata, |rows|, m.width);
        (Artifacts(Some(Index(m.width, rows)), Present(manifest), metadata), r)
  }

  predicate RowsWithin<T>(updates: map<int, T>, size: nat) {
    forall row | row in updates :: 0 <= row < size
  }

  /** The entries after overwriting: the update's where it names the row, else unchanged. */
  function Overwritten<T>(xs: seq<T>, updates: map<int, T>): (ys: seq<T>)
    ensures |ys| == |xs|
    ensures forall i | 0 <= i < |xs| :: ys[i] == if i in updates then updates[i] else xs[i]
  {
    seq(|xs|, i requires 0 <= i < |xs| => if i in updates then updates[i] else xs[i])
  }

  function Differences<T(==)>(xs: seq<T>, ys: seq<T>): nat
    requires |xs| == |ys|
  {
    if xs == [] then 0
    else Differences(xs[..|xs| - 1], ys[..|ys| - 1]) + if xs[|xs| - 1] == ys[|ys| - 1] then 0 else 1
  }

  function Relabelled(s: Artifacts, updates: map<int, nat>, pathUpdates: map<int, string>)
    : (Artifacts, Result<nat, StoreError>)
  {
    if s.index.None? || s.manifest.Absent? then (s, Err(FileNotFound))
    else if s.manifest.Broken? then (s, Err(Undecodable))
    else
      var size := |s.index.value.rows|;
      var manifest := s.manifest.content;
      if !RowsWithin(updates, size) || !RowsWithin(pathUpdates, size) then (s, Err(RowOutOfRange))
      else if !RowsWithin(updates, |manifest.labels|) || !RowsWithin(pathUpdates, |manifest.paths|) then
        (s, Err(RowOutOfRange))
      else if |manifest.labels| != size || |manifest.paths| != size then (s, Err(Diverged))
      else
        var labels := Overwritten(manifest.labels, updates);
        var paths := Overwritten(manifest.paths, pathUpdates);
        (s.(manifest := Present(Manifest(labels, paths))),
         Ok(Differences(manifest.labels, labels) + Differences(manifest.paths, paths)))
  }

  // ------------------------------------------------------------------ the store

  lemma {:induction false} NoDifferences<T>(xs: seq<T>)
    ensures Differences(xs, xs) == 0
  {
    if xs != [] {
      NoDifferences(xs[..|xs| - 1]);
    }
  }

  /** Overwriting a position that still had its first value makes one more difference, if any. */
  lemma {:induction false} OneMoreDifference<T>(xs: seq<T>, ys: seq<T>, i: nat, v: T)
    requires |xs| == |ys| && i < |xs| && ys[i] == xs[i]
    ensures Differences(xs, ys[i := v]) == Differences(xs, ys) + if v == xs[i] then 0 else 1
  {
    var n := |xs| - 1;
    if i < n {
      OneMoreDifference(xs[..n], ys[..n], i, v);
      assert ys[i := v][..n] == ys[..n][i := v];
    } else {
      assert ys[i := v][..n] == ys[..n];
    }
  }

  /** The next key in a dictionary's order, which nothing here depends on. */
  method NextKey<K(==)>(todo: set<K>) returns (key: K)
    requires todo != {}
    ensures key in todo
  {
    key :| key in todo;
  }

  /**
    The two relabelling loops: a dictionary's items are visited in some order, only
    entries that differ are written, and each such write is counted.
   */
  method Overwrite<T(==)>(xs: seq<T>, updates: map<int, T>) returns (r: Result<(seq<T>, nat), StoreError>)
    ensures r.Ok? <==> RowsWithin(updates, |xs|)
    ensures r.Ok? ==> r.value == (Overwritten(xs, updates), Differences(xs, Overwritten(xs, updates)))
    ensures r.Err? ==> r.error == RowOutOfRange
  {
    var ys, changed, todo := xs, 0, updates.Keys;
    NoDifferences(xs);
    while todo != {}
      invariant todo <= updates.Keys
      invariant forall row | row in updates && row !in todo :: 0 <= row < |xs|
      invariant |ys| == |xs|
      invariant forall i | 0 <= i < |xs| :: ys[i] == if i in updates && i !in todo then updates[i] else xs[i]
      invariant changed == Differences(xs, ys)
      decreases |todo|
    {
      var row := NextKey(todo);
      if !(0 <= row < |ys|) {
        return Err(RowOutOfRange);
      }
      OneMoreDifference(xs, ys, row, updates[row]);
      if ys[row] != updates[row] {
        ys := ys[row := updates[row]];
        changed := changed + 1;
      }
      todo := todo - {row};
    }
    assert ys == Overwritten(xs, updates);
    return Ok((ys, changed));
  }

  class IndexStore {
    var index: Option<Index>
    var manifest: File<Manifest>
    var metadata: File<MetadataJson>

    function View(): Artifacts
      reads this
    {
      Artifacts(index, manifest, metadata)
    }

    /** An empty artefact directory. */
    constructor ()
      ensures View() == Artifacts(None, Absent, Absent)
    {
      index, manifest, metadata := None, Absent, Absent;
    }

    /** build_index */
    method Build(m: Matrix, labels: seq<nat>, paths: seq<string>, sourceModel: string, imageSize: nat)
      returns (r: Result<Metadata, StoreError>)
      requires Rectangular(m)
      modifies this
      ensures AllUnit(m) ==>
        View() == Built(m, labels, paths, sourceModel, imageSize) && r == Ok(metadata.content.metadata)
      ensures !AllUnit(m) ==> View() == old(View()) && r == Err(NotUnitNorm)
    {
      if !AllUnit(m) {
        return Err(NotUnitNorm);
      }
      index := Some(Index(m.width, m.rows));
      manifest := Present(Manifest(labels, paths));
      metadata := Present(Complete(Metadata(|m.rows|, m.width, sourceModel, imageSize)));
      return Ok(metadata.content.metadata);
    }

    /** append_to_index */
    method Append(m: Matrix, labels: seq<nat>, paths: seq<string>) returns (r: Result<Metadata, StoreError>)
      requires Rectangular(m)
      modifies this
      ensures (View(), r) == Appended(old(View()), m, labels, paths)
    {
      if index.None? {
        return Err(FileNotFound);
      }
      if !AllUnit(m) {
        return Err(NotUnitNorm);
      }
      var grown := index.value;
      if grown.dim != m.width {
        return Err(WrongDimension);
      }
      if manifest.Absent? {
        return Err(FileNotFound);
      }
      if manifest.Broken? {
        return Err(Undecodable);
      }
      var entries := manifest.content;
      grown := grown.(rows := grown.rows + m.rows);
      entries := Manifest(entries.labels + labels, entries.paths + paths);
      if |grown.rows| != |entries.labels| {
        return Err(Diverged);
      }
      index := Some(grown);
      manifest := Present(entries);
      if metadata.Absent? {
        return Err(FileNotFound);
      }
      if metadata.Broken? {
        return Err(Undecodable);
      }
      match metadata.content {
        case NoObject =>
          return Err(Unassignable);
        case Incomplete(_) =>
          metadata := Present(Incomplete(Some(|grown.rows|)));
          return Err(MissingField);
        case Complete(recorded) =>
          metadata := Present(Complete(recorded.(numVectors := |grown.rows|)));
          return Ok(metadata.content.metadata.(dim := grown.dim));
      }
    }

    /** update_index_labels; the caller's None for the paths is the empty map. */
    method UpdateLabels(updates: map<int, nat>, pathUpdates: map<int, string>) returns (r: Result<nat, StoreError>)
      modifies this
      ensures (View(), r) == Relabelled(old(View()), updates, pathUpdates)
    {
      if index.None? || manifest.Absent? {
        return Err(FileNotFound);
      }
      if manifest.Broken? {
        return Err(Undecodable);
      }
      var size := |index.value.rows|;
      if !RowsWithin(updates, size) || !RowsWithin(pathUpdates, size) {
        return Err(RowOutOfRange);
      }
      var labels := Overwrite(manifest.content.labels, updates);
      if labels.Err? {
        return Err(labels.error);
      }
      var paths := Overwrite(manifest.content.paths, pathUpdates);
      if paths.Err? {
        return Err(paths.error);
      }
      if |labels.value.0| != size || |paths.value.0| != size {
        return Err(Diverged);
      }
      manifest := Present(Manifest(labels.value.0, paths.value.0));
      return Ok(labels.value.1 + paths.value.1);
    }
  }

  // ------------------------------------------------- index and manifest in step

  /** The metadata file holds every field that append_to_index reads back. */
  predicate Usable(metadata: File<MetadataJson>) {
    metadata.Present? && metadata.content.Complete?
  }

  predicate AllThere(s: Artifacts) {
    s.index.Some? && s.manifest.Present? && Usable(s.metadata)
  }

  /** Every row has a label and a path, there are no others, and the recorded size is right. */
  predicate Aligned(s: Artifacts) {
    && AllThere(s)
    && |s.index.value.rows| == |s.manifest.content.labels| == |s.manifest.content.paths| 
         == s.metadata.content.metadata.numVectors
    && s.metadata.content.metadata.dim == s.index.value.dim
    && forall i | 0 <= i < |s.index.value.rows| ::
         |s.index.value.rows[i]| == s.index.value.dim && UnitNorm(s.index.value.rows[i])
  }

  datatype Operation =
    | Append(m: Matrix, labels: seq<nat>, paths: seq<string>)
    | Relabel(updates: map<int, nat>, pathUpdates: map<int, string>)

  function Perform(s: Artifacts, op: Operation): Artifacts {
    match op
    case Append(m, labels, paths) => Appended(s, m, labels, paths).0
    case Relabel(updates, pathUpdates) => Relabelled(s, updates, pathUpdates).0
  }

  predicate Accepted(s: Artifacts, op: Operation) {
    match op
    case Append(m, labels, paths) => Appended(s, m, labels, paths).1.Ok?
    case Relabel(updates, pathUpdates) => Relabelled(s, updates, pathUpdates).1.Ok?
  }

  function PerformAll(s: Artifacts, ops: seq<Operation>): Artifacts {
    if ops == [] then s else Perform(PerformAll(s, ops[..|ops| - 1]), ops[|ops| - 1])
  }

  /** The one length the code does not check: an append's paths against its rows. */
  predicate PathsMatch(op: Operation) {
    op.Append? ==> Rectangular(op.m) && |op.paths| == |op.m.rows|
  }

  predicate AllMatch(ops: seq<Operation>) {
    forall k | 0 <= k < |ops| :: PathsMatch(ops[k])
  }

  lemma BuildAligns(m: Matrix, labels: seq<nat>, paths: seq<string>, sourceModel: string, imageSize: nat)
    requires Rectangular(m) && AllUnit(m)
    ensures Aligned(Built(m, labels, paths, sourceModel, imageSize)) <==> |labels| == |paths| == |m.rows|
  {
  }

  /** Row by row a build says what it was given, and its metadata where the vectors come from. */
  lemma BuildSays(m: Matrix, labels: seq<nat>, paths: seq<string>, sourceModel: string, imageSize: nat, i: nat)
    requires Rectangular(m) && AllUnit(m) && |labels| == |paths| == |m.rows| && i < |m.rows|
    ensures var s := Built(m, labels, paths, sourceModel, imageSize);
      && Aligned(s) && EntryAt(s, i) == Entry(m.rows[i], labels[i], paths[i])
      && s.metadata.content.metadata == Metadata(|m.rows|, m.width, sourceModel, imageSize)
  {
    BuildAligns(m, labels, paths, sourceModel, imageSize);
  }

  /**
    An operation on aligned artefacts leaves them aligned exactly if it is not an
    accepted append whose paths are too few or too many; refused operations change nothing.
   */
  lemma StepAlignsExactly(s: Artifacts, op: Operation)
    requires Aligned(s) && (op.Append? ==> Rectangular(op.m))
    ensures Aligned(Perform(s, op)) <==> (Accepted(s, op) ==> PathsMatch(op))
    ensures !Accepted(s, op) ==> Perform(s, op) == s
  {
    if op.Append? && Accepted(s, op) {
      var rows, after := s.index.value.rows, Perform(s, op).index.value.rows;
      forall i | 0 <= i < |after| ensures |after[i]| == s.index.value.dim && UnitNorm(after[i]) {
        if i >= |rows| {
          assert after[i] == op.m.rows[i - |rows|];
        }
      }
    }
  }

  /** Over any run of accepted and refused operations index and manifest stay in step. */
  lemma {:induction false} RunStaysAligned(s: Artifacts, ops: seq<Operation>)
    requires Aligned(s)
    requires AllMatch(ops)
    ensures Aligned(PerformAll(s, ops))
  {
    if ops != [] {
      RunStaysAligned(s, ops[..|ops| - 1]);
      StepAlignsExactly(PerformAll(s, ops[..|ops| - 1]), ops[|ops| - 1]);
    }
  }

  /** What append_to_index checks before it writes. */
  predicate Consistent(s: Artifacts, m: Matrix, labels: seq<nat>) {
    && s.index.Some? && s.manifest.Present? && AllUnit(m) && s.index.value.dim == m.width
    && |s.index.value.rows| + |m.rows| == |s.manifest.content.labels| + |labels|
  }

  /** Nothing to add, and no size to correct in metadata that lacks a field. */
  predicate NothingToWrite(s: Artifacts, m: Matrix, labels: seq<nat>, paths: seq<string>)
    requires s.index.Some?
  {
    && m.rows == [] && labels == [] && paths == []
    && (s.metadata.Present? && s.metadata.content.Incomplete? ==>
          s.metadata.content.numVectors == Some(|s.index.value.rows|))
  }

  /**
    An append is accepted exactly if every check passes and the metadata is usable.  A
    refused one has left the three files as they were exactly if a check failed or there
    was nothing to write: with absent, broken or incomplete metadata index and manifest are
    rewritten before the failure, and incomplete metadata as well.
   */
  lemma RefusedAppend(s: Artifacts, m: Matrix, labels: seq<nat>, paths: seq<string>)
    ensures var (after, r) := Appended(s, m, labels, paths);
      && (r.Ok? <==> Consistent(s, m, labels) && Usable(s.metadata))
      && (r.Err? ==> (after == s <==> !Consistent(s, m, labels) || NothingToWrite(s, m, labels, paths)))
  {
    if s.index.Some? && s.manifest.Present? {
      var rows, manifest := s.index.value.rows, s.manifest.content;
      assert rows + [] == rows && manifest.labels + [] == manifest.labels && manifest.paths + [] == manifest.paths;
      assert rows + m.rows == rows ==> |m.rows| == 0;
      assert manifest.labels + labels == manifest.labels ==> |labels| == 0;
      assert manifest.paths + paths == manifest.paths ==> |paths| == 0;
    }
  }

  // ------------------------------------------------------ what each row now says

  datatype Entry = Entry(vector: Vector, classIndex: nat, path: string)

  function EntryAt(s: Artifacts, i: nat): Entry
    requires Aligned(s) && i < |s.index.value.rows|
  {
    Entry(s.index.value.rows[i], s.manifest.content.labels[i], s.manifest.content.paths[i])
  }

  /** What an operation that was accepted says about row i, when `size` rows were there before. */
  function Says(op: Operation, size: nat, i: nat, before: Option<Entry>): Option<Entry>
    requires i < size <==> before.Some?
    requires PathsMatch(op) && (op.Append? ==> |op.labels| == |op.m.rows|)
  {
    match op
    case Append(m, labels, paths) =>
      if i < size then before
      else if i < size + |m.rows| then Some(Entry(m.rows[i - size], labels[i - size], paths[i - size]))
      else None
    case Relabel(updates, pathUpdates) =>
      if i >= size then None
      else
        var e := before.value;
        Some(Entry(e.vector, if i in updates then updates[i] else e.classIndex,
                   if i in pathUpdates then pathUpdates[i] else e.path))
  }

  /** Row i after one operation. */
  function Lookup(s: Artifacts, i: nat): Option<Entry>
    requires Aligned(s)
  {
    if i < |s.index.value.rows| then Some(EntryAt(s, i)) else None
  }

  /** An accepted operation changes exactly the rows it names, as it says; a refused one none. */
  lemma StepSays(s: Artifacts, op: Operation, i: nat)
    requires Aligned(s) && PathsMatch(op)
    ensures Aligned(Perform(s, op))
    ensures Accepted(s, op) && op.Append? ==> |op.labels| == |op.m.rows|
    ensures Lookup(Perform(s, op), i)
         == if Accepted(s, op) then Says(op, |s.index.value.rows|, i, Lookup(s, i)) else Lookup(s, i)
  {
    StepAlignsExactly(s, op);
  }

  function Size(s: Artifacts): nat {
    if s.index.Some? then |s.index.value.rows| else 0
  }

  /**
    Searching a run backwards for the last accepted operation that labelled row i: a
    relabelling that names it, or the append that brought it.
   */
  function LatestLabel(s: Artifacts, ops: seq<Operation>, i: nat): Option<nat>
    requires Aligned(s) && AllMatch(ops)
  {
    if ops == [] then if i < Size(s) then Some(s.manifest.content.labels[i]) else None
    else
      var front, last := ops[..|ops| - 1], ops[|ops| - 1];
      var before := PerformAll(s, front);
      if !Accepted(before, last) then LatestLabel(s, front, i)
      else match last
        case Relabel(updates, _) =>
          if i < Size(before) && i in updates then Some(updates[i]) else LatestLabel(s, front, i)
        case Append(_, labels, _) =>
          if Size(before) <= i < Size(before) + |labels| then Some(labels[i - Size(before)])
          else LatestLabel(s, front, i)
  }

  /** The same search for the path of row i. */
  function LatestPath(s: Artifacts, ops: seq<Operation>, i: nat): Option<string>
    requires Aligned(s) && AllMatch(ops)
  {
    if ops == [] then if i < Size(s) then Some(s.manifest.content.paths[i]) else None
    else
      var front, last := ops[..|ops| - 1], ops[|ops| - 1];
      var before := PerformAll(s, front);
      if !Accepted(before, last) then LatestPath(s, front, i)
      else match last
        case Relabel(_, pathUpdates) =>
          if i < Size(before) && i in pathUpdates then Some(pathUpdates[i]) else LatestPath(s, front, i)
        case Append(_, _, paths) =>
          if Size(before) <= i < Size(before) + |paths| then Some(paths[i - Size(before)])
          else LatestPath(s, front, i)
  }

  /** After any run every row carries the latest label and path that an accepted operation gave it. */
  lemma {:induction false} RowsCarryTheLatest(s: Artifacts, ops: seq<Operation>, i: nat)
    requires Aligned(s) && AllMatch(ops)
    ensures Aligned(PerformAll(s, ops))
    ensures var e := Lookup(PerformAll(s, ops), i);
      && LatestLabel(s, ops, i) == (if e.Some? then Some(e.value.classIndex) else None)
      && LatestPath(s, ops, i) == (if e.Some? then Some(e.value.path) else None)
  {
    hide Appended, Relabelled;
    if ops != [] {
      var front, last := ops[..|ops| - 1], ops[|ops| - 1];
      RowsCarryTheLatest(s, front, i);
      StepSays(PerformAll(s, front), last, i);
    }
  }

  // --------------------------------------------- appending is building in pieces

  function Stack(a: Matrix, b: Matrix): Matrix {
    Matrix(a.width, a.rows + b.rows)
  }

  /** Appending to a built index leaves the same three files as building from everything. */
  lemma AppendIsBuild(a: Matrix, la: seq<nat>, pa: seq<string>, b: Matrix, lb: seq<nat>, pb: seq<string>,
                      sourceModel: string, imageSize: nat)
    requires AllUnit(a) && AllUnit(b) && a.width == b.width
    requires |la| + |lb| == |a.rows| + |b.rows|
    ensures var (s, r) := Appended(Built(a, la, pa, sourceModel, imageSize), b, lb, pb);
      && s == Built(Stack(a, b), la + lb, pa + pb, sourceModel, imageSize)
      && r == Ok(s.metadata.content.metadata)
    ensures AllUnit(Stack(a, b))
  {
    forall i | 0 <= i < |Stack(a, b).rows| ensures UnitNorm(Stack(a, b).rows[i]) {
      if i >= |a.rows| {
        assert Stack(a, b).rows[i] == b.rows[i - |a.rows|];
      }
    }
  }

  datatype Batch = Batch(m: Matrix, labels: seq<nat>, paths: seq<string>)

  function Merge(batches: seq<Batch>): Batch
    requires batches != []
  {
    var last := batches[|batches| - 1];
    if |batches| == 1 then last
    else
      var front := Merge(batches[..|batches| - 1]);
      Batch(Stack(front.m, last.m), front.labels + last.labels, front.paths + last.paths)
  }

  function AsAppends(batches: seq<Batch>): (ops: seq<Operation>)
    ensures |ops| == |batches|
    ensures forall k | 0 <= k < |ops| :: ops[k] == Append(batches[k].m, batches[k].labels, batches[k].paths)
  {
    seq(|batches|, k requires 0 <= k < |batches| => Append(batches[k].m, batches[k].labels, batches[k].paths))
  }

  /** However a corpus is cut into batches, building from the first and appending the rest equals one build. */
  lemma {:induction false} BuildInPieces(batches: seq<Batch>, sourceModel: string, imageSize: nat)
    requires batches != []
    requires forall k | 0 <= k < |batches| ::
      && AllUnit(batches[k].m) && batches[k].m.width == batches[0].m.width
      && |batches[k].labels| == |batches[k].m.rows|
    ensures var all := Merge(batches);
      var first := Built(batches[0].m, batches[0].labels, batches[0].paths, sourceModel, imageSize);
      && PerformAll(first, AsAppends(batches[1..])) == Built(all.m, all.labels, all.paths, sourceModel, imageSize)
      && AllUnit(all.m) && all.m.width == batches[0].m.width && |all.labels| == |all.m.rows|
    decreases |batches|
  {
    var n := |batches| - 1;
    if n > 0 {
      var front, last := batches[..n], batches[n];
      BuildInPieces(front, sourceModel, imageSize);
      var all := Merge(front);
      AppendIsBuild(all.m, all.labels, all.paths, last.m, last.labels, last.paths, sourceModel, imageSize);
      var ops := AsAppends(batches[1..]);
      assert ops[..n - 1] == AsAppends(front[1..]);
      assert ops[n - 1] == Append(last.m, last.labels, last.paths);
    }
  }

  /** Applying the same relabelling again changes nothing and reports zero rows. */
  lemma RelabelTwice(s: Artifacts, updates: map<int, nat>, pathUpdates: map<int, string>)
    requires Relabelled(s, updates, pathUpdates).1.Ok?
    ensures var once := Relabelled(s, updates, pathUpdates).0; Relabelled(once, updates, pathUpdates) == (once, Ok(0))
  {
    var once := Relabelled(s, updates, pathUpdates).0.manifest.content;
    assert Overwritten(once.labels, updates) == once.labels;
    assert Overwritten(once.paths, pathUpdates) == once.paths;
    NoDifferences(once.labels);
    NoDifferences(once.paths);
  }

  // ------------------------------------------------------------ reading it back

  /** A loaded index. */
  datatype Loaded = Loaded(index: Index, labels: seq<nat>, paths: seq<string>)

  /** SimilarityIndex.load: it compares the labels with the rows, but not the paths. */
  function Load(s: Artifacts): (r: Result<Loaded, StoreError>)
    ensures r.Ok? <==>
      && s.index.Some? && s.manifest.Present? && s.metadata.Present?
      && |s.index.value.rows| == |s.manifest.content.labels|
    ensures r.Ok? ==>
      && r.value.index == s.index.value
      && r.value.labels == s.manifest.content.labels && r.value.paths == s.manifest.content.paths
    ensures Aligned(s) ==> r.Ok? && |r.value.paths| == |r.value.labels| == |r.value.index.rows|
  {
    if s.index.None? || s.manifest.Absent? || s.metadata.Absent? then Err(Unavailable)
    else if s.manifest.Broken? || s.metadata.Broken? then Err(Undecodable)
    else if |s.index.value.rows| != |s.manifest.content.labels| then Err(Unavailable)
    else Ok(Loaded(s.index.value, s.manifest.content.labels, s.manifest.content.paths))
  }

  function Scores(rows: seq<Vector>, query: Vector): (scores: seq<real>)
    requires forall i | 0 <= i < |rows| :: |rows[i]| == |query|
    ensures |scores| == |rows|
    ensures forall i | 0 <= i < |rows| :: scores[i] == Dot(rows[i], query)
  {
    seq(|rows|, i requires 0 <= i < |rows| => Dot(rows[i], query))
  }

  function Padding(n: nat): (p: seq<int>)
    ensures |p| == n && forall i | 0 <= i < n :: p[i] == -1
  {
    seq(n, _ => -1)
  }

  /** index.search: the best rows first, padded with -1 up to k. */
  ghost predicate Searched(scores: seq<real>, k: nat, best: seq<nat>, found: seq<int>) {
    && Leading(scores, Upto(|scores|), best) && |best| == Min(k, |scores|)
    && |found| == k
    && (forall i | 0 <= i < |best| :: found[i] == best[i])
    && found[|best|..] == Padding(k - |best|)
  }

  datatype Similar = Similar(rank: nat, similarity: real, named: Label, classId: nat, reference: string)

  function Report(at: Loaded, scores: seq<real>, classNames: seq<string>, rank: nat, row: nat): Similar
    requires row < |scores| && row < |at.labels| && row < |at.paths|
  {
    var id := at.labels[row];
    Similar(rank, scores[row], if id < |classNames| then Named(classNames[id]) else Numbered(id), id, at.paths[row])
  }

  /** What is reported of a row: its rank, score and manifest entry, and the name of its class. */
  predicate ReportOf(s: Similar, at: Loaded, scores: seq<real>, classNames: seq<string>, rank: nat, row: nat) {
    && row < |scores| && row < |at.labels| && row < |at.paths|
    && s.rank == rank && s.similarity == scores[row] && s.classId == at.labels[row] && s.reference == at.paths[row]
    && s.named == (if s.classId < |classNames| then Named(classNames[s.classId]) else Numbered(s.classId))
  }

  /** The rows of `best` that reach the asked-for similarity, in order. */
  function Reaching(scores: seq<real>, best: seq<nat>, minimum: real): (rows: seq<nat>)
    requires InRange(best, |scores|)
    ensures |rows| <= |best| && InRange(rows, |scores|)
  {
    if best == [] then []
    else
      var front := Reaching(scores, best[..|best| - 1], minimum);
      if scores[best[|best| - 1]] >= minimum then front + [best[|best| - 1]] else front
  }

  /** Nothing below the minimum: everything is kept. */
  lemma {:induction false} ReachingAll(scores: seq<real>, best: seq<nat>, minimum: real)
    requires InRange(best, |scores|)
    requires forall i | 0 <= i < |best| :: scores[best[i]] >= minimum
    ensures Reaching(scores, best, minimum) == best
  {
    if best != [] {
      var n := |best| - 1;
      ReachingAll(scores, best[..n], minimum);
      assert best == best[..n] + [best[n]];
    }
  }

  /** A descending list is cut where it drops below the minimum. */
  lemma {:induction false} ReachingIsPrefix(scores: seq<real>, best: seq<nat>, minimum: real)
    requires InRange(best, |scores|) && Descending(scores, best)
    ensures var rows := Reaching(scores, best, minimum);
      && rows == best[..|rows|]
      && (forall i | 0 <= i < |rows| :: scores[best[i]] >= minimum)
      && (forall i | |rows| <= i < |best| :: scores[best[i]] < minimum)
  {
    if best != [] {
      var n := |best| - 1;
      if scores[best[n]] >= minimum {
        ReachingAll(scores, best, minimum);
      } else {
        var front := best[..n];
        ReachingIsPrefix(scores, front, minimum);
        var kept := |Reaching(scores, front, minimum)|;
        assert front[..kept] == best[..kept];
        assert forall i | kept <= i < n :: scores[front[i]] < minimum && front[i] == best[i];
        assert forall i | 0 <= i < kept :: scores[front[i]] >= minimum && front[i] == best[i];
      }
    }
  }

  lemma ReportSays(at: Loaded, scores: seq<real>, classNames: seq<string>, rank: nat, row: nat)
    requires row < |scores| && row < |at.labels| && row < |at.paths|
    ensures ReportOf(Report(at, scores, classNames, rank, row), at, scores, classNames, rank, row)
  {
  }

  lemma SearchedRange(scores: seq<real>, k: nat, best: seq<nat>, found: seq<int>)
    requires Searched(scores, k, best, found)
    ensures InRange(best, |scores|) && |found| == k
    ensures forall minimum :: |Reaching(scores, best, minimum)| <= k
  {
  }

  /** What FAISS found at position `i`: the row to be reported there, or one below the minimum, or padding. */
  lemma FoundRow(scores: seq<real>, k: nat, best: seq<nat>, found: seq<int>, minimum: real, i: nat)
    requires Searched(scores, k, best, found) && InRange(best, |scores|) && i < |found|
    ensures found[i] < |scores|
    ensures var rows := Reaching(scores, best, minimum);
      if i < |rows| then found[i] == rows[i] && scores[rows[i]] >= minimum
      else found[i] < 0 || scores[found[i]] < minimum
  {
    ReachingIsPrefix(scores, best, minimum);
    hide Leading, Upto, Reaching;
    if i >= |best| {
      assert found[i] == found[|best|..][i - |best|] == -1;
    }
  }

  /** The result loop of find_similar; a row without a path is Python's IndexError. */
  method FindSimilar(at: Loaded, scores: seq<real>, found: seq<int>, ghost best: seq<nat>, k: nat,
                     classNames: seq<string>, minimum: real)
    returns (r: Result<seq<Similar>, StoreError>)
    requires |at.labels| == |at.index.rows| == |scores|
    requires Searched(scores, k, best, found)
    ensures r.Ok? <==> InRange(Reaching(scores, best, minimum), |at.paths|)
    ensures r.Err? ==> r.error == RowOutOfRange
    ensures r.Ok? ==>
      var rows := Reaching(scores, best, minimum);
      && |r.value| == |rows|
      && forall i | 0 <= i < |rows| :: ReportOf(r.value[i], at, scores, classNames, i + 1, rows[i])
  {
    SearchedRange(scores, k, best, found);
    hide Searched, Reaching, Report, ReportOf, Leading, Upto;
    ghost var rows := Reaching(scores, best, minimum);
    var results := [];
    for i := 0 to |found|
      invariant |results| == Min(i, |rows|)
      invariant forall j | 0 <= j < |results| ::
        rows[j] < |at.paths| && ReportOf(results[j], at, scores, classNames, j + 1, rows[j])
    {
      FoundRow(scores, k, best, found, minimum, i);
      if found[i] < 0 || scores[found[i]] < minimum {
        continue;
      }
      if found[i] >= |at.paths| {
        return Err(RowOutOfRange);
      }
      ReportSays(at, scores, classNames, |results| + 1, found[i]);
      results := results + [Report(at, scores, classNames, |results| + 1, found[i])];
    }
    return Ok(results);
  }

  /** Searching an aligned index: each reported similarity is the inner product of the query and the row reported. */
  lemma SimilarityIsInnerProduct(s: Artifacts, query: Vector, similar: Similar, classNames: seq<string>, rank: nat,
                                 row: nat)
    requires Aligned(s) && |query| == s.index.value.dim && row < |s.index.value.rows|
    requires ReportOf(similar, Load(s).value, Scores(s.index.value.rows, query), classNames, rank, row)
    ensures var vector := s.index.value.rows[row];
      similar.similarity == Sum(Products(vector, query))
  {
    DotIsSum(s.index.value.rows[row], query);
  }

  /**
    What a search on an aligned index reports: it never fails, and its rows are the
    best ones at or above the minimum - a row left out is below the minimum, or k rows
    that are at least as similar are all reported.
   */
  lemma SearchIsFaithful(s: Artifacts, query: Vector, k: nat, best: seq<nat>, found: seq<int>, minimum: real)
    requires Aligned(s) && |query| == s.index.value.dim
    requires Searched(Scores(s.index.value.rows, query), k, best, found)
    ensures Load(s).Ok?
    ensures var scores := Scores(s.index.value.rows, query);
      var rows := Reaching(scores, best, minimum);
      && Distinct(rows) && InRange(rows, |scores|) && Descending(scores, rows)
      && (forall row | row in rows :: row < |s.manifest.content.paths|)
      && (forall c: nat | c < |scores| && c !in rows ::
            scores[c] < minimum || (|rows| == k && forall row | row in rows :: scores[row] >= scores[c]))
  {
    RankedReaching(Scores(s.index.value.rows, query), k, best, found, minimum);
  }

  lemma RankedReaching(scores: seq<real>, k: nat, best: seq<nat>, found: seq<int>, minimum: real)
    requires Searched(scores, k, best, found)
    ensures var rows := Reaching(scores, best, minimum);
      && Distinct(rows) && InRange(rows, |scores|) && Descending(scores, rows)
      && (forall c: nat | c < |scores| && c !in rows ::
            scores[c] < minimum || (|rows| == k && forall row | row in rows :: scores[row] >= scores[c]))
  {
    ReachingIsPrefix(scores, best, minimum);
    hide Reaching;
    var rows := Reaching(scores, best, minimum);
    forall c: nat | c < |scores| && c !in rows && scores[c] >= minimum
      ensures |rows| == k && forall row | row in rows :: scores[row] >= scores[c]
    {
      LeftOut(scores, k, best, found, |rows|, minimum, c);
    }
  }

  /** A row at or above the minimum that is not reported is beaten by k reported ones. */
  lemma LeftOut(scores: seq<real>, k: nat, best: seq<nat>, found: seq<int>, n: nat, minimum: real, c: nat)
    requires Searched(scores, k, best, found) && n <= |best|
    requires forall i | n <= i < |best| :: scores[best[i]] < minimum
    requires n < |best| ==> scores[best[n]] < minimum
    requires c < |scores| && c !in best[..n] && scores[c] >= minimum
    ensures n == |best| == k && forall row | row in best :: scores[row] >= scores[c]
  {
    forall i | 0 <= i < |best| ensures best[i] != c {
      if i < n {
        assert best[..n][i] == best[i];
      }
    }
    assert forall i | 0 <= i < |best| :: scores[best[i]] >= scores[c];
    if |best| == |scores| {
      PermutationCovers(best, |scores|, c);
    }
  }

  /** A relabelled row that the search finds is reported under its new label and path. */
  lemma RelabelReachesSearch(s: Artifacts, updates: map<int, nat>, pathUpdates: map<int, string>,
                             scores: seq<real>, classNames: seq<string>, rank: nat, row: nat)
    requires Aligned(s) && Relabelled(s, updates, pathUpdates).1.Ok?
    requires row < |s.index.value.rows| == |scores|
    ensures var t := Relabelled(s, updates, pathUpdates).0;
      && Load(t).Ok? && Load(t).value.index == Load(s).value.index
      && |Load(t).value.paths| == |scores|
      && var before := Report(Load(s).value, scores, classNames, rank, row);
         var after := Report(Load(t).value, scores, classNames, rank, row);
         && after.similarity == before.similarity && after.rank == rank
         && after.classId == (if row in updates then updates[row] else before.classId)
         && after.reference == (if row in pathUpdates then pathUpdates[row] else before.reference)
         && after.named == (if after.classId < |classNames| then Named(classNames[after.classId])
                            else Numbered(after.classId))
  {
  }
}
