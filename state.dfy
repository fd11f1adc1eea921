/** The state MediaHub's reconciler and clean-up share: the filesystem, the
    `processed_files` ledger of the MediaHub database, the `file_index`
    table, and the process-wide error flag of the reconciler. */
module State {
  import opened Wrappers
  import opened FileTree

  /** A `file_index` row: a destination path, whether it is a symlink, and its target. */
  datatype IndexRow = IndexRow(path: Path, isSymlink: bool, target: Path)

  /** The ledger maps a source file to the destination recorded for it. */
  type Ledger = map<Path, Path>

  datatype Snapshot = Snapshot(tree: Tree, ledger: Ledger, index: seq<IndexRow>, errorSet: bool)

  /** The ledger after a rename of destination `from` to `to`: every source
      recorded at `from` is now recorded at `to`. */
  function RenameDest(l: Ledger, from: Path, to: Path): (r: Ledger)
    ensures r.Keys == l.Keys
    ensures forall k :: k in l && l[k] == from ==> r[k] == to
    ensures forall k :: k in l && l[k] != from ==> r[k] == l[k]
  {
    map k | k in l :: if l[k] == from then to else l[k]
  }

  /** `DELETE FROM processed_files WHERE destination_path = d`. */
  function ForgetDest(l: Ledger, d: Path): (r: Ledger)
    ensures forall k :: k in r <==> k in l && l[k] != d
    ensures forall k :: k in r ==> r[k] == l[k]
  {
    map k | k in l && l[k] != d :: l[k]
  }

  /** `DELETE FROM file_index WHERE path = p`. */
  function DeleteIndexRow(idx: seq<IndexRow>, p: Path): (r: seq<IndexRow>)
    ensures forall row :: row in r <==> row in idx && row.path != p
    ensures |r| <= |idx|
  {
    if idx == [] then []
    else (if idx[0].path == p then [] else [idx[0]]) + DeleteIndexRow(idx[1..], p)
  }

  /** Stores `row`, replacing any row for the same path (the path is the key). */
  function UpsertIndexRow(idx: seq<IndexRow>, row: IndexRow): (r: seq<IndexRow>)
    ensures row in r
    ensures forall x :: x in r && x != row ==> x in idx && x.path != row.path
    ensures forall x :: x in idx && x.path != row.path ==> x in r
  {
    DeleteIndexRow(idx, row.path) + [row]
  }

  /** The paths of the rows, in table order. */
  function IndexPaths(idx: seq<IndexRow>): (r: seq<Path>)
    ensures |r| == |idx|
    ensures forall i :: 0 <= i < |idx| ==> r[i] == idx[i].path
  {
    if idx == [] then [] else [idx[0].path] + IndexPaths(idx[1..])
  }

  class Hub {
    var tree: Tree
    var ledger: Ledger
    var index: seq<IndexRow>
    var errorSet: bool

    function Snap(): Snapshot
      reads this
    {
      Snapshot(tree, ledger, index, errorSet)
    }

    constructor (s: Snapshot)
      ensures Snap() == s
    {
      tree := s.tree;
      ledger := s.ledger;
      index := s.index;
      errorSet := s.errorSet;
    }
  }
}
