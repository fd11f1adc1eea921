/** The reconciler of MediaHub/processors/symlink_creator.py: for one source
    file, `process_file` decides whether a symbolic link must be created in
    the library, where, and records the outcome in the ledger. */
module Reconciler {
  import opened Text
  import opened Wrappers
  import opened FileTree
  import opened State
  import opened SymlinkUtils

  /** What process_show or process_movie (TMDb lookups, outside the model)
      made of a file: a destination or None and, for shows, whether the file
      is an extra.  ResolverFailed stands for an exception they raised. */
  datatype Resolution = Resolved(dest: Option<Path>, isExtra: bool) | ResolverFailed

  /** The answers of collaborators outside the model, for one file. */
  datatype Facts = Facts(
    knownType: bool,       // get_known_types(file)
    junk: bool,            // is_junk_file(file, src_file)
    episodeMatch: bool,    // the long episode pattern searched in the file name
    animeListMatch: bool,  // the configured anime patterns searched in the file name
    show: Resolution,      // process_show(...)
    movie: Resolution,     // process_movie(...); its isExtra is not used
    linkFails: bool)       // os.symlink raises (permissions, full disk, ...)

  /** The arguments of one process_file call.  An empty tmdbId or imdbId
      stands for a missing (falsy) identifier. */
  datatype Request = Request(
    src: Path, file: string, destIndex: seq<Path>,
    tmdbId: string, imdbId: string,
    forceShow: bool, forceMovie: bool, forceExtra: bool,
    force: bool, skipExtras: bool)

  /** Why process_file returned None. */
  datatype Skip =
    | Stopped | UnsupportedType | RenameDetected | AlreadyProcessed | LinkExists
    | HashName | Junk | Extra | NoDestination | AlreadyCorrect | Occupied | LinkFailed

  /** What process_file returns: the `(dest_file, True, src_file)` triple
      when it created a link, None (with its reason), or an exception that
      escapes it. */
  datatype Outcome = Created(dest: Path, target: Path) | Skipped(reason: Skip) | Raised

  datatype Kind = Show | AnimeShow | Movie

  // ---------------------------------------------------------------------
  // The name patterns process_file evaluates itself.

  /** The hash-name pattern, case-insensitive, anchored at the start: 32 hex
      digits, then either a dot and a non-empty dot-free rest of the name, or
      a `[`, at least one character other than a newline, and `].`. */
  predicate IsHashName(s: string) {
    |s| >= 34 &&
    (forall i :: 0 <= i < 32 ==> IsHexDigit(s[i])) &&
    ((s[32] == '.' && forall k :: 33 <= k < |s| ==> s[k] != '.') ||
     (s[32] == '[' && exists j :: 34 <= j < |s| - 1 && BracketCloseAt(s, j)))
  }

  /** `]` followed by `.` at `j`, with no newline between position 33 and `j`. */
  predicate BracketCloseAt(s: string, j: int)
    requires 34 <= j < |s| - 1
  {
    s[j] == ']' && s[j + 1] == '.' && forall k :: 33 <= k < j ==> s[k] != '\n'
  }

  /** `s` followed by two digits as a whole word at `i`, in either case. */
  predicate SeasonTokenAt(s: string, i: int)
    requires 0 <= i
  {
    i + 3 <= |s| && (s[i] == 's' || s[i] == 'S') && IsDigit(s[i + 1]) && IsDigit(s[i + 2]) &&
    (i == 0 || !IsWordChar(s[i - 1])) && (i + 3 == |s| || !IsWordChar(s[i + 3]))
  }

  /** The season pattern searched in the whole source path. */
  predicate HasSeasonToken(s: string) {
    exists i :: 0 <= i < |s| && SeasonTokenAt(s, i)
  }

  /** The mini-series pattern, case-insensitive. */
  predicate IsMiniSeries(s: string) {
    ContainsIgnoreCase(s, "mini-series") || ContainsIgnoreCase(s, "mini series") ||
    ContainsIgnoreCase(s, "miniseries")
  }

  /** Whitespace, `-`, whitespace, two or three digits, whitespace, at `i`. */
  predicate DashNumberAt(s: string, i: int)
    requires 0 <= i
  {
    i + 6 <= |s| && IsSpace(s[i]) && s[i + 1] == '-' && IsSpace(s[i + 2]) &&
    IsDigit(s[i + 3]) && IsDigit(s[i + 4]) &&
    (IsSpace(s[i + 5]) || (i + 7 <= |s| && IsDigit(s[i + 5]) && IsSpace(s[i + 6])))
  }

  /** Two digits, `v` in either case, a digit, at `i` (a release version). */
  predicate VersionedNumberAt(s: string, i: int)
    requires 0 <= i
  {
    i + 4 <= |s| && IsDigit(s[i]) && IsDigit(s[i + 1]) &&
    (s[i + 2] == 'v' || s[i + 2] == 'V') && IsDigit(s[i + 3])
  }

  /** The anime episode pattern. */
  predicate HasAnimeEpisodeNumber(s: string) {
    exists i :: 0 <= i < |s| && (DashNumberAt(s, i) || VersionedNumberAt(s, i))
  }

  /** How process_file classifies a file: the force flags first, then a
      season token in the source path, then episode or mini-series evidence
      in the name, then anime evidence; a movie otherwise. */
  function Classify(rq: Request, f: Facts): (k: Kind)
    ensures rq.forceShow ==> k == Show
    ensures k == AnimeShow ==>
              !rq.forceShow && !rq.forceMovie && !HasSeasonToken(rq.src) &&
              !f.episodeMatch && !IsMiniSeries(rq.file) &&
              (HasAnimeEpisodeNumber(rq.file) || f.animeListMatch)
    ensures k == Movie ==>
              !rq.forceShow &&
              (rq.forceMovie ||
               (!HasSeasonToken(rq.src) && !f.episodeMatch && !IsMiniSeries(rq.file) &&
                !HasAnimeEpisodeNumber(rq.file) && !f.animeListMatch))
    ensures k == Show ==>
              rq.forceShow ||
              (!rq.forceMovie && (HasSeasonToken(rq.src) || f.episodeMatch || IsMiniSeries(rq.file)))
  {
    if rq.forceShow then Show
    else if rq.forceMovie then Movie
    else if HasSeasonToken(rq.src) then Show
    else if f.episodeMatch || IsMiniSeries(rq.file) then Show
    else if HasAnimeEpisodeNumber(rq.file) || f.animeListMatch then AnimeShow
    else Movie
  }

  // ---------------------------------------------------------------------
  // process_file, stage by stage.

  /** Removes up to two directory levels left empty by a forced removal;
      a listing or rmdir that raises ends the clean-up (the error is logged). */
  function PruneParents(t: Tree, parent: Path): (r: Tree)
    ensures r.order == t.order && r.locked == t.locked
    ensures forall p :: p in r.entries ==> p in t.entries && r.entries[p] == t.entries[p]
    ensures forall p :: p in t.entries && p !in r.entries ==> t.entries[p] == Dir
    ensures t.Valid() ==> r.Valid()
  {
    if !t.IsDir(parent) || t.ListDir(parent) != [] then t
    else match t.RmDir(parent)
      case None => t
      case Some(t2) =>
        var pp := Dirname(parent);
        if !t2.IsDir(pp) || t2.ListDir(pp) != [] then t2
        else match t2.RmDir(pp)
          case None => t2
          case Some(t3) => t3
  }

  /** Force mode: the link found for the source is removed and empty parents
      pruned.  None when the lookup's directory listing raised. */
  function ForceRemoval(s: Snapshot, rq: Request): (r: Option<Tree>)
    ensures !rq.force ==> r == Some(s.tree)
    ensures r.Some? ==> KeepsFiles(s.tree, r.value) && r.value.order == s.tree.order
    ensures r.Some? ==> forall p :: p in r.value.entries ==> p in s.tree.entries && r.value.entries[p] == s.tree.entries[p]
    ensures r.Some? && s.tree.Valid() ==> r.value.Valid()
  {
    if !rq.force then Some(s.tree)
    else match ExistingSymlinkInfo(s.tree, s.ledger, rq.src)
      case ListFailed => None
      case NotFound => Some(s.tree)
      case Found(x) =>
        assert s.tree.IsLink(x);
        var t1 := s.tree.Remove(x);
        assert KeepsFiles(s.tree, t1);
        var t2 := PruneParents(t1, Dirname(x));
        assert KeepsFiles(t1, t2);
        Some(t2)
  }

  /** The ledger check: an early result, or None to go on.  A recorded
      destination that still exists ends the call; a missing one whose
      directory holds another link to the source is a rename. */
  function LedgerCheck(s: Snapshot, rq: Request): (r: Option<(Outcome, Snapshot)>)
    ensures r.Some? ==> r.value.0 in {Skipped(AlreadyProcessed), Skipped(RenameDetected), Raised}
    ensures r.Some? && r.value.0 != Skipped(RenameDetected) ==> r.value.1 == s
    ensures r.Some? && r.value.0 == Skipped(RenameDetected) ==>
              rq.src in s.ledger &&
              var from := s.ledger[rq.src];
              exists p :: s.tree.InDir(Dirname(from), p) && s.tree.LinksTo(p, rq.src) &&
                          r.value.1 == s.(ledger := RenameDest(s.ledger, from, p))
  {
    if !rq.force && rq.src in s.ledger && s.ledger[rq.src] != "" then
      var from := s.ledger[rq.src];
      if s.tree.Exists(from) then Some((Skipped(AlreadyProcessed), s))
      else
        var dir := Dirname(from);
        if !s.tree.Exists(dir) then None
        else if !s.tree.IsDir(dir) then Some((Raised, s))
        else match s.tree.FirstLinkTo(s.tree.ListDir(dir), rq.src)
          case Some(p) => Some((Skipped(RenameDetected), s.(ledger := RenameDest(s.ledger, from, p))))
          case None => None
    else None
  }

  /** The destination-index check: outside force mode, an indexed link that
      already points at the source is recorded in the ledger. */
  function ConflictCheck(s: Snapshot, rq: Request): (r: Option<(Outcome, Snapshot)>)
    ensures r.Some? <==> !rq.force && s.tree.FirstLinkTo(rq.destIndex, rq.src).Some?
    ensures r.Some? ==> r.value.0 == Skipped(LinkExists) &&
                        var p := s.tree.FirstLinkTo(rq.destIndex, rq.src).value;
                        r.value.1 == s.(ledger := s.ledger[rq.src := p])
  {
    if rq.force then None
    else match s.tree.FirstLinkTo(rq.destIndex, rq.src)
      case Some(p) => Some((Skipped(LinkExists), s.(ledger := s.ledger[rq.src := p])))
      case None => None
  }

  /** What the name checks and the resolvers decide: stop, or place a link at a destination. */
  datatype Decision = Stop(outcome: Outcome) | Place(dest: Path)

  /** The resolver that handles the file's kind: process_movie for movies,
      process_show for shows and anime shows. */
  function ResolverFor(rq: Request, f: Facts): Resolution {
    if Classify(rq, f) == Movie then f.movie else f.show
  }

  /** Hash names without identifiers and junk files stop; otherwise the
      resolver for the file's kind picks the destination. */
  function NameCheck(rq: Request, f: Facts): (d: Decision)
    ensures IsHashName(rq.file) && rq.tmdbId == "" && rq.imdbId == "" ==> d == Stop(Skipped(HashName))
    ensures d.Place? ==> !f.junk && !(IsHashName(rq.file) && rq.tmdbId == "" && rq.imdbId == "")
    ensures d.Place? ==> ResolverFor(rq, f).Resolved? && ResolverFor(rq, f).dest == Some(d.dest)
    ensures d == Stop(Raised) <==>
              !(IsHashName(rq.file) && rq.tmdbId == "" && rq.imdbId == "") && !f.junk &&
              ResolverFor(rq, f).ResolverFailed?
    ensures d.Stop? ==> !d.outcome.Created?
  {
    if IsHashName(rq.file) && rq.tmdbId == "" && rq.imdbId == "" then Stop(Skipped(HashName))
    else if f.junk then Stop(Skipped(Junk))
    else
      var res := ResolverFor(rq, f);
      match res
      case ResolverFailed => Stop(Raised)
      case Resolved(dest, extra) =>
        if Classify(rq, f) != Movie && extra && !rq.forceExtra && rq.skipExtras then Stop(Skipped(Extra))
        else if dest.None? then Stop(Skipped(NoDestination))
        else Place(dest.value)
  }

  /** The outcomes of placing a link. */
  predicate IsPlaceOutcome(o: Outcome, dest: Path, src: Path) {
    o == Raised || o == Skipped(AlreadyCorrect) || o == Skipped(Occupied) ||
    o == Skipped(LinkFailed) || o == Created(dest, src)
  }

  /** The part of placing a link after the destination directory exists in
      `t`: a link already pointing at the source is only recorded; a link
      pointing elsewhere is replaced; a regular file or directory is left alone. */
  function InstallLink(s: Snapshot, t: Tree, rq: Request, f: Facts, dest: Path): (r: (Outcome, Snapshot))
    ensures r.1.errorSet == s.errorSet && r.1.index == s.index
    ensures IsPlaceOutcome(r.0, dest, rq.src) && r.0 != Raised
    ensures r.1.tree.order == t.order || r.1.tree.order == t.order + [dest]
    ensures r.1.tree.locked == t.locked
    ensures forall p :: p != dest ==> (p in r.1.tree.entries <==> p in t.entries)
    ensures forall p :: p != dest && p in t.entries ==> r.1.tree.entries[p] == t.entries[p]
    ensures dest in t.entries && !t.IsLink(dest) ==> dest in r.1.tree.entries && r.1.tree.entries[dest] == t.entries[dest]
    ensures r.0.Created? || r.0 == Skipped(AlreadyCorrect) <==> r.1.tree.LinksTo(dest, rq.src)
    ensures r.0.Created? || r.0 == Skipped(AlreadyCorrect) ==> r.1.ledger == s.ledger[rq.src := dest]
    ensures r.0 == Skipped(Occupied) || r.0 == Skipped(LinkFailed) ==>
              r.1.ledger == s.ledger && r.1.tree.order == t.order
    ensures r.0 == Skipped(Occupied) <==> dest in t.entries && !t.IsLink(dest)
    ensures r.0 == Skipped(LinkFailed) ==> dest !in r.1.tree.entries && f.linkFails
    ensures r.0 == Skipped(Occupied) || r.0 == Skipped(LinkFailed) ==> SameLinksTo(t, r.1.tree, rq.src)
    ensures KeepsFiles(t, r.1.tree)
    ensures t.Valid() ==> r.1.tree.Valid()
  {
    if t.IsLink(dest) && t.ReadLink(dest) == rq.src then
      (Skipped(AlreadyCorrect), s.(tree := t, ledger := s.ledger[rq.src := dest]))
    else
      var t3 := if t.IsLink(dest) then t.Remove(dest) else t;
      if t3.Exists(dest) && !t3.IsLink(dest) then (Skipped(Occupied), s.(tree := t3))
      else if f.linkFails then (Skipped(LinkFailed), s.(tree := t3))
      else (Created(dest, rq.src), s.(tree := t3.Put(dest, Link(rq.src)), ledger := s.ledger[rq.src := dest]))
  }

  /** Places the link at `dest`: the destination directory is created
      (an error there escapes), then the link is installed. */
  function PlaceLink(s: Snapshot, rq: Request, f: Facts, dest: Path): (r: (Outcome, Snapshot))
    ensures r.1.errorSet == s.errorSet && r.1.index == s.index
    ensures IsPlaceOutcome(r.0, dest, rq.src)
    ensures r.0 == Raised <==> s.tree.MakeDirs(Dirname(dest)).None?
    ensures r.0 == Raised ==> r.1 == s
    ensures r.0 != Raised ==> r == InstallLink(s, s.tree.MakeDirs(Dirname(dest)).value, rq, f, dest)
    ensures r.0 != Raised ==> r.1.tree.IsDir(Dirname(dest))
    ensures KeepsFiles(s.tree, r.1.tree)
    ensures s.tree.Valid() ==> r.1.tree.Valid()
  {
    match s.tree.MakeDirs(Dirname(dest))
    case None => (Raised, s)
    case Some(t2) => InstallLink(s, t2, rq, f, dest)
  }

  /** `process_file` on snapshot `s`: its outcome and the new state. */
  function ProcessFileSpec(s: Snapshot, rq: Request, f: Facts): (r: (Outcome, Snapshot))
    ensures s.errorSet ==> r == (Skipped(Stopped), s)
    ensures r.1.errorSet == s.errorSet && r.1.index == s.index
  {
    if s.errorSet then (Skipped(Stopped), s)
    else if !f.knownType then (Skipped(UnsupportedType), s)
    else match ForceRemoval(s, rq)
      case None => (Raised, s)
      case Some(t1) =>
        var s1 := s.(tree := t1);
        match LedgerCheck(s1, rq)
        case Some(r) => r
        case None =>
          match ConflictCheck(s1, rq)
          case Some(r) => r
          case None =>
            match NameCheck(rq, f)
            case Stop(o) => (o, s1)
            case Place(dest) => PlaceLink(s1, rq, f, dest)
  }
}
