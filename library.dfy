/** `Scripts/library.py`, the stand-alone linker that predates the
    processors package: name normalisation, the resolution folders of
    `process_show` and `process_movie`, episode-identifier normalisation,
    and `process_file` / `create_symlinks` over the filesystem model. */
module Library {
  import opened Text
  import opened Wrappers
  import opened FileTree
  import FileUtils

  // ---------------------------------------------------------------------
  // `normalize_name`.

  /** `\(\d{4}\)` at `i`. */
  predicate ParenYearAt(s: string, i: nat) {
    i + 6 <= |s| && s[i] == '(' && IsDigit(s[i + 1]) && IsDigit(s[i + 2]) &&
    IsDigit(s[i + 3]) && IsDigit(s[i + 4]) && s[i + 5] == ')'
  }

  /** `re.sub(r'\(\d{4}\)', '', s)`: every parenthesised four-digit group,
      left to right, removed. */
  function DropParenYears(s: string): (r: string)
    ensures |r| <= |s|
    ensures forall c :: c in r ==> c in s
    decreases |s|
  {
    if s == [] then []
    else if ParenYearAt(s, 0) then DropParenYears(s[6..])
    else [s[0]] + DropParenYears(s[1..])
  }

  /** What `[^a-zA-Z0-9\s]` does not remove. */
  predicate NameChar(c: char) { IsAlnum(c) || IsSpace(c) }

  /** `normalize_name`: years in parentheses dropped, stripped, only ASCII
      letters, digits and whitespace kept, whitespace squashed, lowercased.
      The result holds only lowercase letters, digits and single inner spaces. */
  function NormalizeName(name: string): (r: string)
    ensures Squashed(r)
    ensures forall i :: 0 <= i < |r| ==> IsLower(r[i]) || IsDigit(r[i]) || r[i] == ' '
  {
    var b := Keep(Strip(DropParenYears(name)), NameChar);
    var c := Squash(b);
    SquashSquashed(b);
    forall i | 0 <= i < |c| ensures IsAlnum(c[i]) || c[i] == ' ' {
      assert c[i] in c;
    }
    LowerSquashed(c);
    Lower(c)
  }

  /** Lowercasing keeps squashed whitespace squashed. */
  lemma LowerSquashed(c: string)
    requires Squashed(c)
    ensures Squashed(Lower(c))
  {
    var l := Lower(c);
    forall i | 0 <= i < |l| ensures (IsSpace(l[i]) <==> IsSpace(c[i])) && (l[i] == ' ' <==> c[i] == ' ') {
    }
  }

  // ---------------------------------------------------------------------
  // `extract_resolution_from_filename` (the variant of this script).

  predicate IsP(c: char) { c == 'p' || c == 'P' }

  /** `t` occurs at `k`. */
  predicate LiteralAt(s: string, k: nat, t: string) {
    k + |t| <= |s| && s[k..k + |t|] == t
  }

  /** The text `(\d{3,4}p|480|720|1080|2160)` matches at `k`, ignoring case:
      four digits and a `p`, else three digits and a `p`, else one of the
      bare numbers. */
  function ResolutionAt(s: string, k: nat): (r: Option<string>)
    ensures r.Some? ==> 3 <= |r.value| && k + |r.value| <= |s| && s[k..k + |r.value|] == r.value
  {
    if k + 5 <= |s| && IsDigit(s[k]) && IsDigit(s[k + 1]) && IsDigit(s[k + 2]) && IsDigit(s[k + 3]) && IsP(s[k + 4]) then
      Some(s[k..k + 5])
    else if k + 4 <= |s| && IsDigit(s[k]) && IsDigit(s[k + 1]) && IsDigit(s[k + 2]) && IsP(s[k + 3]) then
      Some(s[k..k + 4])
    else if LiteralAt(s, k, "480") then Some("480")
    else if LiteralAt(s, k, "720") then Some("720")
    else if LiteralAt(s, k, "1080") then Some("1080")
    else if LiteralAt(s, k, "2160") then Some("2160")
    else None
  }

  /** The match at the leftmost position where the pattern matches. */
  function FirstResolution(s: string, k: nat): (r: Option<string>)
    ensures r.Some? ==> exists j :: k <= j <= |s| && ResolutionAt(s, j) == r
    ensures r.None? ==> forall j :: k <= j <= |s| ==> ResolutionAt(s, j).None?
    decreases |s| - k
  {
    if k > |s| then None
    else if ResolutionAt(s, k).Some? then ResolutionAt(s, k)
    else FirstResolution(s, k + 1)
  }

  /** The matched resolution token, lowercased. */
  function BareResolution(f: string): (r: Option<string>)
    ensures r.Some? ==> |r.value| >= 3
  {
    match FirstResolution(f, 0)
    case None => None
    case Some(t) => Some(Lower(t))
  }

  /** This script's `extract_resolution_from_filename`: the first token,
      lowercased, with `Remux` appended when the name mentions it in any case. */
  function Resolution(f: string): (r: Option<string>)
    ensures r.None? <==> BareResolution(f).None?
    ensures r.Some? ==> r.value == BareResolution(f).value + FileUtils.RemuxSuffix(f)
  {
    match FirstResolution(f, 0)
    case None => None
    case Some(t) => Some(Lower(t) + FileUtils.RemuxSuffix(f))
  }

  /** `'remux' in file.lower()`. */
  predicate IsRemux(f: string) { Contains(Lower(f), "remux") }

  /** Python's truth value of a string. */
  predicate Truthy(s: string) { s != "" }

  // ---------------------------------------------------------------------
  // Resolution folders.

  /** The resolution folders of `process_show` and `process_movie`. */
  datatype Folder =
    | UltraHD | FullHD | SDClassics | Retro480p | RetroDVD | Shows
    | SDMovies | DVDClassics | Movies
    | UltraHDRemuxShows | RemuxLibrary1080p | RemuxShows
    | Remux4K | Remux1080p | MoviesRemux
  {
    /** The directory name. */
    function Name(): string {
      match this
      case UltraHD => "UltraHD"
      case FullHD => "FullHD"
      case SDClassics => "SDClassics"
      case Retro480p => "Retro480p"
      case RetroDVD => "RetroDVD"
      case Shows => "Shows"
      case SDMovies => "SDMovies"
      case DVDClassics => "DVDClassics"
      case Movies => "Movies"
      case UltraHDRemuxShows => "UltraHDRemuxShows"
      case RemuxLibrary1080p => "1080pRemuxLibrary"
      case RemuxShows => "RemuxShows"
      case Remux4K => "4KRemux"
      case Remux1080p => "1080pRemux"
      case MoviesRemux => "MoviesRemux"
    }

    /** One of the remux libraries. */
    predicate IsRemuxFolder() {
      UltraHDRemuxShows? || RemuxLibrary1080p? || RemuxShows? || Remux4K? || Remux1080p? || MoviesRemux?
    }

    /** One of the folders `process_show` can choose. */
    predicate ForShows() {
      UltraHD? || FullHD? || SDClassics? || Retro480p? || RetroDVD? || Shows? ||
      UltraHDRemuxShows? || RemuxLibrary1080p? || RemuxShows?
    }

    /** One of the folders `process_movie` can choose. */
    predicate ForMovies() {
      UltraHD? || FullHD? || SDMovies? || Retro480p? || DVDClassics? || Movies? ||
      Remux4K? || Remux1080p? || MoviesRemux?
    }
  }

  /** The folder of a show file that does not mention remux. `'DVD'` can
      never be produced by the lowercasing extraction. */
  function StandardShowFolder(res: Option<string>): (r: Folder)
    ensures r.ForShows() && !r.IsRemuxFolder()
  {
    if res == Some("2160p") || res == Some("4k") then UltraHD
    else if res == Some("1080p") then FullHD
    else if res == Some("720p") then SDClassics
    else if res == Some("480p") then Retro480p
    else if res == Some("DVD") then RetroDVD
    else Shows
  }

  /** The folder of a movie file that does not mention remux. */
  function StandardMovieFolder(res: Option<string>): (r: Folder)
    ensures r.ForMovies() && !r.IsRemuxFolder()
  {
    if res == Some("2160p") || res == Some("4k") then UltraHD
    else if res == Some("1080p") then FullHD
    else if res == Some("720p") then SDMovies
    else if res == Some("480p") then Retro480p
    else if res == Some("DVD") then DVDClassics
    else Movies
  }

  /** `process_show`'s resolution folder as written: the second operand of
      `'2160' in file or '4k'` is a non-empty literal, so the test is always true. */
  function ShowFolderAsWritten(f: string): (r: Folder)
    ensures r.ForShows()
    ensures r.IsRemuxFolder() <==> IsRemux(f)
    ensures r != RemuxLibrary1080p && r != RemuxShows
  {
    if IsRemux(f) then
      if Contains(f, "2160") || Truthy("4k") then UltraHDRemuxShows
      else if Contains(f, "1080") then RemuxLibrary1080p
      else RemuxShows
    else StandardShowFolder(Resolution(f))
  }

  /** `process_show`'s resolution folder with the evidently intended
      `'2160' in file or '4k' in file`. */
  function ShowFolder(f: string): (r: Folder)
    ensures r.ForShows()
    ensures r.IsRemuxFolder() <==> IsRemux(f)
  {
    if IsRemux(f) then
      if Contains(f, "2160") || Contains(f, "4k") then UltraHDRemuxShows
      else if Contains(f, "1080") then RemuxLibrary1080p
      else RemuxShows
    else StandardShowFolder(Resolution(f))
  }

  /** `process_movie`'s resolution folder as written: a remux file's
      resolution carries the `Remux` suffix when it is compared. */
  function MovieFolderAsWritten(f: string): (r: Folder)
    ensures r.ForMovies()
    ensures r.IsRemuxFolder() <==> IsRemux(f)
  {
    var res := Resolution(f);
    if IsRemux(f) then
      if res == Some("2160p") || res == Some("4k") then Remux4K
      else if res == Some("1080p") then Remux1080p
      else MoviesRemux
    else StandardMovieFolder(res)
  }

  /** `process_movie`'s resolution folder comparing the bare token. */
  function MovieFolder(f: string): (r: Folder)
    ensures r.ForMovies()
    ensures r.IsRemuxFolder() <==> IsRemux(f)
  {
    var res := BareResolution(f);
    if IsRemux(f) then
      if res == Some("2160p") || res == Some("4k") then Remux4K
      else if res == Some("1080p") then Remux1080p
      else MoviesRemux
    else StandardMovieFolder(Resolution(f))
  }

  // ---------------------------------------------------------------------
  // Episode identifiers (`process_show`, the branch cascade and the season
  // folder). The identifier is the one the episode search found; the
  // search itself is left to the caller.

  /** `c` is the letter `l`, or (when `ci`) the same letter in the other case. */
  predicate Letter(c: char, l: char, ci: bool) { c == l || (ci && LowerChar(c) == LowerChar(l)) }

  predicate IsE(c: char) { c == 'e' || c == 'E' }

  /** `S\d{2}[eE]\d{2}` at the start. */
  predicate SeasonEpisodeForm(id: string, ci: bool) {
    |id| >= 6 && Letter(id[0], 'S', ci) && IsDigit(id[1]) && IsDigit(id[2]) &&
    IsE(id[3]) && IsDigit(id[4]) && IsDigit(id[5])
  }

  /** `[0-9]+<sep>[0-9]+` at the start. */
  predicate NumberPairForm(id: string, sep: char, ci: bool) {
    var n := DigitRun(id, 0);
    1 <= n && n + 1 < |id| && Letter(id[n], sep, ci) && IsDigit(id[n + 1])
  }

  /** `S\d{2}[0-9]+` at the start. */
  predicate SeasonDigitsForm(id: string, ci: bool) {
    |id| >= 4 && Letter(id[0], 'S', ci) && IsDigit(id[1]) && IsDigit(id[2]) && IsDigit(id[3])
  }

  /** `ep\.\d+` at the start, ignoring case. */
  predicate EpDotForm(id: string) {
    |id| >= 4 && IsE(id[0]) && (id[1] == 'p' || id[1] == 'P') && id[2] == '.' && IsDigit(id[3])
  }

  predicate IsS(c: char) { c == 's' || c == 'S' }

  /** `S(\d{2})` at `k`, ignoring case. */
  predicate SeasonTagAt(s: string, k: nat) {
    k + 3 <= |s| && IsS(s[k]) && IsDigit(s[k + 1]) && IsDigit(s[k + 2])
  }

  function FirstSeasonTag(s: string, k: nat): (r: Option<nat>)
    ensures r.Some? ==> k <= r.value && SeasonTagAt(s, r.value)
    ensures r.None? ==> forall j :: k <= j ==> !SeasonTagAt(s, j)
    decreases |s| - k
  {
    if k + 3 > |s| then None
    else if SeasonTagAt(s, k) then Some(k)
    else FirstSeasonTag(s, k + 1)
  }

  /** The season the `ep.N` branch reads from the parent folder's name:
      the two digits of its first `S\d{2}`, else `"01"`. */
  function ParentSeason(parent: string): (r: string)
    ensures |r| == 2 && AllDigits(r)
  {
    match FirstSeasonTag(parent, 0)
    case Some(k) => parent[k + 1..k + 3]
    case None => "01"
  }

  /** The identifier after the branch cascade of `process_show`, as
      written: the branch tests are case-sensitive although the search
      that found the identifier ignores case, and `NeM` always takes the
      first two characters as the season. */
  function NormalizeIdentifierAsWritten(id: string, parent: string): (r: string)
    ensures |r| >= 1 && r[0] == 'S'
  {
    if SeasonEpisodeForm(id, false) then id
    else if NumberPairForm(id, 'x', false) then
      var n := DigitRun(id, 0);
      "S" + id[..n] + "E" + Split(id[n + 1..], 'x')[0]
    else if SeasonDigitsForm(id, false) then "S" + id[1..3] + "E" + id[3..]
    else if NumberPairForm(id, 'e', false) then "S" + id[0..2] + "E" + id[2..]
    else if EpDotForm(id) then "S" + ParentSeason(parent) + "E" + id[3..3 + DigitRun(id, 3)]
    else "S01E01"
  }

  /** The cascade with the evidently intended behaviour: branch tests that
      ignore case like the search, and `NeM` split at its separator. */
  function NormalizeIdentifier(id: string, parent: string): (r: string)
    ensures |r| >= 3 && IsS(r[0]) && IsDigit(r[1])
    ensures SeasonEpisodeForm(id, false) ==> r == NormalizeIdentifierAsWritten(id, parent)
  {
    if SeasonEpisodeForm(id, true) then id
    else if NumberPairForm(id, 'x', true) then
      var n := DigitRun(id, 0);
      "S" + id[..n] + "E" + Split(id[n + 1..], id[n])[0]
    else if SeasonDigitsForm(id, true) then "S" + id[1..3] + "E" + id[3..]
    else if NumberPairForm(id, 'e', true) then
      var n := DigitRun(id, 0);
      "S" + id[..n] + "E" + id[n + 1..]
    else if EpDotForm(id) then "S" + ParentSeason(parent) + "E" + id[3..3 + DigitRun(id, 3)]
    else "S01E01"
  }

  /** `S(\d{2})E\d{2}` at `k`, ignoring case. */
  predicate SeasonEpisodeAt(s: string, k: nat) {
    k + 6 <= |s| && IsS(s[k]) && IsDigit(s[k + 1]) && IsDigit(s[k + 2]) &&
    IsE(s[k + 3]) && IsDigit(s[k + 4]) && IsDigit(s[k + 5])
  }

  function FirstSeasonEpisode(s: string, k: nat): (r: Option<nat>)
    ensures r.Some? ==> k <= r.value && SeasonEpisodeAt(s, r.value)
    ensures r.None? ==> forall j :: k <= j ==> !SeasonEpisodeAt(s, j)
    decreases |s| - k
  {
    if k + 6 > |s| then None
    else if SeasonEpisodeAt(s, k) then Some(k)
    else FirstSeasonEpisode(s, k + 1)
  }

  /** The position of the first digit at or after `k`. */
  function FirstDigit(s: string, k: nat): (r: Option<nat>)
    ensures r.Some? ==> k <= r.value < |s| && IsDigit(s[r.value])
    ensures r.Some? ==> forall j :: k <= j < r.value ==> !IsDigit(s[j])
    ensures r.None? ==> forall j :: k <= j < |s| ==> !IsDigit(s[j])
    decreases |s| - k
  {
    if k >= |s| then None
    else if IsDigit(s[k]) then Some(k)
    else FirstDigit(s, k + 1)
  }

  /** The season number `process_show` reads from the normalised
      identifier: the digits of the first `S(\d{2})E\d{2}`, else the first
      run of digits, else `"01"`. */
  function SeasonNumber(id: string): (r: string)
    ensures r != [] && AllDigits(r)
  {
    match FirstSeasonEpisode(id, 0)
    case Some(k) => id[k + 1..k + 3]
    case None =>
      match FirstDigit(id, 0)
      case Some(k) => id[k..k + DigitRun(id, k)]
      case None => "01"
  }

  /** `f"Season {int(season_number)}"`. */
  function SeasonFolder(season: string): (r: string)
    requires AllDigits(season)
    ensures StartsWith(r, "Season ")
  {
    "Season " + NatToString(DigitsValue(season))
  }

  // ---------------------------------------------------------------------
  // `process_file` and `create_symlinks`.

  datatype Outcome =
    | AlreadyIndexed   // a destination-index link already targets the source
    | AlreadyLinked    // the destination link already targets the source
    | Occupied         // something other than a link is at the destination
    | Linked           // a new link was made
    | Copied           // a directory source was copied with `copytree`
    | Raised           // an exception escaped the worker

  /** The path below `dest` that corresponds to `p` below `src`. */
  function Moved(p: Path, src: Path, dest: Path): (r: Path)
    requires StartsWith(p, Below(src))
    ensures |r| == |Below(dest)| + |p| - |Below(src)|
    ensures StartsWith(r, Below(dest))
  {
    Below(dest) + p[|Below(src)|..]
  }

  /** Copies the entries `ps` of `from` (all below `src`) to the
      corresponding paths below `dest`, in order. */
  function CopyEntries(t: Tree, from: Tree, src: Path, dest: Path, ps: seq<Path>): (r: Tree)
    requires forall p :: p in ps ==> p in from.entries && StartsWith(p, Below(src))
    ensures forall p :: p in ps ==> Moved(p, src, dest) in r.entries && r.entries[Moved(p, src, dest)] == from.entries[p]
    ensures forall x :: x in t.entries && (forall p :: p in ps ==> x != Moved(p, src, dest)) ==>
                        x in r.entries && r.entries[x] == t.entries[x]
    ensures forall x :: x in r.entries ==> x in t.entries || exists p :: p in ps && x == Moved(p, src, dest)
    ensures r.locked == t.locked
    decreases ps
  {
    if ps == [] then t
    else
      var m := Moved(ps[0], src, dest);
      var t1 := t.Put(m, from.entries[ps[0]]);
      assert t1.entries == t.entries[m := from.entries[ps[0]]];
      var r := CopyEntries(t1, from, src, dest, ps[1..]);
      forall p | p in ps
        ensures Moved(p, src, dest) in r.entries && r.entries[Moved(p, src, dest)] == from.entries[p]
      {
        if p !in ps[1..] {
          MovedFresh(p, ps[1..], src, dest);
        }
      }
      forall x | x in t.entries && (forall p :: p in ps ==> x != Moved(p, src, dest))
        ensures x in r.entries && r.entries[x] == t.entries[x]
      {
        assert x != Moved(ps[0], src, dest);
      }
      forall x | x in r.entries ensures x in t.entries || exists p :: p in ps && x == Moved(p, src, dest) {
        if x == m {
          assert ps[0] in ps;
        }
      }
      r
  }

  /** A path absent from `qs` is not moved onto any of theirs. */
  lemma MovedFresh(p: Path, qs: seq<Path>, src: Path, dest: Path)
    requires StartsWith(p, Below(src)) && p !in qs
    requires forall q :: q in qs ==> StartsWith(q, Below(src))
    ensures forall q :: q in qs ==> Moved(q, src, dest) != Moved(p, src, dest)
  {
    forall q | q in qs ensures Moved(q, src, dest) != Moved(p, src, dest) {
      if Moved(q, src, dest) == Moved(p, src, dest) {
        MovedInjective(p, q, src, dest);
      }
    }
  }

  lemma MovedInjective(p: Path, q: Path, src: Path, dest: Path)
    requires StartsWith(p, Below(src)) && StartsWith(q, Below(src))
    requires Moved(p, src, dest) == Moved(q, src, dest)
    ensures p == q
  {
    var n := |Below(src)|;
    var m := |Below(dest)|;
    assert p[n..] == Moved(p, src, dest)[m..];
    assert q[n..] == Moved(q, src, dest)[m..];
    assert p == p[..n] + p[n..] && q == q[..n] + q[n..];
  }

  /** `shutil.copytree(src, dest, symlinks=True)`: `dest` becomes a
      directory and every entry below `src` is copied below it, links as
      links. */
  function CopyTreeSpec(t: Tree, src: Path, dest: Path): (r: Tree)
    ensures r.IsDir(dest)
    ensures forall p :: p in t.Walk(src) ==> Moved(p, src, dest) in r.entries && r.entries[Moved(p, src, dest)] == t.entries[p]
    ensures forall x :: x in t.entries && x != dest && !StartsWith(x, Below(dest)) ==>
                        x in r.entries && r.entries[x] == t.entries[x]
  {
    var ps := t.Walk(src);
    var r := CopyEntries(t.Put(dest, Dir), t, src, dest, ps);
    assert dest in r.entries && r.entries[dest] == Dir by {
      forall p | p in ps ensures dest != Moved(p, src, dest) {
        assert |Moved(p, src, dest)| > |Below(dest)|;
      }
    }
    forall x | x in t.entries && x != dest && !StartsWith(x, Below(dest))
      ensures x in r.entries && r.entries[x] == t.entries[x]
    {
      forall p | p in ps ensures x != Moved(p, src, dest) {
        assert StartsWith(Moved(p, src, dest), Below(dest));
      }
      assert t.Put(dest, Dir).entries[x] == t.entries[x];
    }
    r
  }

  /** `process_file` of this script, for a destination computed by
      `process_show` / `process_movie` (None when `process_movie` gave up). */
  function ProcessFileSpec(t: Tree, src: Path, dest: Option<Path>, index: seq<Path>): (r: (Outcome, Tree))
    ensures r.0 == AlreadyIndexed <==> t.FirstLinkTo(index, src).Some?
    ensures r.0 in {AlreadyIndexed, Raised} ==> r.1 == t
    ensures r.0 in {Linked, AlreadyLinked} ==> dest.Some? && r.1.LinksTo(dest.value, src)
    ensures r.0 == Copied ==> dest.Some? && r.1.IsDir(dest.value)
    ensures r.0 == Occupied ==> dest.Some? && r.1.LExists(dest.value) && !r.1.IsLink(dest.value)
  {
    if t.FirstLinkTo(index, src).Some? then (AlreadyIndexed, t)
    else if dest.None? then (Raised, t)
    else
      var d := dest.value;
      match t.MakeDirs(Dirname(d))
      case None => (Raised, t)
      case Some(t1) =>
        if t1.IsLink(d) && t1.ReadLink(d) == src then (AlreadyLinked, t1)
        else
          Place(if t1.IsLink(d) then t1.Remove(d) else t1, src, d)
  }

  /** The end of `process_file`, once the parents exist and a stale link at
      `d` is gone: leave what is there, copy a directory source, or link. */
  function Place(t: Tree, src: Path, d: Path): (r: (Outcome, Tree))
    ensures r.0 in {Occupied, Copied, Linked}
    ensures r.0 == Linked ==> r.1.LinksTo(d, src)
    ensures r.0 == Copied ==> r.1.IsDir(d)
    ensures r.0 == Occupied ==> r.1 == t && t.LExists(d) && !t.IsLink(d)
  {
    if t.Exists(d) && !t.IsLink(d) then (Occupied, t)
    else if t.IsDir(src) then (Copied, CopyTreeSpec(t, src, d))
    else (Linked, t.Put(d, Link(src)))
  }

  /** Worker jobs of one source directory, in submission order; the flag
      records whether any of them raised. */
  function RunFiles(t: Tree, files: seq<Path>, destOf: Path -> Option<Path>, index: seq<Path>): (r: (Tree, bool))
    decreases files
  {
    if files == [] then (t, false)
    else
      var step := ProcessFileSpec(t, files[0], destOf(files[0]), index);
      var rest := RunFiles(step.1, files[1..], destOf, index);
      (rest.0, step.0 == Raised || rest.1)
  }

  /** The source directories in order, each walked when it is reached. */
  function RunDirs(t: Tree, dirs: seq<Path>, destOf: Path -> Option<Path>, index: seq<Path>): (r: (Tree, bool))
    decreases dirs
  {
    if dirs == [] then (t, false)
    else
      var first := RunFiles(t, t.WalkFiles(dirs[0]), destOf, index);
      var rest := RunDirs(first.0, dirs[1..], destOf, index);
      (rest.0, first.1 || rest.1)
  }

  /** The directories `create_symlinks` walks: the single path when one is given. */
  function SourceDirs(srcDirs: seq<Path>, singlePath: Path): (r: seq<Path>)
    ensures singlePath != "" ==> r == [singlePath]
    ensures singlePath == "" ==> r == srcDirs
  {
    if singlePath != "" then [singlePath] else srcDirs
  }

  /** `create_symlinks`: the destination directory is made and indexed
      once, then every file of every source directory is processed; the
      call raises (true) when making the directory or any task raised. */
  function CreateSymlinksSpec(t: Tree, srcDirs: seq<Path>, destDir: Path, singlePath: Path,
                              destOf: Path -> Option<Path>): (r: (Tree, bool))
    ensures t.MakeDirs(destDir).None? ==> r == (t, true)
  {
    match t.MakeDirs(destDir)
    case None => (t, true)
    case Some(t1) => RunDirs(t1, SourceDirs(srcDirs, singlePath), destOf, t1.Walk(destDir))
  }

  /** The filesystem this script works on. */
  class Disk {
    var tree: Tree

    constructor (t: Tree)
      ensures tree == t
    {
      tree := t;
    }

    /** `shutil.copytree`, one entry at a time. */
    method CopyTree(src: Path, dest: Path)
      modifies this
      ensures tree == CopyTreeSpec(old(tree), src, dest)
    {
      var from := tree;
      var ps := from.Walk(src);
      tree := tree.Put(dest, Dir);
      assert CopyEntries(tree, from, src, dest, ps) == CopyTreeSpec(from, src, dest);
      var i := 0;
      while i < |ps|
        invariant 0 <= i <= |ps|
        invariant forall p :: p in ps[i..] ==> p in from.entries && StartsWith(p, Below(src))
        invariant CopyEntries(tree, from, src, dest, ps[i..]) == CopyTreeSpec(from, src, dest)
      {
        assert ps[i..][1..] == ps[i + 1..];
        assert ps[i] in ps[i..];
        tree := tree.Put(Moved(ps[i], src, dest), from.entries[ps[i]]);
        i := i + 1;
      }
    }

    /** `process_file`, step by step on the filesystem. */
    method ProcessFile(src: Path, dest: Option<Path>, index: seq<Path>) returns (out: Outcome)
      modifies this
      ensures (out, tree) == ProcessFileSpec(old(tree), src, dest, index)
    {
      var found := FindLinkTo(tree, index, src);
      if found.Some? {
        return AlreadyIndexed;
      }
      if dest.None? {
        return Raised;
      }
      var d := dest.value;
      var made := tree.MakeDirs(Dirname(d));
      if made.None? {
        return Raised;
      }
      tree := made.value;
      if tree.IsLink(d) {
        if tree.ReadLink(d) == src {
          return AlreadyLinked;
        }
        tree := tree.Remove(d);
      }
      if tree.Exists(d) && !tree.IsLink(d) {
        return Occupied;
      }
      if tree.IsDir(src) {
        CopyTree(src, d);
        return Copied;
      }
      tree := tree.Put(d, Link(src));
      return Linked;
    }

    /** Worker jobs of one source directory. */
    method ProcessFiles(files: seq<Path>, destOf: Path -> Option<Path>, index: seq<Path>) returns (raised: bool)
      modifies this
      ensures (tree, raised) == RunFiles(old(tree), files, destOf, index)
    {
      raised := false;
      var i := 0;
      while i < |files|
        invariant 0 <= i <= |files|
        invariant RunFiles(tree, files[i..], destOf, index).0 == RunFiles(old(tree), files, destOf, index).0
        invariant (raised || RunFiles(tree, files[i..], destOf, index).1) == RunFiles(old(tree), files, destOf, index).1
      {
        assert files[i..][1..] == files[i + 1..];
        var out := ProcessFile(files[i], destOf(files[i]), index);
        raised := raised || out == Raised;
        i := i + 1;
      }
    }

    /** `create_symlinks`: every task runs; the call raises when one did. */
    method CreateSymlinks(srcDirs: seq<Path>, destDir: Path, singlePath: Path, destOf: Path -> Option<Path>)
      returns (raised: bool)
      modifies this
      ensures (tree, raised) == CreateSymlinksSpec(old(tree), srcDirs, destDir, singlePath, destOf)
    {
      var made := tree.MakeDirs(destDir);
      if made.None? {
        return true;
      }
      tree := made.value;
      var dirs := SourceDirs(srcDirs, singlePath);
      var index := FileUtils.BuildDestIndex(tree, destDir);
      ghost var t1 := tree;
      raised := false;
      var i := 0;
      while i < |dirs|
        invariant 0 <= i <= |dirs|
        invariant RunDirs(tree, dirs[i..], destOf, index).0 == RunDirs(t1, dirs, destOf, index).0
        invariant (raised || RunDirs(tree, dirs[i..], destOf, index).1) == RunDirs(t1, dirs, destOf, index).1
      {
        assert dirs[i..][1..] == dirs[i + 1..];
        var r := ProcessFiles(tree.WalkFiles(dirs[i]), destOf, index);
        raised := raised || r;
        i := i + 1;
      }
    }
  }
}
