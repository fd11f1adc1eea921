/** `Scripts/tmdb_renamer.py`: a media file is renamed in place after the
    show or movie TMDb returns for the title guessed from its name.
    `guessit` and the TMDb requests are outside the model: their answers
    are parameters. */
module Renamer {
  import opened Text
  import opened Wrappers
  import opened FileTree

  // ---------------------------------------------------------------------
  // `sanitize_filename`.

  /** The characters of the pattern's character class: backslash, slash,
      star, question mark, colon, double quote, angle brackets and bar. */
  const Invalid: set<char> := {'\\', '/', '*', '?', ':', '\"', '<', '>', '|'}

  /** `re.sub(invalid_chars, '', name)`: every invalid character dropped,
      the others kept in order. */
  function Sanitize(name: string): (r: string)
    ensures |r| <= |name|
    ensures forall c :: c in r <==> c in name && c !in Invalid
  {
    if name == [] then []
    else (if name[0] in Invalid then [] else [name[0]]) + Sanitize(name[1..])
  }

  // ---------------------------------------------------------------------
  // The new file names.

  /** What `guessit` reports about a file name. */
  datatype Guess =
    | EpisodeGuess(title: string, season: nat, episode: nat)
    | MovieGuess(title: string, year: Option<nat>, part: Option<nat>)
    | OtherGuess

  /** What TMDb answers: the first search result's id and name (None when
      the search fails or finds nothing), the episode's name, and the first
      four characters of the movie's release date. */
  datatype Replies = Replies(found: Option<(nat, string)>, episodeName: Option<string>,
                             releaseYear: Option<string>)

  /** What follows the show name in an episode's new name: ` - S`, the
      zero-padded season, `E`, the zero-padded episode, ` - ` and the
      sanitized episode name. */
  function EpisodeSuffix(season: nat, episode: nat, name: string): string {
    " - S" + ZFill(NatToString(season), 2) + "E" + ZFill(NatToString(episode), 2) + " - " + Sanitize(name)
  }

  /** The episode file name with the show name sanitized like the episode
      name: what the script evidently intends, where the name it builds
      (`EpisodeNameAsWritten`) uses the show name raw. */
  function EpisodeName(show: string, season: nat, episode: nat, name: string, ext: string): (r: string)
    ensures StartsWith(r, Sanitize(show)) && EndsWith(r, ext)
  {
    ConcatEnds(Sanitize(show), EpisodeSuffix(season, episode, name), ext);
    Sanitize(show) + EpisodeSuffix(season, episode, name) + ext
  }

  /** The episode file name as the script builds it: the show name as TMDb
      gave it, the suffix and the old extension.  The show name is used
      unsanitized, so a `/` in it names a sub-directory. */
  function EpisodeNameAsWritten(show: string, season: nat, episode: nat, name: string, ext: string): (r: string)
    ensures StartsWith(r, show)
  {
    ConcatEnds(show, EpisodeSuffix(season, episode, name), ext);
    show + EpisodeSuffix(season, episode, name) + ext
  }

  /** `guessed_info.get('year') or get_movie_details(...)[1]`: a non-zero
      guessed year, else a non-empty fetched one. */
  function ReleaseYear(guessed: Option<nat>, fetched: Option<string>): (r: Option<string>)
    ensures r.Some? ==> r.value != []
    ensures r.None? <==> (guessed.None? || guessed.value == 0) && (fetched.None? || fetched.value == [])
    ensures guessed.Some? && guessed.value != 0 ==> r == Some(NatToString(guessed.value))
  {
    if guessed.Some? && guessed.value != 0 then Some(NatToString(guessed.value))
    else if fetched.Some? && fetched.value != [] then fetched
    else None
  }

  /** The movie file name: the sanitized title, the year in parentheses
      when there is one, ` - Part N` for a non-zero part, the old extension. */
  function MovieName(title: string, year: Option<string>, part: Option<nat>, ext: string): (r: string)
    ensures StartsWith(r, Sanitize(title)) && EndsWith(r, ext)
    ensures year.Some? ==> StartsWith(r, Sanitize(title) + " (" + year.value + ")")
  {
    var base := if year.Some? then Sanitize(title) + " (" + year.value + ")" else Sanitize(title);
    var tail := if part.Some? && part.value != 0 then " - Part " + NatToString(part.value) else "";
    ConcatEnds(base, tail, ext);
    assert base[..|Sanitize(title)|] == Sanitize(title);
    base + tail + ext
  }

  // ---------------------------------------------------------------------
  // `process_file`.

  datatype Outcome =
    | Renamed(to: Path)
    | AlreadyExists(to: Path)
    | NoEpisodeDetails
    | NoMatch
    | UnknownType
    | Raised

  /** The new name of the file, or the outcome that stops the script
      before any rename. */
  datatype Naming = Name(name: string) | Stop(outcome: Outcome)

  /** `show_id and show_full_name`: a non-zero id and a non-empty name. */
  predicate Matched(replies: Replies) {
    replies.found.Some? && replies.found.value.0 != 0 && replies.found.value.1 != []
  }

  /** The new name `process_file` builds from the guess and the replies. */
  function NewName(filename: string, g: Guess, replies: Replies): (r: Naming)
    ensures r.Stop? ==> r.outcome in {NoMatch, NoEpisodeDetails, UnknownType}
    ensures r.Name? <==> (g.EpisodeGuess? || g.MovieGuess?) && Matched(replies)
                         && (g.EpisodeGuess? ==> replies.episodeName.Some? && replies.episodeName.value != [])
  {
    var ext := SplitExt(filename).1;
    match g
    case EpisodeGuess(_, season, episode) =>
      if !Matched(replies) then Stop(NoMatch)
      else if replies.episodeName.None? || replies.episodeName.value == [] then Stop(NoEpisodeDetails)
      else Name(EpisodeNameAsWritten(replies.found.value.1, season, episode, replies.episodeName.value, ext))
    case MovieGuess(_, year, part) =>
      if !Matched(replies) then Stop(NoMatch)
      else Name(MovieName(replies.found.value.1, ReleaseYear(year, replies.releaseYear), part, ext))
    case OtherGuess => Stop(UnknownType)
  }

  /** `os.rename(from, to)`: the entry moves, replacing whatever is at
      `to`; raises (None) when `from` is missing. */
  function Move(t: Tree, from: Path, to: Path): (r: Option<Tree>)
    ensures r.Some? <==> from in t.entries
    ensures r.Some? ==> r.value.entries == (t.entries - {from})[to := t.entries[from]]
  {
    if from in t.entries then Some(t.Remove(from).Put(to, t.entries[from])) else None
  }

  /** `process_file`: the new tree and what the script did. */
  function ProcessFileSpec(t: Tree, filepath: Path, g: Guess, replies: Replies): (r: (Tree, Outcome))
    ensures !r.1.Renamed? ==> r.0 == t
  {
    match NewName(Basename(filepath), g, replies)
    case Stop(o) => (t, o)
    case Name(name) => RenameTo(t, filepath, name)
  }

  /** The renaming part of `process_file` once the new name is known: an
      existing target is left alone; a rename can only replace a broken
      link. */
  function RenameTo(t: Tree, filepath: Path, name: string): (r: (Tree, Outcome))
    ensures var p := JoinPath(Dirname(filepath), name);
      && r.1 in {Renamed(p), AlreadyExists(p), Raised}
      && (r.1 == AlreadyExists(p) <==> t.Exists(p))
    ensures !r.1.Renamed? ==> r.0 == t
    ensures r.1.Renamed? ==> r.1.to !in t.entries || t.IsBroken(r.1.to)
  {
    var p := JoinPath(Dirname(filepath), name);
    if t.Exists(p) then (t, AlreadyExists(p))
    else match t.MakeDirs(Dirname(p)) {
      case None => (t, Raised)
      case Some(t1) =>
        match Move(t1, filepath, p) {
          case None => (t, Raised)
          case Some(t2) => (t2, Renamed(p))
        }
    }
  }

  /** The filesystem the script renames files in. */
  class Disk {
    var tree: Tree

    constructor (t: Tree)
      ensures tree == t
    {
      tree := t;
    }

    /** `process_file`, step by step: the name is built, an existing target
        is left alone, the directory is ensured and the file renamed. */
    method ProcessFile(filepath: Path, g: Guess, replies: Replies) returns (o: Outcome)
      modifies this
      ensures (tree, o) == ProcessFileSpec(old(tree), filepath, g, replies)
    {
      var name := NewName(Basename(filepath), g, replies);
      if name.Stop? {
        return name.outcome;
      }
      var p := JoinPath(Dirname(filepath), name.name);
      if tree.Exists(p) {
        return AlreadyExists(p);
      }
      var made := tree.MakeDirs(Dirname(p));
      if made.None? {
        return Raised;
      }
      var moved := Move(made.value, filepath, p);
      if moved.None? {
        return Raised;
      }
      tree := moved.value;
      return Renamed(p);
    }
  }
}
