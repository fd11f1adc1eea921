/** Properties of the TMDb renamer: what sanitizing keeps, the shape of the
    new names, that the extension survives, and that a rename stays in the
    file's directory and never replaces an existing file. */
module RenamerProps {
  import opened Text
  import opened Wrappers
  import opened FileTree
  import opened Renamer
  import Tmdb

  // ---------------------------------------------------------------------
  // `sanitize_filename`.

  /** A name without invalid characters is kept as it is. */
  lemma {:induction false} SanitizeClean(s: string)
    requires forall c :: c in s ==> c !in Invalid
    ensures Sanitize(s) == s
    decreases |s|
  {
    if s != [] {
      assert s[0] in s;
      assert forall c :: c in s[1..] ==> c in s;
      SanitizeClean(s[1..]);
      assert s == [s[0]] + s[1..];
    }
  }

  /** Sanitizing twice is sanitizing once. */
  lemma SanitizeIdempotent(s: string)
    ensures Sanitize(Sanitize(s)) == Sanitize(s)
  {
    SanitizeClean(Sanitize(s));
  }

  /** Sanitizing works character by character: the kept characters stay in
      their order. */
  lemma {:induction false} SanitizeAppend(a: string, b: string)
    ensures Sanitize(a + b) == Sanitize(a) + Sanitize(b)
    decreases |a|
  {
    if a != [] {
      assert (a + b)[0] == a[0] && (a + b)[1..] == a[1..] + b;
      SanitizeAppend(a[1..], b);
    } else {
      assert a + b == b;
    }
  }

  /** One character is dropped exactly when it is invalid. */
  lemma SanitizeChar(c: char)
    ensures Sanitize([c]) == if c in Invalid then [] else [c]
  {
    assert [c][1..] == [];
  }

  // ---------------------------------------------------------------------
  // The new names.

  lemma {:induction false} ZFillDigits(s: string, n: nat)
    requires AllDigits(s)
    ensures AllDigits(ZFill(s, n))
  {
    var r := ZFill(s, n);
    forall k | 0 <= k < |r| ensures IsDigit(r[k]) {
      if k >= |r| - |s| {
        assert r[k] == r[|r| - |s|..][k - (|r| - |s|)];
      }
    }
  }

  /** The episode name is the show as TMDb gave it, ` - `, the
      `SxxEyy - name` label the absolute-episode fallback also builds, and
      the extension. */
  lemma EpisodeNameUsesLabel(show: string, season: nat, episode: nat, name: string, ext: string)
    ensures EpisodeNameAsWritten(show, season, episode, name, ext)
              == show + " - " + Tmdb.EpisodeLabel(season, episode, Sanitize(name)) + ext
  {
    var s := ZFill(NatToString(season), 2);
    var e := ZFill(NatToString(episode), 2);
    var tag := Tmdb.EpisodeLabel(season, episode, Sanitize(name));
    assert tag == "S" + s + "E" + e + (" - " + Sanitize(name));
    SplitDash(s, e, Sanitize(name));
    assert EpisodeSuffix(season, episode, name) == " - " + tag;
    assert show + (" - " + tag) == show + " - " + tag;
  }

  /** The suffix is ` - ` followed by the label. */
  lemma SplitDash(s: string, e: string, n: string)
    ensures " - S" + s + "E" + e + " - " + n == " - " + ("S" + s + "E" + e + (" - " + n))
  {
    assert " - S" == " - " + "S";
  }

  /** The season and episode are written with at least two digits. */
  lemma EpisodeNumbersPadded(show: string, season: nat, episode: nat, name: string, ext: string)
    ensures var s := ZFill(NatToString(season), 2);
      var e := ZFill(NatToString(episode), 2);
      && |s| >= 2 && |e| >= 2 && AllDigits(s) && AllDigits(e)
      && EpisodeNameAsWritten(show, season, episode, name, ext)
           == show + (" - S" + s + "E" + e + " - " + Sanitize(name)) + ext
  {
    ZFillDigits(NatToString(season), 2);
    ZFillDigits(NatToString(episode), 2);
  }

  lemma NoSlashInDigits(s: string)
    requires AllDigits(s)
    ensures '/' !in s
  {
    assert forall k :: 0 <= k < |s| ==> s[k] != '/';
  }

  /** The new episode name is a single path component exactly when the
      show name TMDb gave holds no `/` (the episode name is sanitized). */
  lemma EpisodeNameIsName(show: string, season: nat, episode: nat, name: string, ext: string)
    requires '/' !in ext
    ensures IsName(EpisodeNameAsWritten(show, season, episode, name, ext)) <==> '/' !in show
  {
    SuffixShape(season, episode, name);
    var r := EpisodeNameAsWritten(show, season, episode, name, ext);
    if '/' in show {
      var k :| 0 <= k < |show| && show[k] == '/';
      assert r[k] == '/';
    }
  }

  /** With the show name sanitized too, the name is always a single path
      component. */
  lemma CorrectedNameIsName(show: string, season: nat, episode: nat, name: string, ext: string)
    requires '/' !in ext
    ensures IsName(EpisodeName(show, season, episode, name, ext))
  {
    SuffixShape(season, episode, name);
    assert '/' !in Sanitize(show);
  }

  /** The suffix after the show name starts with a blank and holds no `/`. */
  lemma SuffixShape(season: nat, episode: nat, name: string)
    ensures var x := EpisodeSuffix(season, episode, name);
            |x| > 0 && x[0] == ' ' && '/' !in x
  {
    var s := ZFill(NatToString(season), 2);
    var e := ZFill(NatToString(episode), 2);
    ZFillDigits(NatToString(season), 2);
    ZFillDigits(NatToString(episode), 2);
    NoSlashInDigits(s);
    NoSlashInDigits(e);
    assert '/' !in Sanitize(name);
  }

  /** With a year the movie name starts with the title and the year in
      parentheses, without one with the title alone. */
  lemma MovieNameHead(title: string, year: Option<string>, part: Option<nat>, ext: string)
    ensures year.Some? ==> StartsWith(MovieName(title, year, part, ext), Sanitize(title) + " (" + year.value + ")")
    ensures year.None? ==> StartsWith(MovieName(title, year, part, ext), Sanitize(title))
  {
    var base := if year.Some? then Sanitize(title) + " (" + year.value + ")" else Sanitize(title);
    var tail := if part.Some? && part.value != 0 then " - Part " + NatToString(part.value) else "";
    ConcatEnds(base, tail, ext);
  }

  /** A non-zero part adds ` - Part N` just before the extension; with no
      year and no part the name is the title and the extension. */
  lemma MovieNameTail(title: string, year: Option<string>, part: Option<nat>, ext: string)
    ensures part.Some? && part.value != 0 ==>
              EndsWith(MovieName(title, year, part, ext), " - Part " + NatToString(part.value) + ext)
    ensures (part.None? || part.value == 0) && year.None? ==> MovieName(title, year, part, ext) == Sanitize(title) + ext
  {
    if part.Some? && part.value != 0 {
      var base := if year.Some? then Sanitize(title) + " (" + year.value + ")" else Sanitize(title);
      assert MovieName(title, year, part, ext) == base + (" - Part " + NatToString(part.value)) + ext;
      ConcatEnds(base, " - Part " + NatToString(part.value), ext);
    }
  }

  /** A name built from a year and a part without slashes has none. */
  lemma MovieNameNoSlash(title: string, year: Option<string>, part: Option<nat>, ext: string)
    requires year.Some? ==> '/' !in year.value
    requires '/' !in ext
    ensures '/' !in MovieName(title, year, part, ext)
  {
    if part.Some? && part.value != 0 {
      NoSlashInDigits(NatToString(part.value));
    }
  }

  // ---------------------------------------------------------------------
  // The extension.

  /** `os.path.splitext` of a name built as a stem without slashes followed
      by an extension gives back that stem and that extension. */
  lemma SplitExtOfStem(stem: string, ext: string, k: nat)
    requires ext != [] && ext[0] == '.' && '.' !in ext[1..] && '/' !in ext
    requires k < |stem| && stem[k] != '.' && '/' !in stem[k..]
    ensures SplitExt(stem + ext) == (stem, ext)
  {
    var p := stem + ext;
    assert p[|stem|] == '.';
    assert forall i :: |stem| < i < |p| ==> p[i] == ext[1..][i - |stem| - 1];
    assert SplitPoint(p) <= k by {
      assert forall i :: k <= i < |p| ==> p[i] != '/' by {
        forall i | k <= i < |p| ensures p[i] != '/' {
          if i < |stem| {
            assert p[i] == stem[k..][i - k];
          } else {
            assert p[i] == ext[i - |stem|];
          }
        }
      }
    }
    assert LastDot(p) == Some(|stem|);
    assert p[k] == stem[k];
    assert ExtStart(p) == |stem|;
    assert p[..|stem|] == stem && p[|stem|..] == ext;
  }

  /** A renamed episode keeps its extension: `splitext` of the new name
      yields the extension of the old one. */
  lemma EpisodeKeepsExtension(show: string, season: nat, episode: nat, name: string, filename: string)
    requires SplitExt(filename).1 != []
    ensures var ext := SplitExt(filename).1;
      SplitExt(EpisodeNameAsWritten(show, season, episode, name, ext)).1 == ext
  {
    var ext := SplitExt(filename).1;
    var stem := EpisodeStem(show, season, episode, name);
    EpisodeStemShape(show, season, episode, name, ext);
    SplitExtOfStem(stem, ext, |show|);
  }

  /** The episode name without its extension. */
  function EpisodeStem(show: string, season: nat, episode: nat, name: string): string {
    show + EpisodeSuffix(season, episode, name)
  }

  /** Past the show name the stem has no slash and starts with a blank,
      and the episode name is the stem followed by the extension. */
  lemma EpisodeStemShape(show: string, season: nat, episode: nat, name: string, ext: string)
    ensures var stem := EpisodeStem(show, season, episode, name);
      && EpisodeNameAsWritten(show, season, episode, name, ext) == stem + ext
      && |show| < |stem| && stem[|show|] == ' ' && '/' !in stem[|show|..]
  {
    SuffixShape(season, episode, name);
    var stem := EpisodeStem(show, season, episode, name);
    assert stem[|show|..] == EpisodeSuffix(season, episode, name);
  }

  // ---------------------------------------------------------------------
  // `process_file`.

  /** The rename stays in the file's directory under the new name, and the
      file's entry is what moves there. */
  lemma RenameStaysInDirectory(t: Tree, filepath: Path, name: string)
    requires IsDirPath(Dirname(filepath)) && t.IsDir(Dirname(filepath)) && IsName(name)
    ensures var r := RenameTo(t, filepath, name);
      r.1.Renamed? ==>
        && Dirname(r.1.to) == Dirname(filepath) && Basename(r.1.to) == name
        && r.0.entries == (t.entries - {filepath})[r.1.to := t.entries[filepath]]
  {
    DirnameOfJoin(Dirname(filepath), name);
  }

  /** In an existing directory, a file is renamed unless the target exists. */
  lemma RenamedUnlessTaken(t: Tree, filepath: Path, name: string)
    requires IsDirPath(Dirname(filepath)) && t.IsDir(Dirname(filepath)) && IsName(name)
    requires filepath in t.entries
    ensures var p := JoinPath(Dirname(filepath), name);
      RenameTo(t, filepath, name).1 == if t.Exists(p) then AlreadyExists(p) else Renamed(p)
  {
    DirnameOfJoin(Dirname(filepath), name);
  }

  /** An episode whose show and episode name TMDb gives is renamed to the
      episode name built from them, with the show name as TMDb gave it; the
      name is a single path component iff that show name has no `/`. */
  lemma EpisodeRenamed(t: Tree, filepath: Path, title: string, season: nat, episode: nat, replies: Replies)
    requires Matched(replies) && replies.episodeName.Some? && replies.episodeName.value != []
    ensures ProcessFileSpec(t, filepath, EpisodeGuess(title, season, episode), replies)
              == RenameTo(t, filepath, EpisodeNameAsWritten(replies.found.value.1, season, episode,
                                                            replies.episodeName.value, SplitExt(Basename(filepath)).1))
    ensures IsName(EpisodeNameAsWritten(replies.found.value.1, season, episode,
                                        replies.episodeName.value, SplitExt(Basename(filepath)).1))
            <==> '/' !in replies.found.value.1
  {
    EpisodeNameIsName(replies.found.value.1, season, episode, replies.episodeName.value,
                      SplitExt(Basename(filepath)).1);
  }

  // ---------------------------------------------------------------------
  // The unsanitized show name.

  /** As written, a show name with a `/` (such as `Fate/Zero`) does not
      survive as the file name: the part before the slash becomes a
      directory below the file's own. */
  lemma ShowSlashAsWritten(root: Path, show: string, season: nat, episode: nat, name: string, ext: string)
    requires '/' in show
    ensures var n := EpisodeNameAsWritten(show, season, episode, name, ext);
      Basename(JoinPath(root, n)) != n
  {
    var n := EpisodeNameAsWritten(show, season, episode, name, ext);
    var k :| 0 <= k < |show| && show[k] == '/';
    assert n[k] == '/';
  }

  /** With the show name sanitized as well, the new name lands directly in
      the file's directory, whatever the show is called. */
  lemma ShowSlashCorrected(root: Path, show: string, season: nat, episode: nat, name: string, ext: string)
    requires IsDirPath(root) && '/' !in ext
    ensures var n := EpisodeName(show, season, episode, name, ext);
      Basename(JoinPath(root, n)) == n && Dirname(JoinPath(root, n)) == root
  {
    CorrectedNameIsName(show, season, episode, name, ext);
    DirnameOfJoin(root, EpisodeName(show, season, episode, name, ext));
  }
}
