/** The anime processor: recognising anime file names, pulling the show,
    season, episode and title out of one, and the link name that
    `process_anime_show` gives it.  Regular expressions are written out as
    the scan the regex engine performs on them; every pattern is matched
    with `re.IGNORECASE`, and character classes are ASCII. */
module Anime {
  import opened Text
  import opened Wrappers
  import opened FileTree
  import FileUtils

  // ---------------------------------------------------------------------
  // `is_anime_file`: any of four patterns found anywhere in the name.

  /** `s[i]` is the letter `l` in either case. */
  predicate LetterAt(s: string, i: nat, l: char) {
    i < |s| && LowerChar(s[i]) == LowerChar(l)
  }

  /** The lower-case word `w` at `i`, in any mix of cases. */
  predicate WordAt(s: string, i: nat, w: string) {
    i + |w| <= |s| && forall k :: 0 <= k < |w| ==> LowerChar(s[i + k]) == w[k]
  }

  /** `\[.+?\]`: a `[` with a `]` after it and something in between. */
  predicate HasTag(f: string) {
    exists i, j :: 0 <= i && i + 1 < j < |f| && f[i] == '[' && f[j] == ']'
  }

  /** `\s-\s\d+\s`: a dash between two blanks, then digits and a blank. */
  predicate DashNumberAt(f: string, i: nat) {
    && i + 3 < |f| && IsSpace(f[i]) && f[i + 1] == '-' && IsSpace(f[i + 2])
    && DigitRun(f, i + 3) > 0 && i + 3 + DigitRun(f, i + 3) < |f|
    && IsSpace(f[i + 3 + DigitRun(f, i + 3)])
  }

  predicate HasDashNumber(f: string) {
    exists i: nat :: i < |f| && DashNumberAt(f, i)
  }

  /** `(?:Season|S)\s*\d+\s*Episode` at `i`. */
  predicate SeasonEpisodeWordsAt(f: string, i: nat) {
    var a := if WordAt(f, i, "season") then i + 6 else i + 1;
    && LetterAt(f, i, 's')
    && var b := a + SpaceRun(f, a);
       var n := DigitRun(f, b);
       var c := b + n + SpaceRun(f, b + n);
       n > 0 && WordAt(f, c, "episode")
  }

  /** `Ep\.?\s*\d+` at `i`. */
  predicate EpNumberAt(f: string, i: nat) {
    && LetterAt(f, i, 'e') && LetterAt(f, i + 1, 'p')
    && var a := if i + 2 < |f| && f[i + 2] == '.' then i + 3 else i + 2;
       DigitRun(f, a + SpaceRun(f, a)) > 0
  }

  predicate HasEpisodeWords(f: string) {
    exists i: nat :: i < |f| && (SeasonEpisodeWordsAt(f, i) || EpNumberAt(f, i))
  }

  /** `\.(mkv|mp4)$`. */
  predicate HasVideoExtension(f: string) {
    EndsWith(Lower(f), ".mkv") || EndsWith(Lower(f), ".mp4")
  }

  /** `is_anime_file`. */
  predicate IsAnimeFile(f: string) {
    HasTag(f) || HasDashNumber(f) || HasEpisodeWords(f) || HasVideoExtension(f)
  }

  // ---------------------------------------------------------------------
  // The cleaning steps of `extract_anime_episode_info`.

  /** The first `c` in `s` at or after `i`. */
  function IndexFrom(s: string, c: char, i: nat): (r: Option<nat>)
    ensures r.Some? ==> i <= r.value < |s| && s[r.value] == c
    ensures r.Some? ==> forall k :: i <= k < r.value ==> s[k] != c
    ensures r.None? ==> forall k :: i <= k < |s| ==> s[k] != c
    decreases |s| - i
  {
    if i >= |s| then None else if s[i] == c then Some(i) else IndexFrom(s, c, i + 1)
  }

  /** `re.sub(r'^\[.*?\]\s*', '', s)`: a leading tag and the blanks after it. */
  function DropLeadingTag(s: string): (r: string)
    ensures |r| <= |s|
    ensures forall c :: c in r ==> c in s
  {
    if s != [] && s[0] == '[' then
      match IndexFrom(s, ']', 1)
      case Some(c) => StripSubseq(s[c + 1..]); LStrip(s[c + 1..])
      case None => s
    else s
  }

  /** No opening mark has a closing mark anywhere after it. */
  predicate NoGroup(s: string, open: char, close: char) {
    forall i, j :: 0 <= i < j < |s| && s[i] == open ==> s[j] != close
  }

  /** `re.sub(r'\[.*?\]', '', s)` and its parenthesis twin: scanning left to
      right, each opening mark up to the next closing mark is removed. */
  function DropGroups(s: string, open: char, close: char): (r: string)
    requires open != close
    ensures |r| <= |s|
    ensures forall c :: c in r ==> c in s
    ensures NoGroup(r, open, close)
    decreases |s|
  {
    if s == [] then []
    else if s[0] == open && IndexFrom(s, close, 1).Some? then
      DropGroups(s[IndexFrom(s, close, 1).value + 1..], open, close)
    else
      var rest := DropGroups(s[1..], open, close);
      assert s[0] == open ==> close !in s[1..];
      [s[0]] + rest
  }

  /** The cleaned name the patterns are matched against: leading tag, tags,
      parenthesised groups and the extension gone, blanks squashed. */
  function Clean(f: string): (r: string)
    ensures |r| <= |f|
    ensures forall c :: c in r ==> c in f || c == ' '
  {
    var a := DropLeadingTag(f);
    var b := DropGroups(a, '[', ']');
    var c := DropGroups(b, '(', ')');
    var d := SplitExt(c).0;
    var e := DropGroups(d, '[', ']');
    Squash(e)
  }

  // ---------------------------------------------------------------------
  // The six patterns.  Each is `^(.+?)\s*<rest>$`: the show name is the
  // shortest non-empty prefix after which (and the blanks after it) the
  // rest matches.  Greedy digit and blank runs never give anything back
  // here, because what follows each of them is neither a digit nor a blank.

  /** The capture groups: the name, then groups 2, 3 and 4. */
  datatype Captures = Captures(name: string, g2: Option<string>, g3: Option<string>, g4: Option<string>)

  /** `\s*(?:-\s*(.+))?$` from `e`: None when it fails, else the optional title. */
  function TitleTail(s: string, e: nat): (r: Option<Option<string>>)
    requires e <= |s|
    ensures r == Some(None) ==> forall k :: e <= k < |s| ==> IsSpace(s[k])
    ensures r.Some? && r.value.Some? ==> r.value.value != [] && EndsWith(s, r.value.value)
  {
    var w := e + SpaceRun(s, e);
    if w == |s| then Some(None)
    else if s[w] != '-' then None
    else
      var v := w + 1 + SpaceRun(s, w + 1);
      if v < |s| then Some(Some(s[v..]))
      else if v > w + 1 then Some(Some(s[|s| - 1..]))
      else None
  }

  /** The digits of `s` from `i` up to the first non-digit. */
  function DigitsAt(s: string, i: nat): (r: string)
    requires i <= |s|
    ensures i + |r| <= |s| && AllDigits(r) && r == s[i..i + |r|]
    ensures DigitRun(s, i) > 0 ==> r != []
  {
    s[i..i + DigitRun(s, i)]
  }

  /** Pattern 1 after the name: `S(\d+)\s*-\s*.*?-\s*(\d+)$`.  The second
      dash is the last dash of the name, and only blanks and digits follow it. */
  function RestOne(s: string, j: nat): (r: Option<Captures>)
    requires j <= |s|
    ensures r.Some? ==> Shaped(1, r.value)
  {
    if !LetterAt(s, j, 's') || DigitRun(s, j + 1) == 0 then None
    else
      var n := DigitRun(s, j + 1);
      var m := j + 1 + n + SpaceRun(s, j + 1 + n);
      if m >= |s| || s[m] != '-' then None
      else match LastDash(s)
        case Some(q) =>
          var w := q + 1 + SpaceRun(s, q + 1);
          if q > m && w < |s| && w + DigitRun(s, w) == |s| then
            Some(Captures("", Some(DigitsAt(s, j + 1)), Some(DigitsAt(s, w)), None))
          else None
        case None => None
  }

  /** The index of the last `-` in `s`, if any. */
  function LastDash(s: string): (r: Option<nat>)
    ensures r.Some? ==> r.value < |s| && s[r.value] == '-'
    ensures r.Some? ==> forall k :: r.value < k < |s| ==> s[k] != '-'
    ensures r.None? ==> '-' !in s
  {
    if s == [] then None
    else if s[|s| - 1] == '-' then Some(|s| - 1)
    else LastDash(s[..|s| - 1])
  }

  /** Pattern 2 after the name: `-\s*(\d+)` then the title tail. */
  function RestTwo(s: string, j: nat): (r: Option<Captures>)
    requires j <= |s|
    ensures r.Some? ==> Shaped(2, r.value)
  {
    if j >= |s| || s[j] != '-' then None
    else
      var w := j + 1 + SpaceRun(s, j + 1);
      var n := DigitRun(s, w);
      if n == 0 then None
      else match TitleTail(s, w + n)
        case Some(t) => Some(Captures("", Some(DigitsAt(s, w)), t, None))
        case None => None
  }

  /** Pattern 3 after the name: `S(\d{2})E(\d+)` then the title tail. */
  function RestThree(s: string, j: nat): (r: Option<Captures>)
    requires j <= |s|
    ensures r.Some? ==> Shaped(3, r.value)
  {
    if j + 4 > |s| || !LetterAt(s, j, 's') || !IsDigit(s[j + 1]) || !IsDigit(s[j + 2])
       || !LetterAt(s, j + 3, 'e') || DigitRun(s, j + 4) == 0
    then None
    else match TitleTail(s, j + 4 + DigitRun(s, j + 4))
      case Some(t) => Some(Captures("", Some(s[j + 1..j + 3]), Some(DigitsAt(s, j + 4)), t))
      case None => None
  }

  /** Pattern 4 after the name: `(\d+)x(\d+)` then the title tail. */
  function RestFour(s: string, j: nat): (r: Option<Captures>)
    requires j <= |s|
    ensures r.Some? ==> Shaped(4, r.value)
  {
    var n := DigitRun(s, j);
    if n == 0 || !LetterAt(s, j + n, 'x') || DigitRun(s, j + n + 1) == 0 then None
    else
      var e := j + n + 1 + DigitRun(s, j + n + 1);
      match TitleTail(s, e)
      case Some(t) => Some(Captures("", Some(DigitsAt(s, j)), Some(DigitsAt(s, j + n + 1)), t))
      case None => None
  }

  /** Pattern 5 after the name: `(?:Ep\.?\s*(\d+)|Episode\s*(\d+))` then the
      title tail; the second alternative is tried when the first fails. */
  function RestFive(s: string, j: nat): (r: Option<Captures>)
    requires j <= |s|
    ensures r.Some? ==> Shaped(5, r.value)
  {
    var a := if j + 2 < |s| && s[j + 2] == '.' then j + 3 else j + 2;
    var w := a + SpaceRun(s, a);
    var first :=
      if LetterAt(s, j, 'e') && LetterAt(s, j + 1, 'p') && DigitRun(s, w) > 0 then
        match TitleTail(s, w + DigitRun(s, w))
        case Some(t) => Some(Captures("", Some(DigitsAt(s, w)), None, t))
        case None => None
      else None;
    if first.Some? then first
    else if !WordAt(s, j, "episode") then None
    else
      var v := j + 7 + SpaceRun(s, j + 7);
      if DigitRun(s, v) == 0 then None
      else match TitleTail(s, v + DigitRun(s, v))
        case Some(t) => Some(Captures("", None, Some(DigitsAt(s, v)), t))
        case None => None
  }

  /** Pattern 6 after the name: `\[(\d+)\]` then the title tail. */
  function RestSix(s: string, j: nat): (r: Option<Captures>)
    requires j <= |s|
    ensures r.Some? ==> Shaped(6, r.value)
    ensures r.Some? ==> j < |s| && s[j] == '['
  {
    var n := DigitRun(s, j + 1);
    if j >= |s| || s[j] != '[' || n == 0 || j + 1 + n >= |s| || s[j + 1 + n] != ']' then None
    else match TitleTail(s, j + 2 + n)
      case Some(t) => Some(Captures("", Some(DigitsAt(s, j + 1)), t, None))
      case None => None
  }

  /** A capture group that is present and holds digits. */
  predicate Digits(g: Option<string>) {
    g.Some? && g.value != [] && AllDigits(g.value)
  }

  /** Which groups pattern `p` fills when it matches. */
  predicate Shaped(p: nat, c: Captures) {
    match p
    case 1 => Digits(c.g2) && Digits(c.g3) && c.g4.None?
    case 2 => Digits(c.g2) && c.g4.None?
    case 3 => Digits(c.g2) && |c.g2.value| == 2 && Digits(c.g3)
    case 4 => Digits(c.g2) && Digits(c.g3)
    case 5 => (Digits(c.g2) && c.g3.None?) || (c.g2.None? && Digits(c.g3))
    case _ => Digits(c.g2) && c.g4.None?
  }

  /** Pattern `p` after a name of length `k` and the blanks after it. */
  function RestAfter(s: string, p: nat, k: nat): (r: Option<Captures>)
    ensures r.Some? ==> Shaped(p, r.value)
  {
    if k > |s| then None else PatternRest(s, p, k + SpaceRun(s, k))
  }

  /** The part of pattern `p` after the name and its blanks, matched from
      position `j` of `s`. */
  function PatternRest(s: string, p: nat, j: nat): (r: Option<Captures>)
    requires j <= |s|
    ensures r.Some? ==> Shaped(p, r.value)
  {
    match p
    case 1 => RestOne(s, j)
    case 2 => RestTwo(s, j)
    case 3 => RestThree(s, j)
    case 4 => RestFour(s, j)
    case 5 => RestFive(s, j)
    case _ => RestSix(s, j)
  }

  /** A lazy `^(.+?)` followed by `rest`: the shortest name, of length `k`
      or more, after which `rest` matches. */
  function LazyName(s: string, rest: nat -> Option<Captures>, k: nat): (r: Option<Captures>)
    requires 1 <= k
    ensures r.Some? ==> k <= |r.value.name| < |s| && r.value.name == s[..|r.value.name|]
    ensures r.Some? ==> rest(|r.value.name|).Some?
    ensures r.Some? ==> r.value == rest(|r.value.name|).value.(name := r.value.name)
    decreases |s| - k
  {
    if k >= |s| then None
    else
      var c := rest(k);
      if c.Some? then Some(c.value.(name := s[..k]))
      else LazyName(s, rest, k + 1)
  }

  /** `re.match(anime_patterns[p - 1], s, re.IGNORECASE)`. */
  function Match(s: string, p: nat): (r: Option<Captures>)
    ensures r.Some? ==> 1 <= |r.value.name| < |s| && r.value.name == s[..|r.value.name|]
    ensures r.Some? ==> Shaped(p, r.value) && RestAfter(s, p, |r.value.name|).Some?
  {
    LazyName(s, (k: nat) => RestAfter(s, p, k), 1)
  }

  /** The first of patterns `p`..6 that matches, with its number. */
  function FirstMatch(s: string, p: nat): (r: Option<(nat, Captures)>)
    requires 1 <= p
    ensures r.Some? ==> p <= r.value.0 <= 6 && Match(s, r.value.0) == Some(r.value.1)
    ensures r.Some? ==> forall q :: p <= q < r.value.0 ==> Match(s, q).None?
    ensures r.None? <==> forall q :: p <= q <= 6 ==> Match(s, q).None?
    decreases 7 - p
  {
    if p > 6 then None
    else match Match(s, p)
      case Some(c) => Some((p, c))
      case None =>
        var r := FirstMatch(s, p + 1);
        assert r.None? ==> forall q :: p <= q <= 6 ==> Match(s, q).None? by {
          if r.None? {
            forall q | p <= q <= 6 ensures Match(s, q).None? {
              if q > p {
                assert p + 1 <= q <= 6;
              }
            }
          }
        }
        r
  }

  // ---------------------------------------------------------------------
  // `extract_anime_episode_info`.

  datatype EpisodeInfo = EpisodeInfo(showName: string, episode: Option<string>,
                                     season: Option<string>, title: Option<string>)

  /** `group.zfill(2)` on a group that may be missing. */
  function Pad(g: Option<string>): (r: Option<string>)
    ensures r.Some? <==> g.Some?
    ensures r.Some? ==> |r.value| >= 2 && EndsWith(r.value, g.value)
    ensures Digits(g) ==> AllDigits(r.value)
  {
    match g
    case Some(v) => Some(ZFill(v, 2))
    case None => None
  }

  /** The show name: the first group stripped, `.`, `_` and `-` turned into
      blanks, stripped again. */
  function ShowNameOf(c: Captures): (r: string)
    ensures forall ch :: ch in r ==> !FileUtils.IsSeparator(ch)
    ensures r == [] || (!IsSpace(r[0]) && !IsSpace(r[|r| - 1]))
  {
    var a := ReplaceWithSpace(Strip(c.name), FileUtils.IsSeparator);
    ReplaceClears(Strip(c.name), FileUtils.IsSeparator);
    StripSubseq(a);
    Strip(a)
  }

  /** The fields the source reads from pattern `p`'s groups: patterns 1 and
      3 give a padded season; the others take the episode from group 2 and
      the title from group 3. */
  function InfoAsWritten(p: nat, c: Captures): (r: EpisodeInfo)
    requires 1 <= p <= 6 && Shaped(p, c)
    ensures r.season.Some? <==> p == 1 || p == 3
    ensures r.season.Some? ==> |r.season.value| >= 2 && AllDigits(r.season.value)
    ensures p != 5 ==> Digits(r.episode)
    ensures p == 1 ==> r.title.None?
  {
    var name := ShowNameOf(c);
    if p == 1 then EpisodeInfo(name, c.g3, Pad(c.g2), None)
    else if p == 2 then EpisodeInfo(name, c.g2, None, c.g3)
    else if p == 3 then EpisodeInfo(name, c.g3, Pad(c.g2), c.g4)
    else EpisodeInfo(name, c.g2, None, c.g3)
  }

  /** The same with the groups patterns 4 and 5 evidently mean: pattern 4's
      groups are season, episode and title, pattern 5's episode is in group 2
      or 3 and its title in group 4. */
  function Info(p: nat, c: Captures): (r: EpisodeInfo)
    requires 1 <= p <= 6 && Shaped(p, c)
    ensures r.season.Some? <==> p == 1 || p == 3 || p == 4
    ensures r.season.Some? ==> |r.season.value| >= 2 && AllDigits(r.season.value)
    ensures Digits(r.episode)
  {
    var name := ShowNameOf(c);
    if p == 4 then EpisodeInfo(name, c.g3, Pad(c.g2), c.g4)
    else if p == 5 then EpisodeInfo(name, if c.g2.Some? then c.g2 else c.g3, None, c.g4)
    else InfoAsWritten(p, c)
  }

  /** `extract_anime_episode_info` as written. */
  function ExtractEpisodeInfoAsWritten(f: string): (r: Option<EpisodeInfo>)
    ensures r.None? <==> forall q :: 1 <= q <= 6 ==> Match(Clean(f), q).None?
  {
    match FirstMatch(Clean(f), 1)
    case Some((p, c)) => Some(InfoAsWritten(p, c))
    case None => None
  }

  /** `extract_anime_episode_info` with the group numbering corrected. */
  function ExtractEpisodeInfo(f: string): (r: Option<EpisodeInfo>)
    ensures r.None? <==> forall q :: 1 <= q <= 6 ==> Match(Clean(f), q).None?
  {
    match FirstMatch(Clean(f), 1)
    case Some((p, c)) => Some(Info(p, c))
    case None => None
  }

  // ---------------------------------------------------------------------
  // `process_anime_show`: the show folder name, the season and the link
  // name.  The TMDb answers are parameters.

  /** `s` ends with `}` and has one of `tags` at `i` with something before the `}`. */
  predicate TagAt(s: string, i: nat, tags: set<string>) {
    && i + 8 <= |s| && s[|s| - 1] == '}'
    && s[i..i + 7] in tags
  }

  /** `re.sub(r' \{(?:tmdb|imdb)-.*?\}$', '', s)` and its tmdb-only twin:
      from the leftmost tag that starts a `…}` ending the name, cut to the end. */
  function DropTrailingTag(s: string, tags: set<string>, i: nat): (r: string)
    ensures |r| <= |s| && r == s[..|r|]
    decreases |s| - i
  {
    if i >= |s| then s
    else if TagAt(s, i, tags) then s[..i]
    else DropTrailingTag(s, tags, i + 1)
  }

  const TmdbTag := " {tmdb-"
  const ImdbTag := " {imdb-"

  /** The number of digits `s` ends with. */
  function TrailingDigits(s: string): (n: nat)
    ensures n <= |s| && AllDigits(s[|s| - n..])
    ensures n < |s| ==> !IsDigit(s[|s| - n - 1])
  {
    if s == [] || !IsDigit(s[|s| - 1]) then 0
    else
      var n := TrailingDigits(s[..|s| - 1]);
      DigitsSuffixGrows(s, n);
      n + 1
  }

  /** A digit after a run of `n` trailing digits makes a run of `n + 1`. */
  lemma DigitsSuffixGrows(s: string, n: nat)
    requires n < |s| && IsDigit(s[|s| - 1])
    requires AllDigits(s[..|s| - 1][|s| - 1 - n..])
    ensures AllDigits(s[|s| - (n + 1)..])
  {
    var t := s[|s| - (n + 1)..];
    forall i | 0 <= i < |t| ensures IsDigit(t[i]) {
      if i < n {
        assert t[i] == s[..|s| - 1][|s| - 1 - n..][i];
      }
    }
  }

  /** `re.search(r'\{tmdb-(\d+)\}$', name)`: the TMDb id a proper name ends with. */
  function TmdbIdOf(name: string): (r: Option<string>)
    ensures r.Some? ==> r.value != [] && AllDigits(r.value) && EndsWith(name, "{tmdb-" + r.value + "}")
  {
    if name == [] || name[|name| - 1] != '}' then None
    else
      var body := name[..|name| - 1];
      var n := TrailingDigits(body);
      if n == 0 || !EndsWith(body[..|body| - n], "{tmdb-") then None
      else
        var id := body[|body| - n..];
        assert body == body[..|body| - n] + id;
        assert name == body + "}";
        Some(id)
  }

  /** The folder name for the show: the proper name with the tags the folder
      settings do not ask for taken off its end. */
  function FolderName(proper: string, tmdbFolder: bool, imdbFolder: bool): (r: string)
    ensures |r| <= |proper| && r == proper[..|r|]
    ensures tmdbFolder ==> r == proper
  {
    if tmdbFolder then proper
    else if imdbFolder then DropTrailingTag(proper, {TmdbTag}, 0)
    else DropTrailingTag(proper, {TmdbTag, ImdbTag}, 0)
  }

  /** What `process_anime_show` returns (the year is left out). */
  datatype AnimeShow = AnimeShow(showName: string, season: string, newName: string,
                                 showId: Option<string>, episodeTitle: Option<string>,
                                 episode: Option<string>)

  /** `str(x)` on an episode number that may be `None`. */
  function Shown(e: Option<string>): string {
    match e
    case Some(v) => v
    case None => "None"
  }

  /** `re.sub(r'[._]', ' ', show_name).strip()`: the parsed show name tidied. */
  function CleanedShowName(name: string): (r: string)
    ensures '.' !in r && '_' !in r
  {
    var t := ReplaceWithSpace(name, IsDotOrUnderscore);
    ReplaceClears(name, IsDotOrUnderscore);
    StripSubseq(t);
    Strip(t)
  }

  predicate IsDotOrUnderscore(c: char) { c == '.' || c == '_' }

  /** `episode_name or episode_title or ""`: TMDb's episode name when it is
      non-empty, else the parsed title, else nothing. */
  function ChosenName(episodeName: Option<string>, title: Option<string>): (r: string)
    ensures episodeName.Some? && episodeName.value != "" ==> r == episodeName.value
    ensures (episodeName.None? || episodeName.value == "") ==> r == (if title.Some? then title.value else "")
  {
    if episodeName.Some? && episodeName.value != "" then episodeName.value
    else if title.Some? then title.value else ""
  }

  /** `{show} - S{season:02}E`: how every renamed anime link begins. */
  function AnimeHead(show: string, season: string): (r: string)
    ensures StartsWith(r, show) && |r| == |show| + 5 + |ZFill(season, 2)|
  {
    ConcatEnds(show, " - S" + ZFill(season, 2), "E");
    show + (" - S" + ZFill(season, 2)) + "E"
  }

  /** ` - {title}` when there is a title, nothing otherwise. */
  function TitlePart(title: string): (r: string)
    ensures r == [] <==> title == []
    ensures r != [] ==> EndsWith(r, title)
  {
    if title != "" then " - " + title else ""
  }

  function AnimeFileName(show: string, season: string, episode: Option<string>,
                         title: string, file: string): (r: string)
    ensures StartsWith(r, AnimeHead(show, season))
    ensures EndsWith(r, SplitExt(file).1)
    ensures |r| == |AnimeHead(show, season)| + |ZFill(Shown(episode), 3)| + |TitlePart(title)| + |SplitExt(file).1|
  {
    var head := AnimeHead(show, season);
    var mid := ZFill(Shown(episode), 3) + TitlePart(title);
    ConcatEnds(head, mid, SplitExt(file).1);
    head + mid + SplitExt(file).1
  }

  /** `process_anime_show` on file name `file`, parsed by
      `extract_anime_episode_info` as written.  `found` is the name
      `search_tv_show` returned (None without an API key or offline);
      `tmdbSeason` is the season the TMDb lookup left behind and
      `episodeName` the episode name TMDb gave, None when either call
      failed or found nothing. */
  method ProcessAnimeShow(file: string, rename: bool, tmdbFolder: bool, imdbFolder: bool,
                          found: Option<string>, tmdbSeason: Option<nat>, episodeName: Option<string>)
    returns (r: Option<AnimeShow>)
    ensures r.None? <==> ExtractEpisodeInfoAsWritten(file).None?
    ensures r.Some? ==> r.value.season != []
    ensures r.Some? ==> r.value.episode == ExtractEpisodeInfoAsWritten(file).value.episode
    ensures r.Some? && ExtractEpisodeInfoAsWritten(file).value.season.Some? ==>
              r.value.season == ExtractEpisodeInfoAsWritten(file).value.season.value
    ensures r.Some? && ExtractEpisodeInfoAsWritten(file).value.season.None? && (r.value.showId.None? || tmdbSeason.None? || tmdbSeason == Some(0)) ==>
              r.value.season == "01"
    ensures r.Some? ==> r.value.showId == (if found.Some? then TmdbIdOf(found.value) else None)
    ensures r.Some? && (!rename || r.value.showId.None?) ==> r.value.newName == file
    ensures r.Some? && rename && r.value.showId.Some? ==>
              StartsWith(r.value.newName, AnimeHead(r.value.showName, r.value.season))
              && EndsWith(r.value.newName, SplitExt(file).1)
    ensures r.Some? && ExtractEpisodeInfoAsWritten(file).value.season.None? && r.value.showId.Some?
              && tmdbSeason.Some? && tmdbSeason.value != 0 ==>
              r.value.season == NatToString(tmdbSeason.value)
    ensures r.Some? ==>
              var info := ExtractEpisodeInfoAsWritten(file).value;
              r.value.showName == FolderName(if found.Some? then found.value else CleanedShowName(info.showName),
                                             tmdbFolder, imdbFolder)
    ensures r.Some? && rename && r.value.showId.Some? ==>
              var info := ExtractEpisodeInfoAsWritten(file).value;
              r.value.newName == AnimeFileName(r.value.showName, r.value.season, info.episode,
                                               ChosenName(episodeName, info.title), file)
    ensures r.Some? ==>
              var info := ExtractEpisodeInfoAsWritten(file).value;
              var name := ChosenName(episodeName, info.title);
              r.value.episodeTitle == (if rename && r.value.showId.Some? && name != "" then Some(name) else info.title)
  {
    var info := ExtractEpisodeInfoAsWritten(file);
    if info.None? {
      return None;
    }
    var showName := CleanedShowName(info.value.showName);
    var proper := showName;
    var showId: Option<string> := None;
    if found.Some? {
      proper := found.value;
      showId := TmdbIdOf(proper);
    }
    showName := FolderName(proper, tmdbFolder, imdbFolder);
    var season: string;
    if info.value.season.Some? {
      season := info.value.season.value;
    } else if showId.Some? && tmdbSeason.Some? && tmdbSeason.value != 0 {
      season := NatToString(tmdbSeason.value);
    } else {
      season := "01";
    }
    var newName := file;
    var title := info.value.title;
    if rename && showId.Some? {
      var name := ChosenName(episodeName, title);
      newName := AnimeFileName(showName, season, info.value.episode, name, file);
      if name != "" {
        title := Some(name);
      }
    }
    r := Some(AnimeShow(showName, season, newName, showId, title, info.value.episode));
  }
}
