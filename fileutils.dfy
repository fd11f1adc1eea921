/** Helpers of MediaHub/utils/file_utils.py: year, resolution and name
    extraction from release names, query normalisation, the search for an
    existing destination folder, the destination index, and title
    tidying. Regular expressions are written out as the scans they perform. */
module FileUtils {
  import opened Text
  import opened Wrappers
  import opened FileTree

  // ---------------------------------------------------------------------
  // Scanning helpers.

  /** Four digits at `s[i..i+4]`. */
  predicate DigitsAt(s: string, i: nat) {
    i + 4 <= |s| && AllDigits(s[i..i + 4])
  }

  /** `open` + four digits + `close` at `s[i..i+6]`. */
  predicate YearAt(s: string, i: nat, open: char, close: char) {
    i + 6 <= |s| && s[i] == open && DigitsAt(s, i + 1) && s[i + 5] == close
  }

  /** The leftmost `i' >= i` where `YearAt` holds (a `re.search`). */
  function FirstYearAt(s: string, i: nat, open: char, close: char): (r: Option<nat>)
    ensures r.Some? ==> i <= r.value && YearAt(s, r.value, open, close)
    ensures r.Some? ==> forall k :: i <= k < r.value ==> !YearAt(s, k, open, close)
    ensures r.None? ==> forall k :: i <= k ==> !YearAt(s, k, open, close)
    decreases |s| - i
  {
    if i + 6 > |s| then None
    else if YearAt(s, i, open, close) then Some(i)
    else FirstYearAt(s, i + 1, open, close)
  }

  /** The end of the run of whitespace that starts at `k`. */
  function SkipSpaces(s: string, k: nat): (j: nat)
    requires k <= |s|
    ensures k <= j <= |s|
    ensures forall m :: k <= m < j ==> IsSpace(s[m])
    ensures j == |s| || !IsSpace(s[j])
    decreases |s| - k
  {
    if k < |s| && IsSpace(s[k]) then SkipSpaces(s, k + 1) else k
  }

  // ---------------------------------------------------------------------
  // `extract_year`.

  /** `extract_year`: a trailing `(YYYY)`, else four trailing digits, of the
      stripped query. */
  function ExtractYear(query: string): (r: Option<nat>)
    ensures r.Some? ==> r.value <= 9999
  {
    TrailingYear(Strip(query))
  }

  /** The year a stripped query ends with: `(YYYY)`, else four digits. */
  function TrailingYear(q: string): (r: Option<nat>)
    ensures r.Some? ==> r.value <= 9999
  {
    if |q| >= 6 && YearAt(q, |q| - 6, '(', ')') then Some(YearValue(FourAt(q, |q| - 5)))
    else if |q| >= 4 && DigitsAt(q, |q| - 4) then Some(YearValue(FourAt(q, |q| - 4)))
    else None
  }

  /** The four digits at `i`. */
  function FourAt(s: string, i: nat): (y: string)
    requires DigitsAt(s, i)
    ensures |y| == 4 && AllDigits(y)
  {
    s[i..i + 4]
  }

  /** `int(y)` for four digits. */
  function YearValue(y: string): (n: nat)
    requires |y| == 4 && AllDigits(y)
    ensures n <= 9999
  {
    DigitsValue4(y);
    DigitsValue(y)
  }

  /** The value of four digits, place by place. */
  lemma DigitsValue4(s: string)
    requires |s| == 4 && AllDigits(s)
    ensures DigitsValue(s) == 1000 * (s[0] as int - '0' as int) + 100 * (s[1] as int - '0' as int)
                              + 10 * (s[2] as int - '0' as int) + (s[3] as int - '0' as int)
    ensures DigitsValue(s) <= 9999
  {
    assert s[..3][..2] == s[..2] && s[..2][..1] == s[..1] && s[..1][..0] == [];
    assert DigitsValue(s) == DigitsValue(s[..3]) * 10 + (s[3] as int - '0' as int);
    assert DigitsValue(s[..3]) == DigitsValue(s[..2]) * 10 + (s[2] as int - '0' as int);
    assert DigitsValue(s[..2]) == DigitsValue(s[..1]) * 10 + (s[1] as int - '0' as int);
    assert DigitsValue(s[..1]) == s[0] as int - '0' as int;
  }

  // ---------------------------------------------------------------------
  // `extract_folder_year`.

  /** Four-digit strings that are resolutions rather than years. */
  const Resolutions: set<string> := {"1080", "480", "720", "2160"}

  /** `extract_folder_year`: the first `(YYYY)` unless it is a resolution,
      else the first `.YYYY.` unless it is a resolution. */
  function ExtractFolderYear(name: string): (r: Option<nat>)
    ensures r.Some? ==> r.value != 1080 && r.value != 2160 && r.value <= 9999
  {
    var paren := FirstYearAt(name, 0, '(', ')');
    var dot := FirstYearAt(name, 0, '.', '.');
    if paren.Some? && name[paren.value + 1..paren.value + 5] !in Resolutions then
      NotResolutionValue(name[paren.value + 1..paren.value + 5]);
      Some(DigitsValue(name[paren.value + 1..paren.value + 5]))
    else if dot.Some? && name[dot.value + 1..dot.value + 5] !in Resolutions then
      NotResolutionValue(name[dot.value + 1..dot.value + 5]);
      Some(DigitsValue(name[dot.value + 1..dot.value + 5]))
    else None
  }

  /** Four digits other than `1080` and `2160` have another value. */
  lemma NotResolutionValue(y: string)
    requires |y| == 4 && AllDigits(y) && y != "1080" && y != "2160"
    ensures DigitsValue(y) != 1080 && DigitsValue(y) != 2160 && DigitsValue(y) <= 9999
  {
    DigitsValue4(y);
    assert y == [y[0], y[1], y[2], y[3]];
    assert IsDigit(y[0]) && IsDigit(y[1]) && IsDigit(y[2]) && IsDigit(y[3]);
  }

  // ---------------------------------------------------------------------
  // `extract_resolution_from_filename`.

  /** The alternatives of the resolution pattern, in the order they are tried. */
  const ResolutionTokens: seq<string> := ["4K", "2160p", "1080p", "720p", "1080", "2160", "480p"]

  /** `t` occurs at `i`, ignoring case. */
  predicate MatchesAt(s: string, i: nat, t: string) {
    i + |t| <= |s| && Lower(s[i..i + |t|]) == Lower(t)
  }

  /** The first alternative that matches at `i`. */
  function TokenAt(s: string, i: nat, toks: seq<string>): (r: Option<string>)
    ensures r.Some? ==> r.value in toks && MatchesAt(s, i, r.value)
    ensures r.None? ==> forall t :: t in toks ==> !MatchesAt(s, i, t)
  {
    if toks == [] then None
    else if MatchesAt(s, i, toks[0]) then Some(toks[0])
    else TokenAt(s, i, toks[1..])
  }

  /** The token matched at the leftmost position where one matches. */
  function FirstToken(s: string, i: nat, toks: seq<string>): (r: Option<string>)
    ensures r.Some? ==> r.value in toks
    ensures r.Some? ==> exists k :: i <= k <= |s| && MatchesAt(s, k, r.value)
    ensures r.None? ==> forall k, t :: i <= k <= |s| && t in toks ==> !MatchesAt(s, k, t)
    decreases |s| - i
  {
    if i > |s| then None
    else
      var t := TokenAt(s, i, toks);
      if t.Some? then t else FirstToken(s, i + 1, toks)
  }

  /** `"Remux"` when the name mentions it in any case. */
  function RemuxSuffix(f: string): string {
    if ContainsIgnoreCase(f, "Remux") then "Remux" else ""
  }

  /** `extract_resolution_from_filename`: the first resolution token,
      lowercased, with `Remux` appended when "remux" appears in any case. */
  function ExtractResolutionFromFilename(f: string): (r: Option<string>)
    ensures r.None? ==> forall k, t :: 0 <= k <= |f| && t in ResolutionTokens ==> !MatchesAt(f, k, t)
    ensures r.Some? ==> exists k, t :: 0 <= k <= |f| && t in ResolutionTokens && MatchesAt(f, k, t) &&
                                       r.value == Lower(t) + RemuxSuffix(f)
  {
    match FirstToken(f, 0, ResolutionTokens)
    case None => None
    case Some(t) => Some(Lower(t) + RemuxSuffix(f))
  }

  // ---------------------------------------------------------------------
  // `extract_movie_name_and_year`.

  /** `^\d{1,2}\.\s+`: one or two digits, a dot, then whitespace. */
  predicate NumberedPrefix(s: string) {
    || (|s| >= 3 && IsDigit(s[0]) && s[1] == '.' && IsSpace(s[2]))
    || (|s| >= 4 && IsDigit(s[0]) && IsDigit(s[1]) && s[2] == '.' && IsSpace(s[3]))
  }

  /** `re.sub(r'^\d{1,2}\.\s*', '', s)` after the prefix was found. */
  function DropNumber(s: string): (r: string)
    ensures |r| <= |s|
  {
    if !NumberedPrefix(s) then s
    else if IsDigit(s[1]) then LStrip(s[3..])
    else LStrip(s[2..])
  }

  /** The three year patterns, tried in this order. */
  datatype YearKind = Bracketed | Parenthesised | Bare

  /** `\s*\[(\d{4})\]`, `\s*\((\d{4})\)` or `\s*(\d{4})` at `k`: the
      whitespace run is always taken whole, since what follows it cannot
      be whitespace. */
  predicate TailAt(s: string, k: nat, kind: YearKind) {
    k <= |s| &&
    var j := SkipSpaces(s, k);
    match kind
    case Bracketed => YearAt(s, j, '[', ']')
    case Parenthesised => YearAt(s, j, '(', ')')
    case Bare => DigitsAt(s, j)
  }

  /** The year digits of the tail at `k`. */
  function TailYear(s: string, k: nat, kind: YearKind): (y: string)
    requires TailAt(s, k, kind)
    ensures |y| == 4 && AllDigits(y)
  {
    var j := SkipSpaces(s, k);
    if kind == Bare then s[j..j + 4] else s[j + 1..j + 5]
  }

  /** `(.+?)` from `i`: the smallest end `k' >= k` reached without crossing
      a newline (`.` does not match one) after which the tail matches. */
  function LazyEnd(s: string, i: nat, k: nat, kind: YearKind): (r: Option<nat>)
    requires i < k <= |s|
    requires forall m :: i <= m < k - 1 ==> s[m] != '\n'
    ensures r.Some? ==> k <= r.value <= |s| && TailAt(s, r.value, kind)
    ensures r.Some? ==> forall m :: i <= m < r.value ==> s[m] != '\n'
    ensures r.Some? ==> forall m :: k <= m < r.value ==> !TailAt(s, m, kind)
    decreases |s| - k
  {
    if s[k - 1] == '\n' then None
    else if TailAt(s, k, kind) then Some(k)
    else if k == |s| then None
    else LazyEnd(s, i, k + 1, kind)
  }

  /** `re.search`: the leftmost start with a match, and the end of its group. */
  function FirstMatch(s: string, i: nat, kind: YearKind): (r: Option<(nat, nat)>)
    ensures r.Some? ==> i <= r.value.0 < r.value.1 <= |s| && TailAt(s, r.value.1, kind)
    decreases |s| - i
  {
    if i >= |s| then None
    else match LazyEnd(s, i, i + 1, kind)
      case Some(k) => Some((i, k))
      case None => FirstMatch(s, i + 1, kind)
  }

  predicate IsBracket(c: char) { c == '[' || c == ']' }

  predicate NotBracket(c: char) { !IsBracket(c) }
  predicate IsDotOrDash(c: char) { c == '.' || c == '-' }

  /** The name group tidied: dots and dashes to spaces, stripped, square
      brackets removed, stripped again. */
  function TidyName(g: string): (r: string)
    ensures forall c :: c in r ==> !IsDotOrDash(c) && !IsBracket(c)
    ensures r == [] || (!IsSpace(r[0]) && !IsSpace(r[|r| - 1]))
  {
    var spaced := ReplaceWithSpace(g, IsDotOrDash);
    ReplaceClears(g, IsDotOrDash);
    var a := Strip(spaced);
    StripSubseq(spaced);
    assert forall c :: c in a ==> !IsDotOrDash(c);
    var b := Keep(a, NotBracket);
    assert forall c :: c in b ==> !IsDotOrDash(c) && NotBracket(c);
    StripSubseq(b);
    Strip(b)
  }

  /** The result of one pattern's match. */
  function MatchResult(s: string, kind: YearKind): (r: Option<(string, string)>)
    ensures r.Some? ==> |r.value.1| == 4 && AllDigits(r.value.1)
  {
    match FirstMatch(s, 0, kind)
    case None => None
    case Some((i, k)) => Some((TidyName(s[i..k]), TailYear(s, k, kind)))
  }

  /** `extract_movie_name_and_year`: the numbering dropped, then the first
      pattern that matches anywhere gives the name and the year. */
  function ExtractMovieNameAndYear(filename: string): (r: Option<(string, string)>)
    ensures r.Some? ==> |r.value.1| == 4 && AllDigits(r.value.1)
    ensures r.Some? ==> forall c :: c in r.value.0 ==> !IsDotOrDash(c) && !IsBracket(c)
  {
    var s := DropNumber(filename);
    var b := MatchResult(s, Bracketed);
    if b.Some? then b
    else
      var p := MatchResult(s, Parenthesised);
      if p.Some? then p else MatchResult(s, Bare)
  }

  // ---------------------------------------------------------------------
  // `normalize_query`.

  predicate IsSeparator(c: char) { c == '.' || c == '_' || c == '-' }

  /** What `[^\w\s\(\)-]` does not remove. */
  predicate QueryChar(c: char) { IsWordChar(c) || IsSpace(c) || c == '(' || c == ')' || c == '-' }

  /** What a normalised query is made of. */
  predicate NormalChar(c: char) { IsAlnum(c) || c == ' ' || c == '(' || c == ')' }

  /** `normalize_query`: separators become spaces, other punctuation goes,
      whitespace is squashed. */
  function NormalizeQuery(query: string): (r: string)
    ensures Squashed(r)
    ensures forall c :: c in r ==> NormalChar(c)
  {
    var a := ReplaceWithSpace(query, IsSeparator);
    var b := Keep(a, QueryChar);
    assert forall c :: c in b ==> c in a && QueryChar(c);
    assert forall c :: c in a ==> !IsSeparator(c) || c == ' ' by {
      forall c | c in a ensures !IsSeparator(c) || c == ' ' {
        var i :| 0 <= i < |a| && a[i] == c;
      }
    }
    SquashSquashed(b);
    Squash(b)
  }

  // ---------------------------------------------------------------------
  // `check_existing_variations`.

  /** Python's `not year` for an optional year. */
  predicate Falsy(y: Option<nat>) { y.None? || y == Some(0) }

  /** A folder name that normalises to the query with a compatible year. */
  predicate ExactVariation(nq: string, d: string, year: Option<nat>) {
    nq == NormalizeQuery(d) &&
    (ExtractYear(d) == year || Falsy(year) || Falsy(ExtractYear(d)))
  }

  /** A folder name one of whose normalisation contains the other, with
      lengths differing by less than five. */
  predicate PartialVariation(nq: string, d: string) {
    var nd := NormalizeQuery(d);
    (Contains(nd, nq) || Contains(nq, nd)) && -5 < |nq| - |nd| < 5
  }

  /** `min`'s key: the folder name's length, then whether its year differs. */
  predicate KeyLess(a: string, b: string, year: Option<nat>) {
    |a| < |b| || (|a| == |b| && ExtractYear(a) == year && ExtractYear(b) != year)
  }

  /** The first exact variation. */
  function FirstExact(dirs: seq<string>, nq: string, year: Option<nat>): (r: Option<string>)
    ensures r.Some? ==> r.value in dirs && ExactVariation(nq, r.value, year)
    ensures r.None? <==> forall d :: d in dirs ==> !ExactVariation(nq, d, year)
  {
    FirstWith(dirs, d => ExactVariation(nq, d, year))
  }

  /** The first name of `s` that satisfies `p`, in order. */
  function FirstWith(s: seq<string>, p: string -> bool): (r: Option<string>)
    ensures r.Some? ==> r.value in s && p(r.value)
    ensures r.None? <==> forall d :: d in s ==> !p(d)
  {
    if s == [] then None
    else if p(s[0]) then Some(s[0])
    else FirstWith(s[1..], p)
  }

  /** The partial variations, in walk order. */
  function Partials(dirs: seq<string>, nq: string): (r: seq<string>)
    ensures |r| <= |dirs|
  {
    if dirs == [] then []
    else
      var last := dirs[|dirs| - 1];
      Partials(dirs[..|dirs| - 1], nq) + if PartialVariation(nq, last) then [last] else []
  }

  /** Python's `min` by `KeyLess`: the first element no other is below. */
  function Best(ps: seq<string>, year: Option<nat>): (r: string)
    requires ps != []
    ensures r in ps
    ensures forall d :: d in ps ==> !KeyLess(d, r, year)
  {
    if |ps| == 1 then ps[0]
    else
      var b := Best(ps[1..], year);
      BestStep(ps, b, year);
      if KeyLess(b, ps[0], year) then b else ps[0]
  }

  /** The lesser of the head and the best of the tail is below none of `ps`. */
  lemma BestStep(ps: seq<string>, b: string, year: Option<nat>)
    requires |ps| > 1 && b in ps[1..] && forall d :: d in ps[1..] ==> !KeyLess(d, b, year)
    ensures var r := if KeyLess(b, ps[0], year) then b else ps[0];
      r in ps && forall d :: d in ps ==> !KeyLess(d, r, year)
  {
    assert forall d :: d in ps ==> d == ps[0] || d in ps[1..];
    if KeyLess(b, ps[0], year) {
      KeyLessAsymmetric(b, ps[0], year);
    } else {
      forall d | d in ps[1..] ensures !KeyLess(d, ps[0], year) {
        KeyLessTransitive(d, b, ps[0], year);
      }
    }
  }

  lemma KeyLessAsymmetric(a: string, b: string, year: Option<nat>)
    requires KeyLess(a, b, year)
    ensures !KeyLess(b, a, year)
  {
  }

  /** Not below `b`, which is not below `p`: not below `p`. */
  lemma KeyLessTransitive(d: string, b: string, p: string, year: Option<nat>)
    requires !KeyLess(d, b, year) && !KeyLess(b, p, year)
    ensures !KeyLess(d, p, year)
  {
  }

  /** What `check_existing_variations` returns for the folder names `dirs`. */
  function Variation(dirs: seq<string>, name: string, year: Option<nat>): (r: Option<string>)
  {
    var nq := NormalizeQuery(name);
    match FirstExact(dirs, nq, year)
    case Some(d) => Some(d)
    case None =>
      var ps := Partials(dirs, nq);
      if ps == [] then None else Some(Best(ps, year))
  }

  /** The names `for root, dirs, _ in os.walk(root): for d in dirs` goes
      through: each directory's dirnames, top-down, a directory's own before
      those of its subdirectories. */
  function DirNames(t: Tree, root: Path): (r: seq<string>)
    ensures |r| == |t.WalkOf(root, Dirs)|
    ensures forall i :: 0 <= i < |r| ==>
              var p := t.WalkOf(root, Dirs)[i]; r[i] == Basename(p) && t.WalkDir(p) && Under(root, p)
  {
    var ps := t.WalkOf(root, Dirs);
    seq(|ps|, i requires 0 <= i < |ps| => Basename(ps[i]))
  }

  /** The search from `i` takes `s[i]` or goes on from `i + 1`. */
  lemma FirstWithAt(s: seq<string>, p: string -> bool, i: nat)
    requires i < |s|
    ensures FirstWith(s[i..], p) == if p(s[i]) then Some(s[i]) else FirstWith(s[i + 1..], p)
  {
    assert s[i..][1..] == s[i + 1..];
  }

  lemma FirstExactAt(dirs: seq<string>, nq: string, year: Option<nat>, i: nat)
    requires i < |dirs|
    ensures FirstExact(dirs[i..], nq, year)
              == if ExactVariation(nq, dirs[i], year) then Some(dirs[i]) else FirstExact(dirs[i + 1..], nq, year)
  {
    FirstWithAt(dirs, d => ExactVariation(nq, d, year), i);
  }

  /** One more folder name adds itself to the partial ones when it is one. */
  lemma PartialsAt(dirs: seq<string>, nq: string, i: nat)
    requires i < |dirs|
    ensures Partials(dirs[..i + 1], nq)
              == Partials(dirs[..i], nq) + if PartialVariation(nq, dirs[i]) then [dirs[i]] else []
  {
    assert dirs[..i + 1][..i] == dirs[..i];
  }

  /** The walk over the folder names: stops at the first exact variation,
      collecting the partial ones until then. */
  method ScanVariations(dirs: seq<string>, nq: string, year: Option<nat>) returns (exact: Option<string>, partials: seq<string>)
    ensures exact == FirstExact(dirs, nq, year)
    ensures exact.None? ==> partials == Partials(dirs, nq)
  {
    partials := [];
    var i := 0;
    while i < |dirs|
      invariant 0 <= i <= |dirs|
      invariant partials == Partials(dirs[..i], nq)
      invariant FirstExact(dirs, nq, year) == FirstExact(dirs[i..], nq, year)
    {
      var d := dirs[i];
      FirstExactAt(dirs, nq, year, i);
      PartialsAt(dirs, nq, i);
      if ExactVariation(nq, d, year) {
        return Some(d), partials;
      }
      if PartialVariation(nq, d) {
        partials := partials + [d];
      }
      i := i + 1;
    }
    assert dirs[..i] == dirs;
    return None, partials;
  }

  /** `check_existing_variations`: returns at the first exact variation,
      else the best partial one collected over the whole walk. */
  method CheckExistingVariations(t: Tree, name: string, year: Option<nat>, destDir: Path) returns (r: Option<string>)
    ensures r == Variation(DirNames(t, destDir), name, year)
  {
    var nq := NormalizeQuery(name);
    var exact, partials := ScanVariations(DirNames(t, destDir), nq, year);
    if exact.Some? {
      return exact;
    }
    if partials != [] {
      return Some(Best(partials, year));
    }
    return None;
  }

  // ---------------------------------------------------------------------
  // `build_dest_index`.

  /** `build_dest_index`: every path the walk of `root` visits, directories
      and files alike, links or not; in a normalised tree, every entry
      below the root. */
  method BuildDestIndex(t: Tree, root: Path) returns (idx: seq<Path>)
    ensures idx == t.Walk(root)
    ensures forall p :: p in idx ==> p in t.entries && Under(root, p)
    ensures t.WellFormed() && t.NormalPaths() && Normal(root) ==>
              forall p :: p in t.entries && Under(root, p) ==> p in idx
  {
    var roots := t.Roots(root);
    idx := [];
    var i := 0;
    while i < |roots|
      invariant 0 <= i <= |roots|
      invariant idx == t.Gather(roots[..i], DirsFiles)
    {
      GatherStep(t, roots, i, DirsFiles);
      idx := idx + t.Level(roots[i], DirsFiles);
      i := i + 1;
    }
    assert roots[..i] == roots;
    WalkComplete(t, root, DirsFiles);
  }

  // ---------------------------------------------------------------------
  // `standardize_title`.

  /** Characters whose presence in a word counts it as affected. */
  predicate Affecting(c: char) {
    c == '0' || c == '1' || c == '4' || c == '5' || c == '7' || c == '9' || c == '3' || IsSymbol(c)
  }

  predicate IsSymbol(c: char) { c == '@' || c == '#' || c == '$' || c == '%' || c == '&' || c == '*' }

  /** What the replacement table gives a substituted character; `2`, `6`
      and `8` are not in the table and stay. */
  function Replacement(c: char): (r: string)
    requires IsDigit(c) || IsSymbol(c)
    ensures forall x :: x in r ==> !Affecting(x)
  {
    match c
    case '0' => "o" case '1' => "i" case '4' => "a" case '5' => "s" case '7' => "t" case '9' => "g"
    case '@' => "a" case '#' => "h" case '$' => "s" case '%' => "p" case '&' => "and" case '*' => "x"
    case '3' => "e"
    case _ => [c]
  }

  /** Length of the run of word characters at the start of `s`. */
  function WordRun(s: string): (n: nat)
    ensures n <= |s|
    ensures forall i :: 0 <= i < n ==> IsWordChar(s[i])
    ensures n == |s| || !IsWordChar(s[n])
  {
    if s != [] && IsWordChar(s[0]) then 1 + WordRun(s[1..]) else 0
  }

  /** `re.findall(r'\b\w+\b', s)`: the maximal runs of word characters. */
  function Words(s: string): (r: seq<string>)
    ensures forall w :: w in r ==> w != [] && forall c :: c in w ==> IsWordChar(c)
    decreases |s|
  {
    if s == [] then []
    else if !IsWordChar(s[0]) then Words(s[1..])
    else
      var n := WordRun(s);
      [s[..n]] + Words(s[n..])
  }

  /** How many words hold an affecting character. */
  function CountAffected(words: seq<string>): (n: nat)
    ensures n <= |words|
  {
    if words == [] then 0
    else (if exists c :: c in words[0] && Affecting(c) then 1 else 0) + CountAffected(words[1..])
  }

  /** `re.sub(r'[0-9@#$%&*3]', replacement_func, s)`. */
  function Substitute(s: string): (r: string)
    ensures forall c :: c in r ==> !Affecting(c)
  {
    if s == [] then []
    else
      (if IsDigit(s[0]) || IsSymbol(s[0]) then Replacement(s[0]) else [s[0]])
      + Substitute(s[1..])
  }

  /** `standardize_title`. */
  function StandardizeTitleSpec(title: string): (r: string)
    ensures Squashed(r)
  {
    SquashSquashed(if CountAffected(Words(title)) > 4 then Substitute(title) else title);
    Squash(if CountAffected(Words(title)) > 4 then Substitute(title) else title)
  }

  /** `standardize_title` with its counting loop over the words. */
  method StandardizeTitle(title: string) returns (r: string)
    ensures r == StandardizeTitleSpec(title)
  {
    var words := Words(title);
    var affected := 0;
    var i := 0;
    while i < |words|
      invariant 0 <= i <= |words|
      invariant affected + CountAffected(words[i..]) == CountAffected(words)
    {
      assert words[i..][1..] == words[i + 1..];
      if exists c :: c in words[i] && Affecting(c) {
        affected := affected + 1;
      }
      i := i + 1;
    }
    var s := if affected > 4 then Substitute(title) else title;
    r := Squash(s);
  }

  // ---------------------------------------------------------------------
  // `remove_genre_names`.

  const Genres: seq<string> := [
    "Action", "Comedy", "Drama", "Thriller", "Horror", "Romance", "Adventure", "Sci-Fi",
    "Fantasy", "Mystery", "Crime", "Documentary", "Animation", "Family", "Music", "War",
    "Western", "History", "Biography"]

  /** Regex `\b` at position `i` of `s`. */
  predicate Boundary(s: string, i: nat) {
    (0 < i <= |s| && IsWordChar(s[i - 1])) != (i < |s| && IsWordChar(s[i]))
  }

  /** `\bw\b` matches at `i`, ignoring case. */
  predicate WholeWordAt(s: string, w: string, i: nat) {
    w != [] && i + |w| <= |s| && Lower(s[i..i + |w|]) == Lower(w) && Boundary(s, i) && Boundary(s, i + |w|)
  }

  /** `re.sub(r'\bw\b', '', s[i..], flags=re.IGNORECASE)`, scanning left
      to right and resuming after each match; boundaries are those of `s`. */
  function RemoveWordFrom(s: string, w: string, i: nat): (r: string)
    ensures |r| <= |s| - i || (i > |s| && r == [])
    decreases |s| - i
  {
    if i >= |s| then []
    else if WholeWordAt(s, w, i) then RemoveWordFrom(s, w, i + |w|)
    else [s[i]] + RemoveWordFrom(s, w, i + 1)
  }

  function RemoveWord(s: string, w: string): (r: string)
    ensures |r| <= |s|
  {
    RemoveWordFrom(s, w, 0)
  }

  /** Every genre removed in turn. */
  function RemoveAll(s: string, genres: seq<string>): (r: string)
    ensures |r| <= |s|
    decreases |genres|
  {
    if genres == [] then s else RemoveAll(RemoveWord(s, genres[0]), genres[1..])
  }

  /** `remove_genre_names`, with its loop over the genres. */
  method RemoveGenreNames(query: string) returns (r: string)
    ensures r == Squash(RemoveAll(query, Genres))
    ensures Squashed(r) && |r| <= |query|
  {
    var q := query;
    var i := 0;
    while i < |Genres|
      invariant 0 <= i <= |Genres|
      invariant RemoveAll(q, Genres[i..]) == RemoveAll(query, Genres)
      invariant |q| <= |query|
    {
      RemoveAllAt(q, Genres, i);
      q := RemoveWord(q, Genres[i]);
      i := i + 1;
    }
    assert Genres[i..] == [];
    SquashSquashed(q);
    r := Squash(q);
  }

  /** Removing the genres from the `i`-th on removes the `i`-th first. */
  lemma RemoveAllAt(q: string, genres: seq<string>, i: nat)
    requires i < |genres|
    ensures RemoveAll(q, genres[i..]) == RemoveAll(RemoveWord(q, genres[i]), genres[i + 1..])
  {
    assert genres[i..][1..] == genres[i + 1..];
  }
}
