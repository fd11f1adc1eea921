/** What the helpers of MediaHub/utils/file_utils.py guarantee: round trips
    of the year and name extraction, idempotence of the query
    normalisation, the choice `check_existing_variations` makes, and the
    title tidying. */
module FileUtilsProps {
  import opened Text
  import opened Wrappers
  import opened FileUtils
  import opened FileTree

  // ---------------------------------------------------------------------
  // Query normalisation.

  /** Normalising a normalised query changes nothing. */
  lemma NormalizeQueryIdempotent(query: string)
    ensures NormalizeQuery(NormalizeQuery(query)) == NormalizeQuery(query)
  {
    var r := NormalizeQuery(query);
    NormalNoSeparator(r);
    ReplaceNone(r, IsSeparator);
    NormalQueryChars(r);
    KeepAll(r, QueryChar);
    SquashIdentity(r);
  }

  lemma NormalNoSeparator(r: string)
    requires forall c :: c in r ==> NormalChar(c)
    ensures forall i :: 0 <= i < |r| ==> !IsSeparator(r[i])
  {
    forall i | 0 <= i < |r| ensures !IsSeparator(r[i]) {
      assert r[i] in r;
    }
  }

  lemma NormalQueryChars(r: string)
    requires forall c :: c in r ==> NormalChar(c)
    ensures forall c :: c in r ==> QueryChar(c)
  {
  }

  // ---------------------------------------------------------------------
  // Years.

  /** Stripping leading whitespace stops at the first non-space character. */
  lemma {:induction false} LStripKeeps(s: string, k: nat)
    requires k < |s| && !IsSpace(s[k])
    ensures |LStrip(s)| >= |s| - k
    decreases |s|
  {
    if IsSpace(s[0]) {
      LStripKeeps(s[1..], k - 1);
    }
  }

  /** A stripped string keeps every character from the first non-space one
      on, when it ends with a non-space character. */
  lemma StripTail(s: string, k: nat)
    requires k < |s| && !IsSpace(s[k]) && !IsSpace(s[|s| - 1])
    ensures |Strip(s)| >= |s| - k && Strip(s) == s[|s| - |Strip(s)|..]
  {
    LStripKeeps(s, k);
    var l := LStrip(s);
    assert l == s[|s| - |l|..];
    assert l[|l| - 1] == s[|s| - 1];
    RStripIdentity(l);
    assert Strip(s) == l;
  }

  /** A name ending in `(YYYY)` gives that year. */
  lemma ExtractYearParenthesisedSuffix(s: string, y: string)
    requires |y| == 4 && AllDigits(y)
    requires |s| >= 6 && s[|s| - 6..] == "(" + y + ")"
    ensures ExtractYear(s) == Some(DigitsValue(y))
  {
    var n := |s|;
    assert s[n - 6] == '(' && s[n - 1] == ')';
    StripTail(s, n - 6);
    var q := Strip(s);
    assert q[|q| - 6..] == s[n - 6..];
    ParenthesisedYear(q, y);
  }

  /** A stripped query ending in `(YYYY)` gives that year. */
  lemma ParenthesisedYear(q: string, y: string)
    requires |y| == 4 && AllDigits(y)
    requires |q| >= 6 && q[|q| - 6..] == "(" + y + ")"
    ensures TrailingYear(q) == Some(DigitsValue(y))
  {
    var t := q[|q| - 6..];
    assert t[1..5] == y;
    assert q[|q| - 5..|q| - 1] == y;
    assert YearAt(q, |q| - 6, '(', ')');
    calc {
      TrailingYear(q);
      Some(YearValue(FourAt(q, |q| - 5)));
    == { assert FourAt(q, |q| - 5) == y; }
      Some(YearValue(y));
    }
  }

  /** A title followed by `(YYYY)` gives that year. */
  lemma ExtractYearParenthesised(title: string, y: string)
    requires |y| == 4 && AllDigits(y)
    ensures ExtractYear(title + " (" + y + ")") == Some(DigitsValue(y))
  {
    var s := title + " (" + y + ")";
    assert s[|s| - 6..] == "(" + y + ")";
    ExtractYearParenthesisedSuffix(s, y);
  }

  /** A name ending in four digits gives them as the year. */
  lemma ExtractYearBareSuffix(s: string, y: string)
    requires |y| == 4 && AllDigits(y)
    requires |s| >= 4 && s[|s| - 4..] == y
    ensures ExtractYear(s) == Some(DigitsValue(y))
  {
    var n := |s|;
    assert s[n - 4] == y[0] && s[n - 1] == y[3];
    StripTail(s, n - 4);
    var q := Strip(s);
    assert q[|q| - 4..] == y;
    assert q[|q| - 1] == y[3];
    BareYear(q, y);
  }

  /** A stripped query ending in four digits, without `(YYYY)`, gives them. */
  lemma BareYear(q: string, y: string)
    requires |y| == 4 && AllDigits(y)
    requires |q| >= 4 && q[|q| - 4..] == y
    ensures TrailingYear(q) == Some(DigitsValue(y))
  {
    assert DigitsAt(q, |q| - 4);
    assert q[|q| - 1] == y[3] && IsDigit(y[3]);
    calc {
      TrailingYear(q);
    == { assert !(|q| >= 6 && YearAt(q, |q| - 6, '(', ')')); }
      Some(YearValue(FourAt(q, |q| - 4)));
    == { assert FourAt(q, |q| - 4) == y; }
      Some(YearValue(y));
    }
  }

  /** A title followed by four digits gives those digits as the year. */
  lemma ExtractYearBare(title: string, y: string)
    requires |y| == 4 && AllDigits(y)
    ensures ExtractYear(title + y) == Some(DigitsValue(y))
  {
    var s := title + y;
    assert s[|s| - 4..] == y;
    ExtractYearBareSuffix(s, y);
  }

  /** `FirstYearAt` finds `j` when nothing matches before it. */
  lemma {:induction false} FirstYearAtIs(s: string, i: nat, j: nat, open: char, close: char)
    requires i <= j && YearAt(s, j, open, close)
    requires forall k :: i <= k < j ==> !YearAt(s, k, open, close)
    ensures FirstYearAt(s, i, open, close) == Some(j)
    decreases j - i
  {
    if i < j {
      FirstYearAtIs(s, i + 1, j, open, close);
    }
  }

  /** A folder named `Title (YYYY)`, with no other parenthesis, gives that
      year unless it is a resolution. */
  lemma ExtractFolderYearParenthesised(title: string, y: string)
    requires |y| == 4 && AllDigits(y) && y !in Resolutions
    requires '(' !in title
    ensures ExtractFolderYear(title + " (" + y + ")") == Some(DigitsValue(y))
  {
    var s := title + " (" + y + ")";
    var j := |title| + 1;
    assert s[j + 1..j + 5] == y;
    assert YearAt(s, j, '(', ')');
    forall k | 0 <= k < j ensures !YearAt(s, k, '(', ')') {
      if k < |title| {
        assert s[k] == title[k];
      }
    }
    FirstYearAtIs(s, 0, j, '(', ')');
  }

  // ---------------------------------------------------------------------
  // Names.

  /** A title made of letters and inner spaces. */
  predicate PlainTitle(title: string) {
    && title != []
    && (forall i :: 0 <= i < |title| ==> IsAlpha(title[i]) || title[i] == ' ')
    && title[0] != ' ' && title[|title| - 1] != ' '
  }

  /** The year as each pattern writes it. */
  function Tail(kind: YearKind, y: string): (r: string)
    requires |y| == 4 && AllDigits(y)
    ensures |r| == if kind == Bare then 4 else 6
    ensures forall i :: 0 <= i < |r| ==> IsDigit(r[i]) || (kind != Bare && (i == 0 || i == 5))
    ensures kind == Bare ==> r == y
    ensures kind != Bare ==> r[1..5] == y && r[0] == (if kind == Bracketed then '[' else '(')
                              && r[5] == (if kind == Bracketed then ']' else ')')
  {
    match kind
    case Bracketed => "[" + y + "]"
    case Parenthesised => "(" + y + ")"
    case Bare => y
  }

  /** Where the parts of `Title <year>` sit. */
  lemma Layout(title: string, t: string, s: string)
    requires s == title + " " + t
    ensures |s| == |title| + 1 + |t|
    ensures forall i :: 0 <= i < |title| ==> s[i] == title[i]
    ensures s[|title|] == ' '
    ensures forall i :: 0 <= i < |t| ==> s[|title| + 1 + i] == t[i]
    ensures s[..|title|] == title && s[|title| + 1..] == t
  {
  }

  /** A plain title is left alone by the tidying. */
  lemma TidyPlain(title: string)
    requires PlainTitle(title)
    ensures TidyName(title) == title
  {
    var a := ReplaceWithSpace(title, IsDotOrDash);
    assert a == title;
    LStripIdentity(a);
    RStripIdentity(a);
    assert forall c :: c in a ==> NotBracket(c) by {
      forall c | c in a ensures NotBracket(c) {
        var i :| 0 <= i < |a| && a[i] == c;
      }
    }
    KeepAll(a, NotBracket);
    LStripIdentity(a);
  }

  /** `(.+?)` grows from `k` to the first end `e` after which the tail
      matches. */
  lemma {:induction false} LazyEndIs(s: string, i: nat, k: nat, e: nat, kind: YearKind)
    requires i < k <= e <= |s|
    requires forall m :: i <= m < e ==> s[m] != '\n'
    requires forall m :: k <= m < e ==> !TailAt(s, m, kind)
    requires TailAt(s, e, kind)
    ensures LazyEnd(s, i, k, kind) == Some(e)
    decreases e - k
  {
    if k < e {
      LazyEndIs(s, i, k + 1, e, kind);
    }
  }

  /** Inside a plain title no tail can start. */
  lemma NoTailInTitle(title: string, s: string, m: nat, kind: YearKind)
    requires PlainTitle(title) && |title| < |s| && s[..|title|] == title
    requires m < |title|
    ensures !TailAt(s, m, kind)
  {
    var e := |title|;
    var jm := SkipSpaces(s, m);
    assert s[e - 1] == title[e - 1] && !IsSpace(s[e - 1]);
    assert jm <= e - 1;
    assert s[jm] == title[jm];
    assert IsAlpha(s[jm]);
  }

  /** The tail of `kind` starts right after the title and its space. */
  lemma TailAfterTitle(e: nat, y: string, kind: YearKind, s: string)
    requires |y| == 4 && AllDigits(y)
    requires e < |s| && s[e] == ' ' && s[e + 1..] == Tail(kind, y)
    ensures TailAt(s, e, kind) && TailYear(s, e, kind) == y
  {
    var t := Tail(kind, y);
    assert s[e + 1] == t[0];
    assert SkipSpaces(s, e) == e + 1;
    if kind == Bare {
      assert s[e + 1..e + 5] == t;
    } else {
      assert s[e + 1] == t[0] && s[e + 6] == t[5];
      assert s[e + 2..e + 6] == t[1..5];
    }
  }

  /** The pattern of `kind` finds the title and the year in
      `Title <year>`. */
  lemma MatchPlain(title: string, y: string, kind: YearKind, s: string)
    requires PlainTitle(title) && |y| == 4 && AllDigits(y)
    requires |title| < |s| && s[..|title|] == title && s[|title|] == ' ' && s[|title| + 1..] == Tail(kind, y)
    ensures MatchResult(s, kind) == Some((title, y))
  {
    var e: nat := |title|;
    TailAfterTitle(e, y, kind, s);
    forall m | 1 <= m < e ensures !TailAt(s, m, kind) {
      NoTailInTitle(title, s, m, kind);
    }
    forall m | 0 <= m < e ensures s[m] != '\n' {
      assert s[m] == title[m];
    }
    LazyEndIs(s, 0, 1, e, kind);
    assert FirstMatch(s, 0, kind) == Some((0, e));
    TidyPlain(title);
  }

  /** No pattern of `kind` matches where its opening character is missing. */
  lemma NoMatch(s: string, kind: YearKind, open: char)
    requires kind != Bare
    requires open == if kind == Bracketed then '[' else '('
    requires forall i :: 0 <= i < |s| ==> s[i] != open
    ensures MatchResult(s, kind) == None
  {
    forall k | 0 <= k ensures !TailAt(s, k, kind) {
    }
  }

  /** `Title <year>` holds no opening character of another pattern. */
  lemma TitleTailAvoids(title: string, t: string, s: string, kind: YearKind, open: char)
    requires PlainTitle(title)
    requires |s| == |title| + 1 + |t| && s[..|title|] == title && s[|title|] == ' ' && s[|title| + 1..] == t
    requires forall i :: 0 <= i < |t| ==> IsDigit(t[i]) || (kind != Bare && (i == 0 || i == 5))
    requires kind == Parenthesised ==> |t| == 6 && t[0] == '(' && t[5] == ')'
    requires (open == '[' && kind != Bracketed) || (open == '(' && kind == Bare)
    ensures forall i :: 0 <= i < |s| ==> s[i] != open
  {
    forall i | 0 <= i < |s| ensures s[i] != open {
      if i < |title| {
        assert s[i] == title[i];
      } else if i > |title| {
        assert s[i] == t[i - |title| - 1];
      }
    }
  }

  /** `extract_movie_name_and_year` on `Title [YYYY]`, `Title (YYYY)` or
      `Title YYYY` gives back the title and the year. */
  lemma ExtractMovieNameAndYearRoundTrip(title: string, y: string, kind: YearKind)
    requires PlainTitle(title) && |y| == 4 && AllDigits(y)
    ensures ExtractMovieNameAndYear(title + " " + Tail(kind, y)) == Some((title, y))
  {
    var t := Tail(kind, y);
    var s := title + " " + t;
    Layout(title, t, s);
    assert DropNumber(s) == s;
    MatchPlain(title, y, kind, s);
    if kind != Bracketed {
      TitleTailAvoids(title, t, s, kind, '[');
      NoMatch(s, Bracketed, '[');
    }
    if kind == Bare {
      TitleTailAvoids(title, t, s, kind, '(');
      NoMatch(s, Parenthesised, '(');
    }
  }

  // ---------------------------------------------------------------------
  // Existing variations.

  /** The collected partial variations are exactly the partial ones. */
  lemma {:induction false} PartialsMembers(dirs: seq<string>, nq: string)
    ensures forall d :: d in Partials(dirs, nq) <==> d in dirs && PartialVariation(nq, d)
    decreases |dirs|
  {
    if dirs != [] {
      var init := dirs[..|dirs| - 1];
      PartialsMembers(init, nq);
      assert dirs == init + [dirs[|dirs| - 1]];
    }
  }

  /** Where the first name satisfying `p` sits. */
  lemma {:induction false} FirstWithIndex(s: seq<string>, p: string -> bool) returns (i: nat)
    requires FirstWith(s, p).Some?
    ensures i < |s| && s[i] == FirstWith(s, p).value
    ensures forall j :: 0 <= j < i ==> !p(s[j])
    decreases |s|
  {
    if p(s[0]) {
      return 0;
    }
    var k := FirstWithIndex(s[1..], p);
    i := k + 1;
    NoneShift(s, p, i);
  }

  /** A prefix without `p` extends by one element without `p` in front. */
  lemma NoneShift(s: seq<string>, p: string -> bool, i: nat)
    requires 0 < i <= |s| && !p(s[0])
    requires forall j :: 0 <= j < i - 1 ==> !p(s[1..][j])
    ensures forall j :: 0 <= j < i ==> !p(s[j])
  {
    forall j | 0 < j < i ensures !p(s[j]) {
      assert s[j] == s[1..][j - 1];
    }
  }

  /** The first exact variation comes before every other exact one. */
  lemma FirstExactIsFirst(dirs: seq<string>, nq: string, year: Option<nat>)
    requires FirstExact(dirs, nq, year).Some?
    ensures exists i :: 0 <= i < |dirs| && dirs[i] == FirstExact(dirs, nq, year).value &&
                        forall j :: 0 <= j < i ==> !ExactVariation(nq, dirs[j], year)
  {
    var i := FirstWithIndex(dirs, d => ExactVariation(nq, d, year));
  }

  /** What `check_existing_variations` finds is a folder of the walk that
      matches the query exactly or partly, and it finds nothing only when
      no folder matches either way. */
  lemma VariationFound(dirs: seq<string>, name: string, year: Option<nat>)
    ensures var nq := NormalizeQuery(name);
      var r := Variation(dirs, name, year);
      && (r.Some? ==> r.value in dirs && (ExactVariation(nq, r.value, year) || PartialVariation(nq, r.value)))
      && (r.None? <==> forall d :: d in dirs ==> !ExactVariation(nq, d, year) && !PartialVariation(nq, d))
  {
    var nq := NormalizeQuery(name);
    var r := Variation(dirs, name, year);
    PartialsMembers(dirs, nq);
    var ps := Partials(dirs, nq);
    if FirstExact(dirs, nq, year).Some? {
      assert r == FirstExact(dirs, nq, year);
    } else if ps == [] {
      assert r == None;
    } else {
      assert ps[0] in ps;
      assert r == Some(Best(ps, year));
    }
  }

  /** An exact variation always wins, and the first one in walk order is
      returned. */
  lemma VariationPrefersExact(dirs: seq<string>, name: string, year: Option<nat>, d: string)
    requires d in dirs && ExactVariation(NormalizeQuery(name), d, year)
    ensures var nq := NormalizeQuery(name);
      var r := Variation(dirs, name, year);
      && r.Some? && ExactVariation(nq, r.value, year)
      && exists i :: 0 <= i < |dirs| && dirs[i] == r.value &&
                     forall j :: 0 <= j < i ==> !ExactVariation(nq, dirs[j], year)
  {
    FirstExactIsFirst(dirs, NormalizeQuery(name), year);
  }

  /** The walk is top-down: when a folder directly inside the destination
      is an exact variation, the one returned is directly inside it too,
      never one deeper down met earlier in creation order. */
  lemma VariationPrefersTop(t: Tree, destDir: Path, name: string, year: Option<nat>, d: Path)
    requires t.IsDir(destDir)
    requires d in t.Level(destDir, Dirs) && ExactVariation(NormalizeQuery(name), Basename(d), year)
    ensures var r := Variation(DirNames(t, destDir), name, year);
      && r.Some? && ExactVariation(NormalizeQuery(name), r.value, year)
      && exists e :: e in t.Level(destDir, Dirs) && r.value == Basename(e)
  {
    WalkStartsAtTop(t, destDir, Dirs);
    ExactInPrefix(t.Level(destDir, Dirs), t.WalkOf(destDir, Dirs), DirNames(t, destDir), name, year, d);
  }

  /** When the walk starts with `top` and some name of `top` is an exact
      variation, the variation found is a name of `top`. */
  lemma ExactInPrefix(top: seq<Path>, walk: seq<Path>, dirs: seq<string>, name: string, year: Option<nat>, d: Path)
    requires Extends(top, walk) && |dirs| == |walk|
    requires forall i :: 0 <= i < |dirs| ==> dirs[i] == Basename(walk[i])
    requires d in top && ExactVariation(NormalizeQuery(name), Basename(d), year)
    ensures var r := Variation(dirs, name, year);
      && r.Some? && ExactVariation(NormalizeQuery(name), r.value, year)
      && exists e :: e in top && r.value == Basename(e)
  {
    var nq := NormalizeQuery(name);
    var jd :| 0 <= jd < |top| && top[jd] == d;
    ExtendsAt(top, walk, jd);
    var i := FirstWithBefore(dirs, e => ExactVariation(nq, e, year), jd);
    VariationOfExact(dirs, name, year);
    ExtendsAt(top, walk, i);
    assert Variation(dirs, name, year) == Some(dirs[i]);
    assert dirs[i] == Basename(top[i]) && top[i] in top;
  }

  /** The search meets an element satisfying `p` at `j` or before it. */
  lemma {:induction false} FirstWithBefore(s: seq<string>, p: string -> bool, j: nat) returns (i: nat)
    requires j < |s| && p(s[j])
    ensures i <= j && FirstWith(s, p) == Some(s[i])
  {
    if p(s[0]) {
      i := 0;
    } else {
      var i' := FirstWithBefore(s[1..], p, j - 1);
      i := i' + 1;
    }
  }

  lemma ExtendsAt<T>(a: seq<T>, b: seq<T>, i: nat)
    requires Extends(a, b) && i < |a|
    ensures b[i] == a[i]
  {
    assert b[..|a|][i] == b[i];
  }

  /** With an exact variation present, the result is the first one. */
  lemma VariationOfExact(dirs: seq<string>, name: string, year: Option<nat>)
    requires FirstExact(dirs, NormalizeQuery(name), year).Some?
    ensures Variation(dirs, name, year) == FirstExact(dirs, NormalizeQuery(name), year)
  {
  }

  /** Without an exact variation, no partial one is shorter than the
      result, or as long with the year matching where the result's does not. */
  lemma VariationBestPartial(dirs: seq<string>, name: string, year: Option<nat>, d: string)
    requires forall e :: e in dirs ==> !ExactVariation(NormalizeQuery(name), e, year)
    requires d in dirs && PartialVariation(NormalizeQuery(name), d)
    ensures var r := Variation(dirs, name, year);
      r.Some? && !KeyLess(d, r.value, year)
  {
    PartialsMembers(dirs, NormalizeQuery(name));
  }

  // ---------------------------------------------------------------------
  // Title tidying.

  /** A word holds only characters of the title. */
  lemma {:induction false} WordsChars(s: string)
    ensures forall w, c :: w in Words(s) && c in w ==> c in s
    decreases |s|
  {
    if s != [] {
      if !IsWordChar(s[0]) {
        WordsChars(s[1..]);
      } else {
        var n := WordRun(s);
        WordsChars(s[n..]);
        assert forall c :: c in s[n..] ==> c in s;
        assert forall c :: c in s[..n] ==> c in s;
      }
    }
  }

  /** A title without affecting characters has no affected word. */
  lemma {:induction false} NoAffectedWords(words: seq<string>)
    requires forall w, c :: w in words && c in w ==> !Affecting(c)
    ensures CountAffected(words) == 0
    decreases |words|
  {
    if words != [] {
      NoAffectedWords(words[1..]);
    }
  }

  /** With more than four affected words, no affecting character is left. */
  lemma StandardizeReplacesAll(title: string)
    requires CountAffected(Words(title)) > 4
    ensures forall c :: c in StandardizeTitleSpec(title) ==> !Affecting(c)
  {
    var s := Substitute(title);
    assert StandardizeTitleSpec(title) == Squash(s);
    assert !Affecting(' ');
  }

  /** A title already in standard form is left as it is. */
  lemma StandardizeFixed(title: string)
    requires Squashed(title) && forall c :: c in title ==> !Affecting(c)
    ensures StandardizeTitleSpec(title) == title
  {
    NothingAffected(title);
    NoSubstitution(title);
    SquashIdentity(title);
  }

  /** Without enough affected words, the title is only squashed. */
  lemma NoSubstitution(title: string)
    requires CountAffected(Words(title)) <= 4
    ensures StandardizeTitleSpec(title) == Squash(title)
  {
  }

  /** A title without affecting characters has no affected word. */
  lemma NothingAffected(title: string)
    requires forall c :: c in title ==> !Affecting(c)
    ensures CountAffected(Words(title)) == 0
  {
    var words := Words(title);
    WordsChars(title);
    forall w, c | w in words && c in w ensures !Affecting(c) {
      assert c in title;
    }
    NoAffectedWords(words);
  }

  /** Standardising a standardised title changes nothing when the first
      pass substituted. */
  lemma StandardizeIdempotentWhenSubstituted(title: string)
    requires CountAffected(Words(title)) > 4
    ensures StandardizeTitleSpec(StandardizeTitleSpec(title)) == StandardizeTitleSpec(title)
  {
    StandardizeReplacesAll(title);
    StandardizeFixed(StandardizeTitleSpec(title));
  }

  // ---------------------------------------------------------------------
  // Genre names.

  /** A word that occurs nowhere as a whole word is not removed. */
  lemma {:induction false} RemoveWordFromNone(s: string, w: string, i: nat)
    requires i <= |s|
    requires forall k :: i <= k < |s| ==> !WholeWordAt(s, w, k)
    ensures RemoveWordFrom(s, w, i) == s[i..]
    decreases |s| - i
  {
    if i < |s| {
      RemoveWordFromNone(s, w, i + 1);
      assert s[i..] == [s[i]] + s[i + 1..];
    }
  }

  /** Without any genre as a whole word, the query is only re-spaced. */
  lemma {:induction false} RemoveAllNone(s: string, genres: seq<string>)
    requires forall g, k :: g in genres && 0 <= k < |s| ==> !WholeWordAt(s, g, k)
    ensures RemoveAll(s, genres) == s
    decreases |genres|
  {
    if genres != [] {
      RemoveWordFromNone(s, genres[0], 0);
      assert RemoveWord(s, genres[0]) == s;
      RemoveAllNone(s, genres[1..]);
    }
  }

  /** `remove_genre_names` leaves a query naming no genre as it is, up to
      whitespace. */
  lemma RemoveGenreNamesNone(query: string)
    requires forall g, k :: g in Genres && 0 <= k < |query| ==> !WholeWordAt(query, g, k)
    ensures Squash(RemoveAll(query, Genres)) == Squash(query)
  {
    RemoveAllNone(query, Genres);
  }
}
