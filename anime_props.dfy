/** Properties of the anime processor: what `is_anime_file` accepts, what
    cleaning leaves, how the patterns are chosen, and the two places where
    the groups the source reads are not the ones its patterns capture. */
module AnimeProps {
  import opened Text
  import opened Wrappers
  import opened FileTree
  import opened Anime
  import FileUtils
  import LibraryProps

  // ---------------------------------------------------------------------
  // `is_anime_file`.

  lemma LowerConcat(a: string, b: string)
    ensures Lower(a + b) == Lower(a) + Lower(b)
  {
    var l := Lower(a + b);
    var r := Lower(a) + Lower(b);
    forall i | 0 <= i < |a| ensures l[i] == r[i] {
      assert (a + b)[i] == a[i];
    }
    forall i | |a| <= i < |l| ensures l[i] == r[i] {
      assert (a + b)[i] == b[i - |a|];
    }
  }

  /** Every `.mkv` or `.mp4` file, whatever its name, is taken for anime. */
  lemma VideoFilesAreAnime(n: string, ext: string)
    requires Lower(ext) == ".mkv" || Lower(ext) == ".mp4"
    ensures IsAnimeFile(n + ext)
  {
    LowerConcat(n, ext);
    var l := Lower(n) + Lower(ext);
    assert l[|l| - |Lower(ext)|..] == Lower(ext);
  }

  // ---------------------------------------------------------------------
  // Cleaning.

  lemma NoGroupSlice(s: string, a: nat, b: nat, o: char, c: char)
    requires NoGroup(s, o, c) && a <= b <= |s|
    ensures NoGroup(s[a..b], o, c)
  {
    var t := s[a..b];
    forall i, j | 0 <= i < j < |t| && t[i] == o ensures t[j] != c {
      assert t[i] == s[a + i] && t[j] == s[a + j];
    }
  }

  lemma NoGroupCons(x: char, r: string, o: char, c: char)
    requires NoGroup(r, o, c) && (x == o ==> c !in r)
    ensures NoGroup([x] + r, o, c)
  {
    var t := [x] + r;
    forall i, j | 0 <= i < j < |t| && t[i] == o ensures t[j] != c {
      assert t[j] == r[j - 1];
      if i > 0 { assert t[i] == r[i - 1]; }
    }
  }

  lemma {:induction false} NoGroupCollapse(s: string, o: char, c: char)
    requires NoGroup(s, o, c) && !IsSpace(o) && !IsSpace(c)
    ensures NoGroup(CollapseSpaces(s), o, c)
    decreases |s|
  {
    if s == [] {
    } else if IsSpace(s[0]) {
      var t := LStrip(s[1..]);
      assert t == s[|s| - |t|..];
      NoGroupSlice(s, |s| - |t|, |s|, o, c);
      NoGroupCollapse(t, o, c);
      NoGroupCons(' ', CollapseSpaces(t), o, c);
    } else {
      NoGroupSlice(s, 1, |s|, o, c);
      NoGroupCollapse(s[1..], o, c);
      var r := CollapseSpaces(s[1..]);
      if s[0] == o {
        assert forall k :: 0 <= k < |s[1..]| ==> s[1..][k] == s[k + 1];
        assert c !in s[1..];
      }
      NoGroupCons(s[0], r, o, c);
    }
  }

  /** The cleaned name has single blanks, none at either end, and no
      bracketed group left in it. */
  lemma CleanSquashed(f: string)
    ensures Squashed(Clean(f))
    ensures NoGroup(Clean(f), '[', ']')
  {
    var a := DropLeadingTag(f);
    var b := DropGroups(a, '[', ']');
    var c := DropGroups(b, '(', ')');
    var d := SplitExt(c).0;
    var e := DropGroups(d, '[', ']');
    SquashSquashed(e);
    NoGroupCollapse(e, '[', ']');
    var col := CollapseSpaces(e);
    var l := LStrip(col);
    NoGroupSlice(col, |col| - |l|, |col|, '[', ']');
    var r := RStrip(l);
    NoGroupSlice(l, 0, |r|, '[', ']');
  }

  lemma {:induction false} DropGroupsNone(s: string, o: char, c: char)
    requires o != c && o !in s
    ensures DropGroups(s, o, c) == s
    decreases |s|
  {
    if s != [] {
      assert s[1..] == s[1..] && o !in s[1..];
      DropGroupsNone(s[1..], o, c);
    }
  }

  /** A name with no tags, no parenthesised groups and no directory loses
      exactly its extension and has its blanks squashed. */
  lemma CleanDropsExtension(n: string, ext: string)
    requires '[' !in n + ext && '(' !in n + ext && '/' !in n + ext
    requires ext != [] && ext[0] == '.' && '.' !in ext[1..]
    requires exists k :: 0 <= k < |n| && n[k] != '.'
    ensures Clean(n + ext) == Squash(n)
  {
    var f := n + ext;
    CleanFront(f);
    RootOfPlainName(n, ext);
    assert '[' !in n by { assert forall k :: 0 <= k < |n| ==> n[k] == f[k]; }
    DropGroupsNone(n, '[', ']');
  }

  /** Without `[` or `(` the tag and group removals leave a name alone. */
  lemma CleanFront(f: string)
    requires '[' !in f && '(' !in f
    ensures DropGroups(DropGroups(DropLeadingTag(f), '[', ']'), '(', ')') == f
  {
    assert f == [] || f[0] != '[';
    assert DropLeadingTag(f) == f;
    DropGroupsNone(f, '[', ']');
    DropGroupsNone(f, '(', ')');
  }

  /** `n + ext`, one component with a single-dot extension after a root
      that is not all dots, splits into `n` and `ext`. */
  lemma RootOfPlainName(n: string, ext: string)
    requires '/' !in n + ext
    requires ext != [] && ext[0] == '.' && '.' !in ext[1..]
    requires exists k :: 0 <= k < |n| && n[k] != '.'
    ensures SplitExt(n + ext).0 == n
  {
    var f := n + ext;
    assert SplitPoint(f) == 0;
    assert f[|n|] == '.';
    assert forall k :: |n| < k < |f| ==> f[k] == ext[1..][k - |n| - 1];
    assert LastDot(f) == Some(|n|);
    var k :| 0 <= k < |n| && n[k] != '.';
    assert f[k] != '.';
    assert ExtStart(f) == |n|;
  }


  /** A name of letters, digits and blanks, with a letter or digit in it,
      loses `.mkv` and has its blanks squashed. */
  lemma CleanPlainName(n: string)
    requires forall i :: 0 <= i < |n| ==> IsAlnum(n[i]) || n[i] == ' '
    requires exists i :: 0 <= i < |n| && IsAlnum(n[i])
    ensures Clean(n + ".mkv") == Squash(n)
  {
    var f := n + ".mkv";
    assert forall i :: 0 <= i < |f| ==> f[i] != '[' && f[i] != '(' && f[i] != '/' by {
      forall i | 0 <= i < |f| ensures f[i] != '[' && f[i] != '(' && f[i] != '/' {
        if i < |n| { assert f[i] == n[i]; } else { assert f[i] == ".mkv"[i - |n|]; }
      }
    }
    var i :| 0 <= i < |n| && IsAlnum(n[i]);
    assert n[i] != '.';
    CleanDropsExtension(n, ".mkv");
  }

  // ---------------------------------------------------------------------
  // Pattern choice.

  /** The name group is lazy: no shorter name lets the rest match. */
  lemma {:induction false} ShortestName(s: string, rest: nat -> Option<Captures>, k: nat)
    requires 1 <= k
    ensures LazyName(s, rest, k).Some? ==>
              forall n :: k <= n < |LazyName(s, rest, k).value.name| ==> rest(n).None?
    ensures LazyName(s, rest, k).None? ==> forall n :: k <= n < |s| ==> rest(n).None?
    decreases |s| - k
  {
    if k < |s| && rest(k).None? {
      ShortestName(s, rest, k + 1);
    }
  }

  /** For the patterns: the name `re.match` reports is the shortest one. */
  lemma ShortestShowName(s: string, p: nat)
    ensures Match(s, p).Some? ==>
              forall n :: 1 <= n < |Match(s, p).value.name| ==> RestAfter(s, p, n).None?
    ensures Match(s, p).None? ==> forall n :: 1 <= n < |s| ==> RestAfter(s, p, n).None?
  {
    var rest := (k: nat) => RestAfter(s, p, k);
    ShortestName(s, rest, 1);
    assert forall n: nat :: rest(n) == RestAfter(s, p, n);
  }

  /** The scan over the patterns stops at the first one that matches. */
  lemma FirstMatchIs(s: string, p: nat)
    requires 1 <= p <= 6 && Match(s, p).Some?
    requires forall q :: 1 <= q < p ==> Match(s, q).None?
    ensures FirstMatch(s, 1) == Some((p, Match(s, p).value))
  {
    var r := FirstMatch(s, 1);
    assert r.Some?;
    assert r.value.0 == p;
  }

  /** The first pattern that matches the cleaned name decides the result. */
  lemma FirstMatchWins(f: string, s: string, p: nat)
    requires Clean(f) == s
    requires 1 <= p <= 6 && Match(s, p).Some?
    requires forall q :: 1 <= q < p ==> Match(s, q).None?
    ensures ExtractEpisodeInfoAsWritten(f) == Some(InfoAsWritten(p, Match(s, p).value))
    ensures ExtractEpisodeInfo(f) == Some(Info(p, Match(s, p).value))
  {
    FirstMatchIs(s, p);
  }

  lemma RestSixNeedsGroup(s: string, k: nat)
    requires k <= |s| && NoGroup(s, '[', ']')
    ensures RestAfter(s, 6, k).None?
  {
    var j := k + SpaceRun(s, k);
    var n := DigitRun(s, j + 1);
    assert j < j + 1 + n;
  }

  /** Pattern 6 (`[NN]`) never matches: cleaning has already removed every
      bracketed group. */
  lemma PatternSixNeverMatches(f: string)
    ensures Match(Clean(f), 6).None?
  {
    var s := Clean(f);
    CleanSquashed(f);
    forall k: nat | k <= |s| ensures RestAfter(s, 6, k).None? {
      RestSixNeedsGroup(s, k);
    }
  }

  // ---------------------------------------------------------------------
  // Names for which the first patterns cannot match.

  /** Letters and blanks up to `m`, the last of them a blank; then digits and `x`. */
  predicate Plain(s: string, m: nat) {
    && 1 <= m <= |s| && s[m - 1] == ' '
    && (forall i :: 0 <= i < m ==> IsAlpha(s[i]) || s[i] == ' ')
    && (forall i :: m <= i < |s| ==> IsDigit(s[i]) || LowerChar(s[i]) == 'x')
  }

  lemma NoDigitRun(s: string, i: nat)
    requires i < |s| && !IsDigit(s[i])
    ensures DigitRun(s, i) == 0
  {
  }

  lemma EarlyRestsFail(s: string, m: nat, k: nat)
    requires Plain(s, m) && k <= |s|
    ensures RestAfter(s, 1, k).None? && RestAfter(s, 2, k).None? && RestAfter(s, 3, k).None?
  {
    var j := k + SpaceRun(s, k);
    EarlyRestsFailAt(s, m, j);
  }

  lemma EarlyRestsFailAt(s: string, m: nat, j: nat)
    requires Plain(s, m) && j <= |s|
    ensures RestOne(s, j).None? && RestTwo(s, j).None? && RestThree(s, j).None?
  {
    PlainNoDash(s, m, j);
    if LetterAt(s, j, 's') {
      PlainLetterS(s, m, j);
      NoDigitRun(s, j + 1);
    }
  }

  /** In a plain name an `S` sits among the letters, before the last blank. */
  lemma PlainLetterS(s: string, m: nat, j: nat)
    requires Plain(s, m) && LetterAt(s, j, 's')
    ensures j + 1 < m && !IsDigit(s[j + 1])
  {
    assert j < m;
    assert j != m - 1;
  }

  /** A plain name has no dash. */
  lemma PlainNoDash(s: string, m: nat, j: nat)
    requires Plain(s, m)
    ensures j < |s| ==> s[j] != '-'
  {
  }

  /** Patterns 1 to 3 need an `S` before a digit or a dash; a plain name has neither. */
  lemma EarlyPatternsFail(s: string, m: nat)
    requires Plain(s, m)
    ensures forall p :: 1 <= p <= 3 ==> Match(s, p).None?
  {
    forall k: nat | k <= |s| ensures RestAfter(s, 1, k).None? && RestAfter(s, 2, k).None? && RestAfter(s, 3, k).None? {
      EarlyRestsFail(s, m, k);
    }
  }

  lemma DigitsToEnd(s: string, m: nat, j: nat)
    requires m <= j <= |s| && forall i :: m <= i < |s| ==> IsDigit(s[i])
    ensures j + DigitRun(s, j) == |s|
    decreases |s| - j
  {
    if j < |s| { DigitsToEnd(s, m, j + 1); }
  }

  /** Pattern 4 needs an `x` after digits; digits that end the name have none. */
  lemma PatternFourFails(s: string, m: nat)
    requires Plain(s, m) && forall i :: m <= i < |s| ==> IsDigit(s[i])
    ensures Match(s, 4).None?
  {
    forall k: nat | k <= |s| ensures RestAfter(s, 4, k).None? {
      var j := k + SpaceRun(s, k);
      if j < m {
        if j < |s| { NoDigitRun(s, j); }
      } else {
        DigitsToEnd(s, m, j);
      }
    }
  }

  lemma OneLetterName(c: char, g2: Option<string>, g3: Option<string>, g4: Option<string>)
    requires IsAlpha(c)
    ensures ShowNameOf(Captures([c], g2, g3, g4)) == [c]
  {
    assert !IsSpace(c) && !FileUtils.IsSeparator(c);
    assert LStrip([c]) == [c] && RStrip([c]) == [c];
    assert Strip([c]) == [c];
    var a := ReplaceWithSpace([c], FileUtils.IsSeparator);
    assert a[0] == c;
    assert a == [c];
  }

  // ---------------------------------------------------------------------
  // Finding: pattern 4 (`NxM`) reads the season as the episode and the
  // episode as the title.

  /** A name whose only blank is at `i`, inside it, is squashed. */
  lemma OneBlankSquashed(s: string, i: nat)
    requires 0 < i < |s| - 1 && s[i] == ' '
    requires forall k :: 0 <= k < |s| && k != i ==> IsAlnum(s[k])
    ensures Squashed(s)
  {
  }

  /** A name whose only blanks are at `i` and `j`, apart and inside it, is squashed. */
  lemma TwoBlanksSquashed(s: string, i: nat, j: nat)
    requires 0 < i && i + 1 < j < |s| - 1 && s[i] == ' ' && s[j] == ' '
    requires forall k :: 0 <= k < |s| && k != i && k != j ==> IsAlnum(s[k])
    ensures Squashed(s)
  {
  }

  /** The name `c a x b`: where its parts sit. */
  lemma FourLayout(c: char, a: string, b: string)
    requires IsAlpha(c) && a != [] && b != [] && AllDigits(a) && AllDigits(b)
    ensures var s := [c] + " " + a + "x" + b;
      && s[0] == c && s[1] == ' ' && s[2 + |a|] == 'x'
      && s[2..2 + |a|] == a && s[3 + |a|..] == b && s[..1] == [c]
      && (forall i :: 2 <= i < 2 + |a| ==> IsDigit(s[i]))
      && (forall i :: 3 + |a| <= i < |s| ==> IsDigit(s[i]))
      && (forall i :: 0 <= i < |s| && i != 1 ==> IsAlnum(s[i]))
  {
    var s := [c] + " " + a + "x" + b;
    assert forall i :: 2 <= i < 2 + |a| ==> s[i] == a[i - 2];
    assert forall i :: 3 + |a| <= i < |s| ==> s[i] == b[i - 3 - |a|];
  }

  /** The name `c a x b` is letters and digits around one inner blank. */
  lemma FourAlnum(c: char, a: string, b: string, s: string)
    requires IsAlpha(c) && a != [] && b != [] && AllDigits(a) && AllDigits(b)
    requires s == [c] + " " + a + "x" + b
    ensures |s| >= 5 && s[1] == ' ' && IsAlnum(s[0])
    ensures forall i :: 0 <= i < |s| && i != 1 ==> IsAlnum(s[i])
  {
    assert forall i :: 2 <= i < 2 + |a| ==> s[i] == a[i - 2];
    assert forall i :: 3 + |a| <= i < |s| ==> s[i] == b[i - 3 - |a|];
  }

  lemma FourClean(c: char, a: string, b: string, s: string)
    requires IsAlpha(c) && a != [] && b != [] && AllDigits(a) && AllDigits(b)
    requires s == [c] + " " + a + "x" + b
    ensures Clean(s + ".mkv") == s
  {
    FourAlnum(c, a, b, s);
    CleanPlainName(s);
    OneBlankSquashed(s, 1);
    SquashIdentity(s);
  }

  lemma FourPlain(c: char, a: string, b: string, s: string)
    requires IsAlpha(c) && a != [] && b != [] && AllDigits(a) && AllDigits(b)
    requires s == [c] + " " + a + "x" + b
    ensures Plain(s, 2)
  {
    FourLayout(c, a, b);
  }

  /** When the rest of pattern `p` matches after the first character and
      its blanks, the lazy name is that one character. */
  lemma MatchAtOne(s: string, p: nat, cap: Captures)
    requires 1 < |s| && RestAfter(s, p, 1) == Some(cap)
    ensures Match(s, p) == Some(cap.(name := s[..1]))
  {
  }

  /** After `c ` the rest of pattern 4 reads `a x b` to the end. */
  lemma FourRest(c: char, a: string, b: string)
    requires IsAlpha(c) && a != [] && b != [] && AllDigits(a) && AllDigits(b)
    ensures var s := [c] + " " + a + "x" + b;
      SpaceRun(s, 1) == 1 && RestFour(s, 2) == Some(Captures("", Some(a), Some(b), None))
  {
    var s := [c] + " " + a + "x" + b;
    FourLayout(c, a, b);
    RunOfDigits([c] + " " + a, "x" + b, 2);
    assert [c] + " " + a + ("x" + b) == s;
    RunOfDigits(s, [], 3 + |a|);
    assert s + [] == s;
    assert SpaceRun(s, 2) == 0;
  }

  lemma FourMatch(c: char, a: string, b: string)
    requires IsAlpha(c) && a != [] && b != [] && AllDigits(a) && AllDigits(b)
    ensures Match([c] + " " + a + "x" + b, 4) == Some(Captures([c], Some(a), Some(b), None))
  {
    var s := [c] + " " + a + "x" + b;
    FourRest(c, a, b);
    assert RestAfter(s, 4, 1) == Some(Captures("", Some(a), Some(b), None));
    MatchAtOne(s, 4, Captures("", Some(a), Some(b), None));
    assert s[..1] == [c];
  }

  /** As written, patterns 4 to 6 all read the episode from group 2 and
      the title from group 3, and give no season. */
  lemma LateGroups(p: nat, c: Captures)
    requires 4 <= p <= 6 && Shaped(p, c)
    ensures InfoAsWritten(p, c) == EpisodeInfo(ShowNameOf(c), c.g2, None, c.g3)
  {
  }

  lemma FourInfo(c: char, a: string, b: string)
    requires IsAlpha(c) && a != [] && b != [] && AllDigits(a) && AllDigits(b)
    ensures InfoAsWritten(4, Captures([c], Some(a), Some(b), None))
              == EpisodeInfo([c], Some(a), None, Some(b))
    ensures Info(4, Captures([c], Some(a), Some(b), None))
              == EpisodeInfo([c], Some(b), Some(ZFill(a, 2)), None)
  {
    var cap := Captures([c], Some(a), Some(b), None);
    LateGroups(4, cap);
    OneLetterName(c, Some(a), Some(b), None);
  }

  /** On `c a x b` pattern 4 is the first to match. */
  lemma FourFirst(c: char, a: string, b: string, s: string)
    requires IsAlpha(c) && a != [] && b != [] && AllDigits(a) && AllDigits(b)
    requires s == [c] + " " + a + "x" + b
    ensures Clean(s + ".mkv") == s
    ensures Match(s, 4) == Some(Captures([c], Some(a), Some(b), None))
    ensures forall q :: 1 <= q < 4 ==> Match(s, q).None?
  {
    FourClean(c, a, b, s);
    FourPlain(c, a, b, s);
    EarlyPatternsFail(s, 2);
    FourMatch(c, a, b);
  }

  /** `"A 1x2.mkv"` and its like, as written: the episode is the season
      number and the title is the episode number. */
  lemma PatternFourAsWritten(c: char, a: string, b: string)
    requires IsAlpha(c) && a != [] && b != [] && AllDigits(a) && AllDigits(b)
    ensures ExtractEpisodeInfoAsWritten([c] + " " + a + "x" + b + ".mkv")
              == Some(EpisodeInfo([c], Some(a), None, Some(b)))
  {
    var s := [c] + " " + a + "x" + b;
    FourFirst(c, a, b, s);
    FirstMatchWins(s + ".mkv", s, 4);
    FourInfo(c, a, b);
  }

  /** The same names, corrected: the season is padded, the episode is the
      number after `x`, and there is no title. */
  lemma PatternFourCorrected(c: char, a: string, b: string)
    requires IsAlpha(c) && a != [] && b != [] && AllDigits(a) && AllDigits(b)
    ensures ExtractEpisodeInfo([c] + " " + a + "x" + b + ".mkv")
              == Some(EpisodeInfo([c], Some(b), Some(ZFill(a, 2)), None))
  {
    var s := [c] + " " + a + "x" + b;
    FourFirst(c, a, b, s);
    FirstMatchWins(s + ".mkv", s, 4);
    FourInfo(c, a, b);
  }

  // ---------------------------------------------------------------------
  // Finding: pattern 5's `Episode N` alternative leaves the episode empty
  // and returns the number as the title.

  /** The name `c Episode d`: where its parts sit. */
  lemma EpisodeLayout(c: char, d: string)
    requires IsAlpha(c) && d != [] && AllDigits(d)
    ensures var s := [c] + " Episode " + d;
      && s[0] == c && s[..10] == [c] + " Episode " && s[10..] == d && s[..1] == [c]
      && (forall i :: 10 <= i < |s| ==> IsDigit(s[i]))
      && (forall i :: 0 <= i < |s| && i != 1 && i != 9 ==> IsAlnum(s[i]))
      && s[1] == ' ' && s[9] == ' '
  {
    var s := [c] + " Episode " + d;
    assert forall i :: 10 <= i < |s| ==> s[i] == d[i - 10];
  }

  /** The name `c Episode d` is letters and digits around two inner blanks. */
  lemma EpisodeAlnum(c: char, d: string, s: string)
    requires IsAlpha(c) && d != [] && AllDigits(d)
    requires s == [c] + " Episode " + d
    ensures |s| >= 11 && s[1] == ' ' && s[9] == ' ' && IsAlnum(s[0])
    ensures forall i :: 0 <= i < |s| && i != 1 && i != 9 ==> IsAlnum(s[i])
  {
    assert forall i :: 10 <= i < |s| ==> s[i] == d[i - 10];
  }

  lemma EpisodeClean(c: char, d: string, s: string)
    requires IsAlpha(c) && d != [] && AllDigits(d)
    requires s == [c] + " Episode " + d
    ensures Clean(s + ".mkv") == s
  {
    EpisodeAlnum(c, d, s);
    CleanPlainName(s);
    TwoBlanksSquashed(s, 1, 9);
    SquashIdentity(s);
  }

  lemma EpisodePlain(c: char, d: string, s: string)
    requires IsAlpha(c) && d != [] && AllDigits(d)
    requires s == [c] + " Episode " + d
    ensures Plain(s, 10)
  {
    EpisodeLayout(c, d);
  }

  /** After `c ` the rest of pattern 5 fails on `Ep` and reads `Episode d`
      to the end. */
  lemma EpisodeRest(c: char, d: string)
    requires IsAlpha(c) && d != [] && AllDigits(d)
    ensures var s := [c] + " Episode " + d;
      SpaceRun(s, 1) == 1 && RestFive(s, 2) == Some(Captures("", None, Some(d), None))
  {
    var s := [c] + " Episode " + d;
    EpisodeLayout(c, d);
    assert s[4] == 'i';
    assert WordAt(s, 2, "episode");
    assert SpaceRun(s, 10) == 0;
    RestFiveByWord(s, 2);
  }

  /** Pattern 5 at `j` on the word `episode`, one blank and digits to the
      end: the first alternative finds no digits after `Ep`, the second
      takes them all. */
  lemma RestFiveByWord(s: string, j: nat)
    requires j + 8 < |s| && WordAt(s, j, "episode") && s[j + 2] == 'i'
    requires SpaceRun(s, j + 7) == 1
    requires forall k :: j + 8 <= k < |s| ==> IsDigit(s[k])
    ensures RestFive(s, j) == Some(Captures("", None, Some(s[j + 8..]), None))
  {
    assert SpaceRun(s, j + 2) == 0;
    NoDigitRun(s, j + 2);
    DigitRunToEnd(s, j + 8);
    assert SpaceRun(s, |s|) == 0;
    assert TitleTail(s, |s|) == Some(None);
    assert DigitsAt(s, j + 8) == s[j + 8..];
  }

  lemma DigitRunToEnd(s: string, i: nat)
    requires i <= |s| && forall k :: i <= k < |s| ==> IsDigit(s[k])
    ensures DigitRun(s, i) == |s| - i
  {
    RunOfDigits(s, [], i);
    assert s + [] == s;
  }

  lemma EpisodeMatch(c: char, d: string)
    requires IsAlpha(c) && d != [] && AllDigits(d)
    ensures Match([c] + " Episode " + d, 5) == Some(Captures([c], None, Some(d), None))
  {
    var s := [c] + " Episode " + d;
    EpisodeRest(c, d);
    assert RestAfter(s, 5, 1) == Some(Captures("", None, Some(d), None));
    MatchAtOne(s, 5, Captures("", None, Some(d), None));
    assert s[..1] == [c];
  }

  lemma EpisodeInfoOf(c: char, d: string)
    requires IsAlpha(c) && d != [] && AllDigits(d)
    ensures InfoAsWritten(5, Captures([c], None, Some(d), None))
              == EpisodeInfo([c], None, None, Some(d))
    ensures Info(5, Captures([c], None, Some(d), None))
              == EpisodeInfo([c], Some(d), None, None)
  {
    var cap := Captures([c], None, Some(d), None);
    LateGroups(5, cap);
    OneLetterName(c, None, Some(d), None);
  }

  lemma EpisodeEarly(c: char, d: string, s: string)
    requires IsAlpha(c) && d != [] && AllDigits(d)
    requires s == [c] + " Episode " + d
    ensures forall q :: 1 <= q < 5 ==> Match(s, q).None?
  {
    EpisodePlain(c, d, s);
    EpisodeLayout(c, d);
    EarlyPatternsFail(s, 10);
    PatternFourFails(s, 10);
  }

  /** On `c Episode d` pattern 5 is the first to match. */
  lemma EpisodeFirst(c: char, d: string, s: string)
    requires IsAlpha(c) && d != [] && AllDigits(d)
    requires s == [c] + " Episode " + d
    ensures Clean(s + ".mkv") == s
    ensures Match(s, 5) == Some(Captures([c], None, Some(d), None))
    ensures forall q :: 1 <= q < 5 ==> Match(s, q).None?
  {
    EpisodeClean(c, d, s);
    EpisodeEarly(c, d, s);
    EpisodeMatch(c, d);
  }

  /** `"A Episode 5.mkv"` and its like, as written: no episode, and the
      number as the title. */
  lemma EpisodeWordAsWritten(c: char, d: string)
    requires IsAlpha(c) && d != [] && AllDigits(d)
    ensures ExtractEpisodeInfoAsWritten([c] + " Episode " + d + ".mkv")
              == Some(EpisodeInfo([c], None, None, Some(d)))
  {
    var s := [c] + " Episode " + d;
    EpisodeFirst(c, d, s);
    FirstMatchWins(s + ".mkv", s, 5);
    EpisodeInfoOf(c, d);
  }

  /** The same names, corrected: the number is the episode. */
  lemma EpisodeWordCorrected(c: char, d: string)
    requires IsAlpha(c) && d != [] && AllDigits(d)
    ensures ExtractEpisodeInfo([c] + " Episode " + d + ".mkv")
              == Some(EpisodeInfo([c], Some(d), None, None))
  {
    var s := [c] + " Episode " + d;
    EpisodeFirst(c, d, s);
    FirstMatchWins(s + ".mkv", s, 5);
    EpisodeInfoOf(c, d);
  }

  // ---------------------------------------------------------------------
  // `process_anime_show`: the TMDb id and the folder name.

  lemma {:induction false} TrailingDigitsOf(x: string, id: string)
    requires (x == [] || !IsDigit(x[|x| - 1])) && AllDigits(id)
    ensures TrailingDigits(x + id) == |id|
    decreases |id|
  {
    if id != [] {
      assert (x + id)[..|x + id| - 1] == x + id[..|id| - 1];
      TrailingDigitsOf(x, id[..|id| - 1]);
    } else {
      assert x + id == x;
    }
  }

  /** The id `search_tv_show` appends is the id read back. */
  lemma TmdbIdRoundTrip(n: string, id: string)
    requires id != [] && AllDigits(id)
    ensures TmdbIdOf(n + " {tmdb-" + id + "}") == Some(id)
  {
    var name := n + " {tmdb-" + id + "}";
    var body := name[..|name| - 1];
    assert body == (n + " {tmdb-") + id;
    TrailingDigitsOf(n + " {tmdb-", id);
    assert body[..|body| - |id|] == n + " {tmdb-";
    assert body[|body| - |id|..] == id;
  }

  lemma {:induction false} DropTrailingTagAt(s: string, tags: set<string>, i: nat, t: nat)
    requires i <= t < |s| && TagAt(s, t, tags)
    requires forall k :: i <= k < t ==> !TagAt(s, k, tags)
    ensures DropTrailingTag(s, tags, i) == s[..t]
    decreases t - i
  {
    if i < t { DropTrailingTagAt(s, tags, i + 1, t); }
  }

  /** Without TMDb folder ids the `{tmdb-…}` tag comes off the folder name. */
  lemma FolderNameDropsId(n: string, id: string, imdbFolder: bool)
    requires '{' !in n
    ensures FolderName(n + " {tmdb-" + id + "}", false, imdbFolder) == n
  {
    var s := n + " {tmdb-" + id + "}";
    var tags := if imdbFolder then {TmdbTag} else {TmdbTag, ImdbTag};
    assert s[|n|..|n| + 7] == TmdbTag;
    assert TagAt(s, |n|, tags);
    forall k | 0 <= k < |n| ensures !TagAt(s, k, tags) {
      if k + 1 < |n| { assert s[k + 1] == n[k + 1]; } else { assert s[k + 1] == ' '; }
      assert k + 8 <= |s| ==> s[k..k + 7][1] == s[k + 1];
    }
    DropTrailingTagAt(s, tags, 0, |n|);
    assert s[..|n|] == n;
  }

  // ---------------------------------------------------------------------
  // `process_anime_show`: the new name.

  /** The parts of the anime link name: `show - Sxx E`, the episode padded
      to three characters, ` - title` when there is a title, and the
      extension. An episode of one to three digits gives a three-digit
      field with the episode's value. */
  lemma AnimeFileNameEpisode(show: string, season: string, e: string, title: string, file: string)
    requires e != [] && |e| <= 3 && AllDigits(e)
    ensures AnimeFileName(show, season, Some(e), title, file)
            == AnimeHead(show, season) + (ZFill(e, 3) + TitlePart(title)) + SplitExt(file).1
    ensures |ZFill(e, 3)| == 3 && AllDigits(ZFill(e, 3)) && DigitsValue(ZFill(e, 3)) == DigitsValue(e)
  {
    ZFillValue(e, 3);
  }

  /** Zero-filling a digit string keeps it a digit string of the same value. */
  lemma ZFillValue(e: string, n: nat)
    requires |e| <= n && AllDigits(e)
    ensures AllDigits(ZFill(e, n)) && DigitsValue(ZFill(e, n)) == DigitsValue(e)
  {
    if |e| < n {
      assert ZFill(e, n) == seq(n - |e|, _ => '0') + e;
      LibraryProps.DigitsValueZeros(n - |e|, e);
    }
  }
}
