/** Properties of the `Scripts/library.py` model: name normalisation,
    the resolution folders, episode identifiers and season folders, and
    the link decisions of `process_file`. */
module LibraryProps {
  import opened Text
  import opened Wrappers
  import opened FileTree
  import FileUtils
  import opened Library

  // ---------------------------------------------------------------------
  // `normalize_name`.

  lemma {:induction false} DropParenYearsPlain(a: string, b: string)
    requires '(' !in a
    ensures DropParenYears(a + b) == a + DropParenYears(b)
    decreases |a|
  {
    if a != [] {
      assert (a + b)[0] == a[0] && a[0] in a;
      assert (a + b)[1..] == a[1..] + b;
      assert forall c :: c in a[1..] ==> c in a;
      DropParenYearsPlain(a[1..], b);
    } else {
      assert a + b == b;
    }
  }

  lemma DropParenYearsNone(a: string)
    requires '(' !in a
    ensures DropParenYears(a) == a
  {
    DropParenYearsPlain(a, []);
    assert a + [] == a;
  }

  /** `normalize_name` is idempotent. */
  lemma NormalizeNameIdempotent(name: string)
    ensures NormalizeName(NormalizeName(name)) == NormalizeName(name)
  {
    var r := NormalizeName(name);
    NormalizedStages(r);
  }

  /** Each stage of `normalize_name` leaves a normalised name as it is. */
  lemma NormalizedStages(r: string)
    requires Squashed(r)
    requires forall i :: 0 <= i < |r| ==> IsLower(r[i]) || IsDigit(r[i]) || r[i] == ' '
    ensures NormalizeName(r) == r
  {
    calc {
      NormalizeName(r);
    == { FrontStagesKeep(r); NormalizeNameFrom(r, r); }
      Lower(Squash(r));
    == { SquashIdentity(r); }
      Lower(r);
    == { LowerOfNormal(r); }
      r;
    }
  }

  lemma LowerOfNormal(r: string)
    requires forall i :: 0 <= i < |r| ==> IsLower(r[i]) || IsDigit(r[i]) || r[i] == ' '
    ensures Lower(r) == r
  {
    LowerIdentity(r);
  }

  /** The stages before the squash leave a normalised name as it is. */
  lemma FrontStagesKeep(r: string)
    requires Squashed(r)
    requires forall i :: 0 <= i < |r| ==> IsLower(r[i]) || IsDigit(r[i]) || r[i] == ' '
    ensures Keep(Strip(DropParenYears(r)), NameChar) == r
  {
    NormalizedChars(r);
    DropParenYearsNone(r);
    StripSquashed(r);
    KeepAll(r, NameChar);
  }

  /** `normalize_name` squashes and lowercases what the first stages give. */
  lemma NormalizeNameFrom(name: string, b: string)
    requires Keep(Strip(DropParenYears(name)), NameChar) == b
    ensures NormalizeName(name) == Lower(Squash(b))
  {
  }

  /** Lowercase letters, digits and blanks: no `(`, and all kept by the
      character filter. */
  lemma NormalizedChars(r: string)
    requires forall i :: 0 <= i < |r| ==> IsLower(r[i]) || IsDigit(r[i]) || r[i] == ' '
    ensures '(' !in r && forall c :: c in r ==> NameChar(c)
  {
    forall c | c in r ensures c != '(' && NameChar(c) {
      var i :| 0 <= i < |r| && r[i] == c;
    }
  }

  lemma StripSquashed(r: string)
    requires Squashed(r)
    ensures Strip(r) == r
  {
    assert r == [] || !IsSpace(r[0]);
    assert r == [] || !IsSpace(r[|r| - 1]);
    LStripIdentity(r);
    RStripIdentity(r);
  }

  lemma LowerIdentity(s: string)
    requires forall i :: 0 <= i < |s| ==> !IsUpper(s[i])
    ensures Lower(s) == s
  {
  }

  lemma {:induction false} LStripSpaceEnd(s: string)
    ensures LStrip(s + " ") == if LStrip(s) == [] then [] else LStrip(s) + " "
    decreases |s|
  {
    if s == [] {
      assert LStrip(" "[1..]) == [];
    } else if IsSpace(s[0]) {
      assert (s + " ")[1..] == s[1..] + " ";
      LStripSpaceEnd(s[1..]);
    }
  }

  /** A trailing space makes no difference to `str.strip()`. */
  lemma StripSpaceEnd(s: string)
    ensures Strip(s + " ") == Strip(s)
  {
    LStripSpaceEnd(s);
    var l := LStrip(s);
    if l != [] {
      assert (l + " ")[..|l|] == l;
    }
  }

  lemma DropYearTail(year: string)
    requires |year| == 4 && AllDigits(year)
    ensures DropParenYears("(" + year + ")") == []
  {
    var tail := "(" + year + ")";
    assert tail[0] == '(' && tail[5] == ')' && tail[1..5] == year;
    assert ParenYearAt(tail, 0);
    assert tail[6..] == [];
  }

  lemma CleanedDropsYear(title: string, year: string)
    requires '(' !in title && |year| == 4 && AllDigits(year)
    ensures Strip(DropParenYears(title + " (" + year + ")")) == Strip(DropParenYears(title))
  {
    var tail := "(" + year + ")";
    calc {
      Strip(DropParenYears(title + " (" + year + ")"));
    == { assert title + " (" + year + ")" == (title + " ") + tail; }
      Strip(DropParenYears((title + " ") + tail));
    == { assert '(' !in title + " "; DropParenYearsPlain(title + " ", tail); DropYearTail(year); }
      Strip((title + " ") + []);
    == { assert (title + " ") + [] == title + " "; }
      Strip(title + " ");
    == { StripSpaceEnd(title); }
      Strip(title);
    == { DropParenYearsNone(title); }
      Strip(DropParenYears(title));
    }
  }

  /** `normalize_name` ignores a trailing ` (YYYY)`. */
  lemma NormalizeNameDropsYear(title: string, year: string)
    requires '(' !in title && |year| == 4 && AllDigits(year)
    ensures NormalizeName(title + " (" + year + ")") == NormalizeName(title)
  {
    CleanedDropsYear(title, year);
  }

  // ---------------------------------------------------------------------
  // Resolution folders.

  lemma RemuxSuffixOfRemux(f: string)
    ensures FileUtils.RemuxSuffix(f) == (if IsRemux(f) then "Remux" else "")
  {
    assert Lower("Remux") == "remux" by {
      assert Lower("x") == "x";
      assert Lower("ux") == "ux";
      assert Lower("mux") == "mux";
      assert Lower("emux") == "emux";
      assert LowerChar('R') == 'r';
    }
  }

  /** Without remux, the extraction gives the bare lowercased token. */
  lemma NonRemuxResolution(f: string)
    requires !IsRemux(f)
    ensures Resolution(f) == BareResolution(f)
  {
    RemuxSuffixOfRemux(f);
    if BareResolution(f).Some? {
      assert BareResolution(f).value + "" == BareResolution(f).value;
    }
  }

  /** As written, every remux show goes to `UltraHDRemuxShows`. */
  lemma RemuxShowAsWritten(f: string)
    requires IsRemux(f)
    ensures ShowFolderAsWritten(f) == UltraHDRemuxShows
  {
  }

  /** As written, every remux movie goes to `MoviesRemux`: the suffixed
      resolution never equals `2160p`, `4k` or `1080p`. */
  lemma RemuxMovieAsWritten(f: string)
    requires IsRemux(f)
    ensures MovieFolderAsWritten(f) == MoviesRemux
  {
    RemuxSuffixOfRemux(f);
  }

  /** The corrected show folder: a remux show is in the 4K library exactly
      when its name says 2160 or 4k, and in the 1080p one exactly when it
      says 1080 but neither of those. */
  lemma RemuxShowTier(f: string)
    requires IsRemux(f)
    ensures ShowFolder(f) == UltraHDRemuxShows <==> Contains(f, "2160") || Contains(f, "4k")
    ensures ShowFolder(f) == RemuxLibrary1080p <==> !Contains(f, "2160") && !Contains(f, "4k") && Contains(f, "1080")
  {
  }

  /** The corrected movie folder: a remux movie lands in the remux library
      of the tier the same resolution gets without remux. */
  lemma RemuxMovieTier(f: string)
    requires IsRemux(f)
    ensures MovieFolder(f) == Remux4K <==> StandardMovieFolder(BareResolution(f)) == UltraHD
    ensures MovieFolder(f) == Remux1080p <==> StandardMovieFolder(BareResolution(f)) == FullHD
  {
  }

  /** Outside remux the corrections change nothing. */
  lemma NonRemuxFoldersAgree(f: string)
    requires !IsRemux(f)
    ensures ShowFolder(f) == ShowFolderAsWritten(f) && MovieFolder(f) == MovieFolderAsWritten(f)
    ensures ShowFolder(f) == StandardShowFolder(BareResolution(f))
    ensures MovieFolder(f) == StandardMovieFolder(BareResolution(f))
  {
    NonRemuxResolution(f);
  }

  /** The `'DVD'` branches can never be taken: the resolution is lowercased. */
  lemma DvdUnreachable(f: string)
    ensures ShowFolder(f) != RetroDVD && ShowFolderAsWritten(f) != RetroDVD
    ensures MovieFolder(f) != DVDClassics && MovieFolderAsWritten(f) != DVDClassics
  {
    var res := Resolution(f);
    ResolutionNotDvd(f);
    StandardNotDvd(res);
    if IsRemux(f) {
      assert ShowFolder(f) in {UltraHDRemuxShows, RemuxLibrary1080p, RemuxShows};
      assert ShowFolderAsWritten(f) in {UltraHDRemuxShows, RemuxLibrary1080p, RemuxShows};
      assert MovieFolder(f) in {Remux4K, Remux1080p, MoviesRemux};
      assert MovieFolderAsWritten(f) in {Remux4K, Remux1080p, MoviesRemux};
    } else {
      assert ShowFolder(f) == StandardShowFolder(res);
      assert ShowFolderAsWritten(f) == StandardShowFolder(res);
      assert MovieFolder(f) == StandardMovieFolder(res);
      assert MovieFolderAsWritten(f) == StandardMovieFolder(res);
    }
  }

  /** Without the `DVD` token the `DVD` folders are not chosen. */
  lemma StandardNotDvd(res: Option<string>)
    requires res != Some("DVD")
    ensures StandardShowFolder(res) != RetroDVD && StandardMovieFolder(res) != DVDClassics
  {
  }

  /** The extracted resolution starts with a lower-case character, so it is
      never `DVD`. */
  lemma ResolutionNotDvd(f: string)
    ensures Resolution(f) != Some("DVD") && BareResolution(f) != Some("DVD")
  {
    match FirstResolution(f, 0)
    case None =>
    case Some(t) =>
      var l := Lower(t);
      assert !IsUpper(l[0]);
      assert Resolution(f).value[0] == l[0];
      assert BareResolution(f).value[0] == l[0];
  }

  /** A remux show whose name says neither 2160 nor 4k: the defect files
      it under `UltraHDRemuxShows`, the corrected test does not. */
  lemma RemuxShowMisfiled(f: string)
    requires IsRemux(f) && !Contains(f, "2160") && !Contains(f, "4k")
    ensures ShowFolderAsWritten(f) == UltraHDRemuxShows
    ensures ShowFolder(f) != UltraHDRemuxShows
  {
  }

  /** A 1080p remux movie: the defect files it under `MoviesRemux`, the
      corrected comparison under `1080pRemux`. */
  lemma RemuxMovieMisfiled(f: string)
    requires IsRemux(f) && BareResolution(f) == Some("1080p")
    ensures MovieFolderAsWritten(f) == MoviesRemux
    ensures MovieFolder(f) == Remux1080p
  {
    RemuxMovieAsWritten(f);
  }

  lemma {:induction false} ContainsAt(s: string, sub: string, k: nat)
    requires k <= |s| && StartsWith(s[k..], sub)
    ensures Contains(s, sub)
    decreases k
  {
    if k > 0 {
      assert s[1..][k - 1..] == s[k..];
      ContainsAt(s[1..], sub, k - 1);
    }
  }

  /** `sub` cannot occur when its first character does not. */
  lemma {:induction false} NotContains(s: string, sub: string)
    requires sub != [] && sub[0] !in s
    ensures !Contains(s, sub)
    decreases |s|
  {
    if s != [] {
      assert s[0] in s;
      assert forall c :: c in s[1..] ==> c in s;
      NotContains(s[1..], sub);
    }
  }

  // ---------------------------------------------------------------------
  // Episode identifiers and season folders.

  /** The season read back from `S<a>E<b>` is `a`, for any non-empty digit
      strings: the normalised identifiers always carry their season. */
  lemma SeasonOfCanonical(a: string, b: string)
    requires a != [] && b != [] && AllDigits(a) && AllDigits(b)
    ensures SeasonNumber("S" + a + "E" + b) == a
  {
    var s := "S" + a + "E" + b;
    assert s[0] == 'S';
    assert forall k :: 1 <= k <= |a| ==> s[k] == a[k - 1];
    assert s[|a| + 1] == 'E';
    assert forall k :: |a| + 2 <= k < |s| ==> s[k] == b[k - |a| - 2];
    forall j | 1 <= j ensures !SeasonEpisodeAt(s, j) {
      if j < |s| && j <= |a| {
        assert IsDigit(s[j]);
      }
    }
    if SeasonEpisodeAt(s, 0) {
      assert |a| == 2;
      assert s[1..3] == a;
    } else {
      assert FirstSeasonEpisode(s, 0).None?;
      assert FirstDigit(s, 1) == Some(1);
      assert DigitRun(s, 1) == |a|;
      assert s[1..1 + |a|] == a;
    }
  }

  lemma {:induction false} SplitPlain(s: string, sep: char)
    requires sep !in s
    ensures Split(s, sep)[0] == s
    decreases |s|
  {
    if s != [] {
      assert s[0] in s;
      assert forall c :: c in s[1..] ==> c in s;
      SplitPlain(s[1..], sep);
    }
  }

  lemma DigitsHaveNo(s: string, c: char)
    requires AllDigits(s) && !IsDigit(c)
    ensures c !in s
  {
    forall i | 0 <= i < |s| ensures s[i] != c {
      assert IsDigit(s[i]);
    }
  }

  /** `NxM` becomes `SNEM`, both as written and corrected, and its season is `N`. */
  lemma NumberPairIdentifier(a: string, b: string, parent: string)
    requires a != [] && b != [] && AllDigits(a) && AllDigits(b)
    ensures NormalizeIdentifierAsWritten(a + "x" + b, parent) == "S" + a + "E" + b
    ensures NormalizeIdentifier(a + "x" + b, parent) == "S" + a + "E" + b
    ensures SeasonNumber("S" + a + "E" + b) == a
  {
    var id := a + "x" + b;
    RunOfDigits(a, "x" + b, 0);
    assert a + ("x" + b) == id;
    assert id[|a|] == 'x' && id[|a| + 1] == b[0];
    assert id[..|a|] == a && id[|a| + 1..] == b;
    DigitsHaveNo(b, 'x');
    SplitPlain(b, 'x');
    assert !SeasonEpisodeForm(id, true) by { assert IsDigit(id[0]); }
    SeasonOfCanonical(a, b);
  }

  /** `S01` followed by digits becomes `S01E…`, with the two digits as season. */
  lemma SeasonDigitsIdentifier(a: string, c: string, parent: string)
    requires |a| == 2 && AllDigits(a) && c != [] && AllDigits(c)
    ensures NormalizeIdentifierAsWritten("S" + a + c, parent) == "S" + a + "E" + c
    ensures NormalizeIdentifier("S" + a + c, parent) == "S" + a + "E" + c
    ensures SeasonNumber("S" + a + "E" + c) == a
  {
    var id := "S" + a + c;
    assert id[1..3] == a && id[3..] == c && id[3] == c[0];
    assert DigitRun(id, 0) == 0;
    SeasonOfCanonical(a, c);
  }

  /** `ep.N` takes the season of its parent folder (or `01`) and keeps `N`. */
  lemma EpDotIdentifier(b: string, parent: string)
    requires b != [] && AllDigits(b)
    ensures NormalizeIdentifierAsWritten("ep." + b, parent) == "S" + ParentSeason(parent) + "E" + b
    ensures NormalizeIdentifier("ep." + b, parent) == "S" + ParentSeason(parent) + "E" + b
    ensures SeasonNumber("S" + ParentSeason(parent) + "E" + b) == ParentSeason(parent)
  {
    var id := "ep." + b;
    assert id[3..] == b;
    RunOfDigits(id, [], 3);
    assert id + [] == id;
    SeasonOfCanonical(ParentSeason(parent), b);
  }

  /** `S01E05`-style identifiers are kept and their season is read back. */
  lemma SeasonEpisodeIdentifier(id: string, parent: string)
    requires SeasonEpisodeForm(id, false)
    ensures NormalizeIdentifierAsWritten(id, parent) == id
    ensures NormalizeIdentifier(id, parent) == id
    ensures SeasonNumber(id) == id[1..3]
  {
    assert SeasonEpisodeAt(id, 0);
  }

  /** Corrected: a lowercase `s02e05` is kept and its season is read back. */
  lemma CaseInsensitiveIdentifier(id: string, parent: string)
    requires SeasonEpisodeForm(id, true)
    ensures NormalizeIdentifier(id, parent) == id
    ensures SeasonNumber(id) == id[1..3]
  {
    assert SeasonEpisodeAt(id, 0);
  }

  /** As written, the lowercase identifier the case-insensitive search
      finds falls through every branch and becomes `S01E01`. */
  lemma LowercaseIdentifierAsWritten(parent: string)
    ensures NormalizeIdentifierAsWritten("s02e05", parent) == "S01E01"
    ensures SeasonFolder(SeasonNumber(NormalizeIdentifierAsWritten("s02e05", parent))) == "Season 1"
    ensures SeasonFolder(SeasonNumber(NormalizeIdentifier("s02e05", parent))) == "Season 2"
  {
    LowercaseFallsThrough(parent);
    SeasonOneFolder();
    var id := "s02e05";
    CaseInsensitiveIdentifier(id, parent);
    assert id[1..3] == "02";
    assert DigitsValue("02") == 2;
  }

  lemma LowercaseFallsThrough(parent: string)
    ensures NormalizeIdentifierAsWritten("s02e05", parent) == "S01E01"
  {
    var id := "s02e05";
    assert DigitRun(id, 0) == 0;
    assert !EpDotForm(id);
  }

  lemma SeasonOneFolder()
    ensures SeasonFolder(SeasonNumber("S01E01")) == "Season 1"
  {
    SeasonOfCanonical("01", "01");
    assert "S01E01" == "S" + "01" + "E" + "01";
    assert DigitsValue("01") == 1;
  }

  /** Corrected: `NeM` splits at its separator, whatever the length of `N`. */
  lemma SeasonEpisodePairIdentifier(a: string, b: string, parent: string)
    requires a != [] && b != [] && AllDigits(a) && AllDigits(b)
    ensures NormalizeIdentifier(a + "e" + b, parent) == "S" + a + "E" + b
    ensures SeasonNumber(NormalizeIdentifier(a + "e" + b, parent)) == a
  {
    var id := a + "e" + b;
    RunOfDigits(a, "e" + b, 0);
    assert a + ("e" + b) == id;
    assert id[|a|] == 'e' && id[|a| + 1] == b[0];
    assert IsDigit(id[0]);
    assert !SeasonEpisodeForm(id, true) && !SeasonDigitsForm(id, true);
    assert !NumberPairForm(id, 'x', true);
    assert NumberPairForm(id, 'e', true);
    assert NormalizeIdentifier(id, parent) == "S" + id[..|a|] + "E" + id[|a| + 1..];
    assert id[..|a|] == a && id[|a| + 1..] == b;
    SeasonOfCanonical(a, b);
  }

  /** As written, `NeM` takes two characters as the season: `1e05` keeps
      the separator, and `123e05` files into season 12 instead of 123. */
  lemma SeasonEpisodePairAsWritten(parent: string)
    ensures NormalizeIdentifierAsWritten("1e05", parent) == "S1eE05"
    ensures NormalizeIdentifierAsWritten("123e05", parent) == "S12E3e05"
    ensures SeasonFolder(SeasonNumber(NormalizeIdentifierAsWritten("123e05", parent))) == "Season 12"
    ensures SeasonFolder(SeasonNumber(NormalizeIdentifier("123e05", parent))) == "Season 123"
  {
    ShortPairAsWritten(parent);
    LongPairAsWritten(parent);
    SeasonOfMisparsed();
    LongPairCorrected(parent);
  }

  lemma ShortPairAsWritten(parent: string)
    ensures NormalizeIdentifierAsWritten("1e05", parent) == "S1eE05"
  {
    RunOfDigits("1", "e05", 0);
    assert "1" + "e05" == "1e05";
  }

  lemma LongPairAsWritten(parent: string)
    ensures NormalizeIdentifierAsWritten("123e05", parent) == "S12E3e05"
  {
    RunOfDigits("123", "e05", 0);
    assert "123" + "e05" == "123e05";
  }

  lemma SeasonOfMisparsed()
    ensures SeasonFolder(SeasonNumber("S12E3e05")) == "Season 12"
  {
    var s := "S12E3e05";
    forall j | 0 <= j ensures !SeasonEpisodeAt(s, j) {
      if j == 0 { assert !IsDigit(s[5]); }
      else if j < |s| { assert !IsS(s[j]); }
    }
    assert FirstSeasonEpisode(s, 0).None?;
    assert FirstDigit(s, 1) == Some(1);
    RunOfDigits("12", "E3e05", 1);
    assert "S" + ("12" + "E3e05") == s;
    assert s[1..3] == "12";
    assert DigitsValue("12") == 12;
    assert NatToString(12) == "12";
  }

  lemma LongPairCorrected(parent: string)
    ensures SeasonFolder(SeasonNumber(NormalizeIdentifier("123e05", parent))) == "Season 123"
  {
    SeasonEpisodePairIdentifier("123", "05", parent);
    assert "123" + "e" + "05" == "123e05";
    SeasonFolder123();
  }

  lemma SeasonFolder123()
    ensures SeasonFolder("123") == "Season 123"
  {
    assert "123"[..2] == "12" && "12"[..1] == "1" && "1"[..0] == "";
    assert DigitsValue("123") == 123;
    assert NatToString(1) == "1";
    assert NatToString(12) == "12";
    assert NatToString(123) == "123";
  }

  lemma {:induction false} DigitsValueZeros(k: nat, s: string)
    requires AllDigits(s)
    ensures AllDigits(seq(k, _ => '0') + s)
    ensures DigitsValue(seq(k, _ => '0') + s) == DigitsValue(s)
    decreases |s|
  {
    var z := seq(k, _ => '0');
    if s == [] {
      assert z + s == z;
      ZerosValue(k);
    } else {
      var p := s[..|s| - 1];
      DigitsValueZeros(k, p);
      assert (z + s)[..|z + s| - 1] == z + p;
    }
  }

  lemma {:induction false} ZerosValue(k: nat)
    ensures DigitsValue(seq(k, _ => '0')) == 0
  {
    if k > 0 {
      assert seq(k, _ => '0')[..k - 1] == seq(k - 1, _ => '0');
      ZerosValue(k - 1);
    }
  }

  /** `Season {int(n)}` drops the zero padding: any zero-filled spelling of
      a number gives the folder of the plain number. */
  lemma SeasonFolderDropsZeros(n: nat, width: nat)
    ensures AllDigits(ZFill(NatToString(n), width))
    ensures SeasonFolder(ZFill(NatToString(n), width)) == "Season " + NatToString(n)
  {
    var s := NatToString(n);
    var z := ZFill(s, width);
    DigitsValueOfNatToString(n);
    if |s| < width {
      DigitsValueZeros(width - |s|, s);
      assert z == seq(width - |s|, _ => '0') + s;
    } else {
      assert z == s;
    }
    assert AllDigits(z) && DigitsValue(z) == n;
  }

  // ---------------------------------------------------------------------
  // `process_file`.

  /** A second `process_file` with the same destination changes nothing. */
  lemma ProcessFileIdempotent(t: Tree, src: Path, dest: Option<Path>, index: seq<Path>)
    ensures var r := ProcessFileSpec(t, src, dest, index);
            ProcessFileSpec(r.1, src, dest, index).1 == r.1
  {
    var r := ProcessFileSpec(t, src, dest, index);
    if r.0 !in {AlreadyIndexed, Raised} {
      var d := dest.value;
      var t1 := t.MakeDirs(Dirname(d)).value;
      assert t1.IsDir(Dirname(d));
      if r.0 in {Linked, Copied} {
        assert Dirname(d) != d;
        var t2 := if t1.IsLink(d) then t1.Remove(d) else t1;
        assert t2.IsDir(Dirname(d));
        if r.0 == Copied {
          assert !StartsWith(Dirname(d), Below(d));
          assert t2.Put(d, Dir).IsDir(Dirname(d));
        }
      }
      assert r.1.IsDir(Dirname(d));
      if r.0 in {Linked, AlreadyLinked} {
        StableWhenLinked(r.1, src, d, index);
      } else {
        StableWhenOccupied(r.1, src, d, index);
      }
    }
  }

  /** A destination that already links to the source is left as it is. */
  lemma StableWhenLinked(u: Tree, src: Path, d: Path, index: seq<Path>)
    requires u.IsDir(Dirname(d)) && u.LinksTo(d, src)
    ensures ProcessFileSpec(u, src, Some(d), index) == (if u.FirstLinkTo(index, src).Some? then AlreadyIndexed else AlreadyLinked, u)
  {
  }

  /** A destination held by something other than a link is left as it is. */
  lemma StableWhenOccupied(u: Tree, src: Path, d: Path, index: seq<Path>)
    requires u.IsDir(Dirname(d)) && d in u.entries && !u.IsLink(d)
    ensures ProcessFileSpec(u, src, Some(d), index) == (if u.FirstLinkTo(index, src).Some? then AlreadyIndexed else Occupied, u)
  {
  }

  /** `process_file` never turns a regular file into anything else, when
      the source is not a directory, or when nothing lies below the
      destination (the copy lands in a fresh directory). */
  lemma ProcessFileKeepsFiles(t: Tree, src: Path, dest: Option<Path>, index: seq<Path>)
    requires (src in t.entries && !t.IsDir(src)) ||
             (dest.Some? && forall p :: p in t.entries ==> !StartsWith(p, Below(dest.value)))
    ensures KeepsFiles(t, ProcessFileSpec(t, src, dest, index).1)
  {
    if t.FirstLinkTo(index, src).None? && dest.Some? && t.MakeDirs(Dirname(dest.value)).Some? {
      var d := dest.value;
      var t1 := t.MakeDirs(Dirname(d)).value;
      if !(t1.IsLink(d) && t1.ReadLink(d) == src) {
        var t2 := if t1.IsLink(d) then t1.Remove(d) else t1;
        ClearedKeepsFiles(t, t1, src, d);
        assert ProcessFileSpec(t, src, dest, index) == Place(t2, src, d);
        PlaceKeepsFiles(t, t2, src, d);
      }
    }
  }

  /** Making the parents and removing a stale link at the destination keep
      every regular file, and the source as it was. */
  lemma ClearedKeepsFiles(t: Tree, t1: Tree, src: Path, d: Path)
    requires t.MakeDirs(Dirname(d)) == Some(t1)
    requires (src in t.entries && !t.IsDir(src)) || (forall p :: p in t.entries ==> !StartsWith(p, Below(d)))
    ensures var t2 := if t1.IsLink(d) then t1.Remove(d) else t1;
            && KeepsFiles(t, t2) && !t2.IsLink(d)
            && ((src in t.entries && !t.IsDir(src) && (src in t2.entries ==> t2.entries[src] == t.entries[src])) ||
                (forall p :: p in t.entries ==> !StartsWith(p, Below(d))))
  {
  }

  /** The end of `process_file` keeps every regular file. */
  lemma PlaceKeepsFiles(t: Tree, t2: Tree, src: Path, d: Path)
    requires KeepsFiles(t, t2) && !t2.IsLink(d)
    requires (src in t.entries && !t.IsDir(src) && (src in t2.entries ==> t2.entries[src] == t.entries[src])) ||
             (forall p :: p in t.entries ==> !StartsWith(p, Below(d)))
    ensures KeepsFiles(t, Place(t2, src, d).1)
  {
    var r := Place(t2, src, d);
    if r.0 == Copied {
      forall x | x in t.entries && t.entries[x] == File ensures x in r.1.entries && r.1.entries[x] == File {
        assert x != d && !StartsWith(x, Below(d));
      }
    }
  }

  /** A link at the destination that targets something else is replaced
      by a link to the source; nothing else changes. */
  lemma ReplacesStaleLink(t: Tree, src: Path, d: Path, index: seq<Path>)
    requires t.FirstLinkTo(index, src).None? && t.IsDir(Dirname(d))
    requires t.IsLink(d) && t.ReadLink(d) != src && !t.IsDir(src)
    ensures ProcessFileSpec(t, src, Some(d), index).0 == Linked
    ensures ProcessFileSpec(t, src, Some(d), index).1.entries == t.entries[d := Link(src)]
  {
    assert t.Remove(d).entries[d := Link(src)] == t.entries[d := Link(src)];
  }

  /** A regular file at the destination is left alone and no link is made. */
  lemma LeavesRealFile(t: Tree, src: Path, d: Path, index: seq<Path>)
    requires d in t.entries && t.entries[d] == File
    ensures ProcessFileSpec(t, src, Some(d), index).0 in {AlreadyIndexed, Occupied, Raised}
    ensures ProcessFileSpec(t, src, Some(d), index).1.entries[d] == File
  {
  }

  /** Worker jobs of a directory keep every regular file when every source
      they process is a regular file. */
  lemma {:induction false} RunFilesKeepsFiles(t: Tree, files: seq<Path>, destOf: Path -> Option<Path>, index: seq<Path>)
    requires forall p :: p in files ==> p in t.entries && t.entries[p] == File
    ensures KeepsFiles(t, RunFiles(t, files, destOf, index).0)
    decreases files
  {
    if files != [] {
      var step := ProcessFileSpec(t, files[0], destOf(files[0]), index);
      ProcessFileKeepsFiles(t, files[0], destOf(files[0]), index);
      assert forall p :: p in files[1..] ==> p in files;
      RunFilesKeepsFiles(step.1, files[1..], destOf, index);
    }
  }
}
