/** Properties of the TMDb helpers: how the score ranks results, which
    season the selection prefers, how absolute episode numbers wrap, and
    that the folder name carries the TMDb id the anime processor reads back. */
module TmdbProps {
  import opened Text
  import opened Wrappers
  import opened Tmdb
  import Anime
  import AnimeProps

  // ---------------------------------------------------------------------
  // Numbers written out and read back.

  lemma IntOfNatToString(n: nat)
    ensures IntOf(NatToString(n)) == Some(n)
  {
    DigitsValueOfNatToString(n);
  }

  lemma {:induction false} ContainsEmpty(s: string)
    ensures Contains(s, "")
  {
    assert s[..0] == "";
  }

  // ---------------------------------------------------------------------
  // `calculate_score`.

  /** A result without a title still earns the containment points: the
      empty title is contained in every query. */
  lemma UntitledEarnsContainment(query: string, original: string)
    requires query != "" && query != original
    ensures TitlePoints(query, "", original) == 20.0
  {
    ContainsEmpty(query);
  }

  /** An exact title match outweighs any other title, all else equal. */
  lemma ExactTitleRanksFirst(query: string, title: string, original: string, other: string, otherOriginal: string)
    requires query == title
    ensures TitlePoints(query, title, original) >= TitlePoints(query, other, otherOriginal)
  {
  }

  /** An air date one year off the requested year earns the partial points. */
  lemma NeighbourYear(y: nat, rest: string)
    ensures YearPoints(Some(NatToString(y)), NatToString(y + 1) + "-" + rest) == Some(15.0)
    ensures YearPoints(Some(NatToString(y + 1)), NatToString(y) + "-" + rest) == Some(15.0)
  {
    YearOfDate(NatToString(y + 1), rest);
    YearOfDate(NatToString(y), rest);
    IntOfNatToString(y);
    IntOfNatToString(y + 1);
    assert NatToString(y) != NatToString(y + 1) by {
      DigitsValueOfNatToString(y);
      DigitsValueOfNatToString(y + 1);
    }
  }

  /** The same year in the air date earns the full year points. */
  lemma SameYear(y: string, rest: string)
    requires y != [] && '-' !in y
    ensures YearPoints(Some(y), y + "-" + rest) == Some(30.0)
  {
    YearOfDate(y, rest);
  }

  lemma YearOfDate(y: string, rest: string)
    requires '-' !in y
    ensures YearOf(y + "-" + rest) == y
  {
    var d := y + "-" + rest;
    var h := YearOf(d);
    assert forall k :: 0 <= k < |y| ==> d[k] == y[k];
    assert d[|y|] == '-';
    assert h == d[..|h|];
  }

  // ---------------------------------------------------------------------
  // `select_season`.

  /** The first regular season in the list is the first entry that is not
      season 0. */
  lemma {:induction false} StandardFirst(seasons: seq<int>) returns (i: nat)
    requires Standard(seasons) != []
    ensures i < |seasons| && seasons[i] == Standard(seasons)[0] && seasons[i] != 0
    ensures forall j :: 0 <= j < i ==> seasons[j] == 0
    decreases |seasons|
  {
    var k := |seasons| - 1;
    var init := seasons[..k];
    assert Standard(seasons) == Standard(init) + (if seasons[k] != 0 then [seasons[k]] else []);
    if Standard(init) != [] {
      i := StandardFirst(init);
      assert seasons[i] == init[i];
      forall j | 0 <= j < i ensures seasons[j] == 0 {
        assert seasons[j] == init[j];
      }
    } else {
      i := k;
      forall j | 0 <= j < k ensures seasons[j] == 0 {
        assert seasons[j] == init[j];
        NoStandardAllSpecial(init, j);
      }
    }
  }

  lemma {:induction false} NoStandardAllSpecial(seasons: seq<int>, j: nat)
    requires Standard(seasons) == [] && j < |seasons|
    ensures seasons[j] == 0
    decreases |seasons|
  {
    var init := seasons[..|seasons| - 1];
    if j < |init| {
      assert Standard(init) == [];
      NoStandardAllSpecial(init, j);
    }
  }

  /** In the list offered to the user, no regular season comes after a special. */
  lemma SpecialsLast(seasons: seq<int>, i: nat, j: nat)
    requires i < j < |Display(seasons)| && Display(seasons)[i] == 0
    ensures Display(seasons)[j] == 0
  {
    var d := Display(seasons);
    var st := Standard(seasons);
    assert forall k :: 0 <= k < |st| ==> d[k] == st[k] && st[k] in st;
    assert d[j] == Specials(seasons)[j - |st|];
    assert Specials(seasons)[j - |st|] in Specials(seasons);
  }

  /** A valid first answer picks the entry it numbers. */
  lemma FirstAnswerPicks(display: seq<int>, k: nat, answers: seq<string>)
    requires 1 <= k <= |display| && answers != [] && Strip(answers[0]) == NatToString(k)
    ensures Choose(display, answers) == Some(display[k - 1])
  {
    IntOfNatToString(k);
  }

  /** Answers that are not numbers are skipped. */
  lemma WordsAreSkipped(display: seq<int>, word: string, answers: seq<string>)
    requires Strip(word) != [] && !AllDigits(Strip(word))
    ensures Choose(display, [word] + answers) == Choose(display, answers)
  {
    assert ([word] + answers)[1..] == answers;
  }

  // ---------------------------------------------------------------------
  // The absolute-episode fallback.

  /** The mapped episode is the only episode of the season with the same
      remainder. */
  lemma SeasonEpisodeUnique(episode: int, total: nat, v: nat)
    requires SeasonEpisode(episode, total).Some?
    requires 1 <= v <= total && v % total == episode % total
    ensures SeasonEpisode(episode, total) == Some(v)
  {
    var r := SeasonEpisode(episode, total).value;
    assert r % total == (if r == total then 0 else r);
    assert v % total == (if v == total then 0 else v);
  }

  /** One more season's worth of episodes maps to the same episode. */
  lemma SeasonEpisodeWraps(episode: int, total: nat)
    requires total > 0 && episode > total
    ensures SeasonEpisode(episode + total, total) == SeasonEpisode(episode, total)
  {
    var q := episode / total;
    var m := episode % total;
    assert episode + total == (q + 1) * total + m;
    ModOfMultiple(episode + total, total, q + 1, m);
  }

  lemma ModOfMultiple(a: int, t: int, q: int, m: int)
    requires t > 0 && a == q * t + m && 0 <= m < t
    ensures a % t == m
  {
    var q' := a / t;
    var m' := a % t;
    assert q * t - q' * t == m' - m;
    assert (q - q') * t == q * t - q' * t;
    if q > q' {
      AtLeastOnce(q - q', t);
    } else if q < q' {
      AtLeastOnce(q' - q, t);
    }
  }

  lemma {:induction false} AtLeastOnce(k: int, t: nat)
    requires k >= 1
    ensures k * t >= t
    decreases k
  {
    if k > 1 {
      AtLeastOnce(k - 1, t);
      assert k * t == (k - 1) * t + t;
    }
  }

  /** The fallback label names the mapped episode with two digits. */
  lemma FallbackLabel(season: nat, episode: int, total: nat, name: string)
    requires SeasonEpisode(episode, total).Some? && total < 100
    ensures var e := SeasonEpisode(episode, total).value;
      EpisodeLabel(season, e, name)
        == "S" + ZFill(NatToString(season), 2) + "E" + ZFill(NatToString(e), 2) + " - " + name
      && |ZFill(NatToString(e), 2)| == 2
  {
    var e := SeasonEpisode(episode, total).value;
    if e >= 10 {
      assert NatToString(e) == NatToString(e / 10) + [DigitChar(e % 10)];
      assert e / 10 < 10;
    }
  }

  // ---------------------------------------------------------------------
  // `process_chosen_show`: the folder name.

  /** The anime processor reads the TMDb id back out of the folder name. */
  lemma ProperNameIdRoundTrip(name: string, year: string, ids: FolderIds, imdbId: string, tvdbId: string, id: string)
    requires id != [] && AllDigits(id)
    ensures Anime.TmdbIdOf(ProperName(name, year, ids, imdbId, tvdbId, id)) == Some(id)
  {
    var p := ProperName(name, year, ids, imdbId, tvdbId, id);
    var n := p[..|p| - |" {tmdb-" + id + "}"|];
    assert p == n + " {tmdb-" + id + "}";
    AnimeProps.TmdbIdRoundTrip(n, id);
  }

  /** Without TMDb folder ids, the folder of a show named without braces
      is its name and year. */
  lemma ProperNameFolder(name: string, year: string, id: string, imdbFolder: bool)
    requires '{' !in name && '{' !in year
    ensures Anime.FolderName(ProperName(name, year, TmdbOnly, "", "", id), false, imdbFolder)
              == name + " (" + year + ")"
  {
    var n := name + " (" + year + ")";
    assert '{' !in n by {
      forall i | 0 <= i < |n| ensures n[i] != '{' {
        if i < |name| { assert n[i] == name[i]; }
        else if i < |name| + 2 { }
        else if i < |name| + 2 + |year| { assert n[i] == year[i - |name| - 2]; }
      }
    }
    assert ProperName(name, year, TmdbOnly, "", "", id) == n + " {tmdb-" + id + "}";
    AnimeProps.FolderNameDropsId(n, id, imdbFolder);
  }
}
