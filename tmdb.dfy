/** The TMDb helpers that decide rather than fetch: how well a search
    result matches a query, which season and which episode are chosen, how
    an absolute episode number is folded into a season, and the folder name
    of a chosen show.  Every answer from the TMDb service and every line the
    user types is a parameter. */
module Tmdb {
  import opened Text
  import opened Wrappers

  /** `int(s)` for a string of ASCII digits; anything else makes `int`
      raise (see the README for the spellings Python also accepts). */
  function IntOf(s: string): (r: Option<nat>)
    ensures r.Some? <==> s != [] && AllDigits(s)
    ensures r.Some? ==> NatToString(r.value) == s || s[0] == '0'
  {
    if s != [] && AllDigits(s) then
      NatOfDigits(s);
      Some(DigitsValue(s))
    else None
  }

  /** A digit string without a leading zero is the decimal form of its value. */
  lemma {:induction false} NatOfDigits(s: string)
    requires s != [] && AllDigits(s)
    ensures NatToString(DigitsValue(s)) == s || s[0] == '0'
    decreases |s|
  {
    var n := DigitsValue(s);
    var init := s[..|s| - 1];
    var d := s[|s| - 1] as int - '0' as int;
    if |s| > 1 {
      NatOfDigits(init);
      if s[0] != '0' {
        assert init[0] == s[0];
        DigitsPositive(init);
        assert n / 10 == DigitsValue(init) && n % 10 == d;
        assert NatToString(n) == NatToString(DigitsValue(init)) + [DigitChar(d)];
        assert s == init + [s[|s| - 1]];
      }
    }
  }

  lemma {:induction false} DigitsPositive(s: string)
    requires s != [] && AllDigits(s) && s[0] != '0'
    ensures DigitsValue(s) >= 1
    decreases |s|
  {
    if |s| > 1 {
      assert s[..|s| - 1][0] == s[0];
      DigitsPositive(s[..|s| - 1]);
    }
  }

  // ---------------------------------------------------------------------
  // `calculate_score`.

  /** The fields of a TV search result the score reads; a missing field is
      the empty string or the empty list, as the `get` defaults give. */
  datatype SearchResult = SearchResult(
    name: string,
    originalName: string,
    firstAirDate: string,
    originalLanguage: string,
    originCountry: seq<string>,
    popularity: real)

  /** The countries that earn the origin bonus. */
  const EnglishCountries: set<string> := {"GB", "US", "CA", "AU", "NZ"}

  /** The title term: 40 for an exact match on either title, else 20 when
      either title and the query contain one another. */
  function TitlePoints(query: string, title: string, original: string): (p: real)
    ensures p == 0.0 || p == 20.0 || p == 40.0
    ensures p == 40.0 <==> query == title || query == original
    ensures p == 0.0 <==> !(query == title || query == original)
                          && !Contains(title, query) && !Contains(query, title)
                          && !Contains(original, query) && !Contains(query, original)
  {
    if query == title || query == original then 40.0
    else if Contains(title, query) || Contains(query, title)
         || Contains(original, query) || Contains(query, original) then 20.0
    else 0.0
  }

  /** The year in a `YYYY-MM-DD` air date: what comes before the first `-`. */
  function YearOf(date: string): (y: string)
    ensures StartsWith(date, y) && '-' !in y
    ensures |y| < |date| ==> date[|y|] == '-'
  {
    var parts := Split(date, '-');
    SplitHead(date, '-');
    parts[0]
  }

  lemma {:induction false} SplitHead(s: string, sep: char)
    ensures var h := Split(s, sep)[0];
      StartsWith(s, h) && sep !in h && (|h| < |s| ==> s[|h|] == sep)
    decreases |s|
  {
    if s != [] {
      SplitHead(s[1..], sep);
    }
  }

  /** The year term: `None` where the source's `int()` raises. */
  function YearPoints(year: Option<string>, date: string): (r: Option<real>)
    ensures r.None? ==> year.Some? && date != [] && YearOf(date) != year.value
    ensures r.Some? ==> r.value == 0.0 || r.value == 15.0 || r.value == 30.0
    ensures r == Some(30.0) <==> year.Some? && year.value != [] && date != [] && YearOf(date) == year.value
  {
    if year.None? || year.value == [] || date == [] then Some(0.0)
    else
      var y := YearOf(date);
      if y == year.value then Some(30.0)
      else match (IntOf(y), IntOf(year.value))
        case (Some(a), Some(b)) => if -1 <= a - b <= 1 then Some(15.0) else Some(0.0)
        case _ => None
  }

  function LanguagePoints(language: string): (p: real)
    ensures p == (if language == "en" then 10.0 else 0.0)
  {
    if language == "en" then 10.0 else 0.0
  }

  predicate FromEnglishCountry(countries: seq<string>) {
    exists i :: 0 <= i < |countries| && countries[i] in EnglishCountries
  }

  /** The popularity term: popularity/100 * 15, at most 15, nothing for a
      popularity that is not positive. */
  function PopularityPoints(popularity: real): (p: real)
    ensures 0.0 <= p <= 15.0
    ensures popularity <= 0.0 ==> p == 0.0
    ensures 0.0 < popularity <= 100.0 ==> p == popularity * 15.0 / 100.0
  {
    if popularity > 0.0 then
      var v := popularity / 100.0 * 15.0;
      if v < 15.0 then v else 15.0
    else 0.0
  }

  /** `any(country in [...] for country in origin_country)`. */
  method AnyEnglishCountry(countries: seq<string>) returns (found: bool)
    ensures found <==> FromEnglishCountry(countries)
  {
    found := false;
    var i := 0;
    while i < |countries| && !found
      invariant 0 <= i <= |countries|
      invariant found <==> exists k :: 0 <= k < i && countries[k] in EnglishCountries
    {
      found := countries[i] in EnglishCountries;
      i := i + 1;
    }
  }

  /** The year block of `calculate_score`: `None` where `int()` raises. */
  method YearScore(year: Option<string>, date: string) returns (p: Option<real>)
    ensures p == YearPoints(year, date)
  {
    p := Some(0.0);
    if year.Some? && year.value != [] {
      if date != [] {
        var y := YearOf(date);
        if y == year.value {
          p := Some(30.0);
        } else {
          var a := IntOf(y);
          var b := IntOf(year.value);
          if a.None? || b.None? {
            return None;
          }
          if -1 <= a.value - b.value <= 1 {
            p := Some(15.0);
          }
        }
      }
    }
  }

  /** `calculate_score`: the terms added one after the other; `None` where
      comparing two different years makes `int()` raise. */
  method CalculateScore(result: SearchResult, query: string, year: Option<string>)
    returns (score: Option<real>)
    ensures score.None? <==> YearPoints(year, result.firstAirDate).None?
    ensures score.Some? ==> 0.0 <= score.value <= 100.0
    ensures score.Some? ==>
      (score.value
        == TitlePoints(Strip(Lower(query)), Strip(Lower(result.name)), Strip(Lower(result.originalName)))
         + YearPoints(year, result.firstAirDate).value
         + LanguagePoints(result.originalLanguage)
         + (if FromEnglishCountry(result.originCountry) then 5.0 else 0.0)
         + PopularityPoints(result.popularity))
  {
    var q := Strip(Lower(query));
    var title := Strip(Lower(result.name));
    var original := Strip(Lower(result.originalName));
    var s := 0.0;
    if q == title || q == original {
      s := s + 40.0;
    } else if Contains(title, q) || Contains(q, title) || Contains(original, q) || Contains(q, original) {
      s := s + 20.0;
    }
    assert s == TitlePoints(q, title, original);
    ghost var s0 := s;
    var points := YearScore(year, result.firstAirDate);
    if points.None? {
      return None;
    }
    s := s + points.value;
    assert s == s0 + YearPoints(year, result.firstAirDate).value;
    ghost var s1 := s;
    if result.originalLanguage == "en" {
      s := s + 10.0;
    }
    assert s == s1 + LanguagePoints(result.originalLanguage);
    ghost var s2 := s;
    var english := AnyEnglishCountry(result.originCountry);
    if result.originCountry != [] && english {
      s := s + 5.0;
    }
    assert s == s2 + (if FromEnglishCountry(result.originCountry) then 5.0 else 0.0);
    ghost var s3 := s;
    if result.popularity > 0.0 {
      var v := result.popularity / 100.0 * 15.0;
      s := s + (if v < 15.0 then v else 15.0);
    }
    assert s == s3 + PopularityPoints(result.popularity);
    score := Some(s);
  }

  // ---------------------------------------------------------------------
  // `select_season`.

  /** The seasons other than season 0, in the order given. */
  function Standard(seasons: seq<int>): (r: seq<int>)
    ensures forall x :: x in r ==> x != 0 && x in seasons
  {
    if seasons == [] then []
    else
      var last := seasons[|seasons| - 1];
      Standard(seasons[..|seasons| - 1]) + (if last != 0 then [last] else [])
  }

  /** The entries that are season 0 (the specials), in the order given. */
  function Specials(seasons: seq<int>): (r: seq<int>)
    ensures forall x :: x in r ==> x == 0 && x in seasons
  {
    if seasons == [] then []
    else
      var last := seasons[|seasons| - 1];
      Specials(seasons[..|seasons| - 1]) + (if last == 0 then [last] else [])
  }

  /** The order the seasons are offered in: regular seasons first. */
  function Display(seasons: seq<int>): seq<int> {
    Standard(seasons) + Specials(seasons)
  }

  /** The interactive loop: an empty answer skips; a number from 1 to the
      count picks that entry; anything else asks again.  Running out of
      answers ends the loop without a season. */
  function Choose(display: seq<int>, answers: seq<string>): (r: Option<int>)
    ensures r.Some? ==> r.value in display
    decreases |answers|
  {
    if answers == [] then None
    else
      var choice := Strip(answers[0]);
      if choice == [] then None
      else match IntOf(choice)
        case Some(k) =>
          if 1 <= k <= |display| then Some(display[k - 1]) else Choose(display, answers[1..])
        case None => Choose(display, answers[1..])
  }

  /** `select_season`: split the seasons into regular ones and specials,
      then pick. */
  method SelectSeason(seasons: seq<int>, autoSelect: bool, answers: seq<string>)
    returns (r: Option<int>)
    ensures seasons == [] ==> r.None?
    ensures autoSelect && Standard(seasons) != [] ==> r == Some(Standard(seasons)[0])
    ensures autoSelect && seasons != [] && Standard(seasons) == [] ==> r == Some(0)
    ensures !autoSelect && seasons != [] ==> r == Choose(Display(seasons), answers)
    ensures r.Some? ==> r.value in seasons
  {
    if seasons == [] {
      return None;
    }
    var standard: seq<int> := [];
    var special: seq<int> := [];
    var i := 0;
    while i < |seasons|
      invariant 0 <= i <= |seasons|
      invariant standard == Standard(seasons[..i])
      invariant special == Specials(seasons[..i])
    {
      assert seasons[..i + 1][..i] == seasons[..i];
      if seasons[i] == 0 {
        special := special + [seasons[i]];
      } else {
        standard := standard + [seasons[i]];
      }
      i := i + 1;
    }
    assert seasons[..i] == seasons;
    if autoSelect && standard != [] {
      return Some(standard[0]);
    }
    var display := standard + special;
    // `display_seasons` holds every season, so it is never empty here.
    SeasonsDisplayed(seasons);
    if autoSelect {
      assert display[0] == special[0] && special[0] in special;
      return Some(display[0]);
    }
    r := None;
    var k := 0;
    while k < |answers|
      invariant 0 <= k <= |answers|
      invariant Choose(display, answers) == Choose(display, answers[k..])
    {
      var choice := Strip(answers[k]);
      if choice == [] {
        return None;
      }
      var n := IntOf(choice);
      if n.Some? && 1 <= n.value <= |display| {
        return Some(display[n.value - 1]);
      }
      assert answers[k..][1..] == answers[k + 1..];
      k := k + 1;
    }
  }

  /** Every season is offered: the regular seasons and the specials
      together are the list rearranged. */
  lemma {:induction false} SeasonsDisplayed(seasons: seq<int>)
    ensures multiset(Display(seasons)) == multiset(seasons)
    ensures |Display(seasons)| == |seasons|
    decreases |seasons|
  {
    if seasons != [] {
      var init := seasons[..|seasons| - 1];
      SeasonsDisplayed(init);
      assert seasons == init + [seasons[|seasons| - 1]];
    }
  }

  // ---------------------------------------------------------------------
  // The absolute-episode fallback of `get_episode_name`.

  /** `(episode % total) or total` for an episode past the end of the
      season; `None` for an empty season, and for an episode inside the
      season, where the fallback gives up. */
  function SeasonEpisode(episode: int, total: nat): (r: Option<nat>)
    ensures r.Some? <==> total > 0 && episode > total
    ensures r.Some? ==> 1 <= r.value <= total && r.value % total == episode % total
  {
    if total == 0 || episode <= total then None
    else
      var m := episode % total;
      Some(if m == 0 then total else m)
  }

  /** `f"S{season:02d}E{episode} - {name}"` with the episode zero-filled to two. */
  function EpisodeLabel(season: nat, episode: nat, name: string): (r: string)
    ensures StartsWith(r, "S" + ZFill(NatToString(season), 2) + "E")
    ensures EndsWith(r, " - " + name)
  {
    var head := "S" + ZFill(NatToString(season), 2) + "E";
    var r := head + ZFill(NatToString(episode), 2) + (" - " + name);
    ConcatEnds(head, ZFill(NatToString(episode), 2), " - " + name);
    r
  }

  // ---------------------------------------------------------------------
  // `handle_episode_selection`.

  /** With auto-select the first episode; otherwise the typed number when
      it names one of the season's episodes.  `season` is `None` where
      `int(season_number)` raises. */
  function SelectEpisode(season: Option<int>, episodeCount: nat, autoSelect: bool, answer: string)
    : (r: Option<nat>)
    ensures r.Some? ==> season.Some? && 1 <= r.value <= episodeCount
    ensures season.Some? && episodeCount > 0 && autoSelect ==> r == Some(1)
    ensures !autoSelect ==>
      (r.Some? <==> (season.Some? && IntOf(Strip(answer)).Some?
                     && 1 <= IntOf(Strip(answer)).value <= episodeCount))
  {
    if season.None? || episodeCount == 0 then None
    else if autoSelect then Some(1)
    else
      var choice := Strip(answer);
      match IntOf(choice)
      case Some(k) => if choice != [] && 1 <= k <= episodeCount then Some(k) else None
      case None => None
  }

  // ---------------------------------------------------------------------
  // `process_chosen_show`.

  /** Which external id the show folder carries besides the TMDb one. */
  datatype FolderIds = ImdbIds | TvdbIds | TmdbOnly

  /** The year of the first air date, or `Unknown Year` without one. */
  function ShowYear(firstAirDate: string): (y: string)
    ensures firstAirDate == [] ==> y == "Unknown Year"
    ensures firstAirDate != [] ==> StartsWith(firstAirDate, y) && '-' !in y
  {
    if firstAirDate != [] then YearOf(firstAirDate) else "Unknown Year"
  }

  /** The show folder name: name, year in brackets, the optional IMDb or
      TVDB tag, and the TMDb tag last. */
  function ProperName(name: string, year: string, ids: FolderIds, imdbId: string, tvdbId: string, tmdbId: string)
    : (r: string)
    ensures StartsWith(r, name + " (" + year + ")")
    ensures EndsWith(r, " {tmdb-" + tmdbId + "}")
    ensures ids.ImdbIds? ==> Contains(r, " {imdb-" + imdbId + "}")
    ensures ids.TvdbIds? ==> Contains(r, " {tvdb-" + tvdbId + "}")
  {
    var head := name + " (" + year + ")";
    var mid := match ids
      case ImdbIds => " {imdb-" + imdbId + "}"
      case TvdbIds => " {tvdb-" + tvdbId + "}"
      case TmdbOnly => "";
    var tail := " {tmdb-" + tmdbId + "}";
    ConcatEnds(head, mid, tail);
    ContainsInfix(head, mid, tail);
    head + mid + tail
  }

  lemma {:induction false} ContainsInfix(a: string, b: string, c: string)
    ensures Contains(a + b + c, b)
    decreases |a|
  {
    if a == [] {
      assert a + b + c == b + c;
      assert (b + c)[..|b|] == b;
    } else {
      assert (a + b + c)[1..] == a[1..] + b + c;
      ContainsInfix(a[1..], b, c);
    }
  }

  /** The show a search settled on: the fields `process_chosen_show` reads. */
  datatype ChosenShow = ChosenShow(name: string, firstAirDate: string, id: string)

  /** What the TMDb service answers for the chosen show: its external ids,
      its season list (`None` when the request fails) and the episode count
      of any season. */
  datatype ShowDetails = ShowDetails(
    imdbId: string, tvdbId: string, seasons: Option<seq<int>>, episodeCount: int -> nat)

  /** What the user types: answers to the season prompt, then the answer to
      the episode prompt. */
  datatype Answers = Answers(seasons: seq<string>, episode: string)

  /** `process_chosen_show`: the show id, the season and episode numbers
      (given, or chosen) and the folder name. */
  method ProcessChosenShow(show: ChosenShow, autoSelect: bool, tmdbId: Option<string>,
                           seasonNumber: Option<string>, episodeNumber: Option<string>,
                           episodeMatch: bool, ids: FolderIds, details: ShowDetails,
                           answers: Answers)
    returns (properName: string, newSeason: Option<int>, newEpisode: Option<int>, id: string)
    ensures id == if tmdbId.Some? && tmdbId.value != [] then tmdbId.value else show.id
    ensures properName == ProperName(show.name, ShowYear(show.firstAirDate), ids,
                                     details.imdbId, details.tvdbId, id)
    ensures seasonNumber.Some? && IntOf(seasonNumber.value).Some? ==>
              newSeason == Some(IntOf(seasonNumber.value).value as int)
    ensures episodeNumber.Some? && IntOf(episodeNumber.value).Some? ==>
              newEpisode == Some(IntOf(episodeNumber.value).value as int)
    ensures newSeason.Some? && (seasonNumber.None? || IntOf(seasonNumber.value).None?) ==>
              details.seasons.Some? && newSeason.value in details.seasons.value
    ensures newEpisode.Some? && (episodeNumber.None? || IntOf(episodeNumber.value).None?) ==>
              newSeason.Some? && 1 <= newEpisode.value <= details.episodeCount(newSeason.value)
  {
    id := if tmdbId.Some? && tmdbId.value != [] then tmdbId.value else show.id;
    newSeason := None;
    newEpisode := None;
    if seasonNumber.Some? {
      var n := IntOf(seasonNumber.value);
      if n.Some? {
        newSeason := Some(n.value);
      }
    }
    if episodeNumber.Some? {
      var n := IntOf(episodeNumber.value);
      if n.Some? {
        newEpisode := Some(n.value);
      }
    }
    var seasonFalsy := seasonNumber.None? || seasonNumber.value == [];
    if newSeason.None? && (!episodeMatch || seasonFalsy) {
      if details.seasons.Some? && details.seasons.value != [] {
        newSeason := SelectSeason(details.seasons.value, autoSelect, answers.seasons);
      }
    }
    if newSeason.Some? && newEpisode.None? {
      var count := details.episodeCount(newSeason.value);
      var e := SelectEpisode(newSeason, count, autoSelect, answers.episode);
      newEpisode := if e.Some? then Some(e.value as int) else None;
    }
    properName := ProperName(show.name, ShowYear(show.firstAirDate), ids,
                             details.imdbId, details.tvdbId, id);
  }
}
