/** Properties of `extract_media_info`: which of the two names wins for
    each category, that a key appears only when its category matched, and
    the shape of the stored values. */
module MediaInfoProps {
  import opened Text
  import opened Wrappers
  import opened MediaInfo

  /** Setting one key leaves every other key as it was. */
  lemma RecordKeeps(info: Info, key: Key, found: Option<string>, f: Form,
                    k: Key, o: Option<string>, g: Form)
    requires k != key && Holds(info, k, o, g)
    ensures Holds(Record(info, key, found, f), k, o, g)
  {
  }

  /** Setting a key to what was found makes it hold that. */
  lemma RecordSets(info: Info, key: Key, found: Option<string>, f: Form)
    requires found.None? ==> key !in info
    ensures Holds(Record(info, key, found, f), key, found, f)
  {
  }

  lemma RecordKeepsLanguages(info: Info, key: Key, found: Option<string>, f: Form, langs: seq<string>)
    requires key != Languages && LanguagesHold(info, langs)
    ensures LanguagesHold(Record(info, key, found, f), langs)
  {
  }

  lemma LanguagesKeep(info: Info, langs: seq<string>, k: Key, o: Option<string>, g: Form)
    requires k != Languages && Holds(info, k, o, g)
    ensures Holds(if langs != [] then info[Languages := Words(langs)] else info, k, o, g)
  {
  }

  /** What the languages entry of a map says. */
  predicate LanguagesHold(info: Info, langs: seq<string>) {
    if langs != [] then Languages in info && info[Languages] == Words(langs) else Languages !in info
  }

  /** A key is present exactly when its category matched, and holds the
      tag of the folder name if that has one, else the tag of the file name
      (for the audio channels and languages the file name comes first). */
  lemma ExpectedKeys(filename: string, parent: string, kw: Keywords)
    ensures var info := Expected(filename, parent, kw);
      && Holds(info, VideoCodec, Pick(filename, parent, kw.videoCodecs), NoDots)
      && Holds(info, AudioCodec, Pick(filename, parent, kw.audioCodecs), AsFound)
      && Holds(info, AudioAtmos,
               if kw.audioAtmos.Some? then Pick(filename, parent, kw.audioAtmos.value) else None, AsFound)
      && Holds(info, AudioChannels, FirstChannels([filename, parent]), AsFound)
      && LanguagesHold(info, FirstLanguages([filename, parent], kw.validLanguages))
      && Holds(info, DynamicRange, Pick(filename, parent, kw.dynamicRange), AsFound)
      && Holds(info, Resolution, Pick(filename, parent, kw.resolutions), Capitals)
      && Holds(info, MovieVersion, Pick(filename, parent, kw.movieVersions), AsFound)
      && Holds(info, StreamingService, Pick(filename, parent, kw.streamingServices), AsFound)
  {
    AssembleKeys(Pick(filename, parent, kw.videoCodecs),
                 Pick(filename, parent, kw.audioCodecs),
                 if kw.audioAtmos.Some? then Some(Pick(filename, parent, kw.audioAtmos.value)) else None,
                 FirstChannels([filename, parent]),
                 FirstLanguages([filename, parent], kw.validLanguages),
                 Pick(filename, parent, kw.dynamicRange),
                 Pick(filename, parent, kw.resolutions),
                 Pick(filename, parent, kw.movieVersions),
                 Pick(filename, parent, kw.streamingServices));
  }

  /** Each key of the assembled dictionary holds what its category found. */
  lemma AssembleKeys(vc: Option<string>, ac: Option<string>, atmos: Option<Option<string>>,
                     ch: Option<string>, langs: seq<string>, dr: Option<string>,
                     rs: Option<string>, mv: Option<string>, ss: Option<string>)
    ensures var info := Assemble(vc, ac, atmos, ch, langs, dr, rs, mv, ss);
      && Holds(info, VideoCodec, vc, NoDots)
      && Holds(info, AudioCodec, ac, AsFound)
      && Holds(info, AudioAtmos, if atmos.Some? then atmos.value else None, AsFound)
      && Holds(info, AudioChannels, ch, AsFound)
      && LanguagesHold(info, langs)
      && Holds(info, DynamicRange, dr, AsFound)
      && Holds(info, Resolution, rs, Capitals)
      && Holds(info, MovieVersion, mv, AsFound)
      && Holds(info, StreamingService, ss, AsFound)
  {
    var at := if atmos.Some? then atmos.value else None;
    var front := Front(vc, ac, atmos, ch);
    AssembleSplit(vc, ac, atmos, ch, langs, dr, rs, mv, ss);
    FrontHolds(vc, ac, atmos, ch);
    BackHolds(front, langs, dr, rs, mv, ss);
    BackKeeps(front, langs, dr, rs, mv, ss, VideoCodec, vc, NoDots);
    BackKeeps(front, langs, dr, rs, mv, ss, AudioCodec, ac, AsFound);
    BackKeeps(front, langs, dr, rs, mv, ss, AudioAtmos, at, AsFound);
    BackKeeps(front, langs, dr, rs, mv, ss, AudioChannels, ch, AsFound);
  }

  /** The keys the first half of `extract_media_info` fills in. */
  ghost function Front(vc: Option<string>, ac: Option<string>, atmos: Option<Option<string>>,
                       ch: Option<string>): Info
  {
    var m1 := Record(map[], VideoCodec, vc, NoDots);
    var m2 := Record(m1, AudioCodec, ac, AsFound);
    var m3 := if atmos.Some? then Record(m2, AudioAtmos, atmos.value, AsFound) else m2;
    Record(m3, AudioChannels, ch, AsFound)
  }

  /** The keys the second half fills in, on top of `m`. */
  ghost function Back(m: Info, langs: seq<string>, dr: Option<string>,
                      rs: Option<string>, mv: Option<string>, ss: Option<string>): Info
  {
    var m5 := if langs != [] then m[Languages := Words(langs)] else m;
    var m6 := Record(m5, DynamicRange, dr, AsFound);
    var m7 := Record(m6, Resolution, rs, Capitals);
    var m8 := Record(m7, MovieVersion, mv, AsFound);
    Record(m8, StreamingService, ss, AsFound)
  }

  /** The dictionary is assembled in two halves. */
  lemma AssembleSplit(vc: Option<string>, ac: Option<string>, atmos: Option<Option<string>>,
                      ch: Option<string>, langs: seq<string>, dr: Option<string>,
                      rs: Option<string>, mv: Option<string>, ss: Option<string>)
    ensures Assemble(vc, ac, atmos, ch, langs, dr, rs, mv, ss) == Back(Front(vc, ac, atmos, ch), langs, dr, rs, mv, ss)
  {
  }

  /** The first half holds the codecs and channels found, and none of the
      keys of the second half. */
  lemma FrontHolds(vc: Option<string>, ac: Option<string>, atmos: Option<Option<string>>, ch: Option<string>)
    ensures var m := Front(vc, ac, atmos, ch);
      && Holds(m, VideoCodec, vc, NoDots)
      && Holds(m, AudioCodec, ac, AsFound)
      && Holds(m, AudioAtmos, if atmos.Some? then atmos.value else None, AsFound)
      && Holds(m, AudioChannels, ch, AsFound)
      && Languages !in m && DynamicRange !in m && Resolution !in m
      && MovieVersion !in m && StreamingService !in m
  {
    var at := if atmos.Some? then atmos.value else None;
    var m0: Info := map[];
    var m1 := Record(m0, VideoCodec, vc, NoDots);
    var m2 := Record(m1, AudioCodec, ac, AsFound);
    var m3 := if atmos.Some? then Record(m2, AudioAtmos, at, AsFound) else m2;
    RecordSets(m0, VideoCodec, vc, NoDots);
    RecordKeeps(m1, AudioCodec, ac, AsFound, VideoCodec, vc, NoDots);
    RecordSets(m1, AudioCodec, ac, AsFound);
    if atmos.Some? {
      RecordKeeps(m2, AudioAtmos, at, AsFound, VideoCodec, vc, NoDots);
      RecordKeeps(m2, AudioAtmos, at, AsFound, AudioCodec, ac, AsFound);
      RecordSets(m2, AudioAtmos, at, AsFound);
    }
    assert Holds(m3, AudioAtmos, at, AsFound);
    RecordKeeps(m3, AudioChannels, ch, AsFound, VideoCodec, vc, NoDots);
    RecordKeeps(m3, AudioChannels, ch, AsFound, AudioCodec, ac, AsFound);
    RecordKeeps(m3, AudioChannels, ch, AsFound, AudioAtmos, at, AsFound);
    RecordSets(m3, AudioChannels, ch, AsFound);
  }

  /** The second half holds the languages and tags found, given a start
      without any of its keys. */
  lemma BackHolds(m: Info, langs: seq<string>, dr: Option<string>,
                  rs: Option<string>, mv: Option<string>, ss: Option<string>)
    requires Languages !in m && DynamicRange !in m && Resolution !in m
    requires MovieVersion !in m && StreamingService !in m
    ensures var b := Back(m, langs, dr, rs, mv, ss);
      && LanguagesHold(b, langs)
      && Holds(b, DynamicRange, dr, AsFound)
      && Holds(b, Resolution, rs, Capitals)
      && Holds(b, MovieVersion, mv, AsFound)
      && Holds(b, StreamingService, ss, AsFound)
  {
    var m5 := if langs != [] then m[Languages := Words(langs)] else m;
    var m6 := Record(m5, DynamicRange, dr, AsFound);
    var m7 := Record(m6, Resolution, rs, Capitals);
    var m8 := Record(m7, MovieVersion, mv, AsFound);
    assert LanguagesHold(m5, langs);
    RecordKeepsLanguages(m5, DynamicRange, dr, AsFound, langs);
    RecordKeepsLanguages(m6, Resolution, rs, Capitals, langs);
    RecordKeepsLanguages(m7, MovieVersion, mv, AsFound, langs);
    RecordKeepsLanguages(m8, StreamingService, ss, AsFound, langs);
    RecordSets(m5, DynamicRange, dr, AsFound);
    RecordKeeps(m6, Resolution, rs, Capitals, DynamicRange, dr, AsFound);
    RecordKeeps(m7, MovieVersion, mv, AsFound, DynamicRange, dr, AsFound);
    RecordKeeps(m8, StreamingService, ss, AsFound, DynamicRange, dr, AsFound);
    RecordSets(m6, Resolution, rs, Capitals);
    RecordKeeps(m7, MovieVersion, mv, AsFound, Resolution, rs, Capitals);
    RecordKeeps(m8, StreamingService, ss, AsFound, Resolution, rs, Capitals);
    RecordSets(m7, MovieVersion, mv, AsFound);
    RecordKeeps(m8, StreamingService, ss, AsFound, MovieVersion, mv, AsFound);
    RecordSets(m8, StreamingService, ss, AsFound);
  }

  /** The second half keeps every key of the first. */
  lemma BackKeeps(m: Info, langs: seq<string>, dr: Option<string>,
                  rs: Option<string>, mv: Option<string>, ss: Option<string>,
                  k: Key, o: Option<string>, g: Form)
    requires k == VideoCodec || k == AudioCodec || k == AudioAtmos || k == AudioChannels
    requires Holds(m, k, o, g)
    ensures Holds(Back(m, langs, dr, rs, mv, ss), k, o, g)
  {
    var m5 := if langs != [] then m[Languages := Words(langs)] else m;
    var m6 := Record(m5, DynamicRange, dr, AsFound);
    var m7 := Record(m6, Resolution, rs, Capitals);
    var m8 := Record(m7, MovieVersion, mv, AsFound);
    LanguagesKeep(m, langs, k, o, g);
    RecordKeeps(m5, DynamicRange, dr, AsFound, k, o, g);
    RecordKeeps(m6, Resolution, rs, Capitals, k, o, g);
    RecordKeeps(m7, MovieVersion, mv, AsFound, k, o, g);
    RecordKeeps(m8, StreamingService, ss, AsFound, k, o, g);
  }

  /** A codec named in the folder name overrides the one in the file name. */
  lemma FolderCodecWins(filename: string, parent: string, kw: Keywords, codec: string)
    requires FirstKeyword(parent, kw.videoCodecs) == Some(codec)
    ensures var info := Expected(filename, parent, kw);
      VideoCodec in info && info[VideoCodec] == Word(DropDots(codec))
  {
    ExpectedKeys(filename, parent, kw);
  }

  /** The file name's channel layout is kept whatever the folder says. */
  lemma FileNameChannelsWin(filename: string, parent: string, kw: Keywords)
    requires ChannelsFrom(filename, 0).Some?
    ensures var info := Expected(filename, parent, kw);
      AudioChannels in info && info[AudioChannels] == Word(ChannelsFrom(filename, 0).value)
  {
    ExpectedKeys(filename, parent, kw);
  }

  /** The file name's languages are kept whatever the folder says. */
  lemma FileNameLanguagesWin(filename: string, parent: string, kw: Keywords)
    requires LanguagesIn(filename, kw.validLanguages) != []
    ensures var info := Expected(filename, parent, kw);
      Languages in info && info[Languages] == Words(LanguagesIn(filename, kw.validLanguages))
  {
    ExpectedKeys(filename, parent, kw);
  }

  /** Names with no keyword of a category leave its key out. */
  lemma NoMatchNoKey(filename: string, parent: string, kw: Keywords)
    requires forall i :: 0 <= i < |kw.resolutions| ==>
               !ContainsIgnoreCase(filename, kw.resolutions[i]) && !ContainsIgnoreCase(parent, kw.resolutions[i])
    ensures Resolution !in Expected(filename, parent, kw)
  {
    FirstKeywordIsFirst(filename, kw.resolutions);
    FirstKeywordIsFirst(parent, kw.resolutions);
    ExpectedKeys(filename, parent, kw);
  }

  /** The stored video codec has its dots removed and the stored resolution
      is in capitals. */
  lemma StoredShapes(filename: string, parent: string, kw: Keywords)
    ensures var info := Expected(filename, parent, kw);
      && (VideoCodec in info ==> info[VideoCodec].Word? && '.' !in info[VideoCodec].value)
      && (Resolution in info ==>
            info[Resolution].Word?
            && forall k :: 0 <= k < |info[Resolution].value| ==> !IsLower(info[Resolution].value[k]))
  {
    ExpectedKeys(filename, parent, kw);
  }

  /** Every language stored is on the list of valid languages. */
  lemma LanguagesAreValid(filename: string, parent: string, kw: Keywords)
    ensures var info := Expected(filename, parent, kw);
      Languages in info ==>
        info[Languages].Words? && forall l :: l in info[Languages].values ==> l in kw.validLanguages
  {
    ExpectedKeys(filename, parent, kw);
    var langs := FirstLanguages([filename, parent], kw.validLanguages);
    if langs != [] {
      var i :| 0 <= i < 2 && LanguagesIn([filename, parent][i], kw.validLanguages) == langs;
    }
  }

  /** A long name followed by its code maps to that code unless a later
      pair names it again. */
  lemma LongNameToCode(long: string, code: string, rest: seq<string>)
    requires long !in CodeOf(rest)
    ensures CodeOf([long, code] + rest)[long] == code
  {
    assert ([long, code] + rest)[2..] == rest;
  }

  /** Capitals only count as a language in runs of three or more, and a
      run is taken whole. */
  lemma {:induction false} ShortRunsIgnored(s: string, i: nat)
    requires i < |s| && UpperRun(s, i) < 3
    ensures UpperWords(s, i) == UpperWords(s, i + 1)
  {
  }

  lemma WholeRunTaken(s: string, i: nat)
    requires i < |s| && UpperRun(s, i) >= 3
    ensures UpperWords(s, i)[0] == s[i..i + UpperRun(s, i)]
    ensures i + UpperRun(s, i) == |s| || !IsUpper(s[i + UpperRun(s, i)])
  {
  }

  /** A `DDP` prefix in any case is part of the stored channel text. */
  lemma DdpKept(s: string, i: nat)
    requires i + 6 <= |s| && Lower(s[i..i + 3]) == "ddp" && s[i + 3..i + 6] == "5.1"
    ensures ChannelsAt(s, i) == Some(s[i..i + 6])
  {
    assert s[i + 3..i + 6] in ChannelLayouts;
  }
}
