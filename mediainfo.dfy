/** `extract_media_info`: codec, audio, language, dynamic range,
    resolution, edition and streaming-service tags read off a file name and
    the name of the folder holding it.  The keyword lists are a parameter;
    a keyword is searched for as literal text, ignoring case. */
module MediaInfo {
  import opened Text
  import opened Wrappers
  import opened FileTree

  /** The keyword lists; `audioAtmos` is `None` when the list is absent. */
  datatype Keywords = Keywords(
    videoCodecs: seq<string>,
    audioCodecs: seq<string>,
    audioAtmos: Option<seq<string>>,
    validLanguages: seq<string>,
    dynamicRange: seq<string>,
    resolutions: seq<string>,
    movieVersions: seq<string>,
    streamingServices: seq<string>)

  /** A value of the result dictionary: one tag, or the list of languages. */
  datatype Field = Word(value: string) | Words(values: seq<string>)

  /** The keys of the result dictionary, one per category. */
  datatype Key = VideoCodec | AudioCodec | AudioAtmos | AudioChannels | Languages
               | DynamicRange | Resolution | MovieVersion | StreamingService

  type Info = map<Key, Field>

  // ---------------------------------------------------------------------
  // Keyword lists.

  /** The first keyword of `kws`, in list order, found in `source`. */
  function FirstKeyword(source: string, kws: seq<string>): (r: Option<string>)
    ensures r.Some? ==> r.value in kws && ContainsIgnoreCase(source, r.value)
  {
    if kws == [] then None
    else if ContainsIgnoreCase(source, kws[0]) then Some(kws[0])
    else FirstKeyword(source, kws[1..])
  }

  /** The keyword found is the earliest in the list that occurs in the
      source, and there is none only when no keyword occurs. */
  lemma {:induction false} FirstKeywordIsFirst(source: string, kws: seq<string>)
    ensures FirstKeyword(source, kws).None? <==>
              forall i :: 0 <= i < |kws| ==> !ContainsIgnoreCase(source, kws[i])
    ensures FirstKeyword(source, kws).Some? ==>
              exists i :: 0 <= i < |kws| && kws[i] == FirstKeyword(source, kws).value
                && ContainsIgnoreCase(source, kws[i])
                && forall j :: 0 <= j < i ==> !ContainsIgnoreCase(source, kws[j])
    decreases |kws|
  {
    if kws != [] && !ContainsIgnoreCase(source, kws[0]) {
      FirstKeywordIsFirst(source, kws[1..]);
      assert forall i :: 1 <= i < |kws| ==> kws[i] == kws[1..][i - 1];
      if FirstKeyword(source, kws).Some? {
        var i :| 0 <= i < |kws[1..]| && kws[1..][i] == FirstKeyword(source, kws).value
                 && ContainsIgnoreCase(source, kws[1..][i])
                 && forall j :: 0 <= j < i ==> !ContainsIgnoreCase(source, kws[1..][j]);
        assert forall j :: 1 <= j < i + 1 ==> kws[j] == kws[1..][j - 1];
        assert kws[i + 1] == kws[1..][i];
      }
    }
  }

  /** The inner loop: the keywords in order, stopping at the first found. */
  method FindKeyword(source: string, kws: seq<string>) returns (r: Option<string>)
    ensures r == FirstKeyword(source, kws)
  {
    var i := 0;
    while i < |kws|
      invariant 0 <= i <= |kws|
      invariant FirstKeyword(source, kws) == FirstKeyword(source, kws[i..])
    {
      if ContainsIgnoreCase(source, kws[i]) {
        return Some(kws[i]);
      }
      assert kws[i..][1..] == kws[i + 1..];
      i := i + 1;
    }
    return None;
  }

  /** The keyword the last source that has one gives: each source's match
      overwrites the one before. */
  function LastMatch(sources: seq<string>, kws: seq<string>): Option<string>
  {
    if sources == [] then None
    else
      var here := FirstKeyword(sources[|sources| - 1], kws);
      if here.Some? then here else LastMatch(sources[..|sources| - 1], kws)
  }

  /** `info` with `key` set to the transformed keyword, when there is one. */
  function Record(info: Info, key: Key, found: Option<string>, f: Form)
    : Info
  {
    match found
    case Some(k) => info[key := Word(Shape(f, k))]
    case None => info
  }

  /** The outer loop over the sources for one keyword category: the inner
      `break` leaves only the keyword loop, so every source is scanned. */
  method ScanSources(info: Info, key: Key, sources: seq<string>,
                     kws: seq<string>, f: Form)
    returns (out: Info)
    ensures out == Record(info, key, LastMatch(sources, kws), f)
  {
    out := info;
    var i := 0;
    while i < |sources|
      invariant 0 <= i <= |sources|
      invariant out == Record(info, key, LastMatch(sources[..i], kws), f)
    {
      assert sources[..i + 1][..i] == sources[..i] && sources[..i + 1][i] == sources[i];
      var found := FindKeyword(sources[i], kws);
      assert LastMatch(sources[..i + 1], kws)
          == if found.Some? then found else LastMatch(sources[..i], kws);
      if found.Some? {
        RecordOver(info, key, LastMatch(sources[..i], kws), found.value, f);
        out := out[key := Word(Shape(f, found.value))];
      }
      i := i + 1;
    }
    assert sources[..i] == sources;
  }

  /** A later match overwrites whatever an earlier one stored. */
  lemma RecordOver(info: Info, key: Key, earlier: Option<string>, later: string, f: Form)
    ensures Record(info, key, earlier, f)[key := Word(Shape(f, later))] == Record(info, key, Some(later), f)
  {
  }

  lemma LastOfTwo(filename: string, parent: string, kws: seq<string>)
    ensures LastMatch([filename, parent], kws) == Pick(filename, parent, kws)
  {
    var s := [filename, parent];
    assert s[|s| - 1] == parent && s[..|s| - 1] == [filename];
    var t := [filename];
    assert t[|t| - 1] == filename && t[..|t| - 1] == [];
    assert LastMatch(t, kws) == FirstKeyword(filename, kws);
  }

  /** One keyword category over the file name and then the folder name. */
  method Scan(info: Info, key: Key, filename: string, parent: string, kws: seq<string>, f: Form)
    returns (out: Info)
    ensures out == Record(info, key, Pick(filename, parent, kws), f)
  {
    out := ScanSources(info, key, [filename, parent], kws, f);
    LastOfTwo(filename, parent, kws);
  }

  // ---------------------------------------------------------------------
  // Audio channels: `(?:DDP)?(5\.1|7\.1|2\.0)`.

  const ChannelLayouts: seq<string> := ["5.1", "7.1", "2.0"]

  /** A channel layout at `i`. */
  predicate LayoutAt(s: string, i: nat) {
    i + 3 <= |s| && s[i..i + 3] in ChannelLayouts
  }

  /** The match the pattern makes at `i`, with its `DDP` prefix if any. */
  function ChannelsAt(s: string, i: nat): (r: Option<string>)
    ensures r.Some? ==> (|r.value| == 3 || |r.value| == 6) && i + |r.value| <= |s|
                        && r.value == s[i..i + |r.value|]
  {
    if i + 6 <= |s| && Lower(s[i..i + 3]) == "ddp" && LayoutAt(s, i + 3) then Some(s[i..i + 6])
    else if LayoutAt(s, i) then Some(s[i..i + 3])
    else None
  }

  /** `re.search`: the match at the leftmost position that has one. */
  function ChannelsFrom(s: string, i: nat): (r: Option<string>)
    ensures r.Some? ==> exists k :: i <= k < |s| && ChannelsAt(s, k) == r
    decreases |s| - i
  {
    if i >= |s| then None
    else if ChannelsAt(s, i).Some? then ChannelsAt(s, i)
    else ChannelsFrom(s, i + 1)
  }

  /** The first source with a channel layout gives it. */
  function FirstChannels(sources: seq<string>): (r: Option<string>)
    ensures r.Some? ==> exists i :: 0 <= i < |sources| && ChannelsFrom(sources[i], 0) == r
  {
    if sources == [] then None
    else if ChannelsFrom(sources[0], 0).Some? then ChannelsFrom(sources[0], 0)
    else
      var r := FirstChannels(sources[1..]);
      assert forall i :: 1 <= i < |sources| ==> sources[i] == sources[1..][i - 1];
      r
  }

  // ---------------------------------------------------------------------
  // Languages: `re.findall(r'([A-Z]{3,})', source)`, case-sensitive.

  /** The length of the run of capitals at `i`. */
  function UpperRun(s: string, i: nat): (n: nat)
    ensures i + n <= |s| || n == 0
    ensures forall k :: i <= k < i + n ==> IsUpper(s[k])
    ensures i + n < |s| ==> !IsUpper(s[i + n])
    decreases |s| - i
  {
    if i < |s| && IsUpper(s[i]) then 1 + UpperRun(s, i + 1) else 0
  }

  /** Every run of three or more capitals from `i` on, each taken whole. */
  function UpperWords(s: string, i: nat): (r: seq<string>)
    ensures forall w :: w in r ==> |w| >= 3 && forall k :: 0 <= k < |w| ==> IsUpper(w[k])
    decreases |s| - i
  {
    if i >= |s| then []
    else
      var n := UpperRun(s, i);
      if n >= 3 then [s[i..i + n]] + UpperWords(s, i + n)
      else UpperWords(s, i + 1)
  }

  /** The long-name-to-code map built from the list read as
      `long, short, long, short, …`; a later pair wins over an earlier one
      with the same long name, and an odd last entry is dropped. */
  function CodeOf(valid: seq<string>): (m: map<string, string>)
    ensures forall k :: k in m ==> k in valid && m[k] in valid
    decreases |valid|
  {
    if |valid| < 2 then map[]
    else
      var rest := CodeOf(valid[2..]);
      if valid[0] in rest then rest else rest[valid[0] := valid[1]]
  }

  /** The words that name a valid language, each turned into its code. */
  function LanguageCodes(words: seq<string>, valid: seq<string>): (r: seq<string>)
    ensures |r| <= |words|
    ensures forall l :: l in r ==> l in valid
  {
    if words == [] then []
    else
      var w := words[0];
      var codes := CodeOf(valid);
      var here := if w in valid then [if w in codes then codes[w] else w] else [];
      here + LanguageCodes(words[1..], valid)
  }

  function LanguagesIn(source: string, valid: seq<string>): seq<string> {
    LanguageCodes(UpperWords(source, 0), valid)
  }

  /** The first source naming a language gives the list. */
  function FirstLanguages(sources: seq<string>, valid: seq<string>): (r: seq<string>)
    ensures r != [] ==> exists i :: 0 <= i < |sources| && LanguagesIn(sources[i], valid) == r
    ensures r == [] ==> forall i :: 0 <= i < |sources| ==> LanguagesIn(sources[i], valid) == []
  {
    if sources == [] then []
    else if LanguagesIn(sources[0], valid) != [] then LanguagesIn(sources[0], valid)
    else
      var r := FirstLanguages(sources[1..], valid);
      assert forall i :: 1 <= i < |sources| ==> sources[i] == sources[1..][i - 1];
      r
  }

  // ---------------------------------------------------------------------
  // `extract_media_info`.

  function DropDots(s: string): string { Keep(s, c => c != '.') }
  /** How a found keyword is stored. */
  datatype Form = AsFound | NoDots | Capitals

  function Shape(f: Form, s: string): string {
    match f
    case AsFound => s
    case NoDots => DropDots(s)
    case Capitals => Upper(s)
  }

  /** `key` holds `f` of the keyword, or is absent when there is none. */
  predicate Holds(info: Info, key: Key, found: Option<string>, f: Form) {
    if found.Some? then key in info && info[key] == Word(Shape(f, found.value)) else key !in info
  }

  /** The tag the folder gives, else the one the file name gives. */
  function Pick(filename: string, parent: string, kws: seq<string>): Option<string>
  {
    var p := FirstKeyword(parent, kws);
    if p.Some? then p else FirstKeyword(filename, kws)
  }

  /** The channels loop: the first source with a match ends it. */
  method FindChannels(sources: seq<string>) returns (r: Option<string>)
    ensures r == FirstChannels(sources)
  {
    var i := 0;
    while i < |sources|
      invariant 0 <= i <= |sources|
      invariant FirstChannels(sources) == FirstChannels(sources[i..])
    {
      var c := ChannelsFrom(sources[i], 0);
      if c.Some? {
        return c;
      }
      assert sources[i..][1..] == sources[i + 1..];
      i := i + 1;
    }
    return None;
  }

  /** The languages loop: the first source naming a language ends it. */
  method FindLanguages(sources: seq<string>, valid: seq<string>) returns (r: seq<string>)
    ensures r == FirstLanguages(sources, valid)
  {
    var i := 0;
    while i < |sources|
      invariant 0 <= i <= |sources|
      invariant FirstLanguages(sources, valid) == FirstLanguages(sources[i..], valid)
    {
      var langs := LanguagesIn(sources[i], valid);
      if langs != [] {
        return langs;
      }
      assert sources[i..][1..] == sources[i + 1..];
      i := i + 1;
    }
    return [];
  }

  /** The result: each category in the order the source fills them. */
  function Expected(filename: string, parent: string, kw: Keywords): Info {
    Assemble(Pick(filename, parent, kw.videoCodecs),
             Pick(filename, parent, kw.audioCodecs),
             if kw.audioAtmos.Some? then Some(Pick(filename, parent, kw.audioAtmos.value)) else None,
             FirstChannels([filename, parent]),
             FirstLanguages([filename, parent], kw.validLanguages),
             Pick(filename, parent, kw.dynamicRange),
             Pick(filename, parent, kw.resolutions),
             Pick(filename, parent, kw.movieVersions),
             Pick(filename, parent, kw.streamingServices))
  }

  /** The dictionary built from what each category found; `atmos` is `None`
      when no Atmos keywords are configured and the category is skipped. */
  function Assemble(vc: Option<string>, ac: Option<string>, atmos: Option<Option<string>>,
                    ch: Option<string>, langs: seq<string>, dr: Option<string>,
                    rs: Option<string>, mv: Option<string>, ss: Option<string>): Info
  {
    var m1 := Record(map[], VideoCodec, vc, NoDots);
    var m2 := Record(m1, AudioCodec, ac, AsFound);
    var m3 := if atmos.Some? then Record(m2, AudioAtmos, atmos.value, AsFound) else m2;
    var m4 := Record(m3, AudioChannels, ch, AsFound);
    var m5 := if langs != [] then m4[Languages := Words(langs)] else m4;
    var m6 := Record(m5, DynamicRange, dr, AsFound);
    var m7 := Record(m6, Resolution, rs, Capitals);
    var m8 := Record(m7, MovieVersion, mv, AsFound);
    Record(m8, StreamingService, ss, AsFound)
  }

  method ExtractMediaInfo(filepath: Path, kw: Keywords) returns (info: Info)
    ensures info == Expected(Basename(filepath), Basename(Dirname(filepath)), kw)
  {
    var filename := Basename(filepath);
    var parent := Basename(Dirname(filepath));
    var sources := [filename, parent];
    info := map[];
    info := Scan(info, VideoCodec, filename, parent, kw.videoCodecs, NoDots);
    // The audio codec and Atmos scans share one loop over the sources in
    // the source; they write different keys, so they are taken one after
    // the other here.
    info := Scan(info, AudioCodec, filename, parent, kw.audioCodecs, AsFound);
    if kw.audioAtmos.Some? {
      info := Scan(info, AudioAtmos, filename, parent, kw.audioAtmos.value, AsFound);
    }
    var channels := FindChannels(sources);
    if channels.Some? {
      info := info[AudioChannels := Word(channels.value)];
    }
    var langs := FindLanguages(sources, kw.validLanguages);
    if langs != [] {
      info := info[Languages := Words(langs)];
    }
    info := Scan(info, DynamicRange, filename, parent, kw.dynamicRange, AsFound);
    info := Scan(info, Resolution, filename, parent, kw.resolutions, Capitals);
    info := Scan(info, MovieVersion, filename, parent, kw.movieVersions, AsFound);
    info := Scan(info, StreamingService, filename, parent, kw.streamingServices, AsFound);
  }
}
