/** Character classes and string helpers shared by the model.  Python's `str`
    methods and regex classes are Unicode-aware; these are their ASCII
    counterparts (see README, "Left out"). */
module Text {

  predicate IsDigit(c: char) { '0' <= c <= '9' }
  predicate IsUpper(c: char) { 'A' <= c <= 'Z' }
  predicate IsLower(c: char) { 'a' <= c <= 'z' }
  predicate IsAlpha(c: char) { IsUpper(c) || IsLower(c) }
  predicate IsAlnum(c: char) { IsAlpha(c) || IsDigit(c) }

  /** Regex `\w`. */
  predicate IsWordChar(c: char) { IsAlnum(c) || c == '_' }

  /** Regex `\s`, and what `str.strip()` removes. */
  predicate IsSpace(c: char) {
    c == ' ' || c == '\t' || c == '\n' || c == '\r' || c == '\U{0B}' || c == '\U{0C}'
  }

  predicate IsHexDigit(c: char) { IsDigit(c) || 'a' <= c <= 'f' || 'A' <= c <= 'F' }

  predicate AllDigits(s: string) { forall i :: 0 <= i < |s| ==> IsDigit(s[i]) }

  function LowerChar(c: char): (r: char)
    ensures !IsUpper(r)
    ensures IsUpper(c) ==> IsLower(r)
    ensures !IsUpper(c) ==> r == c
  {
    if IsUpper(c) then (c as int - 'A' as int + 'a' as int) as char else c
  }

  function UpperChar(c: char): (r: char)
    ensures !IsLower(r)
    ensures IsLower(c) ==> IsUpper(r)
    ensures !IsLower(c) ==> r == c
  {
    if IsLower(c) then (c as int - 'a' as int + 'A' as int) as char else c
  }

  /** `str.lower()`. */
  function Lower(s: string): (r: string)
    ensures |r| == |s|
    ensures forall i :: 0 <= i < |s| ==> r[i] == LowerChar(s[i])
  {
    if s == [] then [] else [LowerChar(s[0])] + Lower(s[1..])
  }

  /** `str.upper()`. */
  function Upper(s: string): (r: string)
    ensures |r| == |s|
    ensures forall i :: 0 <= i < |s| ==> r[i] == UpperChar(s[i])
  {
    if s == [] then [] else [UpperChar(s[0])] + Upper(s[1..])
  }

  predicate StartsWith(s: string, prefix: string) {
    |prefix| <= |s| && s[..|prefix|] == prefix
  }

  predicate EndsWith(s: string, suffix: string) {
    |suffix| <= |s| && s[|s| - |suffix|..] == suffix
  }

  /** `a + b + c` starts with `a` and ends with `c`, and with `b + c`. */
  lemma ConcatEnds(a: string, b: string, c: string)
    ensures StartsWith(a + b + c, a) && EndsWith(a + b + c, c) && EndsWith(a + b + c, b + c)
  {
    var s := a + b + c;
    assert s[..|a|] == a;
    assert s[|s| - |c|..] == c;
    assert s == a + (b + c);
    assert s[|a|..] == b + c;
  }

  /** Python's `sub in s`. */
  predicate Contains(s: string, sub: string)
    decreases |s|
  {
    StartsWith(s, sub) || (s != [] && Contains(s[1..], sub))
  }

  /** `sub.lower() in s.lower()`, a case-insensitive search for a literal. */
  predicate ContainsIgnoreCase(s: string, sub: string) {
    Contains(Lower(s), Lower(sub))
  }

  /** `re.sub(<class>, ' ', s)` for a one-character class. */
  function ReplaceWithSpace(s: string, cls: char -> bool): (r: string)
    ensures |r| == |s|
    ensures forall i :: 0 <= i < |s| ==> r[i] == if cls(s[i]) then ' ' else s[i]
  {
    if s == [] then [] else [if cls(s[0]) then ' ' else s[0]] + ReplaceWithSpace(s[1..], cls)
  }

  /** Nothing of the class is left when the blank is not in it. */
  lemma ReplaceClears(s: string, cls: char -> bool)
    requires !cls(' ')
    ensures forall c :: c in ReplaceWithSpace(s, cls) ==> !cls(c)
  {
    var r := ReplaceWithSpace(s, cls);
    forall c | c in r ensures !cls(c) {
      var i :| 0 <= i < |r| && r[i] == c;
    }
  }

  /** Nothing in the class, nothing replaced. */
  lemma ReplaceNone(s: string, cls: char -> bool)
    requires forall i :: 0 <= i < |s| ==> !cls(s[i])
    ensures ReplaceWithSpace(s, cls) == s
  {
    var r := ReplaceWithSpace(s, cls);
    forall i | 0 <= i < |s| ensures r[i] == s[i] {}
  }

  /** Keeps the characters that satisfy `keep`, in order. */
  function Keep(s: string, keep: char -> bool): (r: string)
    ensures |r| <= |s|
    ensures forall c :: c in r ==> c in s && keep(c)
  {
    if s == [] then [] else (if keep(s[0]) then [s[0]] else []) + Keep(s[1..], keep)
  }

  lemma {:induction false} KeepAll(s: string, keep: char -> bool)
    requires forall c :: c in s ==> keep(c)
    ensures Keep(s, keep) == s
  {
    if s != [] {
      assert forall c :: c in s[1..] ==> c in s;
      KeepAll(s[1..], keep);
    }
  }

  /** Leading whitespace removed (`str.lstrip()`). */
  function LStrip(s: string): (r: string)
    ensures |r| <= |s| && r == s[|s| - |r|..]
    ensures r == [] || !IsSpace(r[0])
  {
    if s != [] && IsSpace(s[0]) then LStrip(s[1..]) else s
  }

  /** Trailing whitespace removed (`str.rstrip()`). */
  function RStrip(s: string): (r: string)
    ensures |r| <= |s| && r == s[..|r|]
    ensures r == [] || !IsSpace(r[|r| - 1])
  {
    if s != [] && IsSpace(s[|s| - 1]) then RStrip(s[..|s| - 1]) else s
  }

  /** `str.strip()`. */
  function Strip(s: string): (r: string)
    ensures |r| <= |s|
    ensures r == [] || (!IsSpace(r[0]) && !IsSpace(r[|r| - 1]))
  {
    var l := LStrip(s);
    var r := RStrip(l);
    assert r != [] ==> r[0] == l[0];
    r
  }

  /** `re.sub(r'\s+', ' ', s)`: every run of whitespace becomes one space. */
  function CollapseSpaces(s: string): (r: string)
    ensures |r| <= |s|
    ensures s != [] ==> r != []
    ensures s != [] && !IsSpace(s[0]) ==> r[0] == s[0]
    ensures s != [] && IsSpace(s[0]) ==> r[0] == ' '
    ensures forall c :: c in r ==> c in s || c == ' '
    decreases |s|
  {
    if s == [] then []
    else if IsSpace(s[0]) then [' '] + CollapseSpaces(LStrip(s[1..]))
    else [s[0]] + CollapseSpaces(s[1..])
  }

  /** `re.sub(r'\s+', ' ', s).strip()`, the idiom the source uses to tidy names. */
  function Squash(s: string): (r: string)
    ensures |r| <= |s|
    ensures forall c :: c in r ==> c in s || c == ' '
  {
    var c := CollapseSpaces(s);
    StripSubseq(c);
    Strip(c)
  }

  lemma StripSubseq(s: string)
    ensures forall c :: c in Strip(s) ==> c in s
  {
    var l := LStrip(s);
    assert forall c :: c in RStrip(l) ==> c in l;
    assert forall c :: c in l ==> c in s;
  }

  /** Whitespace is single spaces only, never two in a row. */
  predicate SingleSpaced(s: string) {
    && (forall i :: 0 <= i < |s| && IsSpace(s[i]) ==> s[i] == ' ')
    && (forall i :: 0 < i < |s| && s[i] == ' ' ==> s[i - 1] != ' ')
  }

  /** What `Squash` guarantees: single spaces, none at either end. */
  predicate Squashed(s: string) {
    SingleSpaced(s) && (s == [] || (s[0] != ' ' && s[|s| - 1] != ' '))
  }

  lemma {:induction false} CollapseSingleSpaced(s: string)
    ensures SingleSpaced(CollapseSpaces(s))
    decreases |s|
  {
    if s == [] {
    } else if IsSpace(s[0]) {
      var t := LStrip(s[1..]);
      CollapseSingleSpaced(t);
      SingleSpacedCons(' ', CollapseSpaces(t));
    } else {
      CollapseSingleSpaced(s[1..]);
      SingleSpacedCons(s[0], CollapseSpaces(s[1..]));
    }
  }

  /** One more character in front keeps single spacing when it is no second space. */
  lemma SingleSpacedCons(c: char, rest: string)
    requires SingleSpaced(rest)
    requires IsSpace(c) ==> c == ' '
    requires c == ' ' ==> rest == [] || rest[0] != ' '
    ensures SingleSpaced([c] + rest)
  {
    var s := [c] + rest;
    forall i | 0 < i < |s| ensures s[i] == rest[i - 1] {}
  }

  lemma {:induction false} CollapseIdentity(s: string)
    requires SingleSpaced(s)
    ensures CollapseSpaces(s) == s
    decreases |s|
  {
    if s != [] {
      assert SingleSpaced(s[1..]) by {
        forall i | 0 < i < |s[1..]| && s[1..][i] == ' ' ensures s[1..][i - 1] != ' ' {
          assert s[i + 1] == ' ';
        }
      }
      if IsSpace(s[0]) {
        assert s[0] == ' ';
        assert s[1..] == [] || s[1] != ' ';
        assert s[1..] == [] || !IsSpace(s[1]);
        assert LStrip(s[1..]) == s[1..];
      }
      CollapseIdentity(s[1..]);
    }
  }

  lemma {:induction false} LStripIdentity(s: string)
    requires s == [] || !IsSpace(s[0])
    ensures LStrip(s) == s
  {
  }

  lemma {:induction false} RStripIdentity(s: string)
    requires s == [] || !IsSpace(s[|s| - 1])
    ensures RStrip(s) == s
  {
  }

  lemma SingleSpacedInfix(s: string, i: nat, j: nat)
    requires i <= j <= |s| && SingleSpaced(s)
    ensures SingleSpaced(s[i..j])
  {
    var t := s[i..j];
    forall k | 0 <= k < |t| ensures t[k] == s[i + k] {}
  }

  lemma SquashSquashed(s: string)
    ensures Squashed(Squash(s))
  {
    CollapseSingleSpaced(s);
    StripSingleSpaced(CollapseSpaces(s));
  }

  /** Stripping a single-spaced string leaves it squashed. */
  lemma StripSingleSpaced(c: string)
    requires SingleSpaced(c)
    ensures Squashed(Strip(c))
  {
    var l := LStrip(c);
    SingleSpacedInfix(c, |c| - |l|, |c|);
    var r := RStrip(l);
    SingleSpacedInfix(l, 0, |r|);
    assert Strip(c) == r;
  }

  lemma SquashIdentity(s: string)
    requires Squashed(s)
    ensures Squash(s) == s
  {
    CollapseIdentity(s);
    assert s == [] || !IsSpace(s[0]);
    LStripIdentity(s);
    assert s == [] || !IsSpace(s[|s| - 1]);
    RStripIdentity(s);
  }

  /** The length of the run of digits starting at `i`. */
  function DigitRun(s: string, i: nat): (n: nat)
    ensures n == 0 || i + n <= |s|
    ensures forall k :: i <= k < i + n ==> IsDigit(s[k])
    ensures i + n < |s| ==> !IsDigit(s[i + n])
    decreases |s| - i
  {
    if i < |s| && IsDigit(s[i]) then 1 + DigitRun(s, i + 1) else 0
  }

  /** The digit run at the start of `a + rest` is `a` when `rest` does not
      start with a digit. */
  lemma RunOfDigits(a: string, rest: string, i: nat)
    requires i <= |a| && (forall k :: i <= k < |a| ==> IsDigit(a[k])) && (rest == [] || !IsDigit(rest[0]))
    ensures DigitRun(a + rest, i) == |a| - i
    decreases |a| - i
  {
    var s := a + rest;
    if i < |a| {
      assert s[i] == a[i];
      RunOfDigits(a, rest, i + 1);
    } else if rest != [] {
      assert s[i] == rest[0];
    }
  }

  /** The length of the run of whitespace starting at `i`. */
  function SpaceRun(s: string, i: nat): (n: nat)
    ensures n == 0 || i + n <= |s|
    ensures forall k :: i <= k < i + n ==> IsSpace(s[k])
    ensures i + n < |s| ==> !IsSpace(s[i + n])
    decreases |s| - i
  {
    if i < |s| && IsSpace(s[i]) then 1 + SpaceRun(s, i + 1) else 0
  }

  /** `str.zfill(n)` on a string of digits. */
  function ZFill(s: string, n: nat): (r: string)
    ensures |r| == if |s| >= n then |s| else n
    ensures EndsWith(r, s)
    ensures forall i :: 0 <= i < |r| - |s| ==> r[i] == '0'
  {
    if |s| >= n then s else seq(n - |s|, _ => '0') + s
  }

  function DigitChar(d: nat): (c: char)
    requires d < 10
    ensures IsDigit(c)
  {
    ('0' as int + d) as char
  }

  /** `str(n)` for a natural number. */
  function NatToString(n: nat): (r: string)
    ensures |r| >= 1 && AllDigits(r)
    ensures n >= 10 ==> r[0] != '0'
    ensures n < 10 ==> r == [DigitChar(n)]
  {
    if n < 10 then [DigitChar(n)]
    else
      var h := NatToString(n / 10);
      h + [DigitChar(n % 10)]
  }

  /** `int(s)` for a non-empty string of digits. */
  function DigitsValue(s: string): (n: nat)
    requires AllDigits(s)
    decreases |s|
  {
    if s == [] then 0 else DigitsValue(s[..|s| - 1]) * 10 + (s[|s| - 1] as int - '0' as int)
  }

  lemma {:induction false} DigitsValueOfNatToString(n: nat)
    ensures DigitsValue(NatToString(n)) == n
  {
    if n >= 10 {
      DigitsValueOfNatToString(n / 10);
      var s := NatToString(n);
      assert s[..|s| - 1] == NatToString(n / 10);
    }
  }

  /** `str.split(sep)`. */
  function Split(s: string, sep: char): (parts: seq<string>)
    ensures |parts| >= 1
    ensures forall i :: 0 <= i < |parts| ==> sep !in parts[i]
    decreases |s|
  {
    if s == [] then [""]
    else
      var rest := Split(s[1..], sep);
      if s[0] == sep then [""] + rest else [[s[0]] + rest[0]] + rest[1..]
  }

  /** `sep.join(parts)`. */
  function Join(parts: seq<string>, sep: char): string
  {
    if parts == [] then ""
    else if |parts| == 1 then parts[0]
    else parts[0] + [sep] + Join(parts[1..], sep)
  }

  lemma {:induction false} JoinSplit(s: string, sep: char)
    ensures Join(Split(s, sep), sep) == s
    decreases |s|
  {
    if s != [] {
      JoinSplit(s[1..], sep);
      var rest := Split(s[1..], sep);
      if s[0] != sep {
        if |rest| == 1 {
        } else {
          assert Join(rest, sep) == rest[0] + [sep] + Join(rest[1..], sep);
          assert ([[s[0]] + rest[0]] + rest[1..])[1..] == rest[1..];
        }
      } else {
        assert ([""] + rest)[1..] == rest;
      }
    }
  }
}
