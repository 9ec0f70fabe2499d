/**
 * The `version` field of the pydantic_storage metadata: it must match
 * `^\d+\.\d+\.\d+(-[a-zA-Z0-9.]+)?(\+[a-zA-Z0-9.]+)?$`, and it defaults to
 * "1.0.0".  `MatchesPattern` is the pattern read as a grammar; `IsVersion`
 * is a left-to-right recogniser proved to accept exactly those strings.
 * `\d` is a decimal digit of any script; `[a-zA-Z0-9.]` is ASCII.
 */
module Version {
  import opened Wrappers
  import opened Decimal

  const DefaultVersion: string := "1.0.0"

  /**
   * The code points of the digit zero of every script with decimal digits.
   * pydantic compiles the pattern with the Rust regex engine in Unicode mode,
   * where `\d` is any character of general category Nd.  In Unicode 15.0
   * those 680 characters come in runs of ten, each from its script's zero
   * to its nine; these are the runs, in code point order.
   */
  const DigitZeros: seq<int> :=
    [0x30, 0x660, 0x6F0, 0x7C0, 0x966, 0x9E6, 0xA66, 0xAE6]
    + [0xB66, 0xBE6, 0xC66, 0xCE6, 0xD66, 0xDE6, 0xE50, 0xED0]
    + [0xF20, 0x1040, 0x1090, 0x17E0, 0x1810, 0x1946, 0x19D0, 0x1A80]
    + [0x1A90, 0x1B50, 0x1BB0, 0x1C40, 0x1C50, 0xA620, 0xA8D0, 0xA900]
    + [0xA9D0, 0xA9F0, 0xAA50, 0xABF0, 0xFF10, 0x104A0, 0x10D30, 0x11066]
    + [0x110F0, 0x11136, 0x111D0, 0x112F0, 0x11450, 0x114D0, 0x11650, 0x116C0]
    + [0x11730, 0x118E0, 0x11950, 0x11C50, 0x11D50, 0x11DA0, 0x11F50, 0x16A60]
    + [0x16AC0, 0x16B50, 0x1D7CE, 0x1D7D8, 0x1D7E2, 0x1D7EC, 0x1D7F6, 0x1E140]
    + [0x1E2F0, 0x1E4F0, 0x1E950, 0x1FBF0]

  /** `c` is one of the ten digits of the `j`-th run. */
  predicate InRun(c: char, j: nat) {
    j < |DigitZeros| && DigitZeros[j] <= c as int <= DigitZeros[j] + 9
  }

  /**
   * The search for `c` in the runs from the `i`-th on.  The runs are in
   * ascending order, so it stops at the first run above `c`.
   */
  predicate InDigitRuns(c: char, i: nat)
    decreases |DigitZeros| - i
  {
    && i < |DigitZeros|
    && DigitZeros[i] <= c as int
    && (c as int <= DigitZeros[i] + 9 || InDigitRuns(c, i + 1))
  }

  /** `\d` of the pattern. */
  predicate IsDecimalDigit(c: char) {
    InDigitRuns(c, 0)
  }

  /** Each run ends below the next one starts: the first third of the table. */
  lemma DigitZerosAscendingLow()
    ensures forall i :: 0 < i < 24 ==> DigitZeros[i - 1] + 10 <= DigitZeros[i]
  {
  }

  /** The middle third. */
  lemma DigitZerosAscendingMiddle()
    ensures forall i :: 24 <= i < 46 ==> DigitZeros[i - 1] + 10 <= DigitZeros[i]
  {
  }

  /** The last third. */
  lemma DigitZerosAscendingHigh()
    ensures forall i :: 46 <= i < |DigitZeros| ==> DigitZeros[i - 1] + 10 <= DigitZeros[i]
  {
  }

  /** The runs are in ascending order and do not overlap. */
  lemma DigitZerosAscending()
    ensures forall i :: 0 < i < |DigitZeros| ==> DigitZeros[i - 1] + 10 <= DigitZeros[i]
  {
    DigitZerosAscendingLow();
    DigitZerosAscendingMiddle();
    DigitZerosAscendingHigh();
  }

  /** A later run starts no lower than an earlier one. */
  lemma {:induction false} DigitZerosIncrease(i: nat, j: nat)
    requires i <= j < |DigitZeros|
    ensures DigitZeros[i] <= DigitZeros[j]
    decreases j - i
  {
    if i < j {
      DigitZerosAscending();
      DigitZerosIncrease(i, j - 1);
    }
  }

  /** The search from the `i`-th run finds `c` exactly when `c` lies in one of those runs. */
  lemma {:induction false} InDigitRunsCorrect(c: char, i: nat)
    requires i <= |DigitZeros|
    ensures InDigitRuns(c, i) <==> exists j :: i <= j && InRun(c, j)
    decreases |DigitZeros| - i
  {
    if i < |DigitZeros| {
      InDigitRunsCorrect(c, i + 1);
      if c as int < DigitZeros[i] {
        forall j | i <= j && InRun(c, j)
          ensures false
        {
          DigitZerosIncrease(i, j);
        }
      } else if c as int > DigitZeros[i] + 9 {
        assert !InRun(c, i);
        assert (exists j :: i <= j && InRun(c, j)) ==> exists j :: i + 1 <= j && InRun(c, j);
      } else {
        assert InRun(c, i);
      }
    }
  }

  /** `\d` holds exactly for the characters of the digit runs. */
  lemma IsDecimalDigitCorrect(c: char)
    ensures IsDecimalDigit(c) <==> exists j :: InRun(c, j)
  {
    InDigitRunsCorrect(c, 0);
  }

  /** The ASCII digits are decimal digits, and nothing below the ASCII zero is. */
  lemma AsciiDigits(c: char)
    ensures '0' <= c <= '9' ==> IsDecimalDigit(c)
    ensures c < '0' ==> !IsDecimalDigit(c)
  {
    assert DigitZeros[0] == '0' as int;
  }

  /** `\d+`: one or more decimal digits of any script. */
  predicate IsDigits(s: string) {
    |s| > 0 && forall i :: 0 <= i < |s| ==> IsDecimalDigit(s[i])
  }

  /** A character of `[a-zA-Z0-9.]`. */
  predicate IsTagChar(c: char) {
    'a' <= c <= 'z' || 'A' <= c <= 'Z' || IsDigit(c) || c == '.'
  }

  /** `[a-zA-Z0-9.]+` */
  predicate IsTag(s: string) {
    |s| > 0 && forall i :: 0 <= i < |s| ==> IsTagChar(s[i])
  }

  /** `(<marker>[a-zA-Z0-9.]+)?` */
  predicate IsOptionalPart(marker: char, s: string) {
    s == [] || (s[0] == marker && IsTag(s[1..]))
  }

  /** The string the pattern's five groups spell, in order. */
  function Join(major: string, minor: string, patch: string, pre: string, build: string): string {
    major + "." + minor + "." + patch + pre + build
  }

  /** `s` is the pattern with these groups. */
  ghost predicate IsSplit(s: string, major: string, minor: string, patch: string, pre: string, build: string) {
    && IsDigits(major) && IsDigits(minor) && IsDigits(patch)
    && IsOptionalPart('-', pre) && IsOptionalPart('+', build)
    && s == Join(major, minor, patch, pre, build)
  }

  ghost predicate MatchesPattern(s: string) {
    exists major, minor, patch, pre, build :: IsSplit(s, major, minor, patch, pre, build)
  }

  /** The end of the longest run of digits that starts at `i`. */
  function DigitsEnd(s: string, i: nat): (j: nat)
    requires i <= |s|
    ensures i <= j <= |s|
    decreases |s| - i
  {
    if i < |s| && IsDecimalDigit(s[i]) then DigitsEnd(s, i + 1) else i
  }

  /** The run found by DigitsEnd is made of decimal digits and cannot be extended. */
  lemma {:induction false} DigitsEndSpec(s: string, i: nat)
    requires i <= |s|
    ensures forall k :: i <= k < DigitsEnd(s, i) ==> IsDecimalDigit(s[k])
    ensures DigitsEnd(s, i) < |s| ==> !IsDecimalDigit(s[DigitsEnd(s, i)])
    decreases |s| - i
  {
    if i < |s| && IsDecimalDigit(s[i]) {
      DigitsEndSpec(s, i + 1);
    }
  }

  /** The end of the longest run of tag characters that starts at `i`. */
  function TagEnd(s: string, i: nat): (j: nat)
    requires i <= |s|
    ensures i <= j <= |s|
    decreases |s| - i
  {
    if i < |s| && IsTagChar(s[i]) then TagEnd(s, i + 1) else i
  }

  /** The run found by TagEnd is made of IsTagChar characters and cannot be extended. */
  lemma {:induction false} TagEndSpec(s: string, i: nat)
    requires i <= |s|
    ensures forall k :: i <= k < TagEnd(s, i) ==> IsTagChar(s[k])
    ensures TagEnd(s, i) < |s| ==> !IsTagChar(s[TagEnd(s, i)])
    decreases |s| - i
  {
    if i < |s| && IsTagChar(s[i]) {
      TagEndSpec(s, i + 1);
    }
  }

  /** A run of digits that ends where digits stop is the longest one. */
  lemma {:induction false} DigitsEndIs(s: string, i: nat, j: nat)
    requires i <= j <= |s|
    requires forall k :: i <= k < j ==> IsDecimalDigit(s[k])
    requires j < |s| ==> !IsDecimalDigit(s[j])
    ensures DigitsEnd(s, i) == j
    decreases j - i
  {
    if i < j {
      DigitsEndIs(s, i + 1, j);
    }
  }

  /** A run of tag characters that ends where they stop is the longest one. */
  lemma {:induction false} TagEndIs(s: string, i: nat, j: nat)
    requires i <= j <= |s|
    requires forall k :: i <= k < j ==> IsTagChar(s[k])
    requires j < |s| ==> !IsTagChar(s[j])
    ensures TagEnd(s, i) == j
    decreases j - i
  {
    if i < j {
      TagEndIs(s, i + 1, j);
    }
  }

  /** Where an optional `<marker>tag` part starting at `i` ends, or None when the marker has no tag. */
  function PartEnd(s: string, i: nat, marker: char): (r: Option<nat>)
    requires i <= |s|
    ensures r.Some? ==> i <= r.value <= |s|
  {
    if i < |s| && s[i] == marker then
      var j := TagEnd(s, i + 1);
      if j > i + 1 then Some(j) else None
    else Some(i)
  }

  /** Where the three dot-separated numerals at the start of `s` end, and where their two dots are. */
  function CoreCuts(s: string): (r: Option<(nat, nat, nat)>)
    ensures r.Some? ==> 0 < r.value.0 < r.value.1 < r.value.2 <= |s|
  {
    var e1 := DigitsEnd(s, 0);
    if e1 == 0 || e1 == |s| || s[e1] != '.' then None
    else
      var e2 := DigitsEnd(s, e1 + 1);
      if e2 == e1 + 1 || e2 == |s| || s[e2] != '.' then None
      else
        var e3 := DigitsEnd(s, e2 + 1);
        if e3 == e2 + 1 then None else Some((e1, e2, e3))
  }

  /** The recogniser: three dot-separated numerals, then the optional parts, then the end. */
  function IsVersion(s: string): bool {
    var core := CoreCuts(s);
    && core.Some?
    && var pre := PartEnd(s, core.value.2, '-');
    && pre.Some?
    && var build := PartEnd(s, pre.value, '+');
    && build.Some?
    && build.value == |s|
  }

  /** The part found by PartEnd is a well-formed optional part. */
  lemma PartEndSound(s: string, i: nat, marker: char)
    requires i <= |s|
    requires PartEnd(s, i, marker).Some?
    ensures IsOptionalPart(marker, s[i..PartEnd(s, i, marker).value])
  {
    var j := PartEnd(s, i, marker).value;
    if j > i {
      TagEndSpec(s, i + 1);
      assert s[i..j][1..] == s[i + 1..j];
    }
  }

  /**
   * An optional part `part` written at `i` and followed by the end of `s` or
   * by a character that is neither a tag character nor `marker`.
   */
  lemma PartEndComplete(s: string, i: nat, marker: char, part: string)
    requires !IsTagChar(marker)
    requires IsOptionalPart(marker, part)
    requires i + |part| <= |s| && s[i..i + |part|] == part
    requires i + |part| < |s| ==> !IsTagChar(s[i + |part|]) && (part == [] ==> s[i] != marker)
    ensures PartEnd(s, i, marker) == Some(i + |part|)
  {
    if part != [] {
      var j := i + |part|;
      forall k | i + 1 <= k < j
        ensures IsTagChar(s[k])
      {
        assert s[k] == part[1..][k - i - 1];
      }
      TagEndIs(s, i + 1, j);
    }
  }

  /** Cutting `s` at two dots and two more positions and joining the pieces gives `s` back. */
  lemma JoinSlices(s: string, e1: nat, e2: nat, e3: nat, e4: nat)
    requires e1 < e2 < e3 <= e4 <= |s| && s[e1] == '.' && s[e2] == '.'
    ensures Join(s[..e1], s[e1 + 1..e2], s[e2 + 1..e3], s[e3..e4], s[e4..]) == s
  {
    assert s[..e1] + "." == s[..e1 + 1];
    assert s[..e1 + 1] + s[e1 + 1..e2] == s[..e2];
    assert s[..e2] + "." == s[..e2 + 1];
    assert s[..e2 + 1] + s[e2 + 1..e3] == s[..e3];
    assert s[..e3] + s[e3..e4] == s[..e4];
    assert s[..e4] + s[e4..] == s;
  }

  /** Where each group of a joined string sits. */
  lemma JoinPieces(major: string, minor: string, patch: string, pre: string, build: string)
    ensures var s, e1 := Join(major, minor, patch, pre, build), |major|;
      var e2 := e1 + 1 + |minor|;
      var e3 := e2 + 1 + |patch|;
      var e4 := e3 + |pre|;
      && |s| == e4 + |build|
      && s[..e1] == major && s[e1] == '.' && s[e1 + 1..e2] == minor && s[e2] == '.'
      && s[e2 + 1..e3] == patch && s[e3..e4] == pre && s[e4..] == build
  {
    var p1 := major + ".";
    var p2 := p1 + minor;
    var p3 := p2 + ".";
    var p4 := p3 + patch;
    var p5 := p4 + pre;
    var s := p5 + build;
    assert s == Join(major, minor, patch, pre, build);
    assert s[..|p5|] == p5 && s[|p5|..] == build;
    assert p5[..|p4|] == p4 && p5[|p4|..] == pre;
    assert p4[..|p3|] == p3 && p4[|p3|..] == patch;
    assert p3[..|p2|] == p2;
    assert p2[..|p1|] == p1 && p2[|p1|..] == minor;
  }

  /** A non-empty run found by DigitsEnd is a numeral. */
  lemma DigitsRun(s: string, i: nat)
    requires i <= |s| && i < DigitsEnd(s, i)
    ensures IsDigits(s[i..DigitsEnd(s, i)])
  {
    DigitsEndSpec(s, i);
  }

  /** The three pieces CoreCuts finds are numerals separated by dots. */
  lemma CoreCutsSound(s: string)
    requires CoreCuts(s).Some?
    ensures var (e1, e2, e3) := CoreCuts(s).value;
      && IsDigits(s[..e1]) && s[e1] == '.' && IsDigits(s[e1 + 1..e2]) && s[e2] == '.'
      && IsDigits(s[e2 + 1..e3])
  {
    var (e1, e2, e3) := CoreCuts(s).value;
    DigitsRun(s, 0);
    assert s[..e1] == s[0..e1];
    DigitsRun(s, e1 + 1);
    DigitsRun(s, e2 + 1);
  }

  /** Cuts at which the pieces are numerals, dots and optional parts split `s` as the pattern does. */
  lemma SplitAtCuts(s: string, e1: nat, e2: nat, e3: nat, e4: nat)
    requires e1 < e2 < e3 <= e4 <= |s| && s[e1] == '.' && s[e2] == '.'
    requires IsDigits(s[..e1]) && IsDigits(s[e1 + 1..e2]) && IsDigits(s[e2 + 1..e3])
    requires IsOptionalPart('-', s[e3..e4]) && IsOptionalPart('+', s[e4..])
    ensures IsSplit(s, s[..e1], s[e1 + 1..e2], s[e2 + 1..e3], s[e3..e4], s[e4..])
  {
    JoinSlices(s, e1, e2, e3, e4);
  }

  /** The cuts the recogniser finds split `s` as the pattern does. */
  lemma SplitAtFoundCuts(s: string, e1: nat, e2: nat, e3: nat, e4: nat)
    requires CoreCuts(s) == Some((e1, e2, e3)) && e3 <= |s|
    requires PartEnd(s, e3, '-') == Some(e4) && e4 <= |s| && PartEnd(s, e4, '+') == Some(|s|)
    ensures MatchesPattern(s)
  {
    CoreCutsSound(s);
    PartEndSound(s, e3, '-');
    PartEndSound(s, e4, '+');
    assert s[e4..|s|] == s[e4..];
    SplitAtCuts(s, e1, e2, e3, e4);
  }

  /** The recogniser only accepts strings the pattern matches. */
  lemma IsVersionSound(s: string)
    requires IsVersion(s)
    ensures MatchesPattern(s)
  {
    var (e1, e2, e3) := CoreCuts(s).value;
    SplitAtFoundCuts(s, e1, e2, e3, PartEnd(s, e3, '-').value);
  }

  /** A numeral that is the slice `s[i..j]` and not followed by a digit is the run DigitsEnd finds. */
  lemma DigitsSliceEnd(s: string, i: nat, j: nat)
    requires i <= j <= |s| && IsDigits(s[i..j])
    requires j < |s| ==> !IsDecimalDigit(s[j])
    ensures DigitsEnd(s, i) == j
  {
    forall k | i <= k < j
      ensures IsDecimalDigit(s[k])
    {
      assert s[k] == s[i..j][k - i];
    }
    DigitsEndIs(s, i, j);
  }

  /** CoreCuts finds three dot-separated numerals at the start of `s` that a non-digit follows. */
  lemma CoreCutsComplete(s: string, e1: nat, e2: nat, e3: nat)
    requires 0 < e1 < e2 < e3 <= |s|
    requires IsDigits(s[..e1]) && s[e1] == '.' && IsDigits(s[e1 + 1..e2]) && s[e2] == '.'
    requires IsDigits(s[e2 + 1..e3]) && (e3 < |s| ==> !IsDecimalDigit(s[e3]))
    ensures CoreCuts(s) == Some((e1, e2, e3))
  {
    assert s[..e1] == s[0..e1];
    AsciiDigits(s[e1]);
    AsciiDigits(s[e2]);
    DigitsSliceEnd(s, 0, e1);
    DigitsSliceEnd(s, e1 + 1, e2);
    DigitsSliceEnd(s, e2 + 1, e3);
  }

  /** PartEnd finds the two optional parts that end `s`. */
  lemma PartsComplete(s: string, i: nat, j: nat)
    requires i <= j <= |s|
    requires IsOptionalPart('-', s[i..j]) && IsOptionalPart('+', s[j..])
    ensures PartEnd(s, i, '-') == Some(j)
    ensures PartEnd(s, j, '+') == Some(|s|)
  {
    assert s[j..] == s[j..j + |s[j..]|];
    assert j < |s| ==> s[j] == s[j..][0];
    PartEndComplete(s, i, '-', s[i..j]);
    PartEndComplete(s, j, '+', s[j..]);
  }

  /** Every string the pattern matches is accepted by the recogniser. */
  lemma IsVersionComplete(s: string, major: string, minor: string, patch: string, pre: string, build: string)
    requires IsSplit(s, major, minor, patch, pre, build)
    ensures IsVersion(s)
  {
    JoinPieces(major, minor, patch, pre, build);
    var e1 := |major|;
    var e2 := e1 + 1 + |minor|;
    var e3 := e2 + 1 + |patch|;
    var e4 := e3 + |pre|;
    if e3 < |s| {
      assert s[e3] == if pre != [] then pre[0] else build[0] by {
        if pre != [] {
          assert s[e3..e4][0] == s[e3];
        } else {
          assert s[e4..][0] == s[e3];
        }
      }
      AsciiDigits(s[e3]);
    }
    CoreCutsComplete(s, e1, e2, e3);
    PartsComplete(s, e3, e4);
  }

  /** The recogniser accepts exactly the strings the pattern matches. */
  lemma IsVersionCorrect(s: string)
    ensures IsVersion(s) <==> MatchesPattern(s)
  {
    if IsVersion(s) {
      IsVersionSound(s);
    }
    if MatchesPattern(s) {
      var major, minor, patch, pre, build :| IsSplit(s, major, minor, patch, pre, build);
      IsVersionComplete(s, major, minor, patch, pre, build);
    }
  }

  /**
   * The default version, a version with both optional parts, and a version
   * written in Arabic-Indic digits match the pattern.
   */
  lemma AcceptedExamples()
    ensures MatchesPattern(DefaultVersion)
    ensures MatchesPattern("1.0.0-rc.1+b.2")
    ensures MatchesPattern("\U{0661}.\U{0660}.\U{0660}")
  {
    ExampleCharacters();
    assert IsSplit(DefaultVersion, "1", "0", "0", "", "");
    assert DigitZeros[1] == 0x660;
    assert InDigitRuns('\U{0661}', 1) && InDigitRuns('\U{0660}', 1);
    assert IsSplit("\U{0661}.\U{0660}.\U{0660}", "\U{0661}", "\U{0660}", "\U{0660}", "", "");
    var v := "1.0.0-rc.1+b.2";
    assert "-rc.1"[1..] == "rc.1";
    assert "+b.2"[1..] == "b.2";
    assert IsSplit(v, "1", "0", "0", "-rc.1", "+b.2");
  }

  /** The digits and separators the examples below are made of. */
  lemma ExampleCharacters()
    ensures IsDecimalDigit('1') && IsDecimalDigit('0') && !IsDecimalDigit('.') && !IsDecimalDigit('-')
  {
    AsciiDigits('1');
    AsciiDigits('0');
    AsciiDigits('.');
    AsciiDigits('-');
  }

  /** The recogniser stops "1.0" after its second number. */
  lemma ShortVersionNotRecognised()
    ensures !IsVersion("1.0")
  {
    ExampleCharacters();
    DigitsEndIs("1.0", 0, 1);
    DigitsEndIs("1.0", 2, 3);
  }

  /** The recogniser finds no tag after the marker of "1.0.0-". */
  lemma BareMarkerNotRecognised()
    ensures !IsVersion("1.0.0-")
  {
    var bare := "1.0.0-";
    ExampleCharacters();
    DigitsEndIs(bare, 0, 1);
    DigitsEndIs(bare, 2, 3);
    DigitsEndIs(bare, 4, 5);
    assert CoreCuts(bare) == Some((1, 3, 5));
  }

  /** A version with two numbers, and one whose pre-release marker has no tag, do not. */
  lemma RejectedExamples()
    ensures !MatchesPattern("1.0")
    ensures !MatchesPattern("1.0.0-")
  {
    ShortVersionNotRecognised();
    BareMarkerNotRecognised();
    IsVersionCorrect("1.0");
    IsVersionCorrect("1.0.0-");
  }
}
