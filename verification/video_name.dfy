/** `format_video_name`: the canonical `.mp4` file name of a video found in the search
    metadata. The two regular expressions it uses are stated here as string predicates:
    `\.(\w+)$` (the extension check) and `(_interval_\d+)?(\.mp4)?$` (the suffix removed). */
module VideoName {
  import opened Outcomes
  import opened Strings

  /** Python's `\w`, restricted to ASCII. */
  predicate IsWordChar(c: char) {
    ('a' <= c <= 'z') || ('A' <= c <= 'Z') || ('0' <= c <= '9') || c == '_'
  }

  /** Python's `\d`, restricted to ASCII. */
  predicate IsDigit(c: char) {
    '0' <= c <= '9'
  }

  /** The part of `name` that `$` anchors to: without the MULTILINE flag `$` matches at the
      end of the string and also just before one final newline. */
  function Anchored(name: string): (s: string)
    ensures StartsWith(name, s)
    ensures s == name || (name == s + "\n")
  {
    if |name| > 0 && name[|name| - 1] == '\n' then name[..|name| - 1] else name
  }

  // ---------------------------------------------------------------------------
  // The extension check `re.search(r"\.(\w+)$", name)`
  // ---------------------------------------------------------------------------

  /** `s` ends with a dot followed by the non-empty word `e`. */
  predicate DotWord(s: string, e: string) {
    && |e| > 0
    && (forall i :: 0 <= i < |e| ==> IsWordChar(e[i]))
    && EndsWith(s, "." + e)
  }

  /** The regular expression `\.(\w+)$` matches `name` with group 1 equal to `e`: the dot and
      the word end the string, or are followed by its one final newline. */
  predicate ExtensionPattern(name: string, e: string) {
    DotWord(name, e) || (EndsWith(name, "\n") && DotWord(name[..|name| - 1], e))
  }

  /** Group 1 of the search, if it matches: the word characters that end the anchored text,
      when a dot precedes them. */
  function Extension(name: string): (e: Option<string>)
    ensures e.Some? ==> ExtensionPattern(name, e.value)
  {
    var s := Anchored(name);
    var k := SuffixRun(s, IsWordChar);
    if 0 < k < |s| && s[|s| - k - 1] == '.' then
      RunIsDotWord(s, k);
      Some(s[|s| - k..])
    else None
  }

  /** A dot-word ending is the trailing word run, preceded by the dot. */
  lemma DotWordIsRun(s: string, e: string)
    requires DotWord(s, e)
    ensures SuffixRun(s, IsWordChar) == |e| && s[|s| - |e| - 1] == '.' && s[|s| - |e|..] == e
  {
    var n := |s| - |e|;
    var tail := s[n - 1..];
    assert tail == "." + e;
    assert s[n - 1] == tail[0];
    assert s[n..] == tail[1..];
    forall i | n <= i < |s|
      ensures IsWordChar(s[i])
    {
      assert s[i] == e[i - n];
    }
    SuffixRunExact(s, IsWordChar, |e|);
  }

  /** A trailing word run preceded by a dot is a dot-word ending. */
  lemma RunIsDotWord(s: string, k: nat)
    requires k == SuffixRun(s, IsWordChar) && 0 < k < |s| && s[|s| - k - 1] == '.'
    ensures DotWord(s, s[|s| - k..])
  {
    var n := |s| - k;
    var e := s[n..];
    forall i | 0 <= i < |e|
      ensures IsWordChar(e[i])
    {
      assert e[i] == s[n + i];
    }
    var dot: string := [s[n - 1]];
    assert dot == ".";
    assert s[n - 1..] == dot + e;
    assert |"." + e| == k + 1;
  }

  /** On text without a final newline, the trailing word run after a dot is the one word
      `DotWord` can see. */
  lemma DotWordRun(s: string, e: string)
    ensures DotWord(s, e) <==>
      (var k := SuffixRun(s, IsWordChar); 0 < k < |s| && s[|s| - k - 1] == '.' && e == s[|s| - k..])
  {
    var k := SuffixRun(s, IsWordChar);
    if DotWord(s, e) {
      DotWordIsRun(s, e);
    }
    if 0 < k < |s| && s[|s| - k - 1] == '.' && e == s[|s| - k..] {
      RunIsDotWord(s, k);
    }
  }

  /** A dot-word ending never ends in a newline. */
  lemma DotWordNoNewline(s: string, e: string)
    requires DotWord(s, e)
    ensures Anchored(s) == s
  {
    assert s[|s| - 1] == e[|e| - 1];
  }

  /** `Extension` finds exactly the group the regular expression captures. */
  lemma ExtensionMatchesPattern(name: string, e: string)
    ensures Extension(name) == Some(e) <==> ExtensionPattern(name, e)
  {
    var s := Anchored(name);
    DotWordRun(s, e);
    if DotWord(name, e) {
      DotWordNoNewline(name, e);
    }
  }

  // ---------------------------------------------------------------------------
  // The suffix removal `re.sub(r"(_interval_\d+)?(\.mp4)?$", "", name)`
  // ---------------------------------------------------------------------------

  /** `_interval_` followed by one or more digits. */
  predicate IntervalTag(m: string) {
    |m| > 10 && m[..10] == "_interval_" && forall i :: 10 <= i < |m| ==> IsDigit(m[i])
  }

  /** The text `m` is matched in full by `(_interval_\d+)?(\.mp4)?`. */
  predicate SuffixForm(m: string) {
    || m == ""
    || m == ".mp4"
    || IntervalTag(m)
    || (EndsWith(m, ".mp4") && IntervalTag(m[..|m| - 4]))
  }

  /** `name` ends with an `_interval_<digits>` tag. */
  ghost predicate HasIntervalTag(name: string) {
    exists j :: 0 <= j < |name| && IntervalTag(name[j..])
  }

  /** What the substitution leaves of text with no final newline: the match that starts
      leftmost removed. An optional `.mp4` and, before it, an optional `_interval_<digits>`. */
  function StripSuffix(s: string): (r: string)
    ensures StartsWith(s, r)
  {
    var t := if EndsWith(s, ".mp4") then s[..|s| - 4] else s;
    var d := SuffixRun(t, IsDigit);
    if d > 0 && EndsWith(t[..|t| - d], "_interval_") then t[..|t| - d - 10] else t
  }

  /** The digits of an `_interval_` tag that ends `t` are its whole trailing digit run. */
  lemma TagDigitRun(t: string, j: nat)
    requires j <= |t| && IntervalTag(t[j..])
    ensures SuffixRun(t, IsDigit) == |t| - j - 10
  {
    var m := t[j..];
    forall i | j + 10 <= i < |t|
      ensures IsDigit(t[i])
    {
      assert t[i] == m[i - j];
    }
    assert m[..10][9] == '_';
    assert t[j + 9] == m[9];
    SuffixRunExact(t, IsDigit, |t| - j - 10);
  }

  /** The digits of an `_interval_` tag that ends `t` are its whole trailing digit run, and
      `_interval_` comes before them. */
  lemma TagDigits(t: string, j: nat)
    requires j <= |t| && IntervalTag(t[j..])
    ensures SuffixRun(t, IsDigit) == |t| - j - 10
    ensures EndsWith(t[..j + 10], "_interval_")
  {
    TagDigitRun(t, j);
    assert t[..j + 10][j..] == t[j..][..10];
  }

  /** An interval tag followed by `.mp4` is matched in full. */
  lemma TagMp4Form(m: string)
    requires IntervalTag(m)
    ensures SuffixForm(m + ".mp4")
  {
    assert (m + ".mp4")[..|m|] == m;
  }

  /** The part of `t` that `StripSuffix` keeps after `.mp4` is gone: `t` less a trailing
      interval tag, if there is one. */
  lemma DropTag(t: string) returns (b: string, m: string)
    ensures t == b + m && (m == "" || IntervalTag(m))
    ensures b == (var d := SuffixRun(t, IsDigit);
                  if d > 0 && EndsWith(t[..|t| - d], "_interval_") then t[..|t| - d - 10] else t)
  {
    var d := SuffixRun(t, IsDigit);
    RunIsTag(t);
    if d > 0 && EndsWith(t[..|t| - d], "_interval_") {
      b, m := t[..|t| - d - 10], t[|t| - d - 10..];
    } else {
      b, m := t, "";
    }
    assert t == b + m;
  }

  /** Text ending in `.mp4` is its stem followed by `.mp4`. */
  lemma Mp4Stem(s: string)
    requires EndsWith(s, ".mp4")
    ensures s == s[..|s| - 4] + ".mp4"
  {
    assert s[|s| - 4..] == ".mp4";
  }

  /** `b + m + ".mp4"` with `m` empty or a tag: `b` is kept and the rest is a full match. */
  lemma KeepsStemOfMp4(s: string, b: string, m: string)
    requires s == b + (m + ".mp4") && (m == "" || IntervalTag(m))
    ensures StartsWith(s, b) && SuffixForm(s[|b|..])
  {
    assert s[..|b|] == b;
    assert s[|b|..] == m + ".mp4";
    if m == "" {
      assert m + ".mp4" == ".mp4";
    } else {
      TagMp4Form(m);
    }
  }

  /** The text before `.mp4` is matched like `StripSuffix` of the whole text. */
  lemma StripOfMp4(s: string)
    requires EndsWith(s, ".mp4")
    ensures StartsWith(s, StripSuffix(s)) && SuffixForm(s[|StripSuffix(s)|..])
  {
    var b, m := SplitMp4(s);
    KeepsStemOfMp4(s, b, m);
  }

  /** Text ending in `.mp4` is what `StripSuffix` keeps, then an optional tag, then `.mp4`. */
  lemma SplitMp4(s: string) returns (b: string, m: string)
    requires EndsWith(s, ".mp4")
    ensures b == StripSuffix(s) && s == b + (m + ".mp4") && (m == "" || IntervalTag(m))
  {
    var t := s[..|s| - 4];
    b, m := DropTag(t);
    Mp4Stem(s);
    RegroupMp4(s, t, b, m);
  }

  lemma RegroupMp4(s: string, t: string, b: string, m: string)
    requires s == t + ".mp4" && t == b + m
    ensures s == b + (m + ".mp4")
  {
  }

  /** Without `.mp4`, only an interval tag can be removed. */
  lemma StripOfPlain(s: string)
    requires !EndsWith(s, ".mp4")
    ensures StartsWith(s, StripSuffix(s)) && SuffixForm(s[|StripSuffix(s)|..])
  {
    var b, m := DropTag(s);
    assert b == StripSuffix(s);
    assert s[|b|..] == m;
  }

  /** `StripSuffix` keeps a prefix of the text and removes a suffix the pattern matches in full. */
  lemma StripRemovesMatch(s: string)
    ensures StartsWith(s, StripSuffix(s))
    ensures SuffixForm(s[|StripSuffix(s)|..])
  {
    if EndsWith(s, ".mp4") {
      StripOfMp4(s);
    } else {
      StripOfPlain(s);
    }
  }

  /** `StripSuffix` removes a suffix the pattern matches in full, and no earlier start
      position matches: it is the leftmost match, which `re.sub` removes. */
  lemma StripIsLeftmostMatch(s: string)
    ensures StartsWith(s, StripSuffix(s))
    ensures SuffixForm(s[|StripSuffix(s)|..])
    ensures forall j :: 0 <= j < |StripSuffix(s)| ==> !SuffixForm(s[j..])
  {
    StripRemovesMatch(s);
    forall j | 0 <= j < |StripSuffix(s)|
      ensures !SuffixForm(s[j..])
    {
      MatchStartsNoEarlier(s, j);
    }
  }

  /** An interval tag ends in a digit preceded by a digit or `_`, never in `.mp4`. */
  lemma TagNotMp4(s: string, j: nat)
    requires j <= |s| && IntervalTag(s[j..])
    ensures !EndsWith(s, ".mp4")
  {
    var m := s[j..];
    assert m[|m| - 2] == s[|s| - 2];
    assert IsDigit(m[|m| - 2]) || m[|m| - 2] == m[9];
  }

  /** A tag without `.mp4` at position `j` makes the substitution start at `j`. */
  lemma StripAtTag(s: string, j: nat)
    requires j <= |s| && IntervalTag(s[j..])
    ensures StripSuffix(s) == s[..j]
  {
    TagNotMp4(s, j);
    TagDigits(s, j);
  }

  /** A tag followed by `.mp4` at position `j` makes the substitution start at `j`. */
  lemma StripAtTagMp4(s: string, j: nat)
    requires j <= |s| && EndsWith(s[j..], ".mp4") && IntervalTag(s[j..][..|s[j..]| - 4])
    ensures StripSuffix(s) == s[..j]
  {
    var t := s[..|s| - 4];
    assert EndsWith(s, ".mp4");
    assert t[j..] == s[j..][..|s[j..]| - 4];
    TagDigits(t, j);
    assert t[..j] == s[..j];
  }

  /** Wherever the pattern matches in full, the substitution starts there or further left. */
  lemma MatchStartsNoEarlier(s: string, j: nat)
    requires j <= |s|
    ensures SuffixForm(s[j..]) ==> |StripSuffix(s)| <= j
  {
    var m := s[j..];
    if m == ".mp4" {
      assert EndsWith(s, ".mp4");
    }
    if IntervalTag(m) {
      StripAtTag(s, j);
    }
    if EndsWith(m, ".mp4") && IntervalTag(m[..|m| - 4]) {
      StripAtTagMp4(s, j);
    }
  }

  // ---------------------------------------------------------------------------
  // format_video_name
  // ---------------------------------------------------------------------------

  /** The message of the ValueError raised for a foreign extension. */
  function InvalidExtensionMessage(e: string): string {
    "Invalid file extension: ." + e + ". Only '.mp4' is allowed."
  }

  /** Every invalid-extension message starts the same way. */
  lemma InvalidMessagePrefix(e: string)
    ensures StartsWith(InvalidExtensionMessage(e), "Invalid file extension")
  {
    var head := "Invalid file extension";
    var m := InvalidExtensionMessage(e);
    assert m == head + (": ." + e + ". Only '.mp4' is allowed.");
    assert m[..|head|] == head;
  }

  /** `format_video_name(name)`: a ValueError for an extension other than `mp4`; otherwise
      the leftmost `(_interval_\d+)?(\.mp4)?` match before `$` removed and `.mp4` appended. */
  function FormatVideoName(name: string): (r: Result<string, string>)
    ensures r.Success? ==> EndsWith(r.value, ".mp4")
    ensures r.Failure? ==> StartsWith(r.error, "Invalid file extension")
  {
    var ext := Extension(name);
    if ext.Some? && ext.value != "mp4" then
      InvalidMessagePrefix(ext.value);
      Failure(InvalidExtensionMessage(ext.value))
    else
      var s := Anchored(name);
      var kept := StripSuffix(s) + name[|s|..];
      ConcatEnds(kept, ".mp4", ".mp4");
      Success(kept + ".mp4")
  }

  /** The name is rejected exactly when the extension pattern matches with a group other
      than `mp4`. */
  lemma FormatRejectsIff(name: string)
    ensures FormatVideoName(name).Failure? <==> exists e :: ExtensionPattern(name, e) && e != "mp4"
  {
    if FormatVideoName(name).Failure? {
      ExtensionMatchesPattern(name, Extension(name).value);
    }
    forall e | ExtensionPattern(name, e) && e != "mp4"
      ensures FormatVideoName(name).Failure?
    {
      ExtensionMatchesPattern(name, e);
    }
  }

  /** A name ending in `.mp4` always passes the extension check. */
  lemma Mp4Accepted(b: string)
    ensures Extension(b + ".mp4") == Some("mp4")
  {
    var name := b + ".mp4";
    var e := "mp4";
    assert "." + e == ".mp4";
    assert name[|name| - 4..] == ".mp4";
    assert IsWordChar(e[0]) && IsWordChar(e[1]) && IsWordChar(e[2]);
    assert DotWord(name, e);
    ExtensionMatchesPattern(name, e);
  }

  /** A name ending in `.mp4` is formatted by the substitution alone. */
  lemma FormatMp4Name(t: string)
    ensures FormatVideoName(t + ".mp4") == Success(StripSuffix(t + ".mp4") + ".mp4")
  {
    var name := t + ".mp4";
    Mp4Accepted(t);
    assert name[|name| - 1] == '4';
    assert Anchored(name) == name;
    assert name[|name|..] == [];
    assert StripSuffix(name) + [] == StripSuffix(name);
  }

  /** The trailing digit run after `_interval_` that the substitution removes is a tag. */
  lemma RunIsTag(b: string)
    ensures var d := SuffixRun(b, IsDigit);
      d > 0 && EndsWith(b[..|b| - d], "_interval_") ==> IntervalTag(b[|b| - d - 10..])
  {
    var d := SuffixRun(b, IsDigit);
    if d > 0 && EndsWith(b[..|b| - d], "_interval_") {
      var n := |b| - d - 10;
      var m := b[n..];
      assert m[..10] == b[..|b| - d][n..];
      forall i | 10 <= i < |m|
        ensures IsDigit(m[i])
      {
        assert m[i] == b[n + i];
      }
    }
  }

  /** The substitution removes `_interval_<digits>.mp4` from the end of a name. */
  lemma StripTagMp4(b: string, digits: string)
    requires |digits| > 0 && forall i :: 0 <= i < |digits| ==> IsDigit(digits[i])
    ensures StripSuffix(b + "_interval_" + digits + ".mp4") == b
  {
    var name := b + "_interval_" + digits + ".mp4";
    var m := name[|b|..];
    assert m == "_interval_" + digits + ".mp4";
    var tag := m[..|m| - 4];
    assert tag == "_interval_" + digits;
    assert tag[..10] == "_interval_";
    assert forall i :: 10 <= i < |tag| ==> tag[i] == digits[i - 10];
    StripAtTagMp4(name, |b|);
    assert name[..|b|] == b;
  }

  /** One `_interval_<digits>` tag in front of `.mp4` is removed, whatever comes before it. */
  lemma FormatStripsInterval(b: string, digits: string)
    requires |digits| > 0 && forall i :: 0 <= i < |digits| ==> IsDigit(digits[i])
    ensures FormatVideoName(b + "_interval_" + digits + ".mp4") == Success(b + ".mp4")
  {
    FormatMp4Name(b + "_interval_" + digits);
    StripTagMp4(b, digits);
  }

  /** The substitution on `b + ".mp4"` removes only `.mp4` exactly when `b` ends in no tag. */
  lemma StripMp4(b: string)
    ensures !HasIntervalTag(b) ==> StripSuffix(b + ".mp4") == b
    ensures HasIntervalTag(b) ==> |StripSuffix(b + ".mp4")| < |b|
  {
    var name := b + ".mp4";
    assert name[..|name| - 4] == b;
    RunIsTag(b);
    var d := SuffixRun(b, IsDigit);
    assert d > 0 && EndsWith(b[..|b| - d], "_interval_") ==> HasIntervalTag(b) by {
      assert d > 0 && EndsWith(b[..|b| - d], "_interval_") ==> IntervalTag(b[|b| - d - 10..]);
    }
    if HasIntervalTag(b) {
      var j :| 0 <= j < |b| && IntervalTag(b[j..]);
      assert name[j..][..|name[j..]| - 4] == b[j..];
      StripAtTagMp4(name, j);
    }
  }

  /** `b + ".mp4"` is left as it is when `b` ends in no interval tag; otherwise the tag is
      removed too and the name gets shorter. */
  lemma FormatMp4(b: string)
    ensures !HasIntervalTag(b) ==> FormatVideoName(b + ".mp4") == Success(b + ".mp4")
    ensures HasIntervalTag(b) ==> FormatVideoName(b + ".mp4").Success? &&
                                  |FormatVideoName(b + ".mp4").value| < |b| + 4
  {
    FormatMp4Name(b);
    StripMp4(b);
  }

  /** The fixed points of `format_video_name` are the names `b + ".mp4"` with no interval
      tag at the end of `b`. */
  lemma FormatFixedPoint(name: string)
    ensures FormatVideoName(name) == Success(name) <==>
            (EndsWith(name, ".mp4") && !HasIntervalTag(name[..|name| - 4]))
  {
    if EndsWith(name, ".mp4") {
      var b := name[..|name| - 4];
      assert name == b + ".mp4";
      FormatMp4(b);
    }
  }

  /** Only one tag is removed per call: a name with two tags keeps the first, so
      `format_video_name` is not idempotent. */
  lemma FormatStripsOneTagOnly(b: string, d1: string, d2: string)
    requires |d1| > 0 && forall i :: 0 <= i < |d1| ==> IsDigit(d1[i])
    requires |d2| > 0 && forall i :: 0 <= i < |d2| ==> IsDigit(d2[i])
    ensures FormatVideoName(b + "_interval_" + d1 + "_interval_" + d2 + ".mp4") ==
            Success(b + "_interval_" + d1 + ".mp4")
    ensures FormatVideoName(b + "_interval_" + d1 + ".mp4") == Success(b + ".mp4")
  {
    FormatStripsInterval(b + "_interval_" + d1, d2);
    FormatStripsInterval(b, d1);
  }

  /** `x_interval_0.mp4` is canonicalised to `x.mp4`. */
  lemma FormatIntervalExample()
    ensures FormatVideoName("x_interval_0.mp4") == Success("x.mp4")
  {
    IntervalExampleSpelling();
    FormatStripsInterval("x", "0");
  }

  lemma IntervalExampleSpelling()
    ensures "x" + "_interval_" + "0" + ".mp4" == "x_interval_0.mp4"
    ensures "x" + ".mp4" == "x.mp4"
  {
  }

  /** A name ending in a dot and a word other than `mp4` is rejected, the message naming
      that word. */
  lemma FormatRejectsExtension(b: string, e: string)
    requires |e| > 0 && forall i :: 0 <= i < |e| ==> IsWordChar(e[i])
    requires e != "mp4"
    ensures FormatVideoName(b + "." + e) == Failure(InvalidExtensionMessage(e))
  {
    var name := b + "." + e;
    assert name[|name| - |e| - 1..] == "." + e;
    assert DotWord(name, e);
    ExtensionMatchesPattern(name, e);
  }

  /** `clip.avi` is rejected with the invalid-extension message. */
  lemma FormatRejectExample()
    ensures FormatVideoName("clip.avi") == Failure(InvalidExtensionMessage("avi"))
  {
    assert "clip" + "." + "avi" == "clip.avi";
    FormatRejectsExtension("clip", "avi");
  }
}
