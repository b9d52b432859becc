/** The two regular expressions that classify the page URL (chrome/index.js:31-32).

    For each one there is a declarative predicate that says, with explicit split points,
    which strings the regular expression accepts (`SubModuleRegex`, `ParentRegex`), and a
    deterministic matcher that scans the string (`SubModuleMatches`, `ParentMatches`),
    with a lemma that the two agree on every string. */
module UrlPatterns {

  /** The literal path segment both patterns look for. */
  const Marker: string := "/Products_detail/"

  /** JavaScript's `\d` without the `u` flag. */
  predicate IsDigit(c: char) {
    '0' <= c <= '9'
  }

  predicate AllDigits(s: string) {
    forall k :: 0 <= k < |s| ==> IsDigit(s[k])
  }

  /** The characters JavaScript's `.` does not match (no `s` flag). */
  predicate IsLineTerminator(c: char) {
    c == '\n' || c == '\r' || c == '\U{2028}' || c == '\U{2029}'
  }

  predicate NoLineTerminator(s: string) {
    forall k :: 0 <= k < |s| ==> !IsLineTerminator(s[k])
  }

  // ---------------------------------------------------------------------------
  // What the regular expressions accept
  // ---------------------------------------------------------------------------

  /** `/\/Products_detail\/\d+\/\d+.*$/` matches with the marker at `i`, the first digit run
      `url[i+17..j]`, the slash at `j`, the second digit run `url[j+1..k]` and `.*` taking
      `url[k..]` up to the end of the input. */
  ghost predicate SubModuleSplit(url: string, i: int, j: int, k: int) {
    && 0 <= i && i + |Marker| < j && j + 1 < k <= |url|
    && url[i..i + |Marker|] == Marker
    && AllDigits(url[i + |Marker|..j])
    && url[j] == '/'
    && AllDigits(url[j + 1..k])
    && NoLineTerminator(url[k..])
  }

  ghost predicate SubModuleRegex(url: string) {
    exists i, j, k :: SubModuleSplit(url, i, j, k)
  }

  /** `/\/Products_detail\/\d+\/?$/` matches with the marker at `i`, the digit run
      `url[i+17..j]`, and then at most one `/` before the end of the input. */
  ghost predicate ParentSplit(url: string, i: int, j: int) {
    && 0 <= i && i + |Marker| < j <= |url|
    && url[i..i + |Marker|] == Marker
    && AllDigits(url[i + |Marker|..j])
    && (url[j..] == "" || url[j..] == "/")
  }

  ghost predicate ParentRegex(url: string) {
    exists i, j :: ParentSplit(url, i, j)
  }

  // ---------------------------------------------------------------------------
  // Deterministic matchers
  // ---------------------------------------------------------------------------

  /** The end of the run of digits that starts at `k`. */
  function DigitRunEnd(s: string, k: nat): (r: nat)
    requires k <= |s|
    ensures k <= r <= |s| && AllDigits(s[k..r])
    ensures r < |s| ==> !IsDigit(s[r])
    decreases |s| - k
  {
    if k < |s| && IsDigit(s[k]) then
      var r := DigitRunEnd(s, k + 1);
      assert s[k..r] == [s[k]] + s[k + 1..r];
      r
    else k
  }

  /** The start of the run of digits that ends at `e`. */
  function DigitRunStart(s: string, e: nat): (r: nat)
    requires e <= |s|
    ensures r <= e && AllDigits(s[r..e])
    ensures r > 0 ==> !IsDigit(s[r - 1])
  {
    if e > 0 && IsDigit(s[e - 1]) then
      var r := DigitRunStart(s, e - 1);
      assert s[r..e] == s[r..e - 1] + [s[e - 1]];
      r
    else e
  }

  /** A run of digits ended by a non-digit is the maximal run. */
  lemma {:induction false} DigitRunEndIs(s: string, k: nat, j: nat)
    requires k <= j < |s| && AllDigits(s[k..j]) && !IsDigit(s[j])
    ensures DigitRunEnd(s, k) == j
    decreases j - k
  {
    if k < j {
      assert IsDigit(s[k..j][0]);
      assert s[k + 1..j] == s[k..j][1..];
      DigitRunEndIs(s, k + 1, j);
    }
  }

  /** A run of digits preceded by a non-digit is the maximal run. */
  lemma {:induction false} DigitRunStartIs(s: string, d: nat, e: nat)
    requires 0 < d <= e <= |s| && AllDigits(s[d..e]) && !IsDigit(s[d - 1])
    ensures DigitRunStart(s, e) == d
    decreases e - d
  {
    if d < e {
      assert IsDigit(s[d..e][e - 1 - d]);
      assert s[d..e - 1] == s[d..e][..e - 1 - d];
      DigitRunStartIs(s, d, e - 1);
    }
  }

  /** The sub-module pattern tried with the marker at `i`: `\d+` followed by `/` can only
      end where the digit run ends, and after one digit of the second run the rest of the
      input must be free of line terminators for `.*$` to reach the end. */
  predicate SubModuleAt(url: string, i: nat) {
    && i + |Marker| <= |url|
    && url[i..i + |Marker|] == Marker
    && var j := DigitRunEnd(url, i + |Marker|);
    && i + |Marker| < j && j + 1 < |url|
    && url[j] == '/'
    && IsDigit(url[j + 1])
    && NoLineTerminator(url[j + 2..])
  }

  /** Tries every start position from `i` onwards. */
  predicate SubModuleFrom(url: string, i: nat)
    decreases |url| - i
  {
    if i + |Marker| > |url| then false
    else SubModuleAt(url, i) || SubModuleFrom(url, i + 1)
  }

  /** `subModulePattern.test(url)` (chrome/index.js:31). */
  predicate SubModuleMatches(url: string) {
    SubModuleFrom(url, 0)
  }

  /** `parentPattern.test(url)` (chrome/index.js:32): drop one trailing `/`, then the input
      must end in the marker followed by a non-empty run of digits. */
  predicate ParentMatches(url: string) {
    var body := ParentBody(url);
    var d := DigitRunStart(body, |body|);
    |Marker| <= d < |body| && body[d - |Marker|..d] == Marker
  }

  /** `url` without one trailing `/`, the part `\/?$` does not consume. */
  function ParentBody(url: string): (body: string)
    ensures |url| - 1 <= |body| <= |url| && body == url[..|body|]
    ensures |body| < |url| <==> |url| > 0 && url[|url| - 1] == '/'
  {
    if |url| > 0 && url[|url| - 1] == '/' then url[..|url| - 1] else url
  }

  // ---------------------------------------------------------------------------
  // The matchers accept exactly what the regular expressions accept
  // ---------------------------------------------------------------------------

  lemma SubModuleAtIff(url: string, i: nat)
    ensures SubModuleAt(url, i) <==> exists j, k :: SubModuleSplit(url, i, j, k)
  {
    if SubModuleAt(url, i) {
      var j := DigitRunEnd(url, i + |Marker|);
      assert url[j + 2..] == url[j + 2..];
      assert SubModuleSplit(url, i, j, j + 2);
    }
    if exists j, k :: SubModuleSplit(url, i, j, k) {
      var j, k :| SubModuleSplit(url, i, j, k);
      DigitRunEndIs(url, i + |Marker|, j);
      assert IsDigit(url[j + 1..k][0]);
      forall m | j + 2 <= m < |url|
        ensures !IsLineTerminator(url[m])
      {
        if m < k {
          assert url[m] == url[j + 1..k][m - j - 1];
        } else {
          assert url[m] == url[k..][m - k];
        }
      }
      assert NoLineTerminator(url[j + 2..]);
    }
  }

  /** A match found by the scanner from `i` on is a match of the regular expression. */
  lemma {:induction false} SubModuleFromSound(url: string, i: nat)
    requires SubModuleFrom(url, i)
    ensures exists i', j, k :: i <= i' && SubModuleSplit(url, i', j, k)
    decreases |url| - i
  {
    SubModuleAtIff(url, i);
    if SubModuleAt(url, i) {
      var j, k :| SubModuleSplit(url, i, j, k);
      assert i <= i && SubModuleSplit(url, i, j, k);
    } else {
      SubModuleFromSound(url, i + 1);
      var i', j, k :| i + 1 <= i' && SubModuleSplit(url, i', j, k);
      assert i <= i' && SubModuleSplit(url, i', j, k);
    }
  }

  /** A match of the regular expression at `i'` is found by the scanner started at or
      before `i'`. */
  lemma {:induction false} SubModuleFromComplete(url: string, i: nat, i': nat, j: int, k: int)
    requires i <= i' && SubModuleSplit(url, i', j, k)
    ensures SubModuleFrom(url, i)
    decreases i' - i
  {
    if i == i' {
      SubModuleAtIff(url, i);
    } else {
      SubModuleFromComplete(url, i + 1, i', j, k);
    }
  }

  lemma SubModuleFromIff(url: string, i: nat)
    ensures SubModuleFrom(url, i) <==> exists i', j, k :: i <= i' && SubModuleSplit(url, i', j, k)
  {
    if SubModuleFrom(url, i) {
      SubModuleFromSound(url, i);
    }
    if exists i', j, k :: i <= i' && SubModuleSplit(url, i', j, k) {
      var i', j, k :| i <= i' && SubModuleSplit(url, i', j, k);
      SubModuleFromComplete(url, i, i', j, k);
    }
  }

  /** The scanner and the regular expression agree on every URL. */
  lemma SubModuleMatchesIff(url: string)
    ensures SubModuleMatches(url) <==> SubModuleRegex(url)
  {
    SubModuleFromIff(url, 0);
  }

  lemma ParentMatchesSound(url: string)
    requires ParentMatches(url)
    ensures ParentRegex(url)
  {
    var body := ParentBody(url);
    var d := DigitRunStart(body, |body|);
    assert url[d - |Marker|..d] == body[d - |Marker|..d];
    assert url[d..|body|] == body[d..];
    assert url[|body|..] == "" || url[|body|..] == "/";
    assert ParentSplit(url, d - |Marker|, |body|);
  }

  lemma ParentMatchesComplete(url: string, i: int, j: int)
    requires ParentSplit(url, i, j)
    ensures ParentMatches(url)
  {
    var body := ParentBody(url);
    var e := i + |Marker|;
    assert IsDigit(url[e..j][j - 1 - e]);
    assert |url[j..]| == |url| - j;
    if url[j..] == "/" {
      assert url[j] == url[j..][0];
    }
    assert |body| == j;
    assert url[e - 1] == url[i..e][|Marker| - 1];
    assert body[e..j] == url[e..j];
    DigitRunStartIs(body, e, j);
    assert body[i..e] == url[i..e];
  }

  /** The scanner and the regular expression agree on every URL. */
  lemma ParentMatchesIff(url: string)
    ensures ParentMatches(url) <==> ParentRegex(url)
  {
    if ParentMatches(url) {
      ParentMatchesSound(url);
    }
    if ParentRegex(url) {
      var i, j :| ParentSplit(url, i, j);
      ParentMatchesComplete(url, i, j);
    }
  }

  // ---------------------------------------------------------------------------
  // Properties of the two patterns
  // ---------------------------------------------------------------------------

  /** A sub-module URL of the usual shape `<origin>/Products_detail/<n>/<m>` takes the
      sub-module pattern and not the parent pattern. */
  lemma SubModuleShape(prefix: string, d1: string, d2: string)
    requires |d1| > 0 && AllDigits(d1) && |d2| > 0 && AllDigits(d2)
    ensures SubModuleMatches(prefix + Marker + d1 + "/" + d2)
    ensures !ParentMatches(prefix + Marker + d1 + "/" + d2)
  {
    var url := prefix + Marker + d1 + "/" + d2;
    var i := |prefix|;
    var j := i + |Marker| + |d1|;
    assert url[i..i + |Marker|] == Marker;
    assert url[i + |Marker|..j] == d1;
    assert url[j] == '/';
    assert url[j + 1..] == d2;
    assert SubModuleSplit(url, i, j, |url|);
    SubModuleMatchesIff(url);
    NotParentShape(url, j, d1[|d1| - 1]);
  }

  /** A URL whose final digit run follows `<digit>/` fails the parent pattern: the marker
      would have to end in `l/`. */
  lemma NotParentShape(url: string, j: nat, c: char)
    requires 0 < j < |url| - 1 && url[j] == '/' && url[j - 1] == c && IsDigit(c)
    requires AllDigits(url[j + 1..])
    ensures !ParentMatches(url)
  {
    assert IsDigit(url[j + 1..][|url| - j - 2]);
    assert ParentBody(url) == url;
    DigitRunStartIs(url, j + 1, |url|);
    if |Marker| <= j + 1 {
      assert url[j + 1 - |Marker|..j + 1][|Marker| - 2] == url[j - 1];
      assert Marker[|Marker| - 2] == 'l';
    }
  }

  /** A parent URL `<prefix>/Products_detail/<n>` takes the parent pattern, with or without
      one trailing slash. */
  lemma ParentShape(prefix: string, d: string, slash: bool)
    requires |d| > 0 && AllDigits(d)
    ensures ParentMatches(prefix + Marker + d + (if slash then "/" else ""))
  {
    var url := prefix + Marker + d + (if slash then "/" else "");
    var i := |prefix|;
    var j := i + |Marker| + |d|;
    assert url[i..i + |Marker|] == Marker;
    assert url[i + |Marker|..j] == d;
    assert url[j..] == (if slash then "/" else "");
    assert ParentSplit(url, i, j);
    ParentMatchesIff(url);
  }

  /** The two patterns are not exclusive: `/Products_detail/<n>/<m>/Products_detail/<p>`
      matches both, so the order in which the loop tests them decides its role. */
  lemma BothPatternsMatch(d1: string, d2: string, d3: string)
    requires |d1| > 0 && AllDigits(d1) && |d2| > 0 && AllDigits(d2)
    requires |d3| > 0 && AllDigits(d3)
    ensures SubModuleMatches(Marker + d1 + "/" + d2 + Marker + d3)
    ensures ParentMatches(Marker + d1 + "/" + d2 + Marker + d3)
  {
    var head := Marker + d1 + "/" + d2;
    var url := head + Marker + d3;
    MarkerDigitsNoTerminator(d3);
    SubModuleWithTail(d1, d2, Marker + d3);
    assert head + (Marker + d3) == url;
    ParentShape(head, d3, false);
    assert head + Marker + d3 + "" == url;
  }

  /** `/Products_detail/<n>/<m>` followed by any text free of line terminators takes the
      sub-module pattern. */
  lemma SubModuleWithTail(d1: string, d2: string, tail: string)
    requires |d1| > 0 && AllDigits(d1) && |d2| > 0 && AllDigits(d2)
    requires NoLineTerminator(tail)
    ensures SubModuleMatches(Marker + d1 + "/" + d2 + tail)
  {
    var head := Marker + d1 + "/" + d2;
    var url := head + tail;
    var j := |Marker| + |d1|;
    assert url[0..|Marker|] == Marker;
    assert url[|Marker|..j] == d1;
    assert url[j] == '/';
    assert url[j + 1..|head|] == d2;
    assert url[|head|..] == tail;
    assert SubModuleSplit(url, 0, j, |head|);
    SubModuleMatchesIff(url);
  }

  /** The marker followed by digits holds no line terminator. */
  lemma MarkerDigitsNoTerminator(d: string)
    requires AllDigits(d)
    ensures NoLineTerminator(Marker + d)
  {
    var t := Marker + d;
    forall m | 0 <= m < |t|
      ensures !IsLineTerminator(t[m])
    {
      if m < |Marker| {
        assert t[m] == Marker[m];
      } else {
        assert t[m] == d[m - |Marker|];
      }
    }
  }
}
