/** The small part of JavaScript's string library that the bot's decisions depend on:
    `String.prototype.trim`, ASCII lower-casing, `startsWith` and `split('_')[1]`. */
module Text {
  import opened Wrappers

  /** The characters `String.prototype.trim` removes: WhiteSpace and LineTerminator of
      ECMAScript (tab, vertical tab, form feed, space, no-break space, the byte order
      mark, the Unicode space separators, and the four line terminators). */
  predicate IsJsWhitespace(c: char) {
    || c == '\t' || c == '\n' || c == '\U{000B}' || c == '\U{000C}' || c == '\r'
    || c == ' ' || c == '\U{00A0}' || c == '\U{1680}'
    || ('\U{2000}' <= c <= '\U{200A}')
    || c == '\U{2028}' || c == '\U{2029}' || c == '\U{202F}' || c == '\U{205F}'
    || c == '\U{3000}' || c == '\U{FEFF}'
  }

  /** What `s.trimStart()` returns. */
  function TrimStart(s: string): string {
    if |s| > 0 && IsJsWhitespace(s[0]) then TrimStart(s[1..]) else s
  }

  /** What `s.trimEnd()` returns. */
  function TrimEnd(s: string): string {
    if |s| > 0 && IsJsWhitespace(s[|s| - 1]) then TrimEnd(s[..|s| - 1]) else s
  }

  /** What `s.trim()` returns. */
  function Trim(s: string): string {
    TrimEnd(TrimStart(s))
  }

  /** `trimStart` keeps the longest suffix that does not start with whitespace. */
  lemma {:induction false} TrimStartSpec(s: string)
    ensures var r := TrimStart(s);
      && |r| <= |s| && r == s[|s| - |r|..]
      && (forall k :: 0 <= k < |s| - |r| ==> IsJsWhitespace(s[k]))
      && (|r| > 0 ==> !IsJsWhitespace(r[0]))
  {
    if |s| > 0 && IsJsWhitespace(s[0]) {
      TrimStartSpec(s[1..]);
    }
  }

  /** `trimEnd` keeps the longest prefix that does not end with whitespace. */
  lemma {:induction false} TrimEndSpec(s: string)
    ensures var r := TrimEnd(s);
      && |r| <= |s| && r == s[..|r|]
      && (forall k :: |r| <= k < |s| ==> IsJsWhitespace(s[k]))
      && (|r| > 0 ==> !IsJsWhitespace(r[|r| - 1]))
  {
    if |s| > 0 && IsJsWhitespace(s[|s| - 1]) {
      TrimEndSpec(s[..|s| - 1]);
    }
  }

  /** `r` is `s[i..i + |r|]` and everything of `s` around it is whitespace. */
  predicate TrimmedAt(s: string, r: string, i: int) {
    && 0 <= i <= |s| - |r|
    && r == s[i..i + |r|]
    && (forall k :: 0 <= k < i ==> IsJsWhitespace(s[k]))
    && (forall k :: i + |r| <= k < |s| ==> IsJsWhitespace(s[k]))
  }

  /** `trim` removes whitespace at both ends and nothing in between. */
  lemma TrimSpec(s: string)
    ensures var r := Trim(s);
      && (|r| > 0 ==> !IsJsWhitespace(r[0]) && !IsJsWhitespace(r[|r| - 1]))
      && exists i :: TrimmedAt(s, r, i)
  {
    var t := TrimStart(s);
    TrimStartSpec(s);
    TrimEndSpec(t);
    assert TrimmedAt(s, Trim(s), |s| - |t|);
  }

  /** The lower-case form of an ASCII letter; every other character is kept. */
  function LowerChar(c: char): char {
    if 'A' <= c <= 'Z' then (c as int - 'A' as int + 'a' as int) as char else c
  }

  /** `s.toLowerCase()` restricted to ASCII letters, character by character. */
  function AsciiLower(s: string): string {
    if s == [] then [] else [LowerChar(s[0])] + AsciiLower(s[1..])
  }

  /** Lower-casing maps each character on its own and keeps the length. */
  lemma {:induction false} AsciiLowerSpec(s: string)
    ensures |AsciiLower(s)| == |s|
    ensures forall k :: 0 <= k < |s| ==> AsciiLower(s)[k] == LowerChar(s[k])
  {
    if s != [] {
      AsciiLowerSpec(s[1..]);
    }
  }

  /** `text.trim().toLowerCase() === word`, the bot's test of a button or title label. */
  predicate LabelIs(text: string, word: string) {
    AsciiLower(Trim(text)) == word
  }

  /** A label matches a word when, once trimmed, it has the word's length and agrees with
      it letter by letter up to ASCII case. */
  lemma LabelIsSpec(text: string, word: string)
    ensures LabelIs(text, word) <==>
      |Trim(text)| == |word| && forall k :: 0 <= k < |word| ==> LowerChar(Trim(text)[k]) == word[k]
  {
    AsciiLowerSpec(Trim(text));
  }

  predicate StartsWith(s: string, prefix: string) {
    |prefix| <= |s| && s[..|prefix|] == prefix
  }

  /** The index of the first occurrence of `c` in `s`, if any. */
  function IndexOf(s: string, c: char): (r: Option<nat>)
    ensures r.Some? ==> r.value < |s|
  {
    if s == [] then None
    else if s[0] == c then Some(0)
    else match IndexOf(s[1..], c)
      case None => None
      case Some(k) => Some(k + 1)
  }

  /** `IndexOf` finds the first occurrence, and finds nothing only when there is none. */
  lemma {:induction false} IndexOfSpec(s: string, c: char)
    ensures IndexOf(s, c).Some? ==>
      var k := IndexOf(s, c).value; k < |s| && s[k] == c && c !in s[..k]
    ensures IndexOf(s, c).None? ==> c !in s
  {
    if s != [] && s[0] != c {
      IndexOfSpec(s[1..], c);
      assert s == [s[0]] + s[1..];
      if IndexOf(s[1..], c).Some? {
        var k := IndexOf(s[1..], c).value;
        assert s[..k + 1] == [s[0]] + s[1..][..k];
      }
    }
  }

  /** The text before the first `c` in `s` (all of `s` when there is none). */
  function TakeUntil(s: string, c: char): string {
    match IndexOf(s, c)
    case None => s
    case Some(k) => s[..k]
  }

  /** `TakeUntil` returns a prefix without `c`, followed in `s` by `c` unless it is all of
      `s`. */
  lemma TakeUntilSpec(s: string, c: char)
    ensures StartsWith(s, TakeUntil(s, c)) && c !in TakeUntil(s, c)
    ensures |TakeUntil(s, c)| < |s| ==> s[|TakeUntil(s, c)|] == c
  {
    IndexOfSpec(s, c);
  }

  /** `id.split('_')[1]`: `None` is JavaScript's `undefined` (no `_` in `id`), otherwise
      the text between the first `_` and the next one, or the end. */
  function SecondField(id: string): Option<string> {
    match IndexOf(id, '_')
    case None => None
    case Some(k) => Some(TakeUntil(id[k + 1..], '_'))
  }

  /** The second field is missing exactly when `id` holds no `_`, and never holds one. */
  lemma SecondFieldSpec(id: string)
    ensures SecondField(id).None? <==> '_' !in id
    ensures SecondField(id).Some? ==> '_' !in SecondField(id).value
  {
    IndexOfSpec(id, '_');
    if IndexOf(id, '_').Some? {
      var k := IndexOf(id, '_').value;
      TakeUntilSpec(id[k + 1..], '_');
    }
  }

  /** The second field of `prefix + "_" + rest` when `prefix` holds no `_`. */
  lemma SecondFieldAfter(prefix: string, rest: string)
    requires '_' !in prefix
    ensures SecondField(prefix + "_" + rest) == Some(TakeUntil(rest, '_'))
  {
    var id := prefix + "_" + rest;
    assert id == prefix + ("_" + rest);
    IndexOfPrefix(prefix, "_" + rest, '_');
    assert id[|prefix| + 1..] == rest;
  }

  /** The first `c` in `p + q` is in `q` when `p` holds none. */
  lemma {:induction false} IndexOfPrefix(p: string, q: string, c: char)
    requires c !in p && |q| > 0 && q[0] == c
    ensures IndexOf(p + q, c) == Some(|p|)
  {
    if p != [] {
      assert (p + q)[1..] == p[1..] + q;
      IndexOfPrefix(p[1..], q, c);
    } else {
      assert p + q == q;
    }
  }
}
