/**
 * String rules shared by the display code: JavaScript truthiness of optional
 * strings, `split(" ")`, ASCII `toUpperCase`, and the word-initials expression
 * `name.split(" ").map(n => n[0]).join("").toUpperCase()` that several
 * components repeat.
 */
module Text {
  import opened Wrappers

  /** An optional string is truthy in JavaScript exactly when it is present and non-empty. */
  predicate Truthy(s: Option<string>) {
    s.Some? && s.value != ""
  }

  /** `a || b` on optional strings. */
  function Or(a: Option<string>, b: Option<string>): Option<string> {
    if Truthy(a) then a else b
  }

  /** `a || fallback` where the fallback is a string literal. */
  function OrElse(a: Option<string>, fallback: string): (r: string)
    ensures fallback != "" ==> r != ""
    ensures Truthy(a) ==> r == a.value
    ensures !Truthy(a) ==> r == fallback
  {
    if Truthy(a) then a.value else fallback
  }

  const Placeholder: string := "/placeholder.svg"

  /** `url || "/placeholder.svg"`, the `src` every avatar and image takes. */
  function ImageSrc(url: Option<string>): (src: string)
    ensures src != ""
    ensures src == Placeholder || (url.Some? && src == url.value)
    ensures src == Placeholder <==> !Truthy(url) || url.value == Placeholder
  {
    OrElse(url, Placeholder)
  }

  /** `s.startsWith(prefix)`. */
  predicate StartsWith(s: string, prefix: string) {
    |prefix| <= |s| && s[..|prefix|] == prefix
  }

  predicate AllSpaces(s: string) {
    forall i :: 0 <= i < |s| ==> s[i] == ' '
  }

  /** `s.split(" ")`: the pieces between single spaces; "" splits into [""]. */
  function Split(s: string): (parts: seq<string>)
    ensures |parts| >= 1
    ensures forall k :: 0 <= k < |parts| ==> ' ' !in parts[k]
  {
    if s == [] then [[]]
    else
      var rest := Split(s[1..]);
      if s[0] == ' ' then [[]] + rest
      else [[s[0]] + rest[0]] + rest[1..]
  }

  /** `parts.join(" ")`. */
  function Join(parts: seq<string>): string
    requires |parts| >= 1
  {
    if |parts| == 1 then parts[0] else parts[0] + " " + Join(parts[1..])
  }

  /** Joining the pieces of a split with the same separator gives back the string. */
  lemma {:induction false} JoinSplit(s: string)
    ensures Join(Split(s)) == s
  {
    if s != [] {
      JoinSplit(s[1..]);
      var rest := Split(s[1..]);
      if s[0] == ' ' {
        assert Split(s) == [[]] + rest;
        assert ([[]] + rest)[1..] == rest;
      } else if |rest| == 1 {
        assert Split(s) == [[s[0]] + rest[0]];
      } else {
        assert Split(s) == [[s[0]] + rest[0]] + rest[1..];
        assert Join(rest) == rest[0] + " " + Join(rest[1..]);
      }
    }
  }

  /** `words.map(n => n[0]).join("")`: `""[0]` is undefined, which `join` writes as "". */
  function Heads(words: seq<string>): string {
    if words == [] then []
    else (if words[0] == [] then [] else [words[0][0]]) + Heads(words[1..])
  }

  /** `toUpperCase` on one character, for ASCII letters. */
  function UpperChar(c: char): char {
    if 'a' <= c <= 'z' then (c as int - 32) as char else c
  }

  /** `toUpperCase`, ASCII only. */
  function ToUpper(s: string): (r: string)
    ensures |r| == |s| && forall i :: 0 <= i < |s| ==> r[i] == UpperChar(s[i])
  {
    seq(|s|, i requires 0 <= i < |s| => UpperChar(s[i]))
  }

  /**
   * Reference definition of the word initials: every non-space character that
   * starts the string or follows a space, in order. `atWordStart` says whether
   * the previous character was a space (or there was none).
   */
  function WordStarts(s: string, atWordStart: bool): string {
    if s == [] then []
    else if s[0] == ' ' then WordStarts(s[1..], true)
    else (if atWordStart then [s[0]] else []) + WordStarts(s[1..], false)
  }

  /** The JavaScript initials expression before upper-casing picks exactly the word starts. */
  lemma {:induction false} HeadsOfSplit(s: string)
    ensures Heads(Split(s)) == WordStarts(s, true)
    ensures Heads(Split(s)[1..]) == WordStarts(s, false)
  {
    if s != [] {
      HeadsOfSplit(s[1..]);
      var rest := Split(s[1..]);
      if s[0] == ' ' {
        assert Split(s) == [[]] + rest;
        assert ([[]] + rest)[1..] == rest;
      } else {
        var first := [s[0]] + rest[0];
        assert Split(s) == [first] + rest[1..];
        assert ([first] + rest[1..])[1..] == rest[1..];
      }
    }
  }

  lemma {:induction false} WordStartsBounds(s: string, atWordStart: bool)
    ensures |WordStarts(s, atWordStart)| <= |s|
    ensures ' ' !in WordStarts(s, atWordStart)
    ensures atWordStart ==> (WordStarts(s, atWordStart) == [] <==> AllSpaces(s))
    ensures s != [] && s[0] != ' ' && atWordStart ==> WordStarts(s, atWordStart)[0] == s[0]
  {
    if s != [] {
      WordStartsBounds(s[1..], true);
      WordStartsBounds(s[1..], false);
      assert AllSpaces(s) <==> s[0] == ' ' && AllSpaces(s[1..]);
    }
  }

  /**
   * `s.split(" ").map(n => n[0]).join("").toUpperCase()`: the upper-cased first
   * character of every non-empty space-separated word, in order. It is empty
   * exactly when `s` holds nothing but spaces (or nothing at all).
   */
  function Initials(s: string): (r: string)
    ensures r == ToUpper(WordStarts(s, true))
    ensures |r| <= |s|
    ensures ' ' !in r
    ensures r == "" <==> AllSpaces(s)
    ensures s != "" && s[0] != ' ' ==> r[0] == UpperChar(s[0])
  {
    HeadsOfSplit(s);
    WordStartsBounds(s, true);
    ToUpper(Heads(Split(s)))
  }

  /**
   * `name?.split(" ").map(n => n[0]).join("").toUpperCase() || fallback`:
   * the initials when the name is present and yields any, otherwise the fallback.
   */
  function InitialsOr(name: Option<string>, fallback: Option<string>): (r: Option<string>)
    ensures name.Some? && !AllSpaces(name.value) ==> r == Some(Initials(name.value)) && r.value != ""
    ensures name.None? || AllSpaces(name.value) ==> r == fallback
  {
    if name.Some? && Initials(name.value) != "" then Some(Initials(name.value)) else fallback
  }
}
