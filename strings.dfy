/**
 The JavaScript string operations that main.js relies on, over `string`
 (a sequence of characters, each one standing for a UTF-16 code unit), plus
 the Option wrapper used for JavaScript's `null`/`undefined` results.
 */
module Strings {

  datatype Option<T> = None | Some(value: T)

  /** `s.startsWith(prefix)` */
  predicate StartsWith(s: string, prefix: string) {
    |prefix| <= |s| && s[..|prefix|] == prefix
  }

  /** `s.includes(t)`: some suffix of `s` starts with `t`. */
  predicate Contains(s: string, t: string)
    decreases |s|
  {
    StartsWith(s, t) || (|s| > 0 && Contains(s[1..], t))
  }

  /** Anything placed between a prefix and a suffix is contained in the whole. */
  lemma {:induction false} ContainsMiddle(a: string, t: string, b: string)
    ensures Contains(a + t + b, t)
  {
    if a == [] {
      assert a + t + b == t + b;
      assert (t + b)[..|t|] == t;
    } else {
      ContainsMiddle(a[1..], t, b);
      assert (a + t + b)[1..] == a[1..] + t + b;
    }
  }

  /** `s.slice(1)`: everything but the first character (nothing for ""). */
  function Drop1(s: string): (r: string)
    ensures |r| == if s == [] then 0 else |s| - 1
    ensures forall i :: 0 <= i < |r| ==> r[i] == s[i + 1]
  {
    if s == [] then s else s[1..]
  }

  /** The longest prefix of `s` holding no character of `stops`. */
  function TakeUntil(s: string, stops: set<char>): (r: string)
    ensures StartsWith(s, r)
    ensures forall i :: 0 <= i < |r| ==> r[i] !in stops
    ensures |r| == |s| || s[|r|] in stops
  {
    if s == [] || s[0] in stops then "" else [s[0]] + TakeUntil(s[1..], stops)
  }

  /** Taking up to a stop from `v + tail` gives `v` when `v` has no stop and `tail` begins with one (or is empty). */
  lemma TakeUntilStops(v: string, tail: string, stops: set<char>)
    requires forall k :: 0 <= k < |v| ==> v[k] !in stops
    requires tail == [] || tail[0] in stops
    ensures TakeUntil(v + tail, stops) == v
  {
    var s, r := v + tail, TakeUntil(v + tail, stops);
    assert forall k :: 0 <= k < |v| ==> s[k] !in stops;
    assert forall k :: 0 <= k < |r| ==> r[k] == s[k];
    assert |v| < |s| ==> s[|v|] in stops;
    assert |r| == |v|;
    assert r == s[..|v|] == v;
  }

  /** `s.split(sep)`: the pieces between the separators, always at least one. */
  function Split(s: string, sep: char): (r: seq<string>)
    ensures |r| >= 1
    ensures r[0] == TakeUntil(s, {sep})
  {
    if s == [] then [""]
    else if s[0] == sep then [""] + Split(s[1..], sep)
    else
      var rest := Split(s[1..], sep);
      [[s[0]] + rest[0]] + rest[1..]
  }

  /** Splitting after a separator-free piece and one separator. */
  lemma {:induction false} SplitCons(piece: string, sep: char, rest: string)
    requires sep !in piece
    ensures Split(piece + [sep] + rest, sep) == [piece] + Split(rest, sep)
  {
    if piece == [] {
      assert piece + [sep] + rest == [sep] + rest;
      assert ([sep] + rest)[1..] == rest;
    } else {
      var s := piece + [sep] + rest;
      assert s[0] == piece[0] && s[1..] == piece[1..] + [sep] + rest;
      SplitCons(piece[1..], sep, rest);
      assert [piece[0]] + piece[1..] == piece;
    }
  }

  /**
   `("/" + word + "/" + rest).split("/")[2]`: the third piece of a path
   that begins with a separator-free first segment is the text of `rest`
   up to its next separator.
   */
  lemma ThirdPiece(word: string, rest: string)
    requires '/' !in word
    ensures |Split("/" + word + "/" + rest, '/')| >= 3
    ensures Split("/" + word + "/" + rest, '/')[2] == TakeUntil(rest, {'/'})
  {
    var tail := word + ['/'] + rest;
    assert "/" + word + "/" + rest == [] + ['/'] + tail;
    SplitCons([], '/', tail);
    SplitCons(word, '/', rest);
    assert Split("/" + word + "/" + rest, '/') == [[]] + ([word] + Split(rest, '/'));
  }

  /** `\d` of a JavaScript regular expression without the `u` flag. */
  predicate IsDigit(c: char) {
    '0' <= c <= '9'
  }

  /** `[a-zA-Z0-9]` */
  predicate IsAlnum(c: char) {
    IsDigit(c) || 'a' <= c <= 'z' || 'A' <= c <= 'Z'
  }

  /** The longest prefix of `s` made of digits (what a greedy `\d+` takes). */
  function DigitRun(s: string): (r: string)
    ensures StartsWith(s, r)
    ensures forall i :: 0 <= i < |r| ==> IsDigit(r[i])
    ensures |r| == |s| || !IsDigit(s[|r|])
  {
    if s == [] || !IsDigit(s[0]) then "" else [s[0]] + DigitRun(s[1..])
  }

  /** `String(n)` for a non-negative integer: its decimal digits. */
  function NatToString(n: nat): (r: string)
    ensures r != []
    ensures forall i :: 0 <= i < |r| ==> IsDigit(r[i])
  {
    if n < 10 then ["0123456789"[n]]
    else NatToString(n / 10) + ["0123456789"[n % 10]]
  }

  /** `s.toUpperCase()` on ASCII letters. */
  function ToUpperAscii(s: string): (r: string)
    ensures |r| == |s|
    ensures forall i :: 0 <= i < |s| ==> r[i] == if 'a' <= s[i] <= 'z' then s[i] - 'a' + 'A' else s[i]
  {
    if s == [] then ""
    else [if 'a' <= s[0] <= 'z' then s[0] - 'a' + 'A' else s[0]] + ToUpperAscii(s[1..])
  }
}
