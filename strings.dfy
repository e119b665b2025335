/**
 * The three pieces of Python's string handling that the mapping-text parser
 * relies on: `str.strip()`, `str.split(sep)` and `str.split(sep, 1)`.
 */
module Strings {

  /** Python's `str.isspace()` on one character: exactly the characters `str.strip()` removes. */
  predicate IsSpace(c: char) {
    || c == ' '
    || '\t' <= c <= '\r'
    || '\U{1C}' <= c <= '\U{1F}'
    || c == '\U{85}'
    || c == '\U{A0}'
    || c == '\U{1680}'
    || '\U{2000}' <= c <= '\U{200A}'
    || c == '\U{2028}'
    || c == '\U{2029}'
    || c == '\U{202F}'
    || c == '\U{205F}'
    || c == '\U{3000}'
  }

  /** All characters of `s` are whitespace. */
  predicate AllSpace(s: string) {
    forall k :: 0 <= k < |s| ==> IsSpace(s[k])
  }

  /** `s.lstrip()`. */
  function TrimLeft(s: string): string {
    if s != [] && IsSpace(s[0]) then TrimLeft(s[1..]) else s
  }

  /** `s.rstrip()`. */
  function TrimRight(s: string): string {
    if s != [] && IsSpace(s[|s| - 1]) then TrimRight(s[..|s| - 1]) else s
  }

  /** `s.strip()`. */
  function Strip(s: string): string {
    TrimRight(TrimLeft(s))
  }

  /** TrimLeft keeps a suffix and drops only whitespace before it, up to a non-whitespace character. */
  lemma {:induction false} TrimLeftSuffix(s: string)
    ensures var r := TrimLeft(s);
      && |r| <= |s| && r == s[|s| - |r|..]
      && AllSpace(s[..|s| - |r|])
      && (r != [] ==> !IsSpace(r[0]))
  {
    if s != [] && IsSpace(s[0]) {
      TrimLeftSuffix(s[1..]);
      var r := TrimLeft(s);
      assert s[..|s| - |r|] == [s[0]] + s[1..][..|s| - 1 - |r|];
    }
  }

  /** TrimRight keeps a prefix and drops only whitespace after it, back to a non-whitespace character. */
  lemma {:induction false} TrimRightPrefix(s: string)
    ensures var r := TrimRight(s);
      && |r| <= |s| && r == s[..|r|]
      && AllSpace(s[|r|..])
      && (r != [] ==> !IsSpace(r[|r| - 1]))
  {
    if s != [] && IsSpace(s[|s| - 1]) {
      TrimRightPrefix(s[..|s| - 1]);
      var r := TrimRight(s);
      assert s[|r|..] == s[..|s| - 1][|r|..] + [s[|s| - 1]];
    }
  }

  /** A stripped text neither begins nor ends with whitespace, and is empty exactly when the text is blank. */
  lemma {:induction false} StripEnds(s: string)
    ensures var r := Strip(s);
      && (r != [] ==> !IsSpace(r[0]) && !IsSpace(r[|r| - 1]))
      && (r == [] <==> AllSpace(s))
  {
    var t := TrimLeft(s);
    TrimLeftSuffix(s);
    TrimRightPrefix(t);
    var r := TrimRight(t);
    if r == [] {
      assert s == s[..|s| - |t|] + t;
      assert t == t[|r|..];
    } else {
      assert r[0] == t[0];
    }
  }

  /** TrimLeft removes a whitespace prefix up to the first non-whitespace character. */
  lemma {:induction false} TrimLeftExact(lead: string, rest: string)
    requires AllSpace(lead)
    requires rest != [] ==> !IsSpace(rest[0])
    ensures TrimLeft(lead + rest) == rest
  {
    if lead != [] {
      assert (lead + rest)[1..] == lead[1..] + rest;
      TrimLeftExact(lead[1..], rest);
    } else {
      assert lead + rest == rest;
    }
  }

  /** TrimRight removes a whitespace suffix back to the last non-whitespace character. */
  lemma {:induction false} TrimRightExact(rest: string, trail: string)
    requires AllSpace(trail)
    requires rest != [] ==> !IsSpace(rest[|rest| - 1])
    ensures TrimRight(rest + trail) == rest
  {
    if trail != [] {
      var s := rest + trail;
      assert s[|s| - 1] == trail[|trail| - 1];
      assert s[..|s| - 1] == rest + trail[..|trail| - 1];
      TrimRightExact(rest, trail[..|trail| - 1]);
    } else {
      assert rest + trail == rest;
    }
  }

  /** Stripping removes exactly the whitespace around a body whose ends are not whitespace. */
  lemma {:induction false} StripExact(lead: string, body: string, trail: string)
    requires AllSpace(lead) && AllSpace(trail)
    requires body != [] ==> !IsSpace(body[0]) && !IsSpace(body[|body| - 1])
    ensures Strip(lead + body + trail) == body
  {
    if body == [] {
      assert lead + body + trail == (lead + trail) + [];
      assert AllSpace(lead + trail) by {
        forall k | 0 <= k < |lead + trail| ensures IsSpace((lead + trail)[k]) {
          if k >= |lead| { assert (lead + trail)[k] == trail[k - |lead|]; }
        }
      }
      TrimLeftExact(lead + trail, []);
    } else {
      assert lead + body + trail == lead + (body + trail);
      TrimLeftExact(lead, body + trail);
      TrimRightExact(body, trail);
    }
  }

  /** The position of the first `c` in `s`. */
  function IndexOf(s: string, c: char): (i: nat)
    requires c in s
    ensures i < |s| && s[i] == c && c !in s[..i]
  {
    if s[0] == c then 0 else 1 + IndexOf(s[1..], c)
  }

  /** The inverse of Split: `sep.join(parts)`. */
  function Join(parts: seq<string>, sep: char): string {
    if |parts| == 0 then ""
    else if |parts| == 1 then parts[0]
    else parts[0] + [sep] + Join(parts[1..], sep)
  }

  /** `s.split(sep)`: the pieces between the occurrences of `sep`, empty pieces included. */
  function Split(s: string, sep: char): (parts: seq<string>)
    ensures |parts| >= 1
    ensures forall i :: 0 <= i < |parts| ==> sep !in parts[i]
    ensures Join(parts, sep) == s
    decreases |s|
  {
    if sep !in s then [s]
    else
      var i := IndexOf(s, sep);
      var rest := Split(s[i + 1..], sep);
      assert ([s[..i]] + rest)[1..] == rest;
      assert s == s[..i] + [sep] + s[i + 1..];
      [s[..i]] + rest
  }

  /** Splitting undoes joining: the pieces are recovered exactly. */
  lemma {:induction false} SplitJoin(parts: seq<string>, sep: char)
    requires |parts| >= 1
    requires forall i :: 0 <= i < |parts| ==> sep !in parts[i]
    ensures Split(Join(parts, sep), sep) == parts
  {
    if |parts| > 1 {
      var head, tail := parts[0], Join(parts[1..], sep);
      var s := head + [sep] + tail;
      assert s[|head|] == sep;
      var i := IndexOf(s, sep);
      assert s[..i] == head && s[i + 1..] == tail;
      SplitJoin(parts[1..], sep);
      assert [head] + parts[1..] == parts;
    }
  }

  /** `s.split(sep, 1)`: the text before the first `sep` and everything after it. */
  function SplitOnce(s: string, sep: char): (pair: (string, string))
    requires sep in s
    ensures sep !in pair.0
    ensures pair.0 + [sep] + pair.1 == s
  {
    var i := IndexOf(s, sep);
    assert s == s[..i] + [sep] + s[i + 1..];
    (s[..i], s[i + 1..])
  }

  /** Only the first `sep` splits: whatever follows it, further separators included, stays together. */
  lemma {:induction false} SplitOnceExact(before: string, after: string, sep: char)
    requires sep !in before
    ensures sep in before + [sep] + after
    ensures SplitOnce(before + [sep] + after, sep) == (before, after)
  {
    var s := before + [sep] + after;
    assert s[|before|] == sep;
    var i := IndexOf(s, sep);
    assert s[..i] == before;
  }
}
