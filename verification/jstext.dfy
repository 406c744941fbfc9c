/**
 * The JavaScript string operations the mirrorer relies on, with the exact
 * edge-case behaviour of the built-ins: `split`/`join` on one separator,
 * `trim`, `startsWith`-style `indexOf(p) === 0`, `includes`, the global
 * fragment-stripping regular expression, and how `null` prints.
 */
module JsText {
  import opened Wrappers

  /** `s.indexOf(prefix) === 0` */
  predicate StartsWith(s: string, prefix: string) {
    |prefix| <= |s| && s[..|prefix|] == prefix
  }

  lemma StartsWithConcat(a: string, b: string)
    ensures StartsWith(a + b, a)
  {
    assert (a + b)[..|a|] == a;
  }

  /** `s.includes(sub)` */
  predicate Contains(s: string, sub: string) {
    StartsWith(s, sub) || (s != [] && Contains(s[1..], sub))
  }

  /** `sub` occurs in `s` starting at position `i`. */
  predicate OccursAt(s: string, sub: string, i: nat) {
    i + |sub| <= |s| && s[i..i + |sub|] == sub
  }

  /** `s.includes(sub)` holds exactly when `sub` occurs at some position of `s`. */
  lemma {:induction false} ContainsAt(s: string, sub: string)
    ensures Contains(s, sub) <==> exists i: nat :: OccursAt(s, sub, i)
  {
    if s == [] {
      if sub == [] {
        assert OccursAt(s, sub, 0);
      }
    } else {
      ContainsAt(s[1..], sub);
      if StartsWith(s, sub) {
        assert OccursAt(s, sub, 0);
      }
      if Contains(s[1..], sub) {
        var j: nat :| OccursAt(s[1..], sub, j);
        assert s[j + 1..j + 1 + |sub|] == s[1..][j..j + |sub|];
        assert OccursAt(s, sub, j + 1);
      }
      if exists i: nat :: OccursAt(s, sub, i) {
        var i: nat :| OccursAt(s, sub, i);
        if i == 0 {
          assert StartsWith(s, sub);
        } else {
          assert s[1..][i - 1..i - 1 + |sub|] == s[i..i + |sub|];
          assert OccursAt(s[1..], sub, i - 1);
        }
      }
    }
  }

  /** A string template or `+` renders `null` as the text "null". */
  function Stringify(o: Option<string>): string {
    match o
    case Some(s) => s
    case None => "null"
  }

  /** `Array.prototype.join` renders a `null` element as the empty string. */
  function JoinElement(o: Option<string>): string {
    o.GetOr("")
  }

  /** JavaScript truthiness of a string that may be `null`: present and non-empty. */
  predicate Truthy(o: Option<string>) {
    o.Some? && o.value != ""
  }

  // ---------------------------------------------------------------------------
  // split and join

  /** `s.split(sep)`: the pieces between occurrences of `sep`; there is always at least one. */
  function Split(s: string, sep: char): (parts: seq<string>)
    ensures |parts| >= 1
    ensures forall i :: 0 <= i < |parts| ==> sep !in parts[i]
    ensures forall x :: x in parts ==> sep !in x
  {
    if s == [] then [""]
    else
      var rest := Split(s[1..], sep);
      if s[0] == sep then [""] + rest
      else [[s[0]] + rest[0]] + rest[1..]
  }

  /** `parts.join(sep)` */
  function Join(parts: seq<string>, sep: char): string {
    if parts == [] then ""
    else if |parts| == 1 then parts[0]
    else parts[0] + [sep] + Join(parts[1..], sep)
  }

  /** `s.split(sep).pop()`: the text after the last `sep`, or all of `s` when there is none. */
  function AfterLast(s: string, sep: char): (r: string)
    ensures sep !in r
  {
    var parts := Split(s, sep);
    parts[|parts| - 1]
  }

  /** Joining the pieces of a split gives back the original string. */
  lemma {:induction false} JoinSplit(s: string, sep: char)
    ensures Join(Split(s, sep), sep) == s
  {
    if s != [] {
      var rest := Split(s[1..], sep);
      JoinSplit(s[1..], sep);
      if s[0] == sep {
        assert ([""] + rest)[1..] == rest;
      } else if |rest| > 1 {
        var parts := [[s[0]] + rest[0]] + rest[1..];
        assert parts[1..] == rest[1..];
        assert Join(rest, sep) == rest[0] + [sep] + Join(rest[1..], sep);
        assert s == [s[0]] + s[1..];
      } else {
        assert s == [s[0]] + s[1..];
      }
    }
  }

  /** A string without the separator splits into itself. */
  lemma {:induction false} SplitWithoutSeparator(s: string, sep: char)
    requires sep !in s
    ensures Split(s, sep) == [s]
  {
    if s != [] {
      SplitWithoutSeparator(s[1..], sep);
      assert s == [s[0]] + s[1..];
    }
  }

  /** A separator splits exactly at itself. */
  lemma {:induction false} SplitAround(a: string, b: string, sep: char)
    ensures Split(a + [sep] + b, sep) == Split(a, sep) + Split(b, sep)
  {
    var s := a + [sep] + b;
    if a == [] {
      assert s[0] == sep && s[1..] == b;
    } else {
      assert s[0] == a[0];
      assert s[1..] == a[1..] + [sep] + b;
      SplitAround(a[1..], b, sep);
    }
  }

  /** Splitting a join of separator-free pieces gives back the pieces. */
  lemma {:induction false} SplitJoin(parts: seq<string>, sep: char)
    requires |parts| >= 1
    requires forall i :: 0 <= i < |parts| ==> sep !in parts[i]
    ensures Split(Join(parts, sep), sep) == parts
  {
    SplitWithoutSeparator(parts[0], sep);
    if |parts| > 1 {
      SplitJoin(parts[1..], sep);
      SplitAround(parts[0], Join(parts[1..], sep), sep);
      assert parts == [parts[0]] + parts[1..];
    }
  }

  /** Joining is associative at the last separator. */
  lemma {:induction false} JoinSnoc(parts: seq<string>, sep: char)
    requires |parts| >= 2
    ensures Join(parts, sep) == Join(parts[..|parts| - 1], sep) + [sep] + parts[|parts| - 1]
  {
    if |parts| > 2 {
      JoinSnoc(parts[1..], sep);
      assert parts[1..][..|parts| - 2] == parts[..|parts| - 1][1..];
    }
  }

  /** The text after the last separator really is a suffix that follows a separator. */
  lemma AfterLastSuffix(s: string, sep: char)
    ensures sep in s ==> exists pre :: s == pre + [sep] + AfterLast(s, sep)
    ensures sep !in s ==> AfterLast(s, sep) == s
  {
    var parts := Split(s, sep);
    JoinSplit(s, sep);
    if |parts| >= 2 {
      JoinSnoc(parts, sep);
      var pre := Join(parts[..|parts| - 1], sep);
      assert s == pre + [sep] + AfterLast(s, sep);
    } else {
      assert s == parts[0];
    }
  }

  // ---------------------------------------------------------------------------
  // trim

  /** The characters `String.prototype.trim` removes: white space and line terminators. */
  predicate IsJsWhitespace(c: char) {
    || c == '\t' || c == '\n' || c == '\U{000B}' || c == '\U{000C}' || c == '\r' || c == ' '
    || c == '\U{00A0}' || c == '\U{1680}' || ('\U{2000}' <= c <= '\U{200A}')
    || c == '\U{2028}' || c == '\U{2029}' || c == '\U{202F}' || c == '\U{205F}'
    || c == '\U{3000}' || c == '\U{FEFF}'
  }

  /** Drops leading white space: the result is the suffix starting at the first other character. */
  function TrimStart(s: string): (r: string)
    ensures |r| <= |s| && r == s[|s| - |r|..]
    ensures forall i :: 0 <= i < |s| - |r| ==> IsJsWhitespace(s[i])
    ensures r == [] || !IsJsWhitespace(r[0])
  {
    if s != [] && IsJsWhitespace(s[0]) then TrimStart(s[1..]) else s
  }

  /** Drops trailing white space: the result is the prefix ending at the last other character. */
  function TrimEnd(s: string): (r: string)
    ensures |r| <= |s| && r == s[..|r|]
    ensures forall i :: |r| <= i < |s| ==> IsJsWhitespace(s[i])
    ensures r == [] || !IsJsWhitespace(r[|r| - 1])
  {
    if s != [] && IsJsWhitespace(s[|s| - 1]) then TrimEnd(s[..|s| - 1]) else s
  }

  /** `s.trim()` */
  function Trim(s: string): (r: string)
    ensures r == [] || (!IsJsWhitespace(r[0]) && !IsJsWhitespace(r[|r| - 1]))
  {
    TrimEnd(TrimStart(s))
  }

  // ---------------------------------------------------------------------------
  // s.replace(/(#.*)/g, '')

  /** The characters the regular-expression `.` does not match. */
  predicate IsLineTerminator(c: char) {
    c == '\n' || c == '\r' || c == '\U{2028}' || c == '\U{2029}'
  }

  /** What `.*` consumes: everything up to, not including, the next line terminator. */
  function SkipLine(s: string): (r: string)
    ensures |r| <= |s| && r == s[|s| - |r|..]
    ensures forall i :: 0 <= i < |s| - |r| ==> !IsLineTerminator(s[i])
    ensures r == [] || IsLineTerminator(r[0])
  {
    if s == [] || IsLineTerminator(s[0]) then s else SkipLine(s[1..])
  }

  /**
   * `s.replace(/(#.*)/g, '')`: every `#` is removed together with the rest of
   * its line; scanning resumes at the line terminator, which is kept.
   */
  function StripFragments(s: string): (r: string)
    ensures |r| <= |s|
    ensures '#' !in r
    decreases |s|
  {
    if s == [] then []
    else if s[0] == '#' then StripFragments(SkipLine(s[1..]))
    else [s[0]] + StripFragments(s[1..])
  }

  /** `.*` stops at the first line terminator. */
  lemma {:induction false} SkipLineStops(line: string, rest: string)
    requires forall i :: 0 <= i < |line| ==> !IsLineTerminator(line[i])
    requires rest == [] || IsLineTerminator(rest[0])
    ensures SkipLine(line + rest) == rest
  {
    if line == [] {
      assert line + rest == rest;
    } else {
      assert (line + rest)[1..] == line[1..] + rest;
      SkipLineStops(line[1..], rest);
    }
  }

  /**
   * A fragment runs to the end of its line only: the text after the line
   * break is kept and stripped in turn.
   */
  lemma {:induction false} StripFragmentsLineBreak(a: string, fragment: string, b: string)
    requires '#' !in a
    requires forall i :: 0 <= i < |fragment| ==> !IsLineTerminator(fragment[i])
    requires b == [] || IsLineTerminator(b[0])
    ensures StripFragments(a + "#" + fragment + b) == a + StripFragments(b)
  {
    var s := a + "#" + fragment + b;
    if a == [] {
      assert s == "#" + (fragment + b);
      assert s[1..] == fragment + b;
      SkipLineStops(fragment, b);
    } else {
      assert s[0] == a[0];
      assert s[1..] == a[1..] + "#" + fragment + b;
      StripFragmentsLineBreak(a[1..], fragment, b);
      assert a == [a[0]] + a[1..];
    }
  }

  /** A string without `#` is left as it is. */
  lemma {:induction false} StripFragmentsNoHash(s: string)
    requires '#' !in s
    ensures StripFragments(s) == s
  {
    if s != [] {
      StripFragmentsNoHash(s[1..]);
      assert s == [s[0]] + s[1..];
    }
  }

  /** On a single line, stripping fragments cuts the string at its first `#`. */
  lemma {:induction false} StripFragmentsSingleLine(s: string, k: nat)
    requires forall i :: 0 <= i < |s| ==> !IsLineTerminator(s[i])
    requires k < |s| && s[k] == '#' && '#' !in s[..k]
    ensures StripFragments(s) == s[..k]
  {
    if k == 0 {
      var rest := SkipLine(s[1..]);
      assert rest == [];
    } else {
      assert s[1..][..k - 1] == s[..k][1..];
      StripFragmentsSingleLine(s[1..], k - 1);
      assert s[..k] == [s[0]] + s[1..][..k - 1];
    }
  }
}
