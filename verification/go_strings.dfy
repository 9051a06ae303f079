/** The pieces of Go's `strings` package the exporter relies on:
    `TrimSpace`, `Split` (with a one-character separator), and
    `ToLower`/`ToUpper` restricted to ASCII letters. */
module GoStrings {

  /** `unicode.IsSpace`: the Latin-1 spaces plus the Unicode White_Space set. */
  predicate IsSpace(c: char) {
    || c == '\t' || c == '\n' || c == '\U{000B}' || c == '\U{000C}' || c == '\r' || c == ' '
    || c == '\U{0085}' || c == '\U{00A0}' || c == '\U{1680}'
    || ('\U{2000}' <= c <= '\U{200A}')
    || c == '\U{2028}' || c == '\U{2029}' || c == '\U{202F}' || c == '\U{205F}' || c == '\U{3000}'
  }

  /** Drops leading white space. */
  function TrimLeft(s: string): (r: string)
    ensures |r| <= |s| && r == s[|s| - |r|..]
    ensures forall i :: 0 <= i < |s| - |r| ==> IsSpace(s[i])
    ensures r == [] || !IsSpace(r[0])
  {
    if |s| > 0 && IsSpace(s[0]) then TrimLeft(s[1..]) else s
  }

  /** Drops trailing white space. */
  function TrimRight(s: string): (r: string)
    ensures |r| <= |s| && r == s[..|r|]
    ensures forall i :: |r| <= i < |s| ==> IsSpace(s[i])
    ensures r == [] || !IsSpace(r[|r| - 1])
  {
    if |s| > 0 && IsSpace(s[|s| - 1]) then TrimRight(s[..|s| - 1]) else s
  }

  /** `strings.TrimSpace`: only the two ends of the whole string are trimmed.
      The result is a slice of the input with nothing but white space before
      and after it. */
  function TrimSpace(s: string): (r: string)
    ensures |r| <= |s|
    ensures r == [] || (!IsSpace(r[0]) && !IsSpace(r[|r| - 1]))
    ensures (s == [] || (!IsSpace(s[0]) && !IsSpace(s[|s| - 1]))) ==> r == s
    ensures exists i :: 0 <= i <= |s| - |r| && SpacedAt(s, i, r)
  {
    TrimSpaceSlice(s);
    TrimRight(TrimLeft(s))
  }

  /** The trimmed text sits where TrimLeft left off. */
  lemma TrimSpaceSlice(s: string)
    ensures SpacedAt(s, |s| - |TrimLeft(s)|, TrimRight(TrimLeft(s)))
  {
    var l := TrimLeft(s);
    SpacedInside(s, |s| - |l|, l, TrimRight(l));
  }

  /** White space around a prefix `r` of a suffix `l` of `s`, when `l` is
      preceded by white space and `r` followed by it within `l`. */
  lemma SpacedInside(s: string, i: nat, l: string, r: string)
    requires i <= |s| && l == s[i..] && (forall k :: 0 <= k < i ==> IsSpace(s[k]))
    requires |r| <= |l| && r == l[..|r|] && (forall k :: |r| <= k < |l| ==> IsSpace(l[k]))
    ensures SpacedAt(s, i, r)
  {
    assert s[i..][..|r|] == s[i..i + |r|];
    forall k | i + |r| <= k < |s| ensures IsSpace(s[k]) {
      assert s[k] == l[k - i];
    }
  }

  /** `r` sits at position `i` of `s` with only white space around it. */
  predicate SpacedAt(s: string, i: nat, r: string) {
    i + |r| <= |s| && r == s[i..i + |r|]
    && (forall k :: 0 <= k < i ==> IsSpace(s[k]))
    && (forall k :: i + |r| <= k < |s| ==> IsSpace(s[k]))
  }

  predicate AllSpace(s: string) {
    forall k :: 0 <= k < |s| ==> IsSpace(s[k])
  }

  /** Leading white space is dropped whatever follows it. */
  lemma {:induction false} TrimLeftSpaces(lead: string, x: string)
    requires AllSpace(lead)
    ensures TrimLeft(lead + x) == TrimLeft(x)
  {
    if |lead| > 0 {
      assert (lead + x)[0] == lead[0];
      assert (lead + x)[1..] == lead[1..] + x;
      assert AllSpace(lead[1..]) by {
        forall k | 0 <= k < |lead[1..]| ensures IsSpace(lead[1..][k]) { assert lead[1..][k] == lead[k + 1]; }
      }
      TrimLeftSpaces(lead[1..], x);
    } else {
      assert lead + x == x;
    }
  }

  /** Trailing white space is dropped whatever precedes it. */
  lemma {:induction false} TrimRightSpaces(x: string, trail: string)
    requires AllSpace(trail)
    ensures TrimRight(x + trail) == TrimRight(x)
    decreases |trail|
  {
    if |trail| > 0 {
      var t := x + trail;
      assert t[|t| - 1] == trail[|trail| - 1];
      var shorter := trail[..|trail| - 1];
      assert t[..|t| - 1] == x + shorter;
      assert AllSpace(shorter) by {
        forall k | 0 <= k < |shorter| ensures IsSpace(shorter[k]) { assert shorter[k] == trail[k]; }
      }
      TrimRightSpaces(x, shorter);
    } else {
      assert x + trail == x;
    }
  }

  /** TrimSpace of white space, a middle without white space at its ends,
      and white space gives exactly the middle. */
  lemma TrimSpaceEnds(lead: string, mid: string, trail: string)
    requires AllSpace(lead) && AllSpace(trail)
    requires mid == [] || (!IsSpace(mid[0]) && !IsSpace(mid[|mid| - 1]))
    ensures TrimSpace(lead + mid + trail) == mid
  {
    assert lead + mid + trail == lead + (mid + trail);
    TrimLeftSpaces(lead, mid + trail);
    if mid == [] {
      assert mid + trail == [] + trail;
      TrimLeftSpaces(trail, []);
      assert trail + [] == trail;
    } else {
      assert (mid + trail)[0] == mid[0];
      TrimRightSpaces(mid, trail);
    }
  }

  /** `strings.Join` with a one-character separator. */
  function Join(parts: seq<string>, sep: char): string
    requires |parts| >= 1
  {
    if |parts| == 1 then parts[0] else parts[0] + [sep] + Join(parts[1..], sep)
  }

  /** `strings.Split` with a one-character separator: never empty (the
      empty string splits into one empty field), no field holds the
      separator, and joining the fields back gives the input. */
  function Split(s: string, sep: char): (r: seq<string>)
    ensures |r| >= 1
    ensures forall i :: 0 <= i < |r| ==> sep !in r[i]
    ensures Join(r, sep) == s
    ensures r[0] <= s
  {
    if |s| == 0 then [""]
    else
      var rest := Split(s[1..], sep);
      if s[0] == sep then
        [""] + rest
      else
        JoinConsFirst(s[0], rest, sep);
        [[s[0]] + rest[0]] + rest[1..]
  }

  /** Prepending a character to the first field prepends it to the join. */
  lemma JoinConsFirst(c: char, parts: seq<string>, sep: char)
    requires |parts| >= 1
    ensures Join([[c] + parts[0]] + parts[1..], sep) == [c] + Join(parts, sep)
  {
    var q := [[c] + parts[0]] + parts[1..];
    assert q[1..] == parts[1..];
  }

  /** Splitting the join of separator-free fields gives the fields back. */
  lemma {:induction false} SplitJoin(parts: seq<string>, sep: char)
    requires |parts| >= 1
    requires forall i :: 0 <= i < |parts| ==> sep !in parts[i]
    ensures Split(Join(parts, sep), sep) == parts
  {
    if |parts| == 1 {
      SplitNoSep(parts[0], sep);
    } else {
      SplitJoin(parts[1..], sep);
      SplitPrefix(parts[0], Join(parts[1..], sep), sep);
      assert [parts[0]] + parts[1..] == parts;
    }
  }

  /** A string without the separator is a single field. */
  lemma {:induction false} SplitNoSep(s: string, sep: char)
    requires sep !in s
    ensures Split(s, sep) == [s]
  {
    if |s| > 0 {
      assert sep !in s[1..] by {
        forall k | 0 <= k < |s[1..]| ensures s[1..][k] != sep { assert s[1..][k] == s[k + 1]; }
      }
      SplitNoSep(s[1..], sep);
      assert [s[0]] + s[1..] == s;
    }
  }

  /** A separator-free field followed by the separator becomes the first field. */
  lemma {:induction false} SplitPrefix(a: string, b: string, sep: char)
    requires sep !in a
    ensures Split(a + [sep] + b, sep) == [a] + Split(b, sep)
  {
    if |a| == 0 {
      assert a + [sep] + b == [sep] + b;
      assert ([sep] + b)[1..] == b;
    } else {
      var t := a + [sep] + b;
      assert t[1..] == a[1..] + [sep] + b;
      assert sep !in a[1..] by {
        forall k | 0 <= k < |a[1..]| ensures a[1..][k] != sep { assert a[1..][k] == a[k + 1]; }
      }
      SplitPrefix(a[1..], b, sep);
      assert [a[0]] + a[1..] == a;
    }
  }

  /** ASCII lower-casing of one character. */
  function LowerChar(c: char): char {
    if 'A' <= c <= 'Z' then (c as int + 32) as char else c
  }

  /** ASCII upper-casing of one character. */
  function UpperChar(c: char): char {
    if 'a' <= c <= 'z' then (c as int - 32) as char else c
  }

  function ToLower(s: string): (r: string)
    ensures |r| == |s|
    ensures forall i :: 0 <= i < |s| ==> r[i] == LowerChar(s[i])
  {
    seq(|s|, i requires 0 <= i < |s| => LowerChar(s[i]))
  }

  function ToUpper(s: string): (r: string)
    ensures |r| == |s|
    ensures forall i :: 0 <= i < |s| ==> r[i] == UpperChar(s[i])
  {
    seq(|s|, i requires 0 <= i < |s| => UpperChar(s[i]))
  }

  predicate HasNoUpper(s: string) {
    forall i :: 0 <= i < |s| ==> !('A' <= s[i] <= 'Z')
  }

  predicate HasNoLower(s: string) {
    forall i :: 0 <= i < |s| ==> !('a' <= s[i] <= 'z')
  }

  /** Lower-casing changes a string exactly when it holds an upper-case letter,
      and its result never holds one. */
  lemma ToLowerFixpoint(s: string)
    ensures ToLower(s) == s <==> HasNoUpper(s)
    ensures HasNoUpper(ToLower(s))
  {
    if !HasNoUpper(s) {
      var i :| 0 <= i < |s| && 'A' <= s[i] <= 'Z';
      assert ToLower(s)[i] != s[i];
    }
  }

  /** Upper-casing changes a string exactly when it holds a lower-case letter. */
  lemma ToUpperFixpoint(s: string)
    ensures ToUpper(s) == s <==> HasNoLower(s)
    ensures HasNoLower(ToUpper(s))
  {
    if !HasNoLower(s) {
      var i :| 0 <= i < |s| && 'a' <= s[i] <= 'z';
      assert ToUpper(s)[i] != s[i];
    }
  }
}
