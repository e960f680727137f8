/** The three Python string operations the bot relies on: `str.split` with a
    one-character separator, `str.join` and `str.strip()` without arguments.
    Strings are sequences of Unicode scalar values, as Python's `str` is a
    sequence of code points. */
module Text {

  /** The characters `str.isspace()` accepts, which are the ones `str.strip()`
      removes when it is given no argument. */
  predicate IsSpace(c: char) {
    || ('\t' <= c <= '\r')
    || ('\U{1C}' <= c <= '\U{1F}')
    || c == ' '
    || c == '\U{85}'
    || c == '\U{A0}'
    || c == '\U{1680}'
    || ('\U{2000}' <= c <= '\U{200A}')
    || c == '\U{2028}'
    || c == '\U{2029}'
    || c == '\U{202F}'
    || c == '\U{205F}'
    || c == '\U{3000}'
  }

  /** A string with no white space at either end. */
  predicate IsStripped(s: string) {
    s == [] || (!IsSpace(s[0]) && !IsSpace(s[|s| - 1]))
  }

  // ---------------------------------------------------------------------------
  // s.split(sep)

  /** `s.count(c)`. */
  function Occurrences(s: string, c: char): nat {
    if s == [] then 0 else (if s[0] == c then 1 else 0) + Occurrences(s[1..], c)
  }

  /** `s.split(sep)`: the pieces between occurrences of `sep`; there is always
      one piece more than there are separators. */
  function Split(s: string, sep: char): (parts: seq<string>)
    ensures |parts| == Occurrences(s, sep) + 1
    ensures forall i :: 0 <= i < |parts| ==> sep !in parts[i]
  {
    if s == [] then [[]]
    else
      var rest := Split(s[1..], sep);
      if s[0] == sep then [[]] + rest
      else [[s[0]] + rest[0]] + rest[1..]
  }

  /** No line holds a line break. */
  predicate SingleLines(lines: seq<string>) {
    forall i :: 0 <= i < |lines| ==> '\n' !in lines[i]
  }

  /** A character that occurs in a string is counted. */
  lemma {:induction false} OccursCounted(s: string, c: char)
    requires c in s
    ensures Occurrences(s, c) > 0
  {
    if s[0] != c {
      assert c in s[1..];
      OccursCounted(s[1..], c);
    }
  }

  /** `sep.join(parts)`. */
  function Join(parts: seq<string>, sep: string): string {
    if |parts| == 0 then []
    else if |parts| == 1 then parts[0]
    else parts[0] + sep + Join(parts[1..], sep)
  }

  /** Joining the pieces of a split with the same separator gives back the string. */
  lemma {:induction false} JoinSplit(s: string, sep: char)
    ensures Join(Split(s, sep), [sep]) == s
  {
    if s != [] {
      var rest := Split(s[1..], sep);
      JoinSplit(s[1..], sep);
      if s[0] == sep {
        assert Split(s, sep) == [[]] + rest;
        assert ([[]] + rest)[1..] == rest;
      } else {
        var parts := [[s[0]] + rest[0]] + rest[1..];
        assert Split(s, sep) == parts;
        if |rest| > 1 {
          assert parts[1..] == rest[1..];
        }
      }
    }
  }

  /** A string without the separator splits into itself alone. */
  lemma {:induction false} SplitWithoutSep(s: string, sep: char)
    requires sep !in s
    ensures Split(s, sep) == [s]
  {
    if s != [] {
      SplitWithoutSep(s[1..], sep);
      assert [s[0]] + s[1..] == s;
    }
  }

  /** The first separator ends the first piece. */
  lemma {:induction false} SplitAtFirst(a: string, sep: char, b: string)
    requires sep !in a
    ensures Split(a + [sep] + b, sep) == [a] + Split(b, sep)
  {
    var s := a + [sep] + b;
    if a == [] {
      assert s[1..] == b;
    } else {
      assert s[1..] == a[1..] + [sep] + b;
      SplitAtFirst(a[1..], sep, b);
      assert [a[0]] + a[1..] == a;
    }
  }

  /** Splitting a join recovers the pieces, provided there is at least one
      piece and none of them holds the separator. */
  lemma {:induction false} SplitJoin(parts: seq<string>, sep: char)
    requires |parts| >= 1
    requires forall i :: 0 <= i < |parts| ==> sep !in parts[i]
    ensures Split(Join(parts, [sep]), sep) == parts
  {
    if |parts| == 1 {
      SplitWithoutSep(parts[0], sep);
    } else {
      SplitJoin(parts[1..], sep);
      SplitAtFirst(parts[0], sep, Join(parts[1..], [sep]));
    }
  }

  // ---------------------------------------------------------------------------
  // s.strip()

  /** The first index at or after `i` that does not hold white space. */
  function SkipSpaces(s: string, i: nat): (r: nat)
    requires i <= |s|
    ensures i <= r <= |s|
    decreases |s| - i
  {
    if i < |s| && IsSpace(s[i]) then SkipSpaces(s, i + 1) else i
  }

  /** The end, at or before `j` and not before `lo`, of the text without its
      trailing white space. */
  function TrimSpaces(s: string, lo: nat, j: nat): (r: nat)
    requires lo <= j <= |s|
    ensures lo <= r <= j
  {
    if lo < j && IsSpace(s[j - 1]) then TrimSpaces(s, lo, j - 1) else j
  }

  /** `s.strip()`: skip the leading white space, then cut the trailing white
      space off what is left. */
  function Strip(s: string): string {
    var i := SkipSpaces(s, 0);
    s[i..TrimSpaces(s, i, |s|)]
  }

  /** `SkipSpaces` passes over white space only and stops at a character that
      is not white space, or at the end. */
  lemma {:induction false} SkipSpacesStops(s: string, i: nat)
    requires i <= |s|
    ensures forall k :: i <= k < SkipSpaces(s, i) ==> IsSpace(s[k])
    ensures SkipSpaces(s, i) == |s| || !IsSpace(s[SkipSpaces(s, i)])
    decreases |s| - i
  {
    if i < |s| && IsSpace(s[i]) {
      SkipSpacesStops(s, i + 1);
    }
  }

  /** `TrimSpaces` passes back over white space only and stops after a
      character that is not white space, or at `lo`. */
  lemma {:induction false} TrimSpacesStops(s: string, lo: nat, j: nat)
    requires lo <= j <= |s|
    ensures forall k :: TrimSpaces(s, lo, j) <= k < j ==> IsSpace(s[k])
    ensures TrimSpaces(s, lo, j) == lo || !IsSpace(s[TrimSpaces(s, lo, j) - 1])
  {
    if lo < j && IsSpace(s[j - 1]) {
      TrimSpacesStops(s, lo, j - 1);
    }
  }

  /** What `strip` keeps is one slice of the string: white space only was cut
      on either side, and the slice neither starts nor ends with white space. */
  lemma StripSlice(s: string) returns (i: nat, j: nat)
    ensures i <= j <= |s| && Strip(s) == s[i..j]
    ensures forall k :: 0 <= k < i ==> IsSpace(s[k])
    ensures forall k :: j <= k < |s| ==> IsSpace(s[k])
    ensures IsStripped(Strip(s))
  {
    i := SkipSpaces(s, 0);
    j := TrimSpaces(s, i, |s|);
    SkipSpacesStops(s, 0);
    TrimSpacesStops(s, i, |s|);
    if i < j {
      assert Strip(s)[0] == s[i] && Strip(s)[|Strip(s)| - 1] == s[j - 1];
      assert !IsSpace(s[i]);
    }
  }

  /** Characters are never added by `strip`. */
  lemma StripKeepsOut(s: string, c: char)
    requires c !in s
    ensures c !in Strip(s)
  {
    var i, j := StripSlice(s);
  }

  /** A string is its own `strip` exactly when it has no white space at either
      end; so `strip` is idempotent. */
  lemma StripFixpoint(s: string)
    ensures Strip(s) == s <==> IsStripped(s)
    ensures Strip(Strip(s)) == Strip(s)
  {
    var i, j := StripSlice(s);
    if IsStripped(s) && s != [] {
      assert SkipSpaces(s, 0) == 0;
      assert TrimSpaces(s, 0, |s|) == |s|;
      assert s[0..|s|] == s;
    }
    var t := Strip(s);
    if t != [] {
      assert SkipSpaces(t, 0) == 0;
      assert TrimSpaces(t, 0, |t|) == |t|;
      assert t[0..|t|] == t;
    }
  }

  /** `strip` is the only cut of white space from the two ends that leaves a
      stripped middle: whatever white space surrounds `m`, it comes back. */
  lemma StripUnique(a: string, m: string, b: string)
    requires forall k :: 0 <= k < |a| ==> IsSpace(a[k])
    requires forall k :: 0 <= k < |b| ==> IsSpace(b[k])
    requires IsStripped(m)
    ensures Strip(a + m + b) == m
  {
    var s := a + m + b;
    var i := SkipSpaces(s, 0);
    var j := TrimSpaces(s, i, |s|);
    SkipSpacesStops(s, 0);
    TrimSpacesStops(s, i, |s|);
    if m == [] {
      assert forall k :: 0 <= k < |s| ==> IsSpace(s[k]);
      assert i == |s|;
    } else {
      assert !IsSpace(s[|a|]) && !IsSpace(s[|a| + |m| - 1]);
      assert i == |a|;
      assert j == |a| + |m|;
      assert s[i..j] == m;
    }
  }
}
