/** The JavaScript string built-ins the core relies on: white space as
    `String.prototype.trim`, `\s` and `parseInt` see it, `trim`, `toLowerCase`,
    `indexOf`/`includes`, `split` on a separator string and `Array.prototype.join`. */
module JsText {
  import opened Wrappers

  /** A string value that may be missing is truthy when present and non-empty. */
  predicate Truthy(s: Option<string>) {
    s.Some? && s.value != ""
  }

  /** `s || fallback` for a string value that may be missing. */
  function OrElse(s: Option<string>, fallback: string): (r: string)
    ensures Truthy(s) ==> r == s.value
    ensures !Truthy(s) ==> r == fallback
  {
    if Truthy(s) then s.value else fallback
  }

  /** ECMAScript WhiteSpace and LineTerminator code points. */
  predicate IsSpace(c: char) {
    c == '\t' || c == '\n' || c == '\U{000B}' || c == '\U{000C}' || c == '\r' ||
    c == ' ' || c == '\U{00A0}' || c == '\U{1680}' ||
    ('\U{2000}' <= c <= '\U{200A}') ||
    c == '\U{2028}' || c == '\U{2029}' || c == '\U{202F}' || c == '\U{205F}' ||
    c == '\U{3000}' || c == '\U{FEFF}'
  }

  /** `s` with its leading white space removed: what is left is the end of `s`. */
  function TrimStart(s: string): (r: string)
    ensures |r| <= |s| && r == s[|s| - |r|..]
    ensures forall k :: 0 <= k < |s| - |r| ==> IsSpace(s[k])
    ensures r == [] || !IsSpace(r[0])
  {
    if s != [] && IsSpace(s[0]) then
      var r := TrimStart(s[1..]);
      assert s[1..][|s| - 1 - |r|..] == s[|s| - |r|..];
      r
    else s
  }

  /** Text that does not start with white space is left as it is by `TrimStart`. */
  lemma TrimStartOfVisible(s: string)
    requires s != [] && !IsSpace(s[0])
    ensures TrimStart(s) == s
  {
  }

  /** A run of white space followed by text that does not start with white
      space: `TrimStart` removes exactly the run. */
  lemma TrimStartOfSpaces(spaces: string, rest: string)
    requires forall k :: 0 <= k < |spaces| ==> IsSpace(spaces[k])
    requires rest == [] || !IsSpace(rest[0])
    ensures TrimStart(spaces + rest) == rest
  {
    var s := spaces + rest;
    var r := TrimStart(s);
    var n := |s| - |r|;
    if rest != [] {
      assert s[|spaces|] == rest[0];
    }
    if r != [] {
      assert r[0] == s[n];
    }
    assert n == |spaces|;
    assert r == s[|spaces|..];
  }

  /** Text that starts and ends with a character that is not white space is
      left as it is by `trim`. */
  lemma TrimOfVisibleEnds(s: string)
    requires s != [] && !IsSpace(s[0]) && !IsSpace(s[|s| - 1])
    ensures Trim(s) == s
  {
    var r, i := Trim(s), TrimmedFrom(s);
    assert i == 0;
    assert |r| == |s|;
  }

  /** `s` with its trailing white space removed: what is left is the start of `s`. */
  function TrimEnd(s: string): (r: string)
    ensures |r| <= |s| && r == s[..|r|]
    ensures forall k :: |r| <= k < |s| ==> IsSpace(s[k])
    ensures r == [] || !IsSpace(r[|r| - 1])
  {
    if s != [] && IsSpace(s[|s| - 1]) then TrimEnd(s[..|s| - 1]) else s
  }

  /** `String.prototype.trim`: the slice of `s` between its leading and
      trailing white space, which starts at `TrimmedFrom(s)`. */
  function Trim(s: string): (r: string)
    ensures TrimmedFrom(s) + |r| <= |s|
    ensures forall k :: 0 <= k < |r| ==> r[k] == s[TrimmedFrom(s) + k]
    ensures forall k :: 0 <= k < TrimmedFrom(s) ==> IsSpace(s[k])
    ensures forall k :: TrimmedFrom(s) + |r| <= k < |s| ==> IsSpace(s[k])
    ensures r == [] || (!IsSpace(r[0]) && !IsSpace(r[|r| - 1]))
  {
    var t := TrimStart(s);
    var r := TrimEnd(t);
    SliceBetweenSpaces(s, |s| - |t|, r);
    r
  }

  /** A prefix `r` of the suffix of `s` from `i`, followed there only by
      white space, is the slice of `s` from `i`, followed only by white space. */
  lemma SliceBetweenSpaces(s: string, i: nat, r: string)
    requires i + |r| <= |s| && r == s[i..][..|r|]
    requires forall k :: |r| <= k < |s| - i ==> IsSpace(s[i..][k])
    ensures forall k :: 0 <= k < |r| ==> r[k] == s[i + k]
    ensures forall k :: i + |r| <= k < |s| ==> IsSpace(s[k])
  {
    forall k | i + |r| <= k < |s| ensures IsSpace(s[k]) {
      assert s[k] == s[i..][k - i];
    }
  }

  /** Where the text left by `trim` starts: the length of the leading white space. */
  function TrimmedFrom(s: string): (i: nat)
    ensures i <= |s|
  {
    |s| - |TrimStart(s)|
  }

  /** A string that is white space only trims to the empty string, and no other does. */
  lemma TrimEmptyIffAllSpace(s: string)
    ensures Trim(s) == [] <==> forall k :: 0 <= k < |s| ==> IsSpace(s[k])
  {
    var r, i := Trim(s), TrimmedFrom(s);
    if r != [] {
      assert r[0] == s[i];
    }
  }

  /** `toLowerCase` on one character; only ASCII letters are mapped. */
  function LowerChar(c: char): char {
    if 'A' <= c <= 'Z' then (c as int + 32) as char else c
  }

  function ToLower(s: string): (r: string)
    ensures |r| == |s| && forall k :: 0 <= k < |s| ==> r[k] == LowerChar(s[k])
  {
    seq(|s|, k requires 0 <= k < |s| => LowerChar(s[k]))
  }

  /** `sub` occurs in `s` starting at index `i`. */
  predicate OccursAt(s: string, sub: string, i: nat) {
    i + |sub| <= |s| && s[i..i + |sub|] == sub
  }

  /** `s.indexOf(sub, from)`: the first occurrence at or after `from`, or -1. */
  function IndexFrom(s: string, sub: string, from: nat): (r: int)
    ensures r == -1 || (from <= r && OccursAt(s, sub, r))
    ensures forall k: nat :: from <= k && (r == -1 || k < r) ==> !OccursAt(s, sub, k)
    decreases |s| - from
  {
    if from + |sub| > |s| then -1
    else if s[from..from + |sub|] == sub then from
    else IndexFrom(s, sub, from + 1)
  }

  function IndexOf(s: string, sub: string): (r: int)
    ensures r == -1 || (0 <= r && OccursAt(s, sub, r))
    ensures forall k: nat :: (r == -1 || k < r) ==> !OccursAt(s, sub, k)
  {
    IndexFrom(s, sub, 0)
  }

  /** `s.includes(sub)`. */
  predicate Contains(s: string, sub: string) {
    IndexOf(s, sub) != -1
  }

  /** `parts.join(sep)`. */
  function Join(parts: seq<string>, sep: string): string {
    if parts == [] then ""
    else if |parts| == 1 then parts[0]
    else parts[0] + sep + Join(parts[1..], sep)
  }

  /** `s.split(sep)` for a non-empty separator: the pieces between the
      successive leftmost occurrences of `sep`. Joining the pieces back gives
      `s`, and no piece contains the separator. */
  function Split(s: string, sep: string): (parts: seq<string>)
    requires sep != []
    ensures |parts| >= 1
    ensures Join(parts, sep) == s
    ensures forall k :: 0 <= k < |parts| ==> !Contains(parts[k], sep)
    decreases |s|
  {
    var i := IndexOf(s, sep);
    if i == -1 then [s]
    else
      var head := s[..i];
      var rest := Split(s[i + |sep|..], sep);
      assert forall k: nat :: OccursAt(head, sep, k) ==> OccursAt(s, sep, k) by {
        forall k: nat | OccursAt(head, sep, k) ensures OccursAt(s, sep, k) {
          assert s[k..k + |sep|] == head[k..k + |sep|];
        }
      }
      assert s == head + sep + s[i + |sep|..] by {
        assert s[i..i + |sep|] == sep;
      }
      [head] + rest
  }

  /** A string without the separator splits into itself alone. */
  lemma SplitWithoutSeparator(s: string, sep: string)
    requires sep != [] && !Contains(s, sep)
    ensures Split(s, sep) == [s]
  {
  }

  /** Splitting on a one-character separator gives one more piece than the
      separator has occurrences. */
  lemma {:induction false} SplitCharCount(s: string, c: char)
    ensures |Split(s, [c])| == CountChar(s, c) + 1
    decreases |s|
  {
    var i := IndexOf(s, [c]);
    if i == -1 {
      CountCharAbsent(s, c);
    } else {
      assert s[i] == c by { assert s[i..i + 1] == [c]; }
      forall k | 0 <= k < i ensures s[k] != c {
        assert !OccursAt(s, [c], k);
        assert s[k..k + 1] == [s[k]];
      }
      CountCharSplit(s, c, i);
      SplitCharCount(s[i + 1..], c);
    }
  }

  function CountChar(s: string, c: char): nat {
    if s == [] then 0 else (if s[0] == c then 1 else 0) + CountChar(s[1..], c)
  }

  lemma {:induction false} CountCharAbsent(s: string, c: char)
    requires IndexOf(s, [c]) == -1
    ensures CountChar(s, c) == 0
  {
    CountCharNone(s, c, 0);
  }

  lemma {:induction false} CountCharNone(s: string, c: char, from: nat)
    requires from <= |s|
    requires forall k: nat :: from <= k ==> !OccursAt(s, [c], k)
    ensures CountChar(s[from..], c) == 0
    decreases |s| - from
  {
    if from < |s| {
      assert !OccursAt(s, [c], from);
      assert s[from..from + 1] == [s[from]];
      assert s[from..][1..] == s[from + 1..];
      CountCharNone(s, c, from + 1);
    }
  }

  /** The count of `c` in `s`, when the first `c` is at index `i`. */
  lemma {:induction false} CountCharSplit(s: string, c: char, i: nat)
    requires i < |s| && s[i] == c
    requires forall k :: 0 <= k < i ==> s[k] != c
    ensures CountChar(s, c) == 1 + CountChar(s[i + 1..], c)
  {
    if i > 0 {
      CountCharSplit(s[1..], c, i - 1);
      assert s[1..][i..] == s[i + 1..];
    }
  }

  /** Splitting on a one-character separator, when the first piece does not
      contain it: that piece, then the split of the remainder. */
  lemma SplitOnChar(a: string, c: char, b: string)
    requires c !in a
    ensures Split(a + [c] + b, [c]) == [a] + Split(b, [c])
  {
    var s := a + [c] + b;
    assert OccursAt(s, [c], |a|) by { assert s[|a|..|a| + 1] == [c]; }
    forall k: nat | k < |a| ensures !OccursAt(s, [c], k) {
      assert s[k..k + 1] == [a[k]];
    }
    assert IndexOf(s, [c]) == |a|;
    assert s[..|a|] == a && s[|a| + 1..] == b;
  }

  /** A string without the character `c` does not contain `[c]`. */
  lemma NotContainsChar(s: string, c: char)
    requires c !in s
    ensures !Contains(s, [c])
  {
    forall k: nat ensures !OccursAt(s, [c], k) {
      if k + 1 <= |s| {
        assert s[k..k + 1] == [s[k]];
      }
    }
  }

  /** Splitting the join of non-empty many pieces on a character none of them
      contains gives the pieces back. */
  lemma {:induction false} SplitJoinChar(parts: seq<string>, c: char)
    requires parts != []
    requires forall k :: 0 <= k < |parts| ==> c !in parts[k]
    ensures Split(Join(parts, [c]), [c]) == parts
  {
    if |parts| == 1 {
      NotContainsChar(parts[0], c);
      SplitWithoutSeparator(parts[0], [c]);
    } else {
      SplitJoinChar(parts[1..], c);
      SplitOnChar(parts[0], c, Join(parts[1..], [c]));
      assert [parts[0]] + parts[1..] == parts;
    }
  }
}
