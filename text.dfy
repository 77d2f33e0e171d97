/**
 * The JavaScript string primitives the authentication layer is built from:
 * `trim`, `startsWith`, `split` on a one-character separator and `replace`
 * with a string pattern (first occurrence only), and the truthiness of an
 * optional string.  Strings are sequences of
 * characters; every whitespace character `String.prototype.trim` removes lies
 * in the Basic Multilingual Plane, so code points and UTF-16 units agree here.
 */
module Text {
  import opened Wrappers

  /** JavaScript truthiness of an optional string: present and non-empty. */
  predicate Truthy(o: Option<string>) {
    o.Some? && o.value != ""
  }

  /** `o || ''`. */
  function OrEmpty(o: Option<string>): string {
    if Truthy(o) then o.value else ""
  }

  /** The characters ECMAScript's `trim` removes: WhiteSpace and LineTerminator. */
  predicate IsWhitespace(c: char) {
    || c == '\t' || c == '\n' || c == '\U{000B}' || c == '\U{000C}' || c == '\r'
    || c == ' ' || c == '\U{00A0}' || c == '\U{1680}'
    || ('\U{2000}' <= c <= '\U{200A}')
    || c == '\U{2028}' || c == '\U{2029}' || c == '\U{202F}' || c == '\U{205F}'
    || c == '\U{3000}' || c == '\U{FEFF}'
  }

  /** Neither end of `s` is a whitespace character. */
  predicate IsTrimmed(s: string) {
    s == [] || (!IsWhitespace(s[0]) && !IsWhitespace(s[|s| - 1]))
  }

  /** `s` with its leading whitespace removed. */
  function TrimStart(s: string): (r: string)
    ensures |r| <= |s| && r == s[|s| - |r|..]
    ensures forall k {:trigger IsWhitespace(s[k])} :: 0 <= k < |s| - |r| ==> IsWhitespace(s[k])
    ensures r == [] || !IsWhitespace(r[0])
    decreases |s|
  {
    if |s| > 0 && IsWhitespace(s[0]) then TrimStart(s[1..]) else s
  }

  /** `s` with its trailing whitespace removed. */
  function TrimEnd(s: string): (r: string)
    ensures |r| <= |s| && r == s[..|r|]
    ensures forall k {:trigger IsWhitespace(s[k])} :: |r| <= k < |s| ==> IsWhitespace(s[k])
    ensures r == [] || !IsWhitespace(r[|r| - 1])
    decreases |s|
  {
    if |s| > 0 && IsWhitespace(s[|s| - 1]) then TrimEnd(s[..|s| - 1]) else s
  }

  /** `r` is the infix of `s` starting at `i`, and everything of `s` around it is whitespace. */
  predicate CutFrom(s: string, r: string, i: nat) {
    && i + |r| <= |s| && r == s[i..i + |r|]
    && (forall k {:trigger IsWhitespace(s[k])} :: 0 <= k < i ==> IsWhitespace(s[k]))
    && (forall k {:trigger IsWhitespace(s[k])} :: i + |r| <= k < |s| ==> IsWhitespace(s[k]))
  }

  /** `s.trim()`: a trimmed infix of `s`, everything cut off around it being whitespace. */
  function Trim(s: string): (r: string)
    ensures IsTrimmed(r)
    ensures exists i: nat :: CutFrom(s, r, i)
  {
    var t := TrimStart(s);
    var r := TrimEnd(t);
    TrimCut(s, t, r);
    r
  }

  /**
   * Cutting whitespace off the front of `s`, giving `t`, and then off the
   * back of `t`, giving `r`, cuts the infix `r` out of whitespace.
   */
  lemma TrimCut(s: string, t: string, r: string)
    requires |t| <= |s| && t == s[|s| - |t|..]
    requires forall k {:trigger IsWhitespace(s[k])} :: 0 <= k < |s| - |t| ==> IsWhitespace(s[k])
    requires |r| <= |t| && r == t[..|r|]
    requires forall k {:trigger IsWhitespace(t[k])} :: |r| <= k < |t| ==> IsWhitespace(t[k])
    ensures CutFrom(s, r, |s| - |t|)
  {
    var i := |s| - |t|;
    var u := s[i..i + |r|];
    forall k | 0 <= k < |r| ensures r[k] == u[k] {
      assert r[k] == t[k] == s[i + k];
    }
    assert r == u;
    forall k | i + |r| <= k < |s| ensures IsWhitespace(s[k]) {
      assert s[k] == t[k - i];
      assert IsWhitespace(t[k - i]);
    }
  }

  /** Trimming changes a string exactly when one of its ends is whitespace. */
  lemma TrimFixedPoint(s: string)
    ensures Trim(s) == s <==> IsTrimmed(s)
  {
    if IsTrimmed(s) && s != [] {
      assert TrimStart(s) == s;
      assert TrimEnd(s) == s;
    }
  }

  /** Trimming twice is trimming once. */
  lemma TrimIdempotent(s: string)
    ensures Trim(Trim(s)) == Trim(s)
  {
    TrimFixedPoint(Trim(s));
  }

  /** Every character of `Trim(s)` occurs in `s`. */
  lemma TrimChars(s: string, x: char)
    requires x in Trim(s)
    ensures x in s
  {
    var t := TrimStart(s);
    var r := TrimEnd(t);
    var k :| 0 <= k < |r| && r[k] == x;
    assert r[k] == t[k];
    assert t[k] == s[|s| - |t| + k];
  }

  /** `s.startsWith(p)`. */
  predicate StartsWith(s: string, p: string): (b: bool)
    ensures b <==> exists rest :: s == p + rest
  {
    assert |p| <= |s| && s[..|p|] == p ==> s == p + s[|p|..];
    |p| <= |s| && s[..|p|] == p
  }

  /** The index of the first `c` in `s`, or `|s|` when there is none. */
  function IndexOfChar(s: string, c: char): (i: nat)
    ensures i <= |s| && c !in s[..i]
    ensures i < |s| ==> s[i] == c
    ensures forall k :: 0 <= k < |s| && s[k] == c ==> i <= k
    decreases |s|
  {
    if |s| == 0 then 0
    else if s[0] == c then 0
    else
      var j := IndexOfChar(s[1..], c);
      assert s[..j + 1] == [s[0]] + s[1..][..j];
      j + 1
  }

  /**
   * `s.split(c)`: the fields between consecutive separators, so never empty
   * (`"".split(c)` is `[""]`); the first field is everything before the
   * first separator.
   */
  function Split(s: string, c: char): (r: seq<string>)
    ensures |r| >= 1
    ensures r[0] == s[..IndexOfChar(s, c)]
    ensures forall k :: 0 <= k < |r| ==> c !in r[k]
    ensures forall k, x :: 0 <= k < |r| && x in r[k] ==> x in s
    decreases |s|
  {
    var i := IndexOfChar(s, c);
    if i == |s| then
      assert s[..i] == s;
      [s]
    else
      var rest := Split(s[i + 1..], c);
      forall k, x | 0 <= k < |rest| && x in rest[k] ensures x in s {
        assert x in s[i + 1..];
      }
      [s[..i]] + rest
  }

  /** `fields.join(c)`, the inverse of `Split`. */
  function Join(fields: seq<string>, c: char): string
    decreases |fields|
  {
    if |fields| == 0 then ""
    else if |fields| == 1 then fields[0]
    else fields[0] + [c] + Join(fields[1..], c)
  }

  /** `i` is where `c` first occurs in `s` (or `|s|`): that is what `IndexOfChar` finds. */
  lemma IndexOfCharIs(s: string, c: char, i: nat)
    requires i <= |s| && (forall k :: 0 <= k < i ==> s[k] != c) && (i < |s| ==> s[i] == c)
    ensures IndexOfChar(s, c) == i
  {
  }

  /** Joining a field in front of at least one more puts a separator between them. */
  lemma JoinCons(field: string, rest: seq<string>, c: char)
    requires |rest| >= 1
    ensures Join([field] + rest, c) == field + [c] + Join(rest, c)
  {
    assert ([field] + rest)[1..] == rest;
  }

  /** A string without the separator is a single field. */
  lemma SplitNoSeparator(s: string, c: char)
    requires c !in s
    ensures Split(s, c) == [s]
  {
    assert IndexOfChar(s, c) == |s|;
    assert s[..|s|] == s;
  }

  /** Splitting at the first separator: the field before it, then the split of the rest. */
  lemma SplitAtFirst(a: string, c: char, b: string)
    requires c !in a
    ensures Split(a + [c] + b, c) == [a] + Split(b, c)
  {
    var s := a + [c] + b;
    assert s[..|a|] == a;
    assert forall k :: 0 <= k < |a| ==> s[k] == a[k];
    IndexOfCharIs(s, c, |a|);
    assert s[|a| + 1..] == b;
  }

  /** Joining the fields of a split gives back the string. */
  lemma {:induction false} SplitJoin(s: string, c: char)
    ensures Join(Split(s, c), c) == s
    decreases |s|
  {
    var i := IndexOfChar(s, c);
    if i == |s| {
      SplitNoSeparator(s, c);
    } else {
      var a, b := s[..i], s[i + 1..];
      assert s == a + [c] + b;
      var rest := Split(b, c);
      assert Split(s, c) == [a] + rest;
      SplitJoin(b, c);
      JoinCons(a, rest, c);
    }
  }

  /** Splitting a join of separator-free fields gives back the fields. */
  lemma {:induction false} JoinSplit(fields: seq<string>, c: char)
    requires |fields| >= 1
    requires forall k :: 0 <= k < |fields| ==> c !in fields[k]
    ensures Split(Join(fields, c), c) == fields
    decreases |fields|
  {
    if |fields| == 1 {
      SplitNoSeparator(fields[0], c);
    } else {
      JoinSplit(fields[1..], c);
      SplitAtFirst(fields[0], c, Join(fields[1..], c));
      assert fields == [fields[0]] + fields[1..];
    }
  }

  /** `pat` occurs in `s` at index `i`. */
  predicate OccursAt(s: string, pat: string, i: nat) {
    i + |pat| <= |s| && s[i..i + |pat|] == pat
  }

  /** `s.indexOf(pat)`: the first index at which `pat` occurs, if any. */
  function IndexOf(s: string, pat: string): (r: Option<nat>)
    ensures r.Some? ==> OccursAt(s, pat, r.value)
    ensures r.Some? ==> forall j :: 0 <= j < r.value ==> !OccursAt(s, pat, j)
    ensures r.None? ==> forall j :: 0 <= j <= |s| ==> !OccursAt(s, pat, j)
    decreases |s|
  {
    if |pat| > |s| then None
    else if s[..|pat|] == pat then Some(0)
    else
      match IndexOf(s[1..], pat)
      case None =>
        assert forall j :: 1 <= j <= |s| ==> !OccursAt(s, pat, j) by {
          forall j | 1 <= j <= |s| ensures !OccursAt(s, pat, j) {
            OccursAtTail(s, pat, j);
          }
        }
        None
      case Some(i) =>
        OccursAtTail(s, pat, i + 1);
        assert forall j :: 1 <= j < i + 1 ==> !OccursAt(s, pat, j) by {
          forall j | 1 <= j < i + 1 ensures !OccursAt(s, pat, j) {
            OccursAtTail(s, pat, j);
          }
        }
        Some(i + 1)
  }

  /** An occurrence past the first character is an occurrence in the tail. */
  lemma OccursAtTail(s: string, pat: string, j: nat)
    requires 1 <= j <= |s|
    ensures OccursAt(s, pat, j) <==> OccursAt(s[1..], pat, j - 1)
  {
    if j + |pat| <= |s| {
      var here := s[j..j + |pat|];
      var there := s[1..][j - 1..j - 1 + |pat|];
      forall k | 0 <= k < |pat| ensures here[k] == there[k] {
        assert here[k] == s[j + k];
      }
      assert here == there;
    }
  }

  /** `s.replace(pat, rep)` with a string pattern: only the first occurrence is replaced. */
  function ReplaceFirst(s: string, pat: string, rep: string): (r: string)
    ensures (forall j :: 0 <= j <= |s| ==> !OccursAt(s, pat, j)) ==> r == s
    ensures forall i: nat :: OccursAt(s, pat, i) && (forall j :: 0 <= j < i ==> !OccursAt(s, pat, j)) ==>
              r == s[..i] + rep + s[i + |pat|..]
  {
    match IndexOf(s, pat)
    case None => s
    case Some(i) => s[..i] + rep + s[i + |pat|..]
  }

  /** Removing a pattern a string starts with drops exactly that prefix. */
  lemma ReplacePrefix(s: string, pat: string)
    requires StartsWith(s, pat)
    ensures ReplaceFirst(s, pat, "") == s[|pat|..]
  {
    assert IndexOf(s, pat) == Some(0);
  }
}
