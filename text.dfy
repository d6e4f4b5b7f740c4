/**
 * The few pieces of Python's `str` and `set` behaviour the bot relies on:
 * `str.split()` (whitespace tokenising), `str.split(sep)`, `sep.join(parts)`,
 * `str.lower()`, `str.startswith`, the `in` substring test, and the
 * enumeration of a set by a `for` loop or by `join`.
 */
module Text {

  /** No element occurs twice. */
  predicate Distinct<T(==)>(s: seq<T>) {
    forall i, j :: 0 <= i < j < |s| ==> s[i] != s[j]
  }

  /**
   * `order` lists every element of `s` exactly once. Python iterates a set in
   * an order fixed by its hash table, which the program never relies on; the
   * model takes that order as a value satisfying this predicate.
   */
  ghost predicate IsEnumeration(order: seq<string>, s: set<string>) {
    Distinct(order) && forall x :: x in order <==> x in s
  }

  /** An enumeration has as many entries as the set has elements. */
  lemma {:induction false} EnumerationSize(order: seq<string>, s: set<string>)
    requires IsEnumeration(order, s)
    ensures |order| == |s|
  {
    if order == [] {
      assert forall x :: x !in s;
      assert s == {};
    } else {
      var n := |order| - 1;
      var last, init := order[n], order[..n];
      forall x
        ensures x in init <==> x in s - {last}
      {
        if x in init {
          var i :| 0 <= i < n && init[i] == x;
          assert order[i] == x && order[n] == last;
        }
        if x in s - {last} {
          var i :| 0 <= i < |order| && order[i] == x;
          assert i != n;
          assert init[i] == x;
        }
      }
      EnumerationSize(init, s - {last});
    }
  }

  /** The empty set has only the empty enumeration. */
  lemma EmptyEnumeration(order: seq<string>)
    requires IsEnumeration(order, {})
    ensures order == []
  {
    EnumerationSize(order, {});
  }

  /** The concatenation of all parts, in order (`"".join(parts)`). */
  function Concat(parts: seq<string>): string {
    if parts == [] then "" else Concat(parts[..|parts| - 1]) + parts[|parts| - 1]
  }

  /** `sep.join(parts)`. */
  function Join(sep: string, parts: seq<string>): string
    decreases |parts|
  {
    if |parts| == 0 then ""
    else if |parts| == 1 then parts[0]
    else parts[0] + sep + Join(sep, parts[1..])
  }

  /** `s.startswith(prefix)`. */
  predicate StartsWith(s: string, prefix: string) {
    |prefix| <= |s| && s[..|prefix|] == prefix
  }

  // ---------------------------------------------------------------- str.lower()

  /** Lower-casing of one character, for the ASCII letters. */
  function LowerChar(c: char): char {
    if 'A' <= c <= 'Z' then (c as int + 32) as char else c
  }

  /** `s.lower()`, restricted to ASCII case mapping. */
  function Lower(s: string): (r: string)
    ensures |r| == |s|
    ensures forall i :: 0 <= i < |s| ==> r[i] == LowerChar(s[i])
  {
    seq(|s|, i requires 0 <= i < |s| => LowerChar(s[i]))
  }

  // ---------------------------------------------------------------- str.split()

  /** The characters `str.split()` with no argument separates on. */
  predicate IsSpace(c: char) {
    || c == ' '
    || ('\t' <= c <= '\r')
    || ('\U{1c}' <= c <= '\U{1f}')
    || c == '\U{85}' || c == '\U{a0}' || c == '\U{1680}'
    || ('\U{2000}' <= c <= '\U{200a}')
    || c == '\U{2028}' || c == '\U{2029}' || c == '\U{202f}' || c == '\U{205f}' || c == '\U{3000}'
  }

  /** A token of `str.split()`: non-empty and free of whitespace. */
  predicate IsWord(w: string) {
    w != [] && forall i :: 0 <= i < |w| ==> !IsSpace(w[i])
  }

  /** The end of the run of non-space characters that starts at `i`. */
  function WordEnd(s: string, i: nat): (j: nat)
    requires i <= |s|
    ensures i <= j <= |s|
    ensures forall k :: i <= k < j ==> !IsSpace(s[k])
    ensures j == |s| || IsSpace(s[j])
    decreases |s| - i
  {
    if i == |s| || IsSpace(s[i]) then i else WordEnd(s, i + 1)
  }

  /** `s.split()`: the maximal runs of non-space characters, in order. */
  function Split(s: string): (words: seq<string>)
    ensures forall k :: 0 <= k < |words| ==> IsWord(words[k])
    decreases |s|
  {
    if s == [] then []
    else if IsSpace(s[0]) then Split(s[1..])
    else
      var j := WordEnd(s, 0);
      [s[..j]] + Split(s[j..])
  }

  lemma {:induction false} WordEndIs(s: string, i: nat, j: nat)
    requires i <= j <= |s|
    requires forall k :: i <= k < j ==> !IsSpace(s[k])
    requires j == |s| || IsSpace(s[j])
    ensures WordEnd(s, i) == j
    decreases j - i
  {
    if i < j {
      WordEndIs(s, i + 1, j);
    }
  }

  /** A word followed by nothing or by a space is split off as the first token. */
  lemma SplitWord(w: string, rest: string)
    requires IsWord(w)
    requires rest == [] || IsSpace(rest[0])
    ensures Split(w + rest) == [w] + Split(rest)
  {
    var s := w + rest;
    WordEndIs(s, 0, |w|);
    assert s[..|w|] == w && s[|w|..] == rest;
  }

  /** Splitting words joined by single spaces gives the words back. */
  lemma {:induction false} SplitJoin(words: seq<string>)
    requires forall k :: 0 <= k < |words| ==> IsWord(words[k])
    ensures Split(Join(" ", words)) == words
    decreases |words|
  {
    if |words| == 1 {
      SplitWord(words[0], "");
      assert words[0] + "" == words[0];
    } else if |words| > 1 {
      var tail := Join(" ", words[1..]);
      SplitWord(words[0], " " + tail);
      assert (" " + tail)[1..] == tail;
      SplitJoin(words[1..]);
      assert Join(" ", words) == words[0] + (" " + tail);
    }
  }

  /** A string without whitespace splits into at most one token. */
  lemma SplitSpaceless(s: string)
    requires forall i :: 0 <= i < |s| ==> !IsSpace(s[i])
    ensures |Split(s)| <= 1
  {
    if s != [] {
      WordEndIs(s, 0, |s|);
      assert s[|s|..] == [];
    }
  }

  // ----------------------------------------------------- str.split(sep) and `in`

  /** `sub` occurs in `s` starting at index `i`. */
  predicate OccursAt(s: string, sub: string, i: int) {
    0 <= i && i + |sub| <= |s| && s[i..i + |sub|] == sub
  }

  /** `sub in s`. */
  predicate Contains(s: string, sub: string) {
    exists i | 0 <= i <= |s| :: OccursAt(s, sub, i)
  }

  /** The first occurrence of `sub` at or after `i`, or `|s|` when there is none. */
  function FindFrom(s: string, sub: string, i: nat): (k: nat)
    requires sub != [] && i <= |s|
    ensures i <= k <= |s|
    ensures k < |s| ==> OccursAt(s, sub, k)
    ensures forall j :: i <= j < k ==> !OccursAt(s, sub, j)
    decreases |s| - i
  {
    if i == |s| || OccursAt(s, sub, i) then i else FindFrom(s, sub, i + 1)
  }

  lemma PrefixHasNoOccurrence(s: string, sub: string, k: nat)
    requires sub != [] && k <= |s|
    requires forall j :: 0 <= j < k ==> !OccursAt(s, sub, j)
    ensures !Contains(s[..k], sub)
  {
    forall j | OccursAt(s[..k], sub, j)
      ensures false
    {
      assert s[..k][j..j + |sub|] == s[j..j + |sub|];
      assert OccursAt(s, sub, j);
    }
  }

  /**
   * `s.split(sep)` for a non-empty separator: the pieces between the
   * leftmost non-overlapping occurrences of `sep`. No piece contains `sep`.
   */
  function SplitOn(s: string, sep: string): (parts: seq<string>)
    requires sep != []
    ensures |parts| >= 1
    ensures forall k :: 0 <= k < |parts| ==> !Contains(parts[k], sep)
    decreases |s|
  {
    var k := FindFrom(s, sep, 0);
    PrefixHasNoOccurrence(s, sep, k);
    if k == |s| then (assert s[..k] == s; [s])
    else [s[..k]] + SplitOn(s[k + |sep|..], sep)
  }

  /** Joining the pieces of `s.split(sep)` with `sep` gives `s` back. */
  lemma {:induction false} JoinSplitOn(s: string, sep: string)
    requires sep != []
    ensures Join(sep, SplitOn(s, sep)) == s
    decreases |s|
  {
    var k := FindFrom(s, sep, 0);
    if k < |s| {
      var rest := s[k + |sep|..];
      var parts := SplitOn(rest, sep);
      JoinSplitOn(rest, sep);
      var all := [s[..k]] + parts;
      assert SplitOn(s, sep) == all;
      assert all[1..] == parts;
      assert Join(sep, all) == s[..k] + sep + Join(sep, parts);
      assert s == s[..k] + s[k..k + |sep|] + rest;
    } else {
      assert s[..k] == s;
    }
  }

  /** A string without `sep` is one piece. */
  lemma SplitOnAbsent(s: string, sep: string)
    requires sep != [] && !Contains(s, sep)
    ensures SplitOn(s, sep) == [s]
  {
  }

  /** A string that starts with `sep` begins with an empty piece. */
  lemma SplitOnLeading(sep: string, rest: string)
    requires sep != []
    ensures SplitOn(sep + rest, sep) == [""] + SplitOn(rest, sep)
  {
    var s := sep + rest;
    assert OccursAt(s, sep, 0) by { assert s[..|sep|] == sep; }
    assert FindFrom(s, sep, 0) == 0;
    assert s[|sep|..] == rest;
  }

  /** Splitting on one character at its first occurrence. */
  lemma SplitOnChar(a: string, c: char, b: string)
    requires !Contains(a, [c])
    ensures SplitOn(a + [c] + b, [c]) == [a] + SplitOn(b, [c])
  {
    var s := a + [c] + b;
    forall j | 0 <= j < |a|
      ensures !OccursAt(s, [c], j)
    {
      assert s[j..j + 1] == a[j..j + 1];
      assert !OccursAt(a, [c], j);
    }
    assert OccursAt(s, [c], |a|) by { assert s[|a|..|a| + 1] == [c]; }
    WordlessFind(s, [c], |a|);
    assert s[..|a|] == a && s[|a| + 1..] == b;
  }

  lemma WordlessFind(s: string, sub: string, k: nat)
    requires sub != [] && k < |s| && OccursAt(s, sub, k)
    requires forall j :: 0 <= j < k ==> !OccursAt(s, sub, j)
    ensures FindFrom(s, sub, 0) == k
  {
  }

  /** A string that contains `sep` splits into at least two pieces. */
  lemma SplitOnPresent(s: string, sep: string)
    requires sep != [] && Contains(s, sep)
    ensures |SplitOn(s, sep)| >= 2
  {
    var i :| 0 <= i <= |s| && OccursAt(s, sep, i);
    var k := FindFrom(s, sep, 0);
    assert k <= i;
  }

  /** An occurrence stays an occurrence when text is added on either side. */
  lemma OccursWithin(pre: string, s: string, post: string, sub: string, i: int)
    requires OccursAt(s, sub, i)
    ensures OccursAt(pre + s + post, sub, |pre| + i)
  {
    assert (pre + s + post)[|pre| + i..|pre| + i + |sub|] == s[i..i + |sub|];
  }

  /** Every part of `sep.join(parts)` occurs in the joined string. */
  lemma {:induction false} JoinContains(sep: string, parts: seq<string>, k: nat)
    requires k < |parts|
    ensures Contains(Join(sep, parts), parts[k])
    decreases |parts|
  {
    if |parts| == 1 {
      assert OccursAt(parts[0], parts[0], 0);
    } else if k == 0 {
      OccursWithin([], parts[0], sep + Join(sep, parts[1..]), parts[0], 0);
      assert [] + parts[0] + (sep + Join(sep, parts[1..])) == Join(sep, parts);
    } else {
      JoinContains(sep, parts[1..], k - 1);
      var i :| 0 <= i <= |Join(sep, parts[1..])| && OccursAt(Join(sep, parts[1..]), parts[k], i);
      OccursWithin(parts[0] + sep, Join(sep, parts[1..]), [], parts[k], i);
      assert parts[0] + sep + Join(sep, parts[1..]) + [] == Join(sep, parts);
    }
  }

  /** Splitting on ", " at the first occurrence, when the first piece has none. */
  lemma SplitOnComma(a: string, b: string)
    requires !Contains(a, ", ")
    ensures SplitOn(a + ", " + b, ", ") == [a] + SplitOn(b, ", ")
  {
    var s := a + ", " + b;
    forall j | 0 <= j < |a|
      ensures !OccursAt(s, ", ", j)
    {
      if j + 2 <= |a| {
        assert s[j..j + 2] == a[j..j + 2];
        assert !OccursAt(a, ", ", j);
      } else {
        assert j + 1 == |a| && s[|a|] == ',';
        assert s[j..j + 2][1] == ',' != ", "[1];
      }
    }
    assert OccursAt(s, ", ", |a|) by { assert s[|a|..|a| + 2] == ", "; }
    WordlessFind(s, ", ", |a|);
    assert s[..|a|] == a && s[|a| + 2..] == b;
  }

  /** `", ".join(parts).split(", ")` gives the parts back when none contains ", ". */
  lemma {:induction false} SplitJoinComma(parts: seq<string>)
    requires |parts| >= 1
    requires forall k :: 0 <= k < |parts| ==> !Contains(parts[k], ", ")
    ensures SplitOn(Join(", ", parts), ", ") == parts
    decreases |parts|
  {
    if |parts| == 1 {
      SplitOnAbsent(parts[0], ", ");
    } else {
      SplitJoinComma(parts[1..]);
      SplitOnComma(parts[0], Join(", ", parts[1..]));
    }
  }

  // ------------------------------------------------------------------- str(int)

  function DigitChar(d: nat): char
    requires d < 10
  {
    "0123456789"[d]
  }

  /** The decimal digits of `n`, most significant first, without leading zeros. */
  function Digits(n: nat): (s: string)
    ensures |s| >= 1
    ensures forall i :: 0 <= i < |s| ==> '0' <= s[i] <= '9'
    ensures n > 0 ==> s[0] != '0'
  {
    if n < 10 then [DigitChar(n)] else Digits(n / 10) + [DigitChar(n % 10)]
  }

  /** The number a string of decimal digits stands for. */
  function DigitsValue(s: string): nat
    requires forall i :: 0 <= i < |s| ==> '0' <= s[i] <= '9'
  {
    if s == [] then 0 else 10 * DigitsValue(s[..|s| - 1]) + (s[|s| - 1] as int - '0' as int)
  }

  /** Reading the digits of `n` back gives `n`. */
  lemma {:induction false} DigitsRoundTrip(n: nat)
    ensures DigitsValue(Digits(n)) == n
  {
    if n >= 10 {
      DigitsRoundTrip(n / 10);
      var s := Digits(n);
      assert s[..|s| - 1] == Digits(n / 10);
    }
  }

  /** `str(n)` for an integer. */
  function Decimal(n: int): string {
    if n < 0 then "-" + Digits(-n) else Digits(n)
  }
}
