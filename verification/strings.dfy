/**
 * Python's `str.split(sep)` and `sep.join(parts)` for a one-character
 * separator, the only two string operations the script performs on tag
 * strings and on the modifier data.
 */
module Strings {

  /** The number of occurrences of `c` in `s`. */
  function Count(s: string, c: char): nat
  {
    if s == [] then 0 else (if s[0] == c then 1 else 0) + Count(s[1..], c)
  }

  /**
   * `s.split(sep)`: the pieces of `s` between occurrences of `sep`. There is
   * always one piece more than there are separators (so `"".split(",")` is
   * `[""]`), and no piece contains the separator.
   */
  function Split(s: string, sep: char): (parts: seq<string>)
    ensures |parts| == Count(s, sep) + 1
    ensures forall i :: 0 <= i < |parts| ==> sep !in parts[i]
  {
    if s == [] then [[]]
    else
      var rest := Split(s[1..], sep);
      if s[0] == sep then [[]] + rest
      else [[s[0]] + rest[0]] + rest[1..]
  }

  /** The total length of the pieces. */
  function TotalLength(parts: seq<string>): nat
  {
    if parts == [] then 0 else |parts[0]| + TotalLength(parts[1..])
  }

  /**
   * `sep.join(parts)`: the pieces with one separator between neighbours.
   * Joining n >= 1 pieces adds exactly n - 1 characters to their total
   * length: the pieces are kept whole and only the separators are added.
   */
  function Join(parts: seq<string>, sep: char): (s: string)
    ensures |parts| >= 1 ==> |s| == TotalLength(parts) + |parts| - 1
  {
    if |parts| == 0 then []
    else if |parts| == 1 then parts[0]
    else parts[0] + [sep] + Join(parts[1..], sep)
  }

  /** `a` is a suffix of `b`: `b.endswith(a)`. */
  predicate IsSuffix(a: string, b: string)
  {
    |a| <= |b| && a == b[|b| - |a|..]
  }

  /** Prepending a character to the first piece prepends it to the joined string. */
  lemma JoinExtendFirst(c: char, parts: seq<string>, sep: char)
    requires |parts| >= 1
    ensures Join([[c] + parts[0]] + parts[1..], sep) == [c] + Join(parts, sep)
  {
  }

  /** Joining the pieces of a split gives the original string back. */
  lemma {:induction false} JoinSplit(s: string, sep: char)
    ensures Join(Split(s, sep), sep) == s
  {
    if s != [] {
      var rest := Split(s[1..], sep);
      JoinSplit(s[1..], sep);
      if s[0] == sep {
        assert ([[]] + rest)[1..] == rest;
      } else {
        JoinExtendFirst(s[0], rest, sep);
      }
    }
  }

  /** A string without the separator splits into itself alone. */
  lemma {:induction false} SplitWithoutSeparator(s: string, sep: char)
    requires sep !in s
    ensures Split(s, sep) == [s]
  {
    if s != [] {
      assert sep !in s[1..] by {
        forall k | 0 <= k < |s[1..]| ensures s[1..][k] != sep {
          assert s[1..][k] == s[k + 1];
        }
      }
      SplitWithoutSeparator(s[1..], sep);
      assert [s[0]] + s[1..] == s;
    }
  }

  /** The pieces of `[c] + t`, given the pieces `rest` of `t`. */
  function SplitCons(c: char, rest: seq<string>, sep: char): seq<string>
    requires |rest| >= 1
  {
    if c == sep then [[]] + rest else [[c] + rest[0]] + rest[1..]
  }

  /** Extra pieces at the end are untouched by a character in front. */
  lemma SplitConsAppend(c: char, left: seq<string>, right: seq<string>, sep: char)
    requires |left| >= 1
    ensures SplitCons(c, left + right, sep) == SplitCons(c, left, sep) + right
  {
    if c != sep {
      assert (left + right)[0] == left[0] && (left + right)[1..] == left[1..] + right;
    }
  }

  /** Splitting at a separator splits the two sides independently. */
  lemma {:induction false} SplitAppend(a: string, b: string, sep: char)
    ensures Split(a + [sep] + b, sep) == Split(a, sep) + Split(b, sep)
  {
    var s := a + [sep] + b;
    if a == [] {
      assert s[0] == sep && s[1..] == b;
    } else {
      assert s[0] == a[0] && s[1..] == a[1..] + [sep] + b;
      SplitAppend(a[1..], b, sep);
      SplitConsAppend(a[0], Split(a[1..], sep), Split(b, sep), sep);
      assert Split(s, sep) == SplitCons(a[0], Split(s[1..], sep), sep);
      assert Split(a, sep) == SplitCons(a[0], Split(a[1..], sep), sep);
    }
  }

  /**
   * Splitting a join gives the pieces back, provided there is at least one
   * piece and none contains the separator.
   */
  lemma {:induction false} SplitJoin(parts: seq<string>, sep: char)
    requires |parts| >= 1
    requires forall i :: 0 <= i < |parts| ==> sep !in parts[i]
    ensures Split(Join(parts, sep), sep) == parts
  {
    SplitWithoutSeparator(parts[0], sep);
    if |parts| > 1 {
      SplitJoin(parts[1..], sep);
      SplitAppend(parts[0], Join(parts[1..], sep), sep);
      assert [parts[0]] + parts[1..] == parts;
    }
  }

  /** Appending one separator-free token appends it to the pieces. */
  lemma SplitAppendToken(a: string, token: string, sep: char)
    requires sep !in token
    ensures Split(a + [sep] + token, sep) == Split(a, sep) + [token]
  {
    SplitAppend(a, token, sep);
    SplitWithoutSeparator(token, sep);
  }

  /** `Join(parts)` around a cut between two non-empty halves. */
  lemma {:induction false} JoinAt(parts: seq<string>, k: nat, sep: char)
    requires 0 < k < |parts|
    ensures Join(parts, sep) == Join(parts[..k], sep) + [sep] + Join(parts[k..], sep)
  {
    if k > 1 {
      JoinAt(parts[1..], k - 1, sep);
      assert parts[1..][..k - 1] == parts[..k][1..];
      assert parts[1..][k - 1..] == parts[k..];
    }
  }

  /** Joining a tail of the pieces gives a suffix of joining them all. */
  lemma JoinSuffix(parts: seq<string>, k: nat, sep: char)
    requires k <= |parts|
    ensures IsSuffix(Join(parts[k..], sep), Join(parts, sep))
  {
    if k == 0 {
      assert parts[0..] == parts;
    } else if k < |parts| {
      JoinAt(parts, k, sep);
    }
  }
}
