/** The handful of Go `strings` package operations the gfwlist classifier uses,
    over `string` (a sequence of chars; Go works on UTF-8 bytes and runes, which
    makes no difference for the ASCII markers involved here). */
module GoStrings {

  /** strings.HasPrefix */
  predicate HasPrefix(s: string, prefix: string): (b: bool)
    ensures b <==> |prefix| <= |s| && forall i :: 0 <= i < |prefix| ==> s[i] == prefix[i]
  {
    |prefix| <= |s| && s[..|prefix|] == prefix
  }

  /** strings.HasSuffix */
  predicate HasSuffix(s: string, suffix: string): (b: bool)
    ensures b <==> |suffix| <= |s| && forall i :: 0 <= i < |suffix| ==> s[|s| - |suffix| + i] == suffix[i]
  {
    |suffix| <= |s| && s[|s| - |suffix|..] == suffix
  }

  /** strings.TrimLeft: removes every leading character that belongs to the
      cutset. It is a character-set trim, not the removal of a literal prefix;
      Go passes the cutset as a string, read here as the set of its characters. */
  function TrimLeft(s: string, cutset: set<char>): (r: string)
    ensures |r| <= |s| && r == s[|s| - |r|..]
    ensures forall i :: 0 <= i < |s| - |r| ==> s[i] in cutset
    ensures r == [] || r[0] !in cutset
  {
    if s != [] && s[0] in cutset then TrimLeft(s[1..], cutset) else s
  }

  /** strings.TrimRight: removes every trailing character that belongs to the cutset. */
  function TrimRight(s: string, cutset: set<char>): (r: string)
    ensures |r| <= |s| && r == s[..|r|]
    ensures forall i :: |r| <= i < |s| ==> s[i] in cutset
    ensures r == [] || r[|r| - 1] !in cutset
  {
    if s != [] && s[|s| - 1] in cutset then TrimRight(s[..|s| - 1], cutset) else s
  }

  /** r is what is left of s once a run of cutset characters is removed at
      each end: an infix of s with only cutset characters before and after it. */
  predicate TrimmedFrom(r: string, s: string, cutset: set<char>) {
    exists i :: 0 <= i <= |s| - |r| && s[i..][..|r|] == r &&
      (forall k :: 0 <= k < i ==> s[k] in cutset) &&
      (forall k :: i + |r| <= k < |s| ==> s[k] in cutset)
  }

  /** strings.Trim: removes the cutset characters from both ends. */
  function Trim(s: string, cutset: set<char>): (r: string)
    ensures TrimmedFrom(r, s, cutset)
    ensures r == [] || (r[0] !in cutset && r[|r| - 1] !in cutset)
    ensures |r| <= |s|
    ensures (s == [] || (s[0] !in cutset && s[|s| - 1] !in cutset)) ==> r == s
  {
    TrimIsInfix(s, cutset);
    TrimRight(TrimLeft(s, cutset), cutset)
  }

  lemma {:induction false} TrimIsInfix(s: string, cutset: set<char>)
    ensures TrimmedFrom(TrimRight(TrimLeft(s, cutset), cutset), s, cutset)
  {
    var l := TrimLeft(s, cutset);
    var r := TrimRight(l, cutset);
    var i := |s| - |l|;
    assert l == s[i..];
    assert r == l[..|r|];
    forall k | i + |r| <= k < |s|
      ensures s[k] in cutset
    {
      assert s[k] == l[k - i];
    }
  }

  /** Two infixes of s that both have only cutset characters around them and
      no cutset character at either end are the same. */
  lemma InfixUnique(s: string, cutset: set<char>, r: string, i: nat, t: string, j: nat)
    requires i + |r| <= |s| && s[i..][..|r|] == r
    requires forall k :: 0 <= k < i ==> s[k] in cutset
    requires forall k :: i + |r| <= k < |s| ==> s[k] in cutset
    requires r == [] || (r[0] !in cutset && r[|r| - 1] !in cutset)
    requires j + |t| <= |s| && s[j..][..|t|] == t
    requires forall k :: 0 <= k < j ==> s[k] in cutset
    requires forall k :: j + |t| <= k < |s| ==> s[k] in cutset
    requires t == [] || (t[0] !in cutset && t[|t| - 1] !in cutset)
    ensures r == t
  {
    if r != [] && t != [] {
      assert r[0] == s[i] && t[0] == s[j];
      assert r[|r| - 1] == s[i + |r| - 1] && t[|t| - 1] == s[j + |t| - 1];
      assert i == j && |r| == |t|;
    } else if r != [] {
      assert false;
    } else if t != [] {
      assert false;
    }
  }

  /** The trimmed infix is unique: at most one infix of s has only cutset
      characters around it and none at either end. */
  lemma TrimmedUnique(s: string, cutset: set<char>, r: string, t: string)
    requires TrimmedFrom(r, s, cutset) && TrimmedFrom(t, s, cutset)
    requires r == [] || (r[0] !in cutset && r[|r| - 1] !in cutset)
    requires t == [] || (t[0] !in cutset && t[|t| - 1] !in cutset)
    ensures r == t
  {
    var i :| 0 <= i <= |s| - |r| && s[i..][..|r|] == r &&
      (forall k :: 0 <= k < i ==> s[k] in cutset) &&
      (forall k :: i + |r| <= k < |s| ==> s[k] in cutset);
    var j :| 0 <= j <= |s| - |t| && s[j..][..|t|] == t &&
      (forall k :: 0 <= k < j ==> s[k] in cutset) &&
      (forall k :: j + |t| <= k < |s| ==> s[k] in cutset);
    InfixUnique(s, cutset, r, i, t, j);
  }

  /** So Trim returns the only such infix. */
  lemma TrimIsUnique(s: string, cutset: set<char>, r: string)
    requires TrimmedFrom(r, s, cutset)
    requires r == [] || (r[0] !in cutset && r[|r| - 1] !in cutset)
    ensures r == Trim(s, cutset)
  {
    TrimmedUnique(s, cutset, r, Trim(s, cutset));
  }

  /** Number of occurrences of c in s. */
  function Count(s: string, c: char): nat {
    if s == [] then 0 else (if s[0] == c then 1 else 0) + Count(s[1..], c)
  }

  /** strings.Split with a one-character separator: the pieces between the
      separators, so there is always one more piece than separators. */
  function Split(s: string, sep: char): (parts: seq<string>)
    ensures |parts| == Count(s, sep) + 1
    ensures forall i :: 0 <= i < |parts| ==> sep !in parts[i]
  {
    if s == [] then [[]]
    else
      var rest := Split(s[1..], sep);
      if s[0] == sep then [[]] + rest
      else [[s[0]] + rest[0]] + rest[1..]
  }

  /** strings.Join with a one-character separator. */
  function Join(parts: seq<string>, sep: char): string
    requires |parts| >= 1
  {
    if |parts| == 1 then parts[0] else parts[0] + [sep] + Join(parts[1..], sep)
  }

  lemma {:induction false} CountAppend(a: string, b: string, c: char)
    ensures Count(a + b, c) == Count(a, c) + Count(b, c)
  {
    if a != [] {
      assert (a + b)[1..] == a[1..] + b;
      CountAppend(a[1..], b, c);
    } else {
      assert a + b == b;
    }
  }

  lemma {:induction false} CountZero(s: string, c: char)
    ensures Count(s, c) == 0 <==> c !in s
  {
    if s != [] {
      CountZero(s[1..], c);
      assert s == [s[0]] + s[1..];
    }
  }

  /** Joining the pieces of a split gives back the original string. */
  lemma {:induction false} JoinSplit(s: string, sep: char)
    ensures Join(Split(s, sep), sep) == s
  {
    if s != [] {
      var rest := Split(s[1..], sep);
      JoinSplit(s[1..], sep);
      if s[0] == sep {
        assert ([[]] + rest)[1..] == rest;
      } else {
        var parts := [[s[0]] + rest[0]] + rest[1..];
        if |rest| > 1 {
          assert parts[1..] == rest[1..];
          assert Join(rest, sep) == rest[0] + [sep] + Join(rest[1..], sep);
        }
      }
    }
  }

  /** A join of separator-free pieces holds one separator between each pair. */
  lemma {:induction false} CountJoin(parts: seq<string>, sep: char)
    requires |parts| >= 1
    requires forall i :: 0 <= i < |parts| ==> sep !in parts[i]
    ensures Count(Join(parts, sep), sep) == |parts| - 1
  {
    CountZero(parts[0], sep);
    if |parts| > 1 {
      CountJoin(parts[1..], sep);
      CountAppend(parts[0], [sep], sep);
      CountAppend(parts[0] + [sep], Join(parts[1..], sep), sep);
    }
  }

  /** Joining the pieces from index k on gives a suffix of the split string,
      which is the whole string for k == 0 and otherwise starts just after a
      separator. */
  lemma {:induction false} JoinSuffix(s: string, sep: char, k: nat)
    requires k < |Split(s, sep)|
    ensures var j := Join(Split(s, sep)[k..], sep);
      |j| <= |s| && s[|s| - |j|..] == j &&
      (k == 0 ==> j == s) &&
      (k > 0 ==> |j| < |s| && s[|s| - |j| - 1] == sep)
  {
    var parts := Split(s, sep);
    if k == 0 {
      assert parts[0..] == parts;
      JoinSplit(s, sep);
    } else {
      var rest := Split(s[1..], sep);
      if s[0] == sep {
        assert parts[k..] == rest[k - 1..];
        JoinSuffix(s[1..], sep, k - 1);
      } else {
        assert parts[k..] == rest[k..];
        JoinSuffix(s[1..], sep, k);
      }
    }
  }

  lemma {:induction false} CountTrimLeft(s: string, cutset: set<char>, c: char)
    requires c !in cutset
    ensures Count(TrimLeft(s, cutset), c) == Count(s, c)
  {
    if s != [] && s[0] in cutset {
      CountTrimLeft(s[1..], cutset, c);
    }
  }

  lemma {:induction false} CountTrimRight(s: string, cutset: set<char>, c: char)
    requires c !in cutset
    ensures Count(TrimRight(s, cutset), c) == Count(s, c)
  {
    if s != [] && s[|s| - 1] in cutset {
      CountTrimRight(s[..|s| - 1], cutset, c);
      assert s == s[..|s| - 1] + [s[|s| - 1]];
      CountAppend(s[..|s| - 1], [s[|s| - 1]], c);
    }
  }

  /** A trim never removes a character outside its cutset. */
  lemma CountTrim(s: string, cutset: set<char>, c: char)
    requires c !in cutset
    ensures Count(Trim(s, cutset), c) == Count(s, c)
  {
    CountTrimLeft(s, cutset, c);
    CountTrimRight(TrimLeft(s, cutset), cutset, c);
  }

  /** TrimLeft removes a prefix made only of cutset characters, up to the first
      character outside the cutset. */
  lemma {:induction false} TrimLeftPrefix(prefix: string, rest: string, cutset: set<char>)
    requires forall i :: 0 <= i < |prefix| ==> prefix[i] in cutset
    requires rest == [] || rest[0] !in cutset
    ensures TrimLeft(prefix + rest, cutset) == rest
  {
    if prefix != [] {
      assert (prefix + rest)[1..] == prefix[1..] + rest;
      TrimLeftPrefix(prefix[1..], rest, cutset);
    } else {
      assert prefix + rest == rest;
    }
  }

  /** A string without the separator splits into itself. */
  lemma {:induction false} SplitWithoutSeparator(s: string, sep: char)
    requires sep !in s
    ensures Split(s, sep) == [s]
  {
    if s != [] {
      SplitWithoutSeparator(s[1..], sep);
      assert [s[0]] + s[1..] == s;
    }
  }

  /** Splitting at the first separator: the first piece is what precedes it. */
  lemma {:induction false} SplitAtFirst(first: string, rest: string, sep: char)
    requires sep !in first
    ensures Split(first + [sep] + rest, sep) == [first] + Split(rest, sep)
  {
    var s := first + [sep] + rest;
    if first == [] {
      assert s == [sep] + rest;
      assert s[1..] == rest;
    } else {
      assert s[1..] == first[1..] + [sep] + rest;
      SplitAtFirst(first[1..], rest, sep);
      assert [first[0]] + first[1..] == first;
    }
  }
}
