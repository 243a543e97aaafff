/** The .NET string primitives the shell relies on (`Split`,
    `LastIndexOf`, `ToLower`), over `string` = `seq<char>`. */
module Strings {

  /** No character of `s` is one of `seps`. */
  predicate NoneOf(s: string, seps: set<char>) {
    forall i :: 0 <= i < |s| ==> s[i] !in seps
  }

  /** How many characters of `s` are one of `seps`. */
  function Count(s: string, seps: set<char>): nat
    decreases |s|
  {
    if s == [] then 0 else (if s[0] in seps then 1 else 0) + Count(s[1..], seps)
  }

  lemma {:induction false} CountZero(s: string, seps: set<char>)
    ensures Count(s, seps) == 0 <==> NoneOf(s, seps)
    decreases |s|
  {
    if s != [] {
      CountZero(s[1..], seps);
      if NoneOf(s[1..], seps) && s[0] !in seps {
        forall i | 0 <= i < |s| ensures s[i] !in seps {
          if i > 0 { assert s[i] == s[1..][i - 1]; }
        }
      }
      if NoneOf(s, seps) {
        forall i | 0 <= i < |s[1..]| ensures s[1..][i] !in seps {
          assert s[1..][i] == s[i + 1];
        }
      }
    }
  }

  lemma {:induction false} CountConcat(a: string, b: string, seps: set<char>)
    ensures Count(a + b, seps) == Count(a, seps) + Count(b, seps)
    decreases |a|
  {
    if a != [] {
      assert (a + b)[1..] == a[1..] + b;
      CountConcat(a[1..], b, seps);
    } else {
      assert a + b == b;
    }
  }

  /** `String.Split(params char[] separators)`: the pieces between
      separators, in order, empty pieces kept; there is always one more
      piece than there are separators. */
  function Split(s: string, seps: set<char>): (r: seq<string>)
    ensures |r| == Count(s, seps) + 1
    ensures forall k :: 0 <= k < |r| ==> NoneOf(r[k], seps)
    decreases |s|
  {
    if s == [] then [""]
    else
      var rest := Split(s[1..], seps);
      if s[0] in seps then [""] + rest
      else
        assert NoneOf([s[0]] + rest[0], seps) by {
          forall i | 0 <= i < |[s[0]] + rest[0]| ensures ([s[0]] + rest[0])[i] !in seps {
            if i > 0 { assert ([s[0]] + rest[0])[i] == rest[0][i - 1]; }
          }
        }
        [[s[0]] + rest[0]] + rest[1..]
  }

  /** `String.Join(char, string[])`. */
  function Join(parts: seq<string>, sep: char): string
    decreases |parts|
  {
    if |parts| == 0 then ""
    else if |parts| == 1 then parts[0]
    else parts[0] + [sep] + Join(parts[1..], sep)
  }

  /** Splitting on one separator and joining the pieces back with it gives
      the original string. */
  lemma {:induction false} JoinSplit(s: string, sep: char)
    ensures Join(Split(s, {sep}), sep) == s
    decreases |s|
  {
    if s != [] {
      var rest := Split(s[1..], {sep});
      JoinSplit(s[1..], sep);
      if s[0] == sep {
        assert Split(s, {sep}) == [""] + rest;
        assert ([""] + rest)[1..] == rest;
        assert s == [sep] + s[1..];
      } else {
        var parts := Split(s, {sep});
        assert parts == [[s[0]] + rest[0]] + rest[1..];
        if |rest| == 1 {
          assert Join(parts, sep) == [s[0]] + rest[0];
        } else {
          assert parts[1..] == rest[1..];
          assert Join(rest, sep) == rest[0] + [sep] + Join(rest[1..], sep);
          assert Join(parts, sep) == [s[0]] + rest[0] + [sep] + Join(rest[1..], sep);
        }
        assert s == [s[0]] + s[1..];
      }
    }
  }

  /** `String.LastIndexOf(char)`: the last position of `c`, or -1. */
  function LastIndexOf(s: string, c: char): (r: int)
    ensures -1 <= r < |s|
    ensures r == -1 <==> c !in s
    ensures r >= 0 ==> s[r] == c && c !in s[r + 1..]
    decreases |s|
  {
    if s == [] then -1
    else if s[|s| - 1] == c then |s| - 1
    else
      var k := LastIndexOf(s[..|s| - 1], c);
      assert s == s[..|s| - 1] + [s[|s| - 1]];
      if k >= 0 then assert s[k + 1..] == s[..|s| - 1][k + 1..] + [s[|s| - 1]]; k
      else k
  }

  /** Text without the separator splits into itself alone. */
  lemma SplitNone(s: string, sep: char)
    requires NoneOf(s, {sep})
    ensures Split(s, {sep}) == [s]
  {
    CountZero(s, {sep});
    JoinSplit(s, sep);
  }

  /** Splitting at a first separator: the text before it is the first
      piece, the pieces of the text after it follow. */
  lemma {:induction false} SplitAtFirst(p: string, c: char, t: string)
    requires NoneOf(p, {c})
    ensures Split(p + [c] + t, {c}) == [p] + Split(t, {c})
    decreases |p|
  {
    var s := p + [c] + t;
    if p == [] {
      assert s[1..] == t;
    } else {
      assert s[1..] == p[1..] + [c] + t;
      assert p[0] !in {c};
      SplitAtFirst(p[1..], c, t);
      assert [p[0]] + p[1..] == p;
    }
  }

  predicate IsUpper(c: char) {
    'A' <= c <= 'Z'
  }

  /** `Char.ToLower` restricted to ASCII letters: an upper-case letter
      becomes the letter 32 code points on, which is its lower-case form;
      every other character is kept. */
  function LowerChar(c: char): (r: char)
    ensures IsUpper(c) ==> 'a' <= r <= 'z' && r as int == c as int + ('a' as int - 'A' as int)
    ensures !IsUpper(c) ==> r == c
  {
    if 'A' <= c <= 'Z' then (c as int + 32) as char else c
  }

  /** `String.ToLower` restricted to ASCII letters: each character is
      lower-cased in place, and no upper-case letter is left. */
  function Lower(s: string): (r: string)
    ensures |r| == |s|
    ensures forall i :: 0 <= i < |s| ==> r[i] == LowerChar(s[i])
    ensures forall i :: 0 <= i < |r| ==> !IsUpper(r[i])
  {
    seq(|s|, i requires 0 <= i < |s| => LowerChar(s[i]))
  }

  /** Lower-casing twice is lower-casing once. */
  lemma LowerIdempotent(s: string)
    ensures Lower(Lower(s)) == Lower(s)
  {
    var l := Lower(s);
    assert forall i :: 0 <= i < |l| ==> LowerChar(l[i]) == l[i];
  }
}
