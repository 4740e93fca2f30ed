/**
  Joining strings with a separator character and splitting them again.

  `JoinWith` is the shape of both `path.join` (separator '/') and the
  rendering of a command line (separator ' '); `Split` is its inverse.
 */
module Strings {

  /** The parts, in order, with one `sep` between each neighbouring pair. */
  function JoinWith(sep: char, parts: seq<string>): string
    decreases |parts|
  {
    if |parts| == 0 then ""
    else if |parts| == 1 then parts[0]
    else parts[0] + [sep] + JoinWith(sep, parts[1..])
  }

  /** The maximal `sep`-free pieces of `s`, in order; an empty string is one empty piece. */
  function Split(sep: char, s: string): (parts: seq<string>)
    ensures |parts| >= 1
    ensures forall i :: 0 <= i < |parts| ==> sep !in parts[i]
    decreases |s|
  {
    if |s| == 0 then [""]
    else
      var rest := Split(sep, s[1..]);
      if s[0] == sep then [""] + rest
      else [[s[0]] + rest[0]] + rest[1..]
  }

  /** Joining a first part onto at least one more. */
  lemma JoinWithCons(sep: char, a: string, rest: seq<string>)
    requires |rest| >= 1
    ensures JoinWith(sep, [a] + rest) == a + [sep] + JoinWith(sep, rest)
  {
  }

  /** Prepending text to the first part prepends it to the joined string. */
  lemma JoinWithExtendFirst(sep: char, x: string, parts: seq<string>)
    requires |parts| >= 1
    ensures JoinWith(sep, [x + parts[0]] + parts[1..]) == x + JoinWith(sep, parts)
  {
  }

  /** Joining one more part onto at least one. */
  lemma {:induction false} JoinWithSnoc(sep: char, parts: seq<string>, x: string)
    requires |parts| >= 1
    ensures JoinWith(sep, parts + [x]) == JoinWith(sep, parts) + [sep] + x
    decreases |parts|
  {
    if |parts| > 1 {
      assert (parts + [x])[1..] == parts[1..] + [x];
      JoinWithSnoc(sep, parts[1..], x);
    }
  }

  /** The joined string begins with the first part. */
  lemma JoinWithStartsWithFirst(sep: char, parts: seq<string>)
    requires |parts| >= 1
    ensures |JoinWith(sep, parts)| >= |parts[0]| && JoinWith(sep, parts)[..|parts[0]|] == parts[0]
  {
    if |parts| > 1 {
      assert JoinWith(sep, parts) == parts[0] + ([sep] + JoinWith(sep, parts[1..]));
    }
  }

  /** A `sep`-free prefix followed by `sep` splits off as one piece. */
  lemma {:induction false} SplitAfterPiece(sep: char, p: string, t: string)
    requires sep !in p
    ensures Split(sep, p + [sep] + t) == [p] + Split(sep, t)
    decreases |p|
  {
    var s := p + [sep] + t;
    if |p| == 0 {
      assert s[1..] == t;
    } else {
      assert s[1..] == p[1..] + [sep] + t;
      SplitAfterPiece(sep, p[1..], t);
      assert [p[0]] + p[1..] == p;
    }
  }

  /** A `sep`-free string is a single piece. */
  lemma {:induction false} SplitWithoutSeparator(sep: char, p: string)
    requires sep !in p
    ensures Split(sep, p) == [p]
    decreases |p|
  {
    if |p| > 0 {
      SplitWithoutSeparator(sep, p[1..]);
      assert [p[0]] + p[1..] == p;
    }
  }

  /** Splitting a join of `sep`-free parts gives the parts back. */
  lemma {:induction false} SplitJoin(sep: char, parts: seq<string>)
    requires |parts| >= 1
    requires forall i :: 0 <= i < |parts| ==> sep !in parts[i]
    ensures Split(sep, JoinWith(sep, parts)) == parts
    decreases |parts|
  {
    if |parts| == 1 {
      SplitWithoutSeparator(sep, parts[0]);
    } else {
      SplitAfterPiece(sep, parts[0], JoinWith(sep, parts[1..]));
      SplitJoin(sep, parts[1..]);
      assert [parts[0]] + parts[1..] == parts;
    }
  }

  /** Joining the pieces of any string gives the string back. */
  lemma {:induction false} JoinSplit(sep: char, s: string)
    ensures JoinWith(sep, Split(sep, s)) == s
    decreases |s|
  {
    if |s| > 0 {
      var rest := Split(sep, s[1..]);
      JoinSplit(sep, s[1..]);
      if s[0] == sep {
        var ps := [""] + rest;
        assert ps[1..] == rest;
        assert JoinWith(sep, ps) == "" + [sep] + JoinWith(sep, rest);
        assert [s[0]] + s[1..] == s;
      } else {
        JoinWithExtendFirst(sep, [s[0]], rest);
        assert [s[0]] + s[1..] == s;
      }
    }
  }
}
