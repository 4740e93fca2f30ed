/**
  File-system paths as strings: Node's `path.join` with '/' as separator,
  the "lies inside this directory" relation, and recursive removal of a
  directory over an abstract set of existing paths.
 */
module Paths {
  import Strings

  /** The segments that `path.join` keeps: zero-length segments are ignored. */
  function NonEmpty(segments: seq<string>): (kept: seq<string>)
    ensures |kept| <= |segments|
    ensures forall i :: 0 <= i < |kept| ==> kept[i] != ""
    ensures forall s :: s in kept <==> s in segments && s != ""
    decreases |segments|
  {
    if |segments| == 0 then []
    else if segments[0] == "" then NonEmpty(segments[1..])
    else [segments[0]] + NonEmpty(segments[1..])
  }

  /**
    `path.join(...segments)`: the non-empty segments joined with '/', or "."
    when none remain. The result is never empty and begins with the first
    kept segment.
   */
  function Join(segments: seq<string>): (p: string)
    ensures |NonEmpty(segments)| == 0 ==> p == "."
    ensures |NonEmpty(segments)| > 0 ==>
              var first := NonEmpty(segments)[0];
              first != "" && |p| >= |first| && p[..|first|] == first
  {
    var kept := NonEmpty(segments);
    if |kept| == 0 then "."
    else
      Strings.JoinWithStartsWithFirst('/', kept);
      Strings.JoinWith('/', kept)
  }

  /** When no segment holds a separator, the joined path splits back into exactly the kept segments. */
  lemma JoinSplitsIntoSegments(segments: seq<string>)
    requires |NonEmpty(segments)| > 0
    requires forall s :: s in segments ==> '/' !in s
    ensures Strings.Split('/', Join(segments)) == NonEmpty(segments)
  {
    var kept := NonEmpty(segments);
    assert forall i :: 0 <= i < |kept| ==> '/' !in kept[i] by {
      forall i | 0 <= i < |kept|
        ensures '/' !in kept[i]
      {
        assert kept[i] in kept;
      }
    }
    Strings.SplitJoin('/', kept);
  }

  /** `p` names an entry strictly inside directory `root`. */
  predicate IsStrictlyUnder(root: string, p: string)
  {
    |root| + 1 < |p| && p[..|root|] == root && p[|root|] == '/'
  }

  /** With no empty segment, `path.join` is exactly the '/'-join of the segments. */
  lemma {:induction false} JoinNonEmptySegments(segments: seq<string>)
    requires |segments| >= 1
    requires forall i :: 0 <= i < |segments| ==> segments[i] != ""
    ensures Join(segments) == Strings.JoinWith('/', segments)
  {
    KeepsNonEmptySegments(segments);
  }

  lemma {:induction false} KeepsNonEmptySegments(segments: seq<string>)
    requires forall i :: 0 <= i < |segments| ==> segments[i] != ""
    ensures NonEmpty(segments) == segments
    decreases |segments|
  {
    if |segments| > 0 {
      KeepsNonEmptySegments(segments[1..]);
      assert [segments[0]] + segments[1..] == segments;
    }
  }

  /** Joining a directory and a non-empty name. */
  lemma JoinPair(dir: string, name: string)
    requires name != ""
    ensures Join([dir, name]) == if dir == "" then name else dir + "/" + name
  {
    if dir == "" {
      assert [dir, name][1..] == [name];
    } else {
      assert [dir, name][1..] == [name];
      assert NonEmpty([dir, name]) == [dir, name];
      assert Strings.JoinWith('/', [dir, name]) == dir + "/" + Strings.JoinWith('/', [name]);
    }
  }

  /** Joining a relative path onto a directory, or its parent first and then its name, gives the same path. */
  lemma JoinNested(dir: string, parent: string, name: string)
    requires parent != "" && name != ""
    ensures Join([dir, Join([parent, name])]) == Join([Join([dir, parent]), name])
  {
    JoinPair(parent, name);
    JoinPair(dir, parent);
    JoinPair(dir, parent + "/" + name);
    JoinPair(Join([dir, parent]), name);
    if dir != "" {
      assert dir + "/" + parent + "/" + name == dir + "/" + (parent + "/" + name);
    }
  }

  /** A non-empty name joined onto a non-empty directory lies strictly inside it. */
  lemma ChildIsStrictlyUnder(dir: string, name: string)
    requires dir != "" && name != ""
    ensures IsStrictlyUnder(dir, Join([dir, name]))
  {
    JoinPair(dir, name);
    var p := dir + "/" + name;
    assert p[..|dir|] == dir;
  }

  /** Being strictly inside is transitive. */
  lemma StrictlyUnderTransitive(a: string, b: string, c: string)
    requires IsStrictlyUnder(a, b) && IsStrictlyUnder(b, c)
    ensures IsStrictlyUnder(a, c)
  {
  }

  /** Prefixing both paths with the same directory keeps one inside the other. */
  lemma JoinKeepsStrictlyUnder(dir: string, a: string, b: string)
    requires a != "" && IsStrictlyUnder(a, b)
    ensures IsStrictlyUnder(Join([dir, a]), Join([dir, b]))
  {
    JoinPair(dir, a);
    JoinPair(dir, b);
    if dir != "" {
      var pa := dir + "/" + a;
      var pb := dir + "/" + b;
      assert pb == dir + "/" + (a + b[|a|..]) by {
        assert b == a + b[|a|..];
      }
      assert pb[..|pa|] == pa;
      assert pb[|pa|] == b[|a|];
    }
  }

  /**
    `rm -rf root` over the set `fs` of existing paths: `root` and everything
    strictly inside it disappear, every other path is untouched.
   */
  function RemoveTree(fs: set<string>, root: string): set<string>
  {
    set p | p in fs && p != root && !IsStrictlyUnder(root, p)
  }
}
