/** Relative paths as the file-system service spells them: `/`-joined entry
    names, built by the walker and taken apart again by `split('/')`. */
module Paths {
  import opened Types

  /** A name the browser accepts for an entry: not empty, not `.` or `..`,
      and without a path separator. */
  predicate ValidName(name: string) {
    name != "" && name != "." && name != ".." && '/' !in name
  }

  predicate ValidNames(p: Path) {
    forall i :: 0 <= i < |p| ==> ValidName(p[i])
  }

  /** The walker's `path ? `${path}/${name}` : name`. */
  function ChildPath(path: string, name: string): string {
    if path == "" then name else path + "/" + name
  }

  /** The relative path the walker builds for a location, one `ChildPath` per level. */
  function JoinPath(p: Path): string {
    if p == [] then "" else ChildPath(JoinPath(p[..|p| - 1]), p[|p| - 1])
  }

  /** JavaScript's `s.split('/')`: never empty; separators produce empty pieces. */
  function Split(s: string): (r: seq<string>)
    ensures |r| >= 1
  {
    if s == [] then [""]
    else
      var rest := Split(s[1..]);
      if s[0] == '/' then [""] + rest else [[s[0]] + rest[0]] + rest[1..]
  }

  /** The inverse direction of `Split`: pieces glued back with `/`. */
  function Glue(parts: seq<string>): string
    requires |parts| >= 1
  {
    if |parts| == 1 then parts[0] else parts[0] + "/" + Glue(parts[1..])
  }

  /** `split('/')` loses nothing: gluing the pieces gives the string back,
      and no piece contains a separator. */
  lemma {:induction false} GlueSplit(s: string)
    ensures Glue(Split(s)) == s
    ensures forall i :: 0 <= i < |Split(s)| ==> '/' !in Split(s)[i]
  {
    if s != [] {
      GlueSplit(s[1..]);
      var rest := Split(s[1..]);
      if s[0] == '/' {
        assert s == "/" + s[1..];
      } else {
        var r := Split(s);
        assert r[0] == [s[0]] + rest[0];
        if |rest| == 1 {
          assert Glue(r) == [s[0]] + rest[0];
        } else {
          assert r[1..] == rest[1..];
          assert Glue(r) == [s[0]] + rest[0] + "/" + Glue(rest[1..]);
        }
        assert s == [s[0]] + s[1..];
      }
    }
  }

  lemma {:induction false} SplitNoSlash(x: string)
    requires '/' !in x
    ensures Split(x) == [x]
  {
    if x != [] {
      SplitNoSlash(x[1..]);
      assert [x[0]] + x[1..] == x;
    }
  }

  lemma {:induction false} SplitAtSlash(a: string, b: string)
    ensures Split(a + "/" + b) == Split(a) + Split(b)
  {
    if a == [] {
      assert a + "/" + b == "/" + b;
      assert ("/" + b)[1..] == b;
    } else {
      var s := a + "/" + b;
      assert s[1..] == a[1..] + "/" + b;
      SplitAtSlash(a[1..], b);
    }
  }

  lemma {:induction false} JoinPathEmpty(p: Path)
    requires ValidNames(p)
    ensures JoinPath(p) == "" <==> p == []
  {
    if p != [] {
      JoinPathEmpty(p[..|p| - 1]);
    }
  }

  /** Splitting the walker's relative path of a location gives the location back. */
  lemma {:induction false} SplitJoinPath(p: Path)
    requires p != [] && ValidNames(p)
    ensures Split(JoinPath(p)) == p
  {
    var init, last := p[..|p| - 1], p[|p| - 1];
    assert p == init + [last];
    SplitNoSlash(last);
    if init != [] {
      JoinPathEmpty(init);
      SplitJoinPath(init);
      SplitAtSlash(JoinPath(init), last);
    }
  }

  function DropEmpty(parts: seq<string>): (r: seq<string>)
    ensures |r| <= |parts|
    ensures forall i :: 0 <= i < |r| ==> r[i] != "" && r[i] in parts
  {
    if parts == [] then []
    else if parts[0] == "" then DropEmpty(parts[1..])
    else [parts[0]] + DropEmpty(parts[1..])
  }

  /** `targetFolder.split('/').filter(p => p)`. */
  function Segments(target: string): seq<string> {
    DropEmpty(Split(target))
  }

  /** No segment is empty and none holds a `/`. */
  lemma SegmentsShape(target: string)
    ensures forall i :: 0 <= i < |Segments(target)| ==> Segments(target)[i] != "" && '/' !in Segments(target)[i]
  {
    GlueSplit(target);
  }

  /** Dropping the empty pieces works piece by piece. */
  lemma {:induction false} DropEmptyConcat(a: seq<string>, b: seq<string>)
    ensures DropEmpty(a + b) == DropEmpty(a) + DropEmpty(b)
  {
    if a == [] {
      assert a + b == b;
    } else {
      assert (a + b)[0] == a[0] && (a + b)[1..] == a[1..] + b;
      DropEmptyConcat(a[1..], b);
    }
  }

  /** Separators only separate: the segments of `a/b` are those of `a`
      followed by those of `b`, so a leading, trailing or repeated `/` adds
      nothing. With `SegmentsNoSlash` this determines the segments of every
      target. */
  lemma SegmentsAtSlash(a: string, b: string)
    ensures Segments(a + "/" + b) == Segments(a) + Segments(b)
  {
    SplitAtSlash(a, b);
    DropEmptyConcat(Split(a), Split(b));
  }

  /** A piece without a separator is one segment, or none when it is empty. */
  lemma SegmentsNoSlash(x: string)
    requires '/' !in x
    ensures Segments(x) == if x == "" then [] else [x]
  {
    SplitNoSlash(x);
  }

  /** An empty target and a target of separators only resolve to the root. */
  lemma SegmentsOfEmpty()
    ensures Segments("") == []
    ensures Segments("//") == []
  {
    assert Split("/") == ["", ""];
    assert Split("//") == ["", "", ""];
  }

  /** Only empty pieces are dropped: a piece made of spaces is kept as a name. */
  lemma SegmentsKeepSpaces()
    ensures Segments("   ") == ["   "]
  {
    SplitNoSlash("   ");
  }

  lemma SegmentsKeepInnerSpaces()
    ensures Segments("Docs/ /x") == ["Docs", " ", "x"]
  {
    assert " /x" == " " + "/" + "x";
    SplitAtSlash(" ", "x");
    SplitNoSlash(" ");
    SplitNoSlash("x");
    assert Split(" /x") == [" ", "x"];
    assert "Docs/ /x" == "Docs" + "/" + " /x";
    SplitAtSlash("Docs", " /x");
    SplitNoSlash("Docs");
    assert Split("Docs/ /x") == ["Docs", " ", "x"];
  }

  /** For a path built from valid names, the segments are exactly those names. */
  lemma SegmentsOfJoinPath(p: Path)
    requires ValidNames(p)
    ensures Segments(JoinPath(p)) == p
  {
    if p == [] {
      assert Split("") == [""];
    } else {
      SplitJoinPath(p);
      DropEmptyNonEmpty(p);
    }
  }

  lemma {:induction false} DropEmptyNonEmpty(parts: seq<string>)
    requires forall i :: 0 <= i < |parts| ==> parts[i] != ""
    ensures DropEmpty(parts) == parts
  {
    if parts != [] {
      DropEmptyNonEmpty(parts[1..]);
    }
  }
}
