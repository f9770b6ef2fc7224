/** Names and paths of the topology hierarchy. A path is kept as the list of
    its non-empty `/`-separated parts, which is how the in-memory backend walks
    it; `Segments` turns a `path.Join` result into that list and `Render`
    turns it back. */
module Paths {
  import opened Text

  type Path = seq<string>

  /** The name of the global topology. */
  const GlobalCell := "global"

  /** File names of the record kinds. GatewayFile's value is not part of this
      model's sources; any single segment distinct from the others would do. */
  const CellFile := "Cell"
  const DatabaseFile := "Database"
  const PoolerFile := "Pooler"
  const GatewayFile := "Gateway"

  /** Top-level directories of the hierarchy. */
  const DatabasesPath := "databases"
  const CellsPath := "cells"
  const GatewaysPath := "gateways"
  const PoolersPath := "poolers"

  predicate IsSegment(s: string) {
    s != [] && '/' !in s
  }

  predicate IsPath(p: Path) {
    forall i :: 0 <= i < |p| ==> IsSegment(p[i])
  }

  /** Index of the first '/' in s, or |s| when there is none. */
  function FirstSlash(s: string): (k: nat)
    ensures k <= |s|
    ensures '/' !in s[..k]
    ensures k < |s| ==> s[k] == '/'
  {
    if s == [] then 0
    else if s[0] == '/' then 0
    else
      var k := FirstSlash(s[1..]);
      assert s[..k + 1] == [s[0]] + s[1..][..k];
      k + 1
  }

  /** The non-empty parts of s between slashes, left to right. */
  function Segments(s: string): (p: Path)
    ensures IsPath(p)
    decreases |s|
  {
    if s == [] then []
    else if s[0] == '/' then Segments(s[1..])
    else
      var k := FirstSlash(s);
      [s[..k]] + Segments(s[k..])
  }

  /** Parts written out one after another, separated by '/'. */
  function Render(p: Path): string {
    Join(p, "/")
  }

  /** A non-empty string without a slash is a single part. */
  lemma {:induction false} SegmentsOfSegment(s: string)
    requires IsSegment(s)
    ensures Segments(s) == [s]
  {
    var k := FirstSlash(s);
    assert k == |s|;
    assert s[..k] == s;
  }

  lemma {:induction false} SegmentsLeadingSlash(b: string)
    ensures Segments("/" + b) == Segments(b)
  {
    assert ("/" + b)[1..] == b;
  }

  /** Joining two strings with a slash joins their parts. */
  lemma {:induction false} SegmentsJoin(a: string, b: string)
    ensures Segments(a + "/" + b) == Segments(a) + Segments(b)
    decreases |a|
  {
    var s := a + "/" + b;
    if a == [] {
      assert s == "/" + b;
      SegmentsLeadingSlash(b);
    } else if a[0] == '/' {
      assert s[1..] == a[1..] + "/" + b;
      SegmentsJoin(a[1..], b);
    } else {
      var ka := FirstSlash(a);
      var k := FirstSlash(s);
      FirstSlashPrefix(a, "/" + b);
      assert s == a + ("/" + b);
      assert k == ka;
      assert s[..k] == a[..ka];
      assert s[k..] == a[ka..] + "/" + b;
      SegmentsJoin(a[ka..], b);
      if ka == |a| {
        assert a[ka..] == [];
        assert Segments(a) == [a[..ka]] + Segments(a[ka..]);
      }
    }
  }

  lemma {:induction false} FirstSlashPrefix(a: string, rest: string)
    requires rest != [] && rest[0] == '/'
    ensures FirstSlash(a + rest) == FirstSlash(a)
    decreases |a|
  {
    if a != [] && a[0] != '/' {
      assert (a + rest)[1..] == a[1..] + rest;
      FirstSlashPrefix(a[1..], rest);
    } else if a == [] {
      assert a + rest == rest;
    }
  }

  /** Rendering a well-formed path and splitting it again gives the path back. */
  lemma {:induction false} SegmentsRender(p: Path)
    requires IsPath(p)
    ensures Segments(Render(p)) == p
    decreases |p|
  {
    if |p| == 1 {
      SegmentsOfSegment(p[0]);
    } else if |p| > 1 {
      SegmentsJoin(p[0], Join(p[1..], "/"));
      SegmentsOfSegment(p[0]);
      SegmentsRender(p[1..]);
      assert p == [p[0]] + p[1..];
    }
  }

  /** path.Join(dir, name, file) as the backend sees it, for a name that may hold slashes. */
  function Under(dir: string, name: string, file: string): (p: Path)
    requires IsSegment(dir) && IsSegment(file)
    ensures p == [dir] + Segments(name) + [file]
  {
    SegmentsJoin(dir + "/" + name, file);
    SegmentsJoin(dir, name);
    SegmentsOfSegment(dir);
    SegmentsOfSegment(file);
    assert dir + "/" + name + "/" + file == (dir + "/" + name) + "/" + file;
    Segments(dir + "/" + name + "/" + file)
  }

  /** A three-part path is written with two slashes. */
  lemma RenderThree(a: string, b: string, c: string)
    ensures Render([a, b, c]) == a + "/" + b + "/" + c
  {
    assert [a, b, c][1..] == [b, c];
    assert [b, c][1..] == [c];
    assert Join([c], "/") == c;
    assert Join([b, c], "/") == b + "/" + c;
    assert Join([a, b, c], "/") == a + "/" + (b + "/" + c);
  }

  /** A name without slashes is one segment of its record's path. */
  lemma UnderSegment(dir: string, name: string, file: string)
    requires IsSegment(dir) && IsSegment(name) && IsSegment(file)
    ensures Under(dir, name, file) == [dir, name, file]
  {
    SegmentsOfSegment(name);
  }
}
