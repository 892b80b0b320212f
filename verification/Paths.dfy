/** Path texts and the components they name (`join_rootfs`, src/mount.rs).

    Paths are absolute and free of "." and ".." components. */
module Paths {

  /** The components of a path, whatever separators surround them. */
  function Components(s: string): seq<string>
    decreases |s|
  {
    if s == [] then []
    else if s[0] == '/' then Components(s[1..])
    else var k := SegmentLength(s); [s[..k]] + Components(s[k..])
  }

  /** The length of the text before the first separator. */
  function SegmentLength(s: string): (k: nat)
    ensures k <= |s|
    ensures s != [] && s[0] != '/' ==> k > 0
  {
    if s == [] || s[0] == '/' then 0 else 1 + SegmentLength(s[1..])
  }

  function TrimEnd(s: string): string {
    if s != [] && s[|s| - 1] == '/' then TrimEnd(s[..|s| - 1]) else s
  }

  function TrimStart(s: string): string {
    if s != [] && s[0] == '/' then TrimStart(s[1..]) else s
  }

  function JoinRootfs(rootfs: string, path: string): string {
    TrimEnd(rootfs) + "/" + TrimStart(path)
  }

  lemma {:induction false} SegmentBeforeSlash(a: string, b: string)
    requires a != [] && a[0] != '/'
    ensures SegmentLength(a + "/" + b) == SegmentLength(a)
    decreases |a|
  {
    var rest := a[1..];
    assert (a + "/" + b)[1..] == rest + "/" + b;
    if rest == [] {
      assert rest + "/" + b == "/" + b;
    } else if rest[0] == '/' {
      assert (rest + "/" + b)[0] == '/';
    } else {
      SegmentBeforeSlash(rest, b);
    }
  }

  /** A separator between two texts separates their components. */
  lemma {:induction false} ComponentsAppend(a: string, b: string)
    ensures Components(a + "/" + b) == Components(a) + Components(b)
    decreases |a|
  {
    var whole := a + "/" + b;
    if a == [] {
      assert whole[1..] == b;
    } else if a[0] == '/' {
      assert whole[1..] == a[1..] + "/" + b;
      ComponentsAppend(a[1..], b);
    } else {
      SegmentBeforeSlash(a, b);
      var k := SegmentLength(a);
      assert whole[..k] == a[..k] && whole[k..] == a[k..] + "/" + b;
      ComponentsAppend(a[k..], b);
    }
  }

  lemma {:induction false} SegmentOf(s: string)
    requires '/' !in s
    ensures SegmentLength(s) == |s|
  {
    if s != [] {
      SegmentOf(s[1..]);
    }
  }

  /** A text without separators is its own component. */
  lemma OneComponent(s: string)
    requires s != [] && '/' !in s
    ensures Components(s) == [s] && Components("/" + s) == [s]
  {
    SegmentOf(s);
    assert s[..|s|] == s && s[|s|..] == [];
    assert ("/" + s)[1..] == s;
  }

  lemma {:induction false} ComponentsTrimEnd(s: string)
    ensures Components(TrimEnd(s)) == Components(s)
  {
    if s != [] && s[|s| - 1] == '/' {
      var front := s[..|s| - 1];
      ComponentsTrimEnd(front);
      ComponentsAppend(front, "");
      assert front + "/" + "" == s;
    }
  }

  lemma {:induction false} ComponentsTrimStart(s: string)
    ensures Components(TrimStart(s)) == Components(s)
  {
    if s != [] && s[0] == '/' {
      ComponentsTrimStart(s[1..]);
    }
  }

  lemma {:induction false} TrimmedEnd(s: string)
    ensures TrimEnd(s) == [] || TrimEnd(s)[|TrimEnd(s)| - 1] != '/'
  {
    if s != [] && s[|s| - 1] == '/' {
      TrimmedEnd(s[..|s| - 1]);
    }
  }

  lemma {:induction false} TrimmedStart(s: string)
    ensures TrimStart(s) == [] || TrimStart(s)[0] != '/'
  {
    if s != [] && s[0] == '/' {
      TrimmedStart(s[1..]);
    }
  }

  /** The joined path has the components of both, for all texts, and so names the place that
      the untrimmed concatenation names; the separator between them is single. */
  lemma JoinNamesTheSamePlace(rootfs: string, path: string)
    ensures Components(JoinRootfs(rootfs, path)) == Components(rootfs) + Components(path)
    ensures Components(JoinRootfs(rootfs, path)) == Components(rootfs + "/" + path)
    ensures var k := |TrimEnd(rootfs)|;
            var joined := JoinRootfs(rootfs, path);
      && joined[k] == '/'
      && (k > 0 ==> joined[k - 1] != '/')
      && (k + 1 < |joined| ==> joined[k + 1] != '/')
  {
    ComponentsAppend(TrimEnd(rootfs), TrimStart(path));
    ComponentsTrimEnd(rootfs);
    ComponentsTrimStart(path);
    ComponentsAppend(rootfs, path);
    TrimmedEnd(rootfs);
    TrimmedStart(path);
  }
}
