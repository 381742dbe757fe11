/**
  Where a chunk's transcription is cached (`get_cache_path` in
  src/utils.py): `cache/<basename of the video>/<start>_<end>.txt`, built
  with the POSIX rules of `os.path.basename` and `os.path.join`. Creating
  the directory is left to the file system and is not part of this model.
*/
module CachePaths {
  import opened Common
  import opened Decimal

  /** `CACHE_DIR`. */
  const CacheDir: string := "cache"

  /** `os.path.basename`: what follows the last `/`. */
  function Basename(p: string): (b: string)
    ensures '/' !in b
    ensures |b| <= |p| && b == p[|p| - |b|..]
  {
    if |p| == 0 || p[|p| - 1] == '/' then []
    else Basename(p[..|p| - 1]) + [p[|p| - 1]]
  }

  /** `os.path.join(a, b)`: an absolute `b` replaces `a`; otherwise a `/` is
      put between them unless `a` is empty or already ends with one. */
  function PathJoin(a: string, b: string): string
  {
    if |b| > 0 && b[0] == '/' then b
    else if |a| == 0 || a[|a| - 1] == '/' then a + b
    else a + "/" + b
  }

  /** `f"{start_ms}_{end_ms}.txt"`. */
  function ChunkFileName(start: int, end: int): string
  {
    IntToString(start) + "_" + IntToString(end) + ".txt"
  }

  /** `get_cache_path(video_file, start_ms, end_ms)`. */
  function CachePath(video: string, start: int, end: int): string
  {
    PathJoin(PathJoin(CacheDir, Basename(video)), ChunkFileName(start, end))
  }

  // ---------------------------------------------------------------------
  // Shape

  /** The characters of a printed integer. */
  predicate NumeralChar(c: char)
  {
    IsDigit(c) || c == '-'
  }

  lemma {:induction false} IntToStringChars(i: int)
    ensures forall k :: 0 <= k < |IntToString(i)| ==> NumeralChar(IntToString(i)[k])
  {
    var r := IntToString(i);
    if i < 0 {
      assert forall k :: 1 <= k < |r| ==> r[k] == r[1..][k - 1];
    }
  }

  lemma {:induction false} FileNameHasNoSlash(start: int, end: int)
    ensures |ChunkFileName(start, end)| > 0 && ChunkFileName(start, end)[0] != '/'
    ensures '/' !in ChunkFileName(start, end)
  {
    IntToStringChars(start);
    IntToStringChars(end);
    var s, e := IntToString(start), IntToString(end);
    var f := ChunkFileName(start, end);
    assert f == s + ("_" + e + ".txt");
    forall k | 0 <= k < |f|
      ensures f[k] != '/'
    {
      if k < |s| {
        assert f[k] == s[k];
      } else if |s| < k < |s| + 1 + |e| {
        assert f[k] == e[k - |s| - 1];
      }
    }
  }

  /** The cache path of a chunk, spelled out: the file name sits in a
      directory named after the video's basename, or directly in the cache
      directory when the basename is empty. */
  lemma {:induction false} CachePathShape(video: string, start: int, end: int)
    ensures Basename(video) != [] ==>
      CachePath(video, start, end) == CacheDir + "/" + Basename(video) + "/" + ChunkFileName(start, end)
    ensures Basename(video) == [] ==>
      CachePath(video, start, end) == CacheDir + "/" + ChunkFileName(start, end)
  {
    FileNameHasNoSlash(start, end);
    var b, f := Basename(video), ChunkFileName(start, end);
    if b != [] {
      var d := CacheDir + "/" + b;
      assert b[0] != '/' && b[|b| - 1] != '/';
      assert PathJoin(CacheDir, b) == d;
      assert d[|d| - 1] == b[|b| - 1];
      assert PathJoin(d, f) == d + "/" + f;
    } else {
      var d := CacheDir + "/";
      assert PathJoin(CacheDir, b) == d;
      assert d[|d| - 1] == '/';
      assert PathJoin(d, f) == d + f;
    }
  }

  // ---------------------------------------------------------------------
  // Distinct chunks do not share a cache file

  /** The basename of `x/y` is `y` when `y` holds no `/`. */
  lemma {:induction false} BasenameAfterSlash(x: string, y: string)
    requires '/' !in y
    ensures Basename(x + "/" + y) == y
    decreases |y|
  {
    if |y| == 0 {
      assert x + "/" + y == x + "/";
    } else {
      var y' := y[..|y| - 1];
      assert (x + "/" + y)[..|x + "/" + y| - 1] == x + "/" + y';
      BasenameAfterSlash(x, y');
      assert y == y' + [y[|y| - 1]];
    }
  }

  /** `a + [c] + b` determines `a` and `b` when `a` holds no `c`. */
  lemma {:induction false} SplitAtFirst(a1: string, b1: string, a2: string, b2: string, c: char)
    requires c !in a1 && c !in a2
    requires a1 + [c] + b1 == a2 + [c] + b2
    ensures a1 == a2 && b1 == b2
  {
    var s := a1 + [c] + b1;
    SeparatorAt(a1, c, b1);
    SeparatorAt(a2, c, b2);
    if |a1| < |a2| {
      assert false;
    } else if |a2| < |a1| {
      assert false;
    }
    assert a1 == s[..|a1|] == a2;
    assert b1 == s[|a1| + 1..] == b2;
  }

  lemma SeparatorAt(a: string, c: char, b: string)
    ensures (a + [c] + b)[|a|] == c
    ensures forall i :: 0 <= i < |a| ==> (a + [c] + b)[i] == a[i]
  {
  }

  /** Different chunks have different file names. */
  lemma {:induction false} ChunkFileNameInjective(s1: int, e1: int, s2: int, e2: int)
    requires ChunkFileName(s1, e1) == ChunkFileName(s2, e2)
    ensures s1 == s2 && e1 == e2
  {
    var a1, b1 := IntToString(s1), IntToString(e1);
    var a2, b2 := IntToString(s2), IntToString(e2);
    var f := ChunkFileName(s1, e1);
    assert f == (a1 + "_" + b1) + ".txt";
    assert ChunkFileName(s2, e2) == (a2 + "_" + b2) + ".txt";
    assert a1 + "_" + b1 == f[..|f| - 4] == a2 + "_" + b2;
    IntToStringChars(s1);
    IntToStringChars(s2);
    assert '_' !in a1 && '_' !in a2;
    SplitAtFirst(a1, b1, a2, b2, '_');
    IntToStringInjective(s1, s2);
    IntToStringInjective(e1, e2);
  }

  /** Two chunks share a cache file only when they come from videos with
      the same basename and have the same start and end: the path depends
      on nothing else, and loses none of it. */
  lemma {:induction false} CachePathInjective(v1: string, s1: int, e1: int, v2: string, s2: int, e2: int)
    requires CachePath(v1, s1, e1) == CachePath(v2, s2, e2)
    ensures Basename(v1) == Basename(v2) && s1 == s2 && e1 == e2
  {
    var n1, n2 := ChunkFileName(s1, e1), ChunkFileName(s2, e2);
    var d1, d2 := DirOf(v1), DirOf(v2);
    DirShape(v1, s1, e1);
    DirShape(v2, s2, e2);
    FileNameHasNoSlash(s1, e1);
    FileNameHasNoSlash(s2, e2);
    BasenameAfterSlash(d1, n1);
    BasenameAfterSlash(d2, n2);
    ChunkFileNameInjective(s1, e1, s2, e2);
    var p := CachePath(v1, s1, e1);
    assert d1 == p[..|p| - |n1| - 1] == d2;
    DirDeterminesBasename(v1, v2);
  }

  /** The directory part of a cache path. */
  function DirOf(video: string): string
  {
    if Basename(video) == [] then CacheDir else CacheDir + "/" + Basename(video)
  }

  lemma {:induction false} DirShape(video: string, start: int, end: int)
    ensures CachePath(video, start, end) == DirOf(video) + "/" + ChunkFileName(start, end)
  {
    CachePathShape(video, start, end);
  }

  lemma {:induction false} DirDeterminesBasename(v1: string, v2: string)
    requires DirOf(v1) == DirOf(v2)
    ensures Basename(v1) == Basename(v2)
  {
    var b1, b2 := Basename(v1), Basename(v2);
    if b1 != [] && b2 != [] {
      assert b1 == DirOf(v1)[|CacheDir| + 1..];
      assert b2 == DirOf(v2)[|CacheDir| + 1..];
    }
  }

  lemma BasenameExample()
    ensures Basename("/media/show.mkv") == "show.mkv"
  {
    BasenameAfterSlash("/media", "show.mkv");
    assert "/media" + "/" + "show.mkv" == "/media/show.mkv";
  }

  lemma FileNameExample()
    ensures ChunkFileName(1250, 3100) == "1250_3100.txt"
  {
    assert IntToString(1250) == "1250" by {
      assert NatToString(1) == "1";
      assert NatToString(12) == "12";
      assert NatToString(125) == "125";
    }
    assert IntToString(3100) == "3100" by {
      assert NatToString(3) == "3";
      assert NatToString(31) == "31";
      assert NatToString(310) == "310";
    }
  }

  /** A video `/media/show.mkv` and a chunk from 1250 to 3100 ms. */
  lemma CachePathExample()
    ensures CachePath("/media/show.mkv", 1250, 3100) == "cache/show.mkv/1250_3100.txt"
  {
    BasenameExample();
    FileNameExample();
    CachePathShape("/media/show.mkv", 1250, 3100);
    assert CacheDir + "/" + "show.mkv" == "cache/show.mkv";
    assert "cache/show.mkv" + "/" + "1250_3100.txt" == "cache/show.mkv/1250_3100.txt";
  }
}
