/**
 The path routines of paths.c. Buffers are strings, cursors are indices; where C reads the
 terminating zero, `At` gives None. A routine that ends the process answers None.
 */
module Paths {
  import opened Options
  import opened PathAlgebra

  const PATH_MAX := 4096

  function At(s: string, i: nat): Option<char> {
    if i < |s| then Some(s[i]) else None
  }

  function Take(s: string, n: nat): string {
    if |s| <= n then s else s[..n]
  }

  // ---------------------------------------------------------------- the fast path

  /** At a slash: another slash follows, or a "." or ".." segment. */
  predicate Messy(s: string, p: nat) {
    At(s, p) == Some('/') &&
    (|| At(s, p + 1) == Some('/')
     || (At(s, p + 1) == Some('.') && (At(s, p + 2) == Some('/') || At(s, p + 2) == None))
     || (At(s, p + 1) == Some('.') && At(s, p + 2) == Some('.') && (At(s, p + 3) == Some('/') || At(s, p + 3) == None)))
  }

  ghost predicate Clean(s: string) {
    (forall p: nat | p < |s| :: !Messy(s, p)) && !(|s| > 1 && s[|s| - 1] == '/')
  }

  /** Whether an absolute path differs from its canonical form. */
  ghost predicate Canon(path: string, cwd: string, needs: bool) {
    needs <==> Normal(path, cwd) != path
  }

  /** _path_needs_normalize: on absolute paths, exactly those that are not canonical. */
  method NeedsNormalize(path: string) returns (needs: bool)
    ensures needs <==> !Clean(path)
    ensures path != "" && path[0] == '/' ==> forall cwd :: Canon(path, cwd, needs)
  {
    ghost var dirty := !Clean(path);
    forall cwd ensures path != "" && path[0] == '/' ==> Canon(path, cwd, dirty) {
      if path != "" && path[0] == '/' { CleanMeansNormal(path, cwd); }
    }
    var p := 0;
    while p < |path|
      invariant 0 <= p <= |path| && forall i: nat | i < p :: !Messy(path, i)
    {
      if path[p] == '/' {
        if At(path, p + 1) == Some('/') {
          assert Messy(path, p);
          return true;
        }
        if At(path, p + 1) == Some('.') && (At(path, p + 2) == Some('/') || At(path, p + 2) == None) {
          assert Messy(path, p);
          return true;
        }
        if At(path, p + 1) == Some('.') && At(path, p + 2) == Some('.')
           && (At(path, p + 3) == Some('/') || At(path, p + 3) == None) {
          assert Messy(path, p);
          return true;
        }
      }
      p := p + 1;
    }
    needs := |path| > 1 && path[|path| - 1] == '/';
  }

  lemma MessyShift(s: string, k: nat, p: nat)
    requires k <= |s|
    ensures Messy(s[k..], p) == Messy(s, p + k)
  {
    forall d: nat ensures At(s[k..], d) == At(s, d + k) {
    }
    assert At(s[k..], p) == At(s, p + k) && At(s[k..], p + 1) == At(s, p + 1 + k);
    assert At(s[k..], p + 2) == At(s, p + 2 + k) && At(s[k..], p + 3) == At(s, p + 3 + k);
  }

  lemma FirstIsName(s: string, seg: string, rest: string)
    requires s == "/" + seg + rest && seg != "" && '/' !in seg && (rest == "" || rest[0] == '/') && !Messy(s, 0)
    ensures Name(seg)
  {
    assert At(s, 1) == Some(seg[0]) && (|seg| > 1 ==> At(s, 2) == Some(seg[1]));
    assert At(s, 1 + |seg|) == if rest == "" then None else Some(rest[0]);
  }

  lemma CleanRest(s: string, k: nat)
    requires Clean(s) && 0 < k <= |s| && (k == |s| || s[k] == '/')
    ensures Clean(s[k..]) && s[k..] != "/"
  {
    forall p: nat | p < |s[k..]| ensures !Messy(s[k..], p) {
      MessyShift(s, k, p);
    }
  }

  lemma CatCons(x: string, d: seq<string>)
    ensures Cat([x] + d) == "/" + x + Cat(d)
  {
    assert ([x] + d)[1..] == d;
  }

  lemma CleanStep(s: string, seg: string, rest: string)
    requires s == "/" + seg + rest && Name(seg) && (rest == "" || rest[0] == '/')
    requires Names(Segs(rest)) && Cat(Segs(rest)) == rest
    ensures Names(Segs(s)) && Cat(Segs(s)) == s
  {
    assert s == "/" + (seg + rest);
    SegsOfSlash(seg + rest);
    SegsOfPiece(seg, rest);
    CatCons(seg, Segs(rest));
  }

  /** A clean absolute path is canonical already. */
  lemma {:induction false} CleanSegs(s: string)
    requires s == "" || (s[0] == '/' && s != "/" && Clean(s))
    ensures Names(Segs(s)) && Cat(Segs(s)) == s
    decreases |s|
  {
    if s != "" {
      var t := s[1..];
      var k := FirstSlash(t);
      assert !Messy(s, 0);
      assert t != "" && t[0] != '/';
      var seg, rest := t[..k], s[1 + k..];
      assert s == "/" + seg + rest;
      FirstIsName(s, seg, rest);
      CleanRest(s, 1 + k);
      CleanSegs(rest);
      CleanStep(s, seg, rest);
    }
  }

  lemma CleanIsNormal(path: string, cwd: string)
    requires path != "" && path[0] == '/' && Clean(path)
    ensures Normal(path, cwd) == path
  {
    if path == "/" {
      assert Segs("/") == [] by { assert "/"[1..] == ""; }
    } else {
      CleanSegs(path);
      ResolveNames([], Segs(path));
      assert [] + Segs(path) == Segs(path);
      assert Cat([]) == "";
    }
  }

  /** Canonical paths are clean. */
  lemma {:induction false} CatIsClean(segs: seq<string>)
    requires Names(segs)
    ensures Clean(Cat(segs))
  {
    if segs != [] {
      var seg, rest := segs[0], Cat(segs[1..]);
      NamesFrom(segs, 1);
      CatIsClean(segs[1..]);
      assert Name(seg);
      assert rest == "" || rest[0] == '/';
      CatIsNotSlash(segs[1..]);
      OneMoreIsClean(seg, rest);
    }
  }

  lemma OneMoreIsClean(seg: string, rest: string)
    requires Name(seg) && (rest == "" || rest[0] == '/') && rest != "/" && Clean(rest)
    ensures Clean("/" + seg + rest)
  {
    var s := "/" + seg + rest;
    assert forall i | 1 <= i <= |seg| :: s[i] == seg[i - 1] && seg[i - 1] in seg;
    assert At(s, 1) == Some(seg[0]) && (|seg| > 1 ==> At(s, 2) == Some(seg[1]))
           && (|seg| > 2 ==> At(s, 3) == Some(seg[2]));
    forall p: nat | p < |s| ensures !Messy(s, p) {
      if p > |seg| {
        assert s[1 + |seg|..] == rest;
        MessyShift(s, 1 + |seg|, p - 1 - |seg|);
      } else if p == 0 {
        assert seg != "." && seg != "..";
      }
    }
    if rest != "" { assert s[|s| - 1] == rest[|rest| - 1]; }
  }

  lemma CatIsNotSlash(segs: seq<string>)
    requires Names(segs)
    ensures Cat(segs) != "/"
  {
    if segs != [] { CatHead(segs); }
  }

  /** The scan tells exactly the absolute paths that are canonical already. */
  lemma CleanMeansNormal(path: string, cwd: string)
    requires path != "" && path[0] == '/'
    ensures Clean(path) <==> Normal(path, cwd) == path
  {
    if Clean(path) {
      CleanIsNormal(path, cwd);
    } else if Normal(path, cwd) == path {
      MeaningIsNames(path, cwd);
      CatIsClean(Meaning(path, cwd));
      if Meaning(path, cwd) == [] { SlashIsClean(); }
    }
  }

  lemma SlashIsClean()
    ensures Clean("/")
  {
  }

  // ---------------------------------------------------------------- path_normalize_cwd

  lemma SkipSlashes(s: string, i: nat)
    requires i < |s| && s[i] == '/'
    ensures Segs(s[i..]) == Segs(s[i + 1..])
  {
    assert s[i..][1..] == s[i + 1..];
  }

  lemma TakeSegment(s: string, i: nat, j: nat)
    requires i < j <= |s| && (forall k | i <= k < j :: s[k] != '/') && (j < |s| ==> s[j] == '/')
    ensures Segs(s[i..]) == [s[i..j]] + Segs(s[j..])
  {
    var x, y := s[i..j], s[j..];
    assert s[i..] == x + y;
    assert '/' !in x;
    SegsOfPiece(x, y);
  }

  /** The text that gets split: the joined path cut to the buffer; None when the process ends. */
  function Buffered(path: string, cwd: string): Option<string> {
    if At(path, 0) == Some('/') then (if |path| >= PATH_MAX then None else Some(path))
    else if |cwd| >= PATH_MAX - 1 then None
    else Some(Take(cwd + "/" + path, PATH_MAX - 1))
  }

  /** The segments path_normalize_cwd finds, truncation included. */
  function Found(path: string, cwd: string): Option<seq<string>> {
    match Buffered(path, cwd) case None => None case Some(s) => Some(Resolve([], Segs(s)))
  }

  predicate Fits(path: string, cwd: string) {
    if At(path, 0) == Some('/') then |path| < PATH_MAX else |cwd| + 1 + |path| < PATH_MAX
  }

  /** Up to the buffer size nothing is lost; a longer absolute path ends the process. */
  lemma FoundIsMeaning(path: string, cwd: string)
    ensures Fits(path, cwd) ==> Found(path, cwd) == Some(Meaning(path, cwd))
    ensures Found(path, cwd).Some? ==> Names(Found(path, cwd).value)
  {
    var b := Buffered(path, cwd);
    if b.Some? {
      SegsArePieces(b.value);
      ResolvedAreNames([], Segs(b.value));
    }
  }

  /** The buffer cannot take an absolute path, or the directory of a relative one. */
  predicate TooLong(path: string, cwd: string) {
    if path != "" && path[0] == '/' then |path| >= 4096 else |cwd| >= 4095
  }

  /** No two slashes in a row, and none at the end. */
  ghost predicate Tidy(s: string) {
    && s != "" && (|s| > 1 ==> s[|s| - 1] != '/')
    && forall i | 0 <= i < |s| - 1 :: !(s[i] == '/' && s[i + 1] == '/')
  }

  /** A canonical path is a single slash, or a name behind each slash. */
  lemma RenderIsTidy(segs: seq<string>)
    requires Names(segs)
    ensures Render(segs)[0] == '/' && Tidy(Render(segs))
  {
    CatIsClean(segs);
    if segs != [] {
      CatHead(segs);
      CleanIsTidy(Cat(segs));
    }
  }

  lemma CleanIsTidy(s: string)
    requires s != "" && Clean(s)
    ensures Tidy(s)
  {
    forall i | 0 <= i < |s| - 1 ensures !(s[i] == '/' && s[i + 1] == '/') {
      assert !Messy(s, i);
    }
  }

  /** path_normalize_cwd */
  method NormalizeCwd(path: string, cwd: string) returns (r: Option<string>)
    ensures r == None <==> TooLong(path, cwd)
    ensures r.Some? ==>
              var text := if path != "" && path[0] == '/' then path else cwd + "/" + path;
              r.value == Render(Resolve([], Segs(if |text| < 4096 then text else text[..4095])))
    ensures r.Some? ==> r.value[0] == '/' && Tidy(r.value)
    ensures r.Some? <==> Found(path, cwd).Some?
    ensures r.Some? ==> r.value == Render(Found(path, cwd).value)
    ensures Fits(path, cwd) ==> r == Some(Normal(path, cwd))
  {
    FoundIsMeaning(path, cwd);
    if Found(path, cwd).Some? { RenderIsTidy(Found(path, cwd).value); }
    var buf;
    if At(path, 0) == Some('/') {
      if |path| >= PATH_MAX {
        return None;
      }
      buf := path;
      var needs := NeedsNormalize(buf);
      if !needs {
        CleanIsNormal(path, cwd);
        return Some(buf);
      }
    } else {
      buf := Take(cwd, PATH_MAX - 1);
      if |buf| < PATH_MAX - 1 {
        buf := buf + "/" + Take(path, PATH_MAX - |buf| - 2);
        assert buf == Take(cwd + "/" + path, PATH_MAX - 1);
      } else {
        return None;
      }
    }
    var segments: seq<string> := SplitSegments(buf);
    var out := RenderSegments(segments);
    r := Some(out);
  }

  /** The loop that writes the segments back, each behind a slash. */
  method RenderSegments(segments: seq<string>) returns (out: string)
    ensures out == Render(segments)
  {
    if |segments| == 0 {
      return "/";
    }
    out := "";
    var i := 0;
    while i < |segments|
      invariant 0 <= i <= |segments| && out == Cat(segments[..i])
    {
      CatMore(segments[..i], segments[i]);
      assert segments[..i + 1] == segments[..i] + [segments[i]];
      out := out + "/" + segments[i];
      i := i + 1;
    }
    assert segments[..i] == segments;
  }

  lemma {:induction false} CatMore(segs: seq<string>, seg: string)
    ensures Cat(segs + [seg]) == Cat(segs) + "/" + seg
  {
    if segs == [] {
      assert [seg][1..] == [];
      assert Cat([seg]) == "/" + seg;
    } else {
      assert (segs + [seg])[1..] == segs[1..] + [seg];
      CatMore(segs[1..], seg);
    }
  }

  /** The loop that splits a path and runs its segments through a stack. */
  method SplitSegments(buf: string) returns (segments: seq<string>)
    ensures segments == Resolve([], Segs(buf))
  {
    segments := [];
    var rp := 0;
    assert buf[0..] == buf;
    while rp < |buf|
      invariant 0 <= rp <= |buf| && Resolve(segments, Segs(buf[rp..])) == Resolve([], Segs(buf))
    {
      rp := AfterSlashes(buf, rp);
      if rp == |buf| {
        break;
      }
      var sp := rp;
      rp := SegmentEnd(buf, sp);
      TakeSegment(buf, sp, rp);
      segments := PushSegment(segments, buf[sp..rp]);
    }
  }

  /** while (*rp == '/') ++rp */
  method AfterSlashes(buf: string, rp0: nat) returns (rp: nat)
    requires rp0 <= |buf|
    ensures rp0 <= rp <= |buf| && Segs(buf[rp..]) == Segs(buf[rp0..]) && (rp < |buf| ==> buf[rp] != '/')
  {
    rp := rp0;
    while rp < |buf| && buf[rp] == '/'
      invariant rp0 <= rp <= |buf| && Segs(buf[rp..]) == Segs(buf[rp0..])
    {
      SkipSlashes(buf, rp);
      rp := rp + 1;
    }
  }

  /** while (*rp && *rp != '/') ++rp */
  method SegmentEnd(buf: string, sp: nat) returns (rp: nat)
    requires sp < |buf| && buf[sp] != '/'
    ensures sp < rp <= |buf| && (forall k | sp <= k < rp :: buf[k] != '/') && (rp < |buf| ==> buf[rp] == '/')
  {
    rp := sp;
    while rp < |buf| && buf[rp] != '/'
      invariant sp <= rp <= |buf| && forall k | sp <= k < rp :: buf[k] != '/'
    {
      rp := rp + 1;
    }
  }

  /** One segment on the stack. */
  method PushSegment(segments0: seq<string>, segment: string) returns (segments: seq<string>)
    ensures segments == Step(segments0, segment)
  {
    segments := segments0;
    if segment == "." {
    } else if segment == ".." {
      if |segments| > 0 {
        segments := segments[..|segments| - 1];
      }
    } else {
      segments := segments + [segment];
    }
  }

  // ---------------------------------------------------------------- path_relativize_cwd

  function Slashes(s: string): nat {
    if s == "" then 0 else (if s[0] == '/' then 1 else 0) + Slashes(s[1..])
  }

  lemma {:induction false} SlashesAdd(s: string, t: string)
    ensures Slashes(s + t) == Slashes(s) + Slashes(t)
  {
    if s == "" {
      assert s + t == t;
    } else {
      assert (s + t)[1..] == s[1..] + t;
      SlashesAdd(s[1..], t);
    }
  }

  lemma {:induction false} SlashesNone(s: string)
    requires '/' !in s
    ensures Slashes(s) == 0
  {
    if s != "" {
      SlashesNone(s[1..]);
    }
  }

  lemma {:induction false} SlashesOfCat(segs: seq<string>)
    requires Names(segs)
    ensures Slashes(Cat(segs)) == |segs|
  {
    if segs != [] {
      assert Name(segs[0]);
      SlashesNone(segs[0]);
      SlashesAdd("/" + segs[0], Cat(segs[1..]));
      assert ("/" + segs[0])[1..] == segs[0];
      NamesFrom(segs, 1);
      SlashesOfCat(segs[1..]);
    }
  }

  /** _path_num_segments */
  method NumSegments(path: string, ghost segs: seq<string>) returns (c: nat)
    requires Names(segs) && path == Render(segs)
    ensures c == |segs|
  {
    if path == "/" {
      if segs != [] { CatHead(segs); }
      return 0;
    }
    c := 0;
    var rp := 0;
    while rp < |path|
      invariant 0 <= rp <= |path| && c == Slashes(path[..rp])
    {
      assert path[..rp + 1] == path[..rp] + [path[rp]];
      SlashesAdd(path[..rp], [path[rp]]);
      if path[rp] == '/' {
        c := c + 1;
      }
      rp := rp + 1;
    }
    assert path[..rp] == path;
    SlashesOfCat(segs);
  }

  lemma {:induction false} CatAdd(a: seq<string>, b: seq<string>)
    ensures Cat(a + b) == Cat(a) + Cat(b)
  {
    if a == [] {
      assert a + b == b;
    } else {
      assert (a + b)[1..] == a[1..] + b;
      CatAdd(a[1..], b);
    }
  }

  /** Where segment k of a canonical path begins and ends in its text. */
  lemma SegmentAt(a: seq<string>, k: nat, p: nat)
    requires Names(a) && k < |a|
    requires |Cat(a[..k])| < p <= |Cat(a)| && '/' !in Cat(a)[|Cat(a[..k])| + 1..p]
    ensures var s, q, z := Cat(a), |Cat(a[..k])|, |Cat(a[..k + 1])|;
            z == q + 1 + |a[k]| && z <= |s| && p <= z && s[q] == '/' && s[q + 1..z] == a[k]
            && s[q + 1..p] == a[k][..p - q - 1]
            && (p == z <==> At(s, p) == None || At(s, p) == Some('/'))
            && (At(s, p) == None <==> p == z && k + 1 == |a|)
  {
    CatMore(a[..k], a[k]);
    assert a[..k + 1] == a[..k] + [a[k]];
    CatAdd(a[..k + 1], a[k + 1..]);
    assert a == a[..k + 1] + a[k + 1..];
    assert Name(a[k]);
    var tail := Cat(a[k + 1..]);
    assert tail != "" ==> tail[0] == '/';
    Inside(Cat(a[..k]), a[k], tail, Cat(a), p);
  }

  /** A cursor that has met no slash since the segment began is still in it. */
  lemma Inside(front: string, seg: string, tail: string, s: string, p: nat)
    requires s == front + "/" + seg + tail && '/' !in seg && (tail != "" ==> tail[0] == '/')
    requires |front| < p <= |s| && '/' !in s[|front| + 1..p]
    ensures var q, z := |front|, |front| + 1 + |seg|;
            p <= z && s[q] == '/' && s[q + 1..z] == seg && s[q + 1..p] == seg[..p - q - 1]
            && (p == z <==> At(s, p) == None || At(s, p) == Some('/')) && (At(s, p) == None <==> p == z && tail == "")
  {
    var q, z := |front|, |front| + 1 + |seg|;
    assert s[q + 1..z] == seg && s[z..] == tail;
    forall x | q + 1 <= x < p ensures s[x] != '/' {
      assert s[q + 1..p][x - q - 1] in s[q + 1..p];
    }
    assert tail != "" ==> s[z] == s[z..][0] == '/';
    assert p <= z;
    assert s[q + 1..p] == seg[..p - q - 1];
    assert forall x | q + 1 <= x < z :: s[x] == seg[x - q - 1] && seg[x - q - 1] in seg;
  }

  lemma {:induction false} CommonIs(a: seq<string>, b: seq<string>, k: nat)
    requires k <= |a| && k <= |b| && a[..k] == b[..k]
    requires k < |a| && k < |b| ==> a[k] != b[k]
    ensures Common(a, b) == k
  {
    var c := Common(a, b);
    assert forall x | 0 <= x < k :: a[x] == a[..k][x] == b[..k][x] == b[x];
    assert forall x | 0 <= x < c :: a[x] == a[..c][x] == b[..c][x] == b[x];
  }

  /** `k` common segments lie before `srp`, and the cursor at `p` is inside the next one. */
  ghost predicate Together(a: seq<string>, b: seq<string>, k: nat, srp: nat, p: nat) {
    && k < |a| && k < |b| && a[..k] == b[..k] && srp == |Cat(a[..k])| && srp < p <= |Cat(a)| && p <= |Cat(b)|
    && '/' !in Cat(a)[srp + 1..p] && Cat(a)[srp + 1..p] == Cat(b)[srp + 1..p]
  }

  lemma Onward(a: seq<string>, b: seq<string>, k: nat, srp: nat, p: nat)
    requires Names(a) && Names(b) && Together(a, b, k, srp, p) && At(Cat(a), p) == At(Cat(b), p)
    ensures At(Cat(a), p) == Some('/') ==> Together(a, b, k + 1, p, p + 1)
    ensures At(Cat(a), p) != None && At(Cat(a), p) != Some('/') ==> Together(a, b, k, srp, p + 1)
    ensures At(Cat(a), p) == None ==> a == b && k + 1 == |b| && p == |Cat(b)|
  {
    var c := At(Cat(a), p);
    if c == None || c == Some('/') {
      SameSegment(a, b, k, srp, p);
      if c == None { assert a[..k + 1] == a && b[..k + 1] == b; }
    } else {
      SameLonger(Cat(a), Cat(b), srp, p);
    }
  }

  lemma SameLonger(s: string, t: string, srp: nat, p: nat)
    requires srp < p < |s| && p < |t| && s[p] == t[p] && s[p] != '/'
    requires '/' !in s[srp + 1..p] && s[srp + 1..p] == t[srp + 1..p]
    ensures '/' !in s[srp + 1..p + 1] && s[srp + 1..p + 1] == t[srp + 1..p + 1]
  {
    assert s[srp + 1..p + 1] == s[srp + 1..p] + [s[p]] && t[srp + 1..p + 1] == t[srp + 1..p] + [t[p]];
  }

  /** Both cursors reach the end of a segment: it is the same segment. */
  lemma SameSegment(a: seq<string>, b: seq<string>, k: nat, srp: nat, p: nat)
    requires Names(a) && Names(b) && Together(a, b, k, srp, p)
    requires At(Cat(a), p) == None || At(Cat(a), p) == Some('/')
    requires At(Cat(b), p) == None || At(Cat(b), p) == Some('/')
    ensures a[..k + 1] == b[..k + 1] && p == |Cat(a[..k + 1])| == |Cat(b[..k + 1])|
    ensures At(Cat(a), p) == None <==> k + 1 == |a|
    ensures At(Cat(b), p) == None <==> k + 1 == |b|
  {
    SegmentAt(a, k, p);
    SegmentAt(b, k, p);
    assert a[k] == a[k][..p - srp - 1] == b[k][..p - srp - 1] == b[k];
    assert a[..k + 1] == a[..k] + [a[k]] == b[..k + 1];
  }

  lemma SameChar(x: string, y: string, s: string, t: string, q: nat, p: nat)
    requires q <= p && q + |x| <= |s| && q + |y| <= |t| && s[q..q + |x|] == x && t[q..q + |y|] == y
    ensures x == y && p < q + |x| ==> s[p] == t[p]
  {
    if x == y && p < q + |x| {
      assert s[p] == s[q..q + |x|][p - q] && t[p] == t[q..q + |y|][p - q];
    }
  }

  /** One path ends where the other goes on with a slash. */
  predicate OneEnds(s: string, t: string, p: nat) {
    (At(s, p) == None && At(t, p) == Some('/')) || (At(s, p) == Some('/') && At(t, p) == None)
  }

  lemma Parting(a: seq<string>, b: seq<string>, k: nat, srp: nat, p: nat)
    requires Names(a) && Names(b) && Together(a, b, k, srp, p) && At(Cat(a), p) != At(Cat(b), p)
    ensures Common(a, b) == if OneEnds(Cat(a), Cat(b), p) then k + 1 else k
    ensures OneEnds(Cat(a), Cat(b), p) ==> p == |Cat(b[..k + 1])|
  {
    if OneEnds(Cat(a), Cat(b), p) {
      SameSegment(a, b, k, srp, p);
      CommonIs(a, b, k + 1);
    } else {
      OtherSegment(a, b, k, srp, p);
      CommonIs(a, b, k);
    }
  }

  lemma OtherSegment(a: seq<string>, b: seq<string>, k: nat, srp: nat, p: nat)
    requires Names(a) && Names(b) && Together(a, b, k, srp, p) && At(Cat(a), p) != At(Cat(b), p)
    requires !OneEnds(Cat(a), Cat(b), p)
    ensures a[k] != b[k]
  {
    SegmentAt(a, k, p);
    SegmentAt(b, k, p);
    DifferentNames(a[k], b[k], Cat(a), Cat(b), srp + 1, p);
  }

  /** Two segments that begin together, with other characters at `p` in or right behind them. */
  lemma DifferentNames(x: string, y: string, s: string, t: string, q: nat, p: nat)
    requires q <= p && p <= q + |x| <= |s| && p <= q + |y| <= |t| && s[q..q + |x|] == x && t[q..q + |y|] == y
    requires p == q + |x| <==> At(s, p) == None || At(s, p) == Some('/')
    requires p == q + |y| <==> At(t, p) == None || At(t, p) == Some('/')
    requires At(s, p) != At(t, p) && !OneEnds(s, t, p)
    ensures x != y
  {
    SameChar(x, y, s, t, q, p);
  }

  /** The loop over both paths: how many segments agree, and where the rest of `dst` begins. */
  method Agree(src: string, dst: string, ghost a: seq<string>, ghost b: seq<string>) returns (sc: nat, srp: nat)
    requires Names(a) && Names(b) && src == Render(a) && dst == Render(b)
    ensures a == [] && b == [] ==> sc == 1 && srp == |dst|
    ensures a != [] || b != [] ==> sc == Common(a, b) && (b != [] ==> srp == |Cat(b[..sc])|) && (b == [] ==> srp == 0)
  {
    sc, srp := 0, 0;
    if a != [] { CatHead(a); }
    if b != [] { CatHead(b); }
    if a == [] || b == [] {
      // one of them is the root: the first comparison decides
      assert Common(a, b) == 0;
    }
    assert b != [] ==> b[..0] == [] && Cat(b[..0]) == "";
    var p := 1;
    while At(src, p) == At(dst, p)
      invariant a != [] && b != [] ==> Together(a, b, sc, srp, p)
      invariant a == [] || b == [] ==> p == 1 && sc == 0 && srp == 0
      decreases |src| + 1 - p
    {
      if a != [] && b != [] { Onward(a, b, sc, srp, p); }
      if At(src, p) == None || At(src, p) == Some('/') {
        sc := sc + 1;
        srp := p;
        if At(src, p) == None {
          if a != [] { CommonIs(a, b, sc); assert b[..sc] == b; }
          return;
        }
      }
      p := p + 1;
    }
    if a != [] && b != [] { Parting(a, b, sc, srp, p); assert a[..sc] == b[..sc]; }
    if OneEnds(src, dst, p) {
      sc := sc + 1;
      srp := p;
    }
  }

  /** The first character is a slash, the second is not. */
  lemma CatHead(a: seq<string>)
    requires Names(a) && a != []
    ensures |Cat(a)| > 1 && Cat(a)[0] == '/' && Cat(a)[1] != '/'
    ensures a[..0] == [] && Cat(a[..0]) == "" && Cat(a)[1..1] == ""
  {
    assert Name(a[0]) && a[0][0] in a[0];
    assert Cat(a)[1] == a[0][0];
  }

  function Dots(n: nat): string {
    if n == 0 then "" else "../" + Dots(n - 1)
  }

  lemma {:induction false} DotsMore(n: nat)
    ensures Dots(n + 1) == Dots(n) + "../"
  {
    if n > 0 { DotsMore(n - 1); }
  }

  lemma JoinCons(x: string, d: seq<string>)
    ensures Join([x] + d) == if d == [] then x else x + ("/" + Join(d))
  {
    assert ([x] + d)[1..] == d;
    if d != [] { assert x + "/" + Join(d) == x + ("/" + Join(d)); }
  }

  lemma {:induction false} DotsJoin(n: nat, c: seq<string>)
    ensures c != [] ==> Join(Ups(n) + c) == Dots(n) + Join(c)
    ensures n > 0 ==> Join(Ups(n)) + "/" == Dots(n)
  {
    if n == 0 {
      assert Ups(n) + c == c;
    } else {
      DotsJoin(n - 1, c);
      assert Ups(n) + c == [".."] + (Ups(n - 1) + c) && Ups(n) == [".."] + Ups(n - 1);
      JoinCons("..", Ups(n - 1) + c);
      JoinCons("..", Ups(n - 1));
      DotsFront(Join(Ups(n - 1) + c), Join(Ups(n - 1)), Dots(n - 1), Join(c));
    }
  }

  lemma DotsFront(x: string, y: string, d: string, c: string)
    ensures x == d + c ==> ".." + ("/" + x) == ("../" + d) + c
    ensures y + "/" == d ==> (".." + ("/" + y)) + "/" == "../" + d
  {
    assert ".." + ("/" + (d + c)) == ("../" + d) + c;
    assert (".." + ("/" + y)) + "/" == "../" + (y + "/");
  }

  lemma LastOf(x: string, y: string)
    ensures y != "" ==> (x + y)[|x + y| - 1] == y[|y| - 1]
  {
  }

  lemma {:induction false} JoinIsCat(c: seq<string>)
    requires Names(c) && c != []
    ensures Cat(c) == "/" + Join(c) && Join(c) != "" && Join(c)[|Join(c)| - 1] != '/'
  {
    assert Name(c[0]) && c[0][|c[0]| - 1] in c[0];
    assert c == [c[0]] + c[1..];
    JoinCons(c[0], c[1..]);
    if c[1..] != [] {
      NamesFrom(c, 1);
      JoinIsCat(c[1..]);
      LastOf(c[0] + "/", Join(c[1..]));
      assert c[0] + ("/" + Join(c[1..])) == c[0] + "/" + Join(c[1..]);
    }
  }

  /** What follows the common part of a canonical path. */
  lemma TailIsJoin(b: seq<string>, k: nat)
    requires Names(b) && k <= |b|
    ensures |Cat(b[..k])| <= |Cat(b)| && (|Cat(b[..k])| < |Cat(b)| <==> k < |b|)
    ensures k < |b| ==> Cat(b)[|Cat(b[..k])| + 1..] == Join(b[k..])
    ensures Names(b[k..])
  {
    NamesFrom(b, k);
    CatAdd(b[..k], b[k..]);
    assert b == b[..k] + b[k..];
    if k < |b| { JoinIsCat(b[k..]); }
  }

  /** The first `n` characters are those of "../" again and again. */
  ghost predicate Climbs(s: string, n: nat) {
    n <= |s| && forall i | 0 <= i < n :: s[i] == if i % 3 == 2 then '/' else '.'
  }

  lemma {:induction false} DotsClimb(n: nat)
    ensures |Dots(n)| == 3 * n && Climbs(Dots(n), 3 * n)
  {
    if n > 0 {
      DotsClimb(n - 1);
      var d := Dots(n - 1);
      assert Dots(n) == "../" + d;
      forall i | 0 <= i < 3 * n ensures Dots(n)[i] == if i % 3 == 2 then '/' else '.' {
        if i >= 3 { assert Dots(n)[i] == d[i - 3]; }
      }
    }
  }

  /** `c` is the length of the longest common prefix. */
  ghost predicate Parts(a: seq<string>, b: seq<string>, c: nat) {
    c <= |a| && c <= |b| && a[..c] == b[..c] && (c < |a| && c < |b| ==> a[c] != b[c])
  }

  /** The text of the relative path: ".." for each segment to leave, and the rest of the target behind them. */
  ghost predicate Leads(r: string, a: seq<string>, b: seq<string>, c: nat)
    requires c <= |a| && c <= |b|
  {
    var up := 3 * (|a| - c);
    if c < |b| then Climbs(r, up) && (if c == 0 then "" else Render(b[..c])) + "/" + r[up..] == Render(b)
    else if up > 0 then |r| == up - 1 && Climbs(r, up - 1)
    else r == "."
  }

  /** It never begins or ends with a slash, and holds no two in a row. */
  ghost predicate Spelled(r: string, a: seq<string>, b: seq<string>) {
    && Tidy(r) && r[0] != '/' && r[|r| - 1] != '/'
    && exists c: nat :: Parts(a, b, c) && Leads(r, a, b, c)
  }

  lemma RelativeText(a: seq<string>, b: seq<string>)
    requires Names(a) && Names(b)
    ensures Spelled(Relative(a, b), a, b)
  {
    var c := Common(a, b);
    NamesFrom(b, c);
    DotsJoin(|a| - c, b[c..]);
    DotsClimb(|a| - c);
    assert Parts(a, b, c);
    if c < |b| {
      DownSpelled(a, b, c, Relative(a, b));
    } else {
      assert Ups(|a| - c) + b[c..] == Ups(|a| - c);
      UpText(|a| - c);
      assert Leads(Relative(a, b), a, b, c);
    }
  }

  lemma DownSpelled(a: seq<string>, b: seq<string>, c: nat, r: string)
    requires Names(b) && c <= |a| && c < |b| && Parts(a, b, c) && Names(b[c..]) && r == Dots(|a| - c) + Join(b[c..])
    requires |Dots(|a| - c)| == 3 * (|a| - c) && Climbs(Dots(|a| - c), 3 * (|a| - c))
    ensures Spelled(r, a, b)
  {
    DownLeads(b, c);
    DownText(|a| - c, b[c..]);
    RestBehind(b, c, Dots(|a| - c), r);
    assert Leads(r, a, b, c);
  }

  lemma DownLeads(b: seq<string>, c: nat)
    requires Names(b) && c < |b| && Names(b[c..])
    ensures var rest := b[c..];
            && Cat(rest) == "/" + Join(rest) && Join(rest) != "" && Join(rest)[|Join(rest)| - 1] != '/'
            && Clean(Cat(rest)) && |Cat(rest)| > 1 && Cat(rest)[1] != '/'
  {
    JoinIsCat(b[c..]);
    CatHead(b[c..]);
    CatIsClean(b[c..]);
  }

  lemma RestBehind(b: seq<string>, c: nat, dots: string, r: string)
    requires c < |b| && r == dots + Join(b[c..]) && Cat(b[c..]) == "/" + Join(b[c..])
    ensures (if c == 0 then "" else Render(b[..c])) + "/" + r[|dots|..] == Render(b)
  {
    assert b == b[..c] + b[c..];
    CatAdd(b[..c], b[c..]);
    assert r[|dots|..] == Join(b[c..]);
    assert Cat(b[..c]) + ("/" + Join(b[c..])) == Cat(b[..c]) + "/" + Join(b[c..]);
    if c == 0 { assert b[..0] == [] && Cat(b[..0]) == ""; }
  }

  lemma DownText(n: nat, rest: seq<string>)
    requires Names(rest) && rest != [] && |Dots(n)| == 3 * n && Climbs(Dots(n), 3 * n) && Clean(Cat(rest))
    requires Cat(rest) == "/" + Join(rest) && Join(rest) != "" && Join(rest)[|Join(rest)| - 1] != '/'
    requires Cat(rest)[1] != '/'
    ensures var r := Dots(n) + Join(rest);
            r != "" && r[0] != '/' && r[|r| - 1] != '/' && Tidy(r) && Climbs(r, 3 * n)
  {
    var s, r := Cat(rest), Dots(n) + Join(rest);
    forall i | 0 <= i < |r| - 1 ensures !(r[i] == '/' && r[i + 1] == '/') {
      if i >= 3 * n {
        var p := i - 3 * n + 1;
        assert !Messy(s, p) && s[p] == r[i] && s[p + 1] == r[i + 1];
      } else if i == 3 * n - 1 {
        assert r[i + 1] == Join(rest)[0] == s[1];
      }
    }
  }

  lemma UpText(n: nat)
    requires n > 0 ==> Join(Ups(n)) + "/" == Dots(n)
    requires |Dots(n)| == 3 * n && Climbs(Dots(n), 3 * n)
    ensures n > 0 ==> |Join(Ups(n))| == 3 * n - 1 && Climbs(Join(Ups(n)), 3 * n - 1) && Tidy(Join(Ups(n)))
    ensures n > 0 ==> Join(Ups(n))[0] != '/' && Join(Ups(n))[|Join(Ups(n))| - 1] != '/'
    ensures n == 0 ==> Ups(n) == []
  {
    if n > 0 {
      var r := Join(Ups(n));
      assert forall i | 0 <= i < |r| :: r[i] == Dots(n)[i];
    }
  }

  /** The relative path between two places as the buffers hold them; None when the process ends. */
  function RelativePath(src: string, dst: string, cwd: string): Option<string> {
    var a, b := Found(src, cwd), Found(dst, cwd);
    if a.Some? && b.Some? then Some(Relative(a.value, b.value)) else None
  }

  /** path_relativize_cwd */
  method RelativizeCwd(src: string, dst: string, cwd: string) returns (r: Option<string>)
    ensures r == RelativePath(src, dst, cwd)
    ensures Fits(src, cwd) && Fits(dst, cwd) ==> r == Some(Relative(Meaning(src, cwd), Meaning(dst, cwd)))
    ensures Fits(src, cwd) && Fits(dst, cwd) ==> Normal(r.value, Normal(src, cwd)) == Normal(dst, cwd)
    ensures r == None <==> TooLong(src, cwd) || TooLong(dst, cwd)
    ensures r.Some? ==> Found(src, cwd).Some? && Found(dst, cwd).Some?
                        && Spelled(r.value, Found(src, cwd).value, Found(dst, cwd).value)
  {
    FoundIsMeaning(src, cwd);
    FoundIsMeaning(dst, cwd);
    RelativizeNormalize(src, dst, cwd);
    var from := NormalizeCwd(src, cwd);
    var onto := NormalizeCwd(dst, cwd);
    if from == None || onto == None {
      return None;
    }
    ghost var a, b := Found(src, cwd).value, Found(dst, cwd).value;
    var sf: int := NumSegments(from.value, a);
    var sc: int, srp := Agree(from.value, onto.value, a, b);
    var text := Spell(sf - sc, srp, onto.value, a, b);
    RelativeText(a, b);
    r := Some(text);
  }

  ghost predicate Position(ups: int, srp: nat, dst: string, a: seq<string>, b: seq<string>) {
    if a == [] && b == [] then ups == -1 && srp == |dst|
    else ups == |a| - Common(a, b) && srp == if b == [] then 0 else |Cat(b[..Common(a, b)])|
  }

  lemma TailOf(ups: int, srp: nat, dst: string, a: seq<string>, b: seq<string>)
    requires Names(b) && dst == Render(b) && Position(ups, srp, dst, a, b)
    ensures var c := b[Common(a, b)..];
            Names(c) && (if srp < |dst| then dst[srp + 1..] == Join(c) else Join(c) == "")
    ensures (if ups < 0 then 0 else ups) == |a| - Common(a, b)
  {
    NamesFrom(b, Common(a, b));
    TailIsJoin(b, Common(a, b));
  }

  method Spell(ups: int, srp: nat, dst: string, ghost a: seq<string>, ghost b: seq<string>) returns (out: string)
    requires Names(a) && Names(b) && dst == Render(b) && Position(ups, srp, dst, a, b)
    ensures out == Relative(a, b)
  {
    TailOf(ups, srp, dst, a, b);
    out := "";
    var i := 0;
    while i < ups
      invariant 0 <= i && (ups >= 0 ==> i <= ups) && (ups < 0 ==> i == 0) && out == Dots(i)
    {
      DotsMore(i);
      out := out + "../";
      i := i + 1;
    }
    if srp < |dst| {
      out := out + dst[srp + 1..];
    }
    assert out == Dots(|a| - Common(a, b)) + Join(b[Common(a, b)..]);
    SpellEnds(|a| - Common(a, b), b[Common(a, b)..], out);
    if out == "" {
      return ".";
    }
    if |out| > 1 && out[|out| - 1] == '/' {
      out := out[..|out| - 1];
    }
  }

  lemma SpellEnds(n: nat, c: seq<string>, out: string)
    requires Names(c) && out == Dots(n) + Join(c)
    ensures out == "" <==> Ups(n) + c == []
    ensures out != "" ==> |out| > 1 || out[|out| - 1] != '/'
    ensures out != "" && out[|out| - 1] == '/' ==> out[..|out| - 1] == Join(Ups(n) + c)
    ensures out != "" && out[|out| - 1] != '/' ==> out == Join(Ups(n) + c)
  {
    DotsJoin(n, c);
    if c == [] {
      assert Ups(n) + c == Ups(n);
      assert out == Dots(n);
    } else {
      JoinIsCat(c);
      LastOf(Dots(n), Join(c));
    }
  }

  // ---------------------------------------------------------------- path_is_prefix_for

  datatype Prefix = Fatal | NotPrefix | Rest(rest: string)

  /** On the canonical paths of `a` and `b` the answer is that of the segment lists. */
  ghost predicate Right(r: Prefix, prefix: string, full: string, a: seq<string>, b: seq<string>) {
    Names(a) && Names(b) && prefix == Render(a) && full == Render(b)
    ==> r == if a <= b then Rest(Join(b[|a|..])) else NotPrefix
  }

  /** path_is_prefix_for: always sound, and on canonical paths it holds exactly for segment prefixes. */
  method IsPrefixFor(prefix: string, path: string, cwd: string) returns (r: Prefix)
    requires At(prefix, 0) == Some('/')
    ensures r == Fatal <==> At(path, 0) != Some('/') && Found(path, cwd) == None
    ensures At(path, 0) == Some('/') ==> forall a, b :: Right(r, prefix, path, a, b)
    ensures r != Fatal && At(path, 0) != Some('/') ==>
              forall a, b :: Right(r, prefix, Render(Found(path, cwd).value), a, b)
    ensures r.Rest? && At(path, 0) == Some('/') ==> Segs(path) == Segs(prefix) + Segs(r.rest)
    ensures r.Rest? && At(path, 0) != Some('/') ==> Found(path, cwd).value == Segs(prefix) + Segs(r.rest)
  {
    var full := path;
    if At(path, 0) != Some('/') {
      var n := NormalizeCwd(path, cwd);
      if n == None {
        return Fatal;
      }
      full := n.value;
      FoundIsMeaning(path, cwd);
      NamesArePieces(Found(path, cwd).value);
      SegsOfRender(Found(path, cwd).value);
    }
    r := Remainder(prefix, full);
  }

  method Remainder(prefix: string, full: string) returns (r: Prefix)
    requires At(prefix, 0) == Some('/')
    ensures r != Fatal
    ensures r.Rest? ==> Segs(full) == Segs(prefix) + Segs(r.rest)
    ensures forall a, b :: Right(r, prefix, full, a, b)
  {
    var p := |prefix|;
    if !(prefix <= full) {
      r := NotPrefix;
    } else {
      SplitAtPrefix(prefix, full);
      if p == |full| {
        r := Rest("");
      } else if full[p] == '/' {
        while p < |full| && full[p] == '/'
          invariant |prefix| <= p <= |full| && Segs(full[|prefix|..]) == Segs(full[p..])
          invariant forall i | |prefix| <= i < p :: full[i] == '/'
        {
          SkipSlashes(full, p);
          p := p + 1;
        }
        r := Rest(full[p..]);
      } else if prefix[|prefix| - 1] == '/' {
        r := Rest(full[p..]);
      } else {
        r := NotPrefix;
      }
    }
    forall a, b ensures Right(r, prefix, full, a, b) {
      Answers(r, prefix, full, p, a, b);
    }
  }

  ghost predicate Case(r: Prefix, s: string, t: string, p: nat)
    requires s != ""
  {
    if !(s <= t) then r == NotPrefix
    else if |s| == |t| then r == Rest("")
    else if t[|s|] == '/' then
      |s| < p <= |t| && (forall i | |s| <= i < p :: t[i] == '/') && (p < |t| ==> t[p] != '/') && r == Rest(t[p..])
    else r == if s[|s| - 1] == '/' then Rest(t[|s|..]) else NotPrefix
  }

  lemma Answers(r: Prefix, s: string, t: string, p: nat, a: seq<string>, b: seq<string>)
    requires s != "" && Case(r, s, t, p)
    ensures Right(r, s, t, a, b)
  {
    if Names(a) && Names(b) && s == Render(a) && t == Render(b) {
      if a <= b {
        Within(s, t, a, b);
      } else if s <= t {
        Without(s, t, a, b);
      }
    }
  }

  lemma Within(s: string, t: string, a: seq<string>, b: seq<string>)
    requires Names(a) && Names(b) && s == Render(a) && t == Render(b) && a <= b
    ensures s <= t && s != "" && (a == b <==> s == t)
    ensures a != b && a == [] ==> t[1] != '/' && t[1..] == Join(b[|a|..]) && s == "/"
    ensures a != b && a != [] ==> t[|s|] == '/' && |s| + 1 < |t| && t[|s| + 1] != '/' && t[|s| + 1..] == Join(b[|a|..])
  {
    assert b == a + b[|a|..] && b[..|a|] == a;
    if a == [] {
      assert b[|a|..] == b;
      if b != [] { CatHead(b); JoinIsCat(b); }
    } else {
      CatHead(a);
      CatAdd(a, b[|a|..]);
      if a != b {
        NamesFrom(b, |a|);
        CatHead(b[|a|..]);
        JoinIsCat(b[|a|..]);
      } else {
        assert b[|a|..] == [];
      }
    }
  }

  lemma Without(s: string, t: string, a: seq<string>, b: seq<string>)
    requires Names(a) && Names(b) && s == Render(a) && t == Render(b) && !(a <= b) && s != "" && s <= t
    ensures |s| < |t| && t[|s|] != '/' && s[|s| - 1] != '/'
  {
    NamesArePieces(a);
    NamesArePieces(b);
    SegsOfRender(a);
    SegsOfRender(b);
    JoinIsCat(a);
    SplitAtPrefix(s, t);
  }

  lemma SplitAt(x: string, y: string)
    requires y == "" || y[0] == '/' || (x != "" && x[|x| - 1] == '/')
    ensures Segs(x + y) == Segs(x) + Segs(y)
  {
    if y == "" {
      assert x + y == x;
    } else if y[0] == '/' {
      CutBefore(x, y);
    } else {
      CutAfter(x[..|x| - 1], x, y);
    }
  }

  ghost predicate Cuts(x: string, t: string)
    requires x != "" && x <= t
  {
    Segs(t) == Segs(x) + Segs(t[|x|..])
  }

  lemma SplitAtPrefix(x: string, t: string)
    requires x != "" && x <= t
    ensures |x| == |t| || t[|x|] == '/' || x[|x| - 1] == '/' ==> Cuts(x, t)
  {
    var y := t[|x|..];
    assert t == x + y;
    if y == "" || y[0] == '/' || x[|x| - 1] == '/' {
      SplitAt(x, y);
    }
  }

  /** A path may be cut before a slash, and after one. */
  lemma CutBefore(x: string, y: string)
    requires y != "" && y[0] == '/'
    ensures Segs(x + y) == Segs(x) + Segs(y)
  {
    assert y == "/" + y[1..];
    SegsOfSlash(y[1..]);
    assert x + y == x + "/" + y[1..];
    SegsAround(x, y[1..]);
  }

  lemma CutAfter(w: string, x: string, y: string)
    requires x == w + "/"
    ensures Segs(x + y) == Segs(x) + Segs(y)
  {
    assert x + y == w + "/" + y && x == w + "/" + "";
    SegsAround(w, y);
    SegsAround(w, "");
  }
}
