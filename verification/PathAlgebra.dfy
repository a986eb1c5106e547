/**
 Paths as lists of segments: what normalizing and relativizing mean, independently of the buffers
 and cursors that compute them.
 */
module PathAlgebra {
  /** The index of the first slash, or the length of the string. */
  function FirstSlash(s: string): (k: nat)
    ensures k <= |s| && (k < |s| ==> s[k] == '/') && forall i | 0 <= i < k :: s[i] != '/'
  {
    if s == "" || s[0] == '/' then 0 else 1 + FirstSlash(s[1..])
  }

  /** The nonempty pieces between slashes. */
  function Segs(s: string): seq<string>
    decreases |s|
  {
    if s == "" then []
    else if s[0] == '/' then Segs(s[1..])
    else [s[..FirstSlash(s)]] + Segs(s[FirstSlash(s)..])
  }

  /** "." is dropped, ".." removes the segment before it, if there is one. */
  function Step(stack: seq<string>, seg: string): seq<string> {
    if seg == "." then stack
    else if seg == ".." then (if stack == [] then [] else stack[..|stack| - 1])
    else stack + [seg]
  }

  function Resolve(stack: seq<string>, segs: seq<string>): seq<string>
    decreases |segs|
  {
    if segs == [] then stack else Resolve(Step(stack, segs[0]), segs[1..])
  }

  function Cat(segs: seq<string>): string {
    if segs == [] then "" else "/" + segs[0] + Cat(segs[1..])
  }

  /** The canonical absolute path of a segment list. */
  function Render(segs: seq<string>): string {
    if segs == [] then "/" else Cat(segs)
  }

  /** The path meant by `path` in directory `cwd`, as segments. */
  function Meaning(path: string, cwd: string): seq<string> {
    Resolve([], Segs(if |path| > 0 && path[0] == '/' then path else cwd + "/" + path))
  }

  function Normal(path: string, cwd: string): string {
    Render(Meaning(path, cwd))
  }

  /** A real name: not empty, without slash, and neither "." nor "..". */
  predicate Name(seg: string) {
    seg != "" && '/' !in seg && seg != "." && seg != ".."
  }

  predicate Names(segs: seq<string>) {
    forall i | 0 <= i < |segs| :: Name(segs[i])
  }

  predicate Piece(seg: string) {
    seg != "" && '/' !in seg
  }

  predicate Pieces(segs: seq<string>) {
    forall i | 0 <= i < |segs| :: Piece(segs[i])
  }

  function Join(segs: seq<string>): string {
    if segs == [] then "" else if |segs| == 1 then segs[0] else segs[0] + "/" + Join(segs[1..])
  }

  /** The length of the longest common prefix. */
  function Common(a: seq<string>, b: seq<string>): (k: nat)
    ensures k <= |a| && k <= |b| && a[..k] == b[..k]
    ensures k < |a| && k < |b| ==> a[k] != b[k]
  {
    if a != [] && b != [] && a[0] == b[0] then
      var k := 1 + Common(a[1..], b[1..]);
      assert a[..k] == [a[0]] + a[1..][..k - 1] && b[..k] == [b[0]] + b[1..][..k - 1];
      k
    else 0
  }

  function Ups(n: nat): seq<string> {
    seq(n, _ => "..")
  }

  /** The relative path from directory `a` to `b`: up to the common ancestor, then down. */
  function Relative(a: seq<string>, b: seq<string>): string {
    var segs := Ups(|a| - Common(a, b)) + b[Common(a, b)..];
    if segs == [] then "." else Join(segs)
  }

  // ---------------------------------------------------------------- splitting and joining

  lemma SegsOfPiece(s: string, t: string)
    requires Piece(s) && (t == "" || t[0] == '/')
    ensures Segs(s + t) == [s] + Segs(t)
  {
    var u := s + t;
    var k := FirstSlash(u);
    assert forall i | 0 <= i < |s| :: s[i] in s && u[i] == s[i];
    assert t != "" ==> u[|s|] == t[0];
    assert u[..k] == s && u[k..] == t;
  }

  lemma {:induction false} SegsAround(x: string, y: string)
    ensures Segs(x + "/" + y) == Segs(x) + Segs(y)
    decreases |x|
  {
    var u := x + "/" + y;
    if x == "" {
      assert u[1..] == y;
    } else if x[0] == '/' {
      SegsAround(x[1..], y);
      assert u[1..] == x[1..] + "/" + y;
    } else {
      var k := FirstSlash(x);
      SegsAround(x[k..], y);
      assert u == x[..k] + (x[k..] + "/" + y);
      assert Piece(x[..k]) by { assert '/' !in x[..k]; }
      SegsOfPiece(x[..k], x[k..] + "/" + y);
    }
  }

  lemma {:induction false} SegsArePieces(s: string)
    ensures Pieces(Segs(s))
    decreases |s|
  {
    if s == "" {
    } else if s[0] == '/' {
      SegsArePieces(s[1..]);
    } else {
      var k := FirstSlash(s);
      SegsArePieces(s[k..]);
      assert Piece(s[..k]) by { assert '/' !in s[..k]; }
    }
  }

  lemma SegsOfSlash(t: string)
    ensures Segs("/" + t) == Segs(t)
  {
    assert ("/" + t)[1..] == t;
  }

  lemma {:induction false} SegsOfCat(segs: seq<string>)
    requires Pieces(segs)
    ensures Segs(Cat(segs)) == segs
  {
    if segs == [] {
    } else {
      var t := segs[0] + Cat(segs[1..]);
      assert Cat(segs) == "/" + t;
      SegsOfSlash(t);
      assert Piece(segs[0]) && Pieces(segs[1..]);
      SegsOfPiece(segs[0], Cat(segs[1..]));
      SegsOfCat(segs[1..]);
    }
  }

  lemma SegsOfRender(segs: seq<string>)
    requires Pieces(segs)
    ensures Segs(Render(segs)) == segs
  {
    if segs == [] {
      assert "/"[1..] == "";
    } else {
      SegsOfCat(segs);
    }
  }

  lemma {:induction false} SegsOfJoin(segs: seq<string>)
    requires Pieces(segs)
    ensures Segs(Join(segs)) == segs
  {
    if segs == [] {
    } else if |segs| == 1 {
      SegsOfPiece(segs[0], "");
      assert segs[0] + "" == segs[0];
    } else {
      SegsOfJoin(segs[1..]);
      SegsAround(segs[0], Join(segs[1..]));
      SegsOfPiece(segs[0], "");
      assert segs[0] + "" == segs[0];
    }
  }

  // ---------------------------------------------------------------- resolving

  lemma {:induction false} ResolveConcat(stack: seq<string>, a: seq<string>, b: seq<string>)
    ensures Resolve(stack, a + b) == Resolve(Resolve(stack, a), b)
    decreases |a|
  {
    if a == [] {
      assert a + b == b;
    } else {
      assert (a + b)[1..] == a[1..] + b;
      ResolveConcat(Step(stack, a[0]), a[1..], b);
    }
  }

  lemma {:induction false} ResolveNames(stack: seq<string>, segs: seq<string>)
    requires Names(segs)
    ensures Resolve(stack, segs) == stack + segs
    decreases |segs|
  {
    if segs == [] {
    } else {
      assert Name(segs[0]);
      ResolveNames(stack + [segs[0]], segs[1..]);
    }
  }

  lemma {:induction false} ResolveUps(stack: seq<string>, n: nat)
    requires n <= |stack|
    ensures Resolve(stack, Ups(n)) == stack[..|stack| - n]
    decreases n
  {
    if n > 0 {
      assert Ups(n)[1..] == Ups(n - 1);
      ResolveUps(stack[..|stack| - 1], n - 1);
    }
  }

  lemma {:induction false} ResolvedAreNames(stack: seq<string>, segs: seq<string>)
    requires Names(stack) && Pieces(segs)
    ensures Names(Resolve(stack, segs))
    decreases |segs|
  {
    if segs != [] {
      assert Piece(segs[0]);
      ResolvedAreNames(Step(stack, segs[0]), segs[1..]);
    }
  }

  lemma NamesArePieces(segs: seq<string>)
    requires Names(segs)
    ensures Pieces(segs)
  {
    forall i | 0 <= i < |segs| ensures Piece(segs[i]) {
      assert Name(segs[i]);
    }
  }

  lemma MeaningIsNames(path: string, cwd: string)
    ensures Names(Meaning(path, cwd))
  {
    var s := if |path| > 0 && path[0] == '/' then path else cwd + "/" + path;
    SegsArePieces(s);
    ResolvedAreNames([], Segs(s));
  }

  /** A canonical path means its own segments, in every directory. */
  lemma RenderMeans(segs: seq<string>, cwd: string)
    requires Names(segs)
    ensures Meaning(Render(segs), cwd) == segs
  {
    NamesArePieces(segs);
    SegsOfRender(segs);
    ResolveNames([], segs);
  }

  // ---------------------------------------------------------------- the laws

  /** Normalizing twice is normalizing once, whatever the second directory. */
  lemma NormalIdempotent(path: string, cwd: string, cwd': string)
    ensures Normal(Normal(path, cwd), cwd') == Normal(path, cwd)
  {
    MeaningIsNames(path, cwd);
    RenderMeans(Meaning(path, cwd), cwd');
  }

  /** Different segment lists have different canonical paths. */
  lemma RenderInjective(a: seq<string>, b: seq<string>)
    requires Names(a) && Names(b) && Render(a) == Render(b)
    ensures a == b
  {
    RenderMeans(a, "");
    RenderMeans(b, "");
  }

  lemma UpsArePieces(n: nat, c: seq<string>)
    requires Pieces(c)
    ensures Pieces(Ups(n) + c)
  {
  }

  lemma JoinHead(segs: seq<string>)
    requires Pieces(segs) && segs != []
    ensures Join(segs) != "" && Join(segs)[0] != '/'
  {
    assert Piece(segs[0]) && segs[0][0] in segs[0];
  }

  /** The segments of the relative path. */
  lemma RelativeSegs(a: seq<string>, b: seq<string>)
    requires Names(b)
    ensures var segs := Ups(|a| - Common(a, b)) + b[Common(a, b)..];
            Segs(Relative(a, b)) == if segs == [] then ["."] else segs
    ensures Relative(a, b) != "" && Relative(a, b)[0] != '/'
  {
    var k := Common(a, b);
    NamesFrom(b, k);
    NamesArePieces(b[k..]);
    UpsArePieces(|a| - k, b[k..]);
    JoinSegs(Ups(|a| - k) + b[k..]);
  }

  lemma JoinSegs(segs: seq<string>)
    requires Pieces(segs)
    ensures segs == [] ==> Segs(".") == ["."]
    ensures segs != [] ==> Segs(Join(segs)) == segs && Join(segs) != "" && Join(segs)[0] != '/'
  {
    if segs == [] {
      SegsOfPiece(".", "");
      assert "." + "" == ".";
    } else {
      SegsOfJoin(segs);
      JoinHead(segs);
    }
  }

  lemma UpAndDown(a: seq<string>, b: seq<string>)
    requires Names(b)
    ensures var k := Common(a, b); Resolve(a, Ups(|a| - k) + b[k..]) == b
  {
    var k := Common(a, b);
    ResolveConcat(a, Ups(|a| - k), b[k..]);
    ResolveUps(a, |a| - k);
    NamesFrom(b, k);
    var up, down := a[..k], b[k..];
    assert Resolve(a, Ups(|a| - k)) == up;
    ResolveNames(up, down);
    assert up + down == b[..k] + b[k..] == b;
  }

  lemma NamesFrom(segs: seq<string>, k: nat)
    requires Names(segs) && k <= |segs|
    ensures Names(segs[k..])
  {
    forall i | 0 <= i < |segs[k..]| ensures Name(segs[k..][i]) { assert Name(segs[k + i]); }
  }

  /** Going from `a` to `b` along the relative path leads to `b`. */
  lemma RelativeLeadsBack(a: seq<string>, b: seq<string>)
    requires Names(a) && Names(b)
    ensures Meaning(Relative(a, b), Render(a)) == b
  {
    var k := Common(a, b);
    var segs := Ups(|a| - k) + b[k..];
    RelativeSegs(a, b);
    SegsAround(Render(a), Relative(a, b));
    NamesArePieces(a);
    SegsOfRender(a);
    ResolveNames([], a);
    assert [] + a == a;
    ResolveConcat([], a, Segs(Relative(a, b)));
    UpAndDown(a, b);
    if segs == [] {
      assert Resolve(a, ["."]) == Resolve(a, ["."][1..]);
      assert b == a;
    }
  }

  /** Relativizing and then normalizing is the identity. */
  lemma RelativizeNormalize(src: string, dst: string, cwd: string)
    ensures Normal(Relative(Meaning(src, cwd), Meaning(dst, cwd)), Normal(src, cwd)) == Normal(dst, cwd)
  {
    MeaningIsNames(src, cwd);
    MeaningIsNames(dst, cwd);
    RelativeLeadsBack(Meaning(src, cwd), Meaning(dst, cwd));
  }
}
