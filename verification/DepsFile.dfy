/**
 The reader and the writer of dependency files (deps.c). The reader cuts its line buffer into
 strings in place; alias and resource are positions in that buffer.
 */
module DepsFile {
  import opened Options
  import opened DepsFormat
  import opened PathAlgebra
  import Paths

  const DEPS_BUF_SZ := 262144

  /** The zero-terminated string at position i. */
  function CString(s: string, i: nat): string
    requires i <= |s|
  {
    s[i..][..FirstOf(s[i..], NUL)]
  }

  function StringAt(s: string, o: Option<nat>): Option<string>
    requires o.Some? ==> o.value <= |s|
  {
    if o.Some? then Some(CString(s, o.value)) else None
  }

  lemma CStringIs(s: string, i: nat, t: string)
    requires i + |t| < |s| && s[i..i + |t|] == t && NUL !in t && s[i + |t|] == NUL
    ensures CString(s, i) == t
  {
    var k := FirstOf(s[i..], NUL);
    assert s[i..][|t|] == NUL;
    assert forall x | 0 <= x < |t| :: s[i..][x] == t[x] && t[x] in t;
  }

  /** How much fgets takes: up to a line break, the end of the file or a full buffer. */
  function Chunk(text: string): (n: nat)
    ensures n <= |text| && n < DEPS_BUF_SZ && (text != "" ==> n > 0)
  {
    var k := FirstOf(text, '\n');
    var n := if k < |text| then k + 1 else k;
    if n < DEPS_BUF_SZ then n else DEPS_BUF_SZ - 1
  }

  /** Up to and with the first line break, or as much as there is and the buffer takes. */
  lemma ChunkIs(text: string)
    ensures Chunk(text) <= 262143 && forall i | 0 <= i < Chunk(text) - 1 :: text[i] != '\n'
    ensures Chunk(text) < |text| && Chunk(text) < 262143 ==> text[Chunk(text) - 1] == '\n'
  {
  }

  /** What the next fgets takes. */
  function Ahead(file: string, pos: nat): (line: string)
    requires pos <= |file|
    ensures pos + |line| <= |file| && |line| < DEPS_BUF_SZ && (pos < |file| ==> line != "")
  {
    file[pos..][..Chunk(file[pos..])]
  }

  /** A line as C strings show it: up to its first terminator. */
  function Shown(line: string): string {
    line[..FirstOf(line, NUL)]
  }

  /** A line the reader takes as a whole: no terminator inside, long enough for type and flags. */
  predicate Plain(line: string) {
    |line| >= 2 && NUL !in line
  }

  // ---------------------------------------------------------------- the buffer after each step

  /** The buffer holds `line` and its terminator. */
  predicate Holds(b: string, line: string) {
    |line| < |b| && b[..|line|] == line && b[|line|] == NUL
  }

  lemma HoldsString(b: string, line: string, i: nat)
    requires Holds(b, line) && NUL !in line && i <= |line|
    ensures CString(b, i) == line[i..]
  {
    assert b[i..|line|] == b[..|line|][i..];
    CStringIs(b, i, line[i..]);
  }

  /** `body` stands in the buffer from position 2 on, followed by a terminator. */
  ghost predicate Stands(b: string, body: string) {
    2 + |body| < |b| && b[2..2 + |body|] == body && NUL !in body && b[2 + |body|] == NUL
  }

  /** The buffer after a scan of `t`: an alias is cut off at the first separator. */
  function Opened(b: string, keyed: bool, t: string): string
    requires 2 + |t| <= |b|
  {
    if keyed && FirstOf(t, SEP) < |t| then b[2 + FirstOf(t, SEP) := NUL] else b
  }

  /** The buffer after the whole line was taken apart. */
  function Cut(b: string, keyed: bool, body: string): string
    requires 2 + |body| <= |b|
  {
    CutAt(b, keyed, |body|, FirstOf(body, SEP), LastOf(body, SEP))
  }

  function CutAt(b: string, keyed: bool, n: nat, a: nat, z: nat): string
    requires 2 + n <= |b| && a <= n && z <= n
  {
    var b1 := if keyed && a < n then b[2 + a := NUL] else b;
    if z < n then b1[2 + z := NUL] else b1
  }

  lemma FirstBeforeLast(body: string)
    ensures FirstOf(body, SEP) <= LastOf(body, SEP)
    ensures FirstOf(body, SEP) == |body| <==> LastOf(body, SEP) == |body|
  {
    var a, z := FirstOf(body, SEP), LastOf(body, SEP);
    if a < |body| { assert body[a] in body; }
  }

  ghost predicate CharAt(s: string, i: nat, t: string, x: nat) {
    x < |t| ==> i + x < |s| && s[i + x] == t[x]
  }

  lemma CStringOf(s: string, i: nat, t: string)
    requires i + |t| < |s| && (forall x: nat :: CharAt(s, i, t, x)) && NUL !in t && s[i + |t|] == NUL
    ensures CString(s, i) == t
  {
    forall x | 0 <= x < |t| ensures s[i + x] == t[x] {
      assert CharAt(s, i, t, x);
    }
    assert s[i..i + |t|] == t;
    CStringIs(s, i, t);
  }

  lemma BodyChar(b: string, body: string, k: nat)
    requires Stands(b, body) && k < |body|
    ensures b[2 + k] == body[k] && body[k] != NUL
  {
    assert b[2..2 + |body|][k] == body[k] && body[k] in body;
  }

  lemma BodyEnd(b: string, body: string, k: nat)
    requires Stands(b, body) && k <= |body| && b[2 + k] == NUL
    ensures k == |body|
  {
    assert forall x | 0 <= x < |body| :: b[2 + x] == b[2..2 + |body|][x] && body[x] in body;
  }

  ghost predicate Kept(b: string, c: string, lo: nat, hi: nat, x: nat) {
    lo <= x < hi ==> 2 + x < |b| && 2 + x < |c| && c[2 + x] == b[2 + x]
  }

  /** A piece of the body that no cut touched is still there as a string. */
  lemma Piece(b: string, body: string, c: string, lo: nat, hi: nat)
    requires Stands(b, body) && lo <= hi <= |body| && |c| == |b| && c[2 + hi] == NUL
    requires forall x: nat :: Kept(b, c, lo, hi, x)
    ensures InBody(c, lo) == body[lo..hi]
  {
    var t := body[lo..hi];
    var i := 2 + lo;
    forall x: nat ensures CharAt(c, i, t, x) {
      if x < |t| {
        BodyChar(b, body, lo + x);
        assert Kept(b, c, lo, hi, lo + x);
      }
    }
    CStringOf(c, 2 + lo, t);
  }

  function InBody(c: string, lo: nat): string
    requires 2 + lo <= |c|
  {
    CString(c, 2 + lo)
  }

  /** Where the strings of the record are once the line is taken apart. */
  ghost predicate Dissected(c: string, keyed: bool, body: string)
    requires 2 + |body| < |c|
  {
    DissectedAt(c, keyed, body, FirstOf(body, SEP), LastOf(body, SEP))
  }

  ghost predicate DissectedAt(c: string, keyed: bool, body: string, a: nat, z: nat)
    requires 2 + |body| < |c| && a <= |body| && z <= |body|
  {
    SplitAt(body, keyed, a, z) == Fields(
      if keyed then Some(InBody(c, 0)) else None,
      if !keyed then Some(InBody(c, 0)) else if a < |body| then Some(InBody(c, a + 1)) else None,
      if z < |body| then Some(InBody(c, z + 1)) else None)
  }

  lemma CutApart(b: string, keyed: bool, body: string)
    requires Stands(b, body)
    ensures Dissected(Cut(b, keyed, body), keyed, body)
  {
    FirstBeforeLast(body);
    CutDissectedAt(b, keyed, body, FirstOf(body, SEP), LastOf(body, SEP));
  }

  lemma CutDissectedAt(b: string, keyed: bool, body: string, a: nat, z: nat)
    requires Stands(b, body) && a <= z <= |body| && (a == |body| <==> z == |body|)
    ensures DissectedAt(CutAt(b, keyed, |body|, a, z), keyed, body, a, z)
  {
    var c := CutAt(b, keyed, |body|, a, z);
    CutFront(b, keyed, body, a, z);
    CutTail(b, keyed, body, a, z);
    if keyed {
      if a < z < |body| { CutPiece(b, true, body, a, z, a + 1, z); }
      KeyedDissected(c, body, a, z);
    }
  }

  lemma KeyedDissected(c: string, body: string, a: nat, z: nat)
    requires 2 + |body| < |c| && a <= z <= |body| && (a == |body| <==> z == |body|)
    requires InBody(c, 0) == body[..a] && (z < |body| ==> InBody(c, z + 1) == body[z + 1..])
    requires a < z < |body| ==> InBody(c, a + 1) == body[a + 1..z]
    ensures DissectedAt(c, true, body, a, z)
  {
  }

  lemma CutFront(b: string, keyed: bool, body: string, a: nat, z: nat)
    requires Stands(b, body) && a <= z <= |body| && (a == |body| <==> z == |body|)
    ensures InBody(CutAt(b, keyed, |body|, a, z), 0) == if keyed then body[..a] else body[..z]
  {
    var hi := if keyed then a else z;
    CutPiece(b, keyed, body, a, z, 0, hi);
    assert body[0..hi] == body[..hi];
  }

  lemma CutTail(b: string, keyed: bool, body: string, a: nat, z: nat)
    requires Stands(b, body) && a <= z <= |body| && (a == |body| <==> z == |body|)
    ensures z < |body| ==> InBody(CutAt(b, keyed, |body|, a, z), z + 1) == body[z + 1..]
  {
    if z < |body| {
      CutPiece(b, keyed, body, a, z, z + 1, |body|);
      assert body[z + 1..|body|] == body[z + 1..];
    }
  }

  /** Where the cuts are, and that nothing else changes. */
  lemma CutPiece(b: string, keyed: bool, body: string, a: nat, z: nat, lo: nat, hi: nat)
    requires Stands(b, body) && a <= z <= |body| && (a == |body| <==> z == |body|) && lo <= hi <= |body|
    requires (hi == (if keyed then a else z) && lo == 0) || (hi == z && lo == a + 1 && keyed)
             || (lo == z + 1 && hi == |body|)
    ensures InBody(CutAt(b, keyed, |body|, a, z), lo) == body[lo..hi]
  {
    var c := CutAt(b, keyed, |body|, a, z);
    forall x: nat ensures Kept(b, c, lo, hi, x) {
    }
    Piece(b, body, c, lo, hi);
  }

  lemma {:induction false} FirstMore(s: string, i: nat, c: char)
    requires i < |s|
    ensures FirstOf(s[..i + 1], c) == if FirstOf(s[..i], c) < i then FirstOf(s[..i], c) else if s[i] ==
              c then i else i + 1
  {
    var k, m := FirstOf(s[..i], c), FirstOf(s[..i + 1], c);
    assert forall x | 0 <= x < i :: s[..i + 1][x] == s[..i][x];
    assert s[..i + 1][i] == s[i];
  }

  lemma LastMore(s: string, i: nat, c: char)
    requires i < |s|
    ensures var k := LastOf(s[..i], c);
            LastOf(s[..i + 1], c) == if s[i] == c then i else if k < i then k else i + 1
  {
    assert s[..i + 1][..i] == s[..i];
  }

  // ---------------------------------------------------------------- records from the world

  /** Files with their modification times, the unit's and the process's environment. */
  datatype World = World(files: map<string, int>, env: map<string, string>, sysEnv: map<string, string>, cwd: string) {
    function MtimeOr(path: string, other: int): int {
      if path in files then files[path] else other
    }
  }

  function Canonical(path: string, cwd: string): Option<string> {
    match Paths.Found(path, cwd) case None => None case Some(segs) => Some(Render(segs))
  }

  /** The record an addition stands for: canonical paths, and the time of the file it watches. */
  function Stamp(kind: char, flags0: char, resource: string, alias: string, serial: int, world: World): Option<Record> {
    var flags := if flags0 == NUL then ' ' else flags0;
    var res, al := Canonical(resource, world.cwd), Canonical(alias, world.cwd);
    if kind == FILE then
      if res == None then None else Some(Record(FILE, flags, None, res, world.MtimeOr(res.value, serial)))
    else if kind == FILE_OUTDATED || kind == FILE_NOT_EXISTS then
      if res == None then None
      else Some(Record(if kind == FILE_OUTDATED then FILE else kind, flags, None, res, 0))
    else if kind == ALIAS then
      if res == None || al == None then None
      else Some(Record(ALIAS, flags, al, res, world.MtimeOr(al.value, serial)))
    else if Marked(kind) then
      var key := if Keyed(kind) then Some(alias) else None;
      Some(Record(kind, flags, key, Some(Paths.Take(resource, DEPS_BUF_SZ - 1)), serial))
    else Some(Record(kind, flags, None, Some(resource), serial))
  }

  /** A value longer than the buffer is cut, a path never is; what is marked is the value. */
  lemma ValueIsCut(kind: char, flags: char, resource: string, alias: string, serial: int, world: World)
    requires kind == 'v' || kind == 'e' || kind == 's'
    ensures Stamp(kind, flags, resource, alias, serial, world)
            == Some(Record(kind, if flags as int == 0 then ' ' else flags, if kind == 'v' then None else Some(alias),
                           Some(if |resource| < 262144 then resource else resource[..262143]), serial))
  {
  }

  /** Records of other kinds, those that are always outdated among them, are taken as they are. */
  lemma OthersAreKept(kind: char, flags: char, resource: string, alias: string, serial: int, world: World)
    requires kind != 'f' && kind != 'o' && kind != 'n' && kind != 'a' && kind != 'v' && kind != 'e' && kind != 's'
    ensures Stamp(kind, flags, resource, alias, serial, world)
            == Some(Record(kind, if flags as int == 0 then ' ' else flags, None, Some(resource), serial))
  {
  }

  predicate Clear(s: string) {
    Lacks(s, NUL) && Lacks(s, '\n')
  }

  /** What must be true of the arguments for the record to survive the file. */
  predicate Admissible(kind: char, flags: char, resource: string, alias: string, serial: int, world: World) {
    && (kind in {FILE, FILE_OUTDATED, FILE_NOT_EXISTS, ALIAS, NODE_VALUE, ENV, SYS_ENV, OUTDATED}) && flags != '\n'
    && Int64(serial) && (forall p | p in world.files :: Int64(world.files[p])) && Clear(world.cwd)
    && Lacks(world.cwd, SEP) && Lacks(alias, SEP) && Clear(alias) && Lacks(resource, NUL)
    && (if Marked(kind) then |resource| < DEPS_BUF_SZ && Lacks(resource, NL_MARK)
       && Lacks(alias, NL_MARK) else Lacks(resource, '\n'))
  }

  /** Normalizing a path brings no new characters. */
  lemma {:induction false} SegsLack(s: string, c: char)
    requires c !in s
    ensures forall i | 0 <= i < |Segs(s)| :: c !in Segs(s)[i]
    decreases |s|
  {
    if s != "" {
      if s[0] == '/' {
        SegsLack(s[1..], c);
      } else {
        SegsLack(s[FirstSlash(s)..], c);
      }
    }
  }

  lemma {:induction false} ResolveLacks(stack: seq<string>, segs: seq<string>, c: char)
    requires forall i | 0 <= i < |stack| :: c !in stack[i]
    requires forall i | 0 <= i < |segs| :: c !in segs[i]
    ensures forall i | 0 <= i < |Resolve(stack, segs)| :: c !in Resolve(stack, segs)[i]
    decreases |segs|
  {
    if segs != [] {
      ResolveLacks(Step(stack, segs[0]), segs[1..], c);
    }
  }

  lemma {:induction false} CatLacks(segs: seq<string>, c: char)
    requires c != '/' && forall i | 0 <= i < |segs| :: c !in segs[i]
    ensures c !in Cat(segs)
  {
    if segs != [] {
      CatLacks(segs[1..], c);
    }
  }

  lemma CanonicalLacks(path: string, cwd: string, c: char)
    requires c !in path && c !in cwd && c != '/'
    ensures Canonical(path, cwd).Some? ==> c !in Canonical(path, cwd).value
  {
    var b := Paths.Buffered(path, cwd);
    if b.Some? {
      assert c !in b.value;
      SegsLack(b.value, c);
      ResolveLacks([], Segs(b.value), c);
      CatLacks(Resolve([], Segs(b.value)), c);
    }
  }

  lemma StampWritable(kind: char, flags: char, resource: string, alias: string, serial: int, world: World)
    requires Admissible(kind, flags, resource, alias, serial, world)
    ensures var rec := Stamp(kind, flags, resource, alias, serial, world); rec.Some? ==> Writable(rec.value)
  {
    if !Marked(kind) && kind != OUTDATED {
      CanonicalLacks(resource, world.cwd, NUL);
      CanonicalLacks(resource, world.cwd, '\n');
      CanonicalLacks(alias, world.cwd, NUL);
      CanonicalLacks(alias, world.cwd, '\n');
      CanonicalLacks(alias, world.cwd, SEP);
    }
  }

  // ---------------------------------------------------------------- whole files

  function Content(recs: seq<Record>): string {
    if recs == [] then "" else Line(recs[0]) + Content(recs[1..])
  }

  /** Every line shows type and flags. */
  predicate Regular(text: string)
    decreases |text|
  {
    text == "" || (Plain(Shown(Ahead(text, 0))) && Regular(text[|Ahead(text, 0)|..]))
  }

  /** The records found by reading on until the end or a bad number. */
  function ReadFile(text: string, serial: int): seq<Record>
    decreases |text|
  {
    if text == "" || !Plain(Shown(Ahead(text, 0))) || Parse(Shown(Ahead(text, 0)), serial) == None then []
    else
      var rec := Parse(Shown(Ahead(text, 0)), serial).value;
      [rec] + ReadFile(text[|Ahead(text, 0)|..], rec.serial)
  }

  /** The records as the reader shows them: a serial that is not read keeps its last value. */
  function ReadBacks(recs: seq<Record>, serial: int): seq<Record> {
    if recs == [] then []
    else [ReadBack(recs[0], serial)] + ReadBacks(recs[1..], ReadBack(recs[0], serial).serial)
  }

  predicate Storable(rec: Record) {
    Writable(rec) && |Line(rec)| < DEPS_BUF_SZ
  }

  lemma LineAhead(rec: Record, rest: string)
    requires Storable(rec)
    ensures Ahead(Line(rec) + rest, 0) == Line(rec) && Plain(Line(rec)) && Shown(Line(rec)) == Line(rec)
            && (Line(rec) + rest)[|Line(rec)|..] == rest
  {
    OneLine(rec);
    var line := Line(rec);
    var text := line + rest;
    var front := line[..|line| - 1];
    assert text[0..] == text;
    assert text == front + ['\n'] + rest;
    FirstIs(front, '\n', rest);
  }

  /** The dependency file is a faithful codec. */
  lemma {:induction false} FileReadBack(recs: seq<Record>, serial: int)
    requires forall i | 0 <= i < |recs| :: Storable(recs[i])
    ensures Regular(Content(recs)) && ReadFile(Content(recs), serial) == ReadBacks(recs, serial)
  {
    if recs != [] {
      LineAhead(recs[0], Content(recs[1..]));
      LineReadBack(recs[0], serial);
      FileReadBack(recs[1..], ReadBack(recs[0], serial).serial);
    }
  }

  lemma {:induction false} ContentMore(recs: seq<Record>, rec: Record)
    ensures Content(recs + [rec]) == Content(recs) + Line(rec)
  {
    if recs == [] {
      assert [rec][1..] == [];
    } else {
      assert (recs + [rec])[1..] == recs[1..] + [rec];
      ContentMore(recs[1..], rec);
    }
  }

  // ---------------------------------------------------------------- the file

  class Deps {
    var file: string
    var pos: nat
    const buf: array<char>
    var kind: char
    var flags: char
    var serial: int
    var alias: Option<nat>
    var resource: Option<nat>
    var numRegistered: nat

    predicate Valid()
      reads this, buf
    {
      buf.Length == DEPS_BUF_SZ && buf[DEPS_BUF_SZ - 1] == NUL && pos <= |file|
      && (alias.Some? ==> alias.value < DEPS_BUF_SZ) && (resource.Some? ==> resource.value < DEPS_BUF_SZ)
    }

    /** The record under the cursor. */
    function Current(): Record
      requires Valid()
      reads this, buf
    {
      Record(kind, flags, StringAt(buf[..], alias), StringAt(buf[..], resource), serial)
    }

    /** deps_open */
    constructor (content: string)
      ensures Valid() && fresh(buf) && file == content && pos == 0 && numRegistered == 0 && serial == 0
    {
      buf := new char[DEPS_BUF_SZ](_ => NUL);
      file, pos, kind, flags, serial, alias, resource, numRegistered := content, 0, NUL, NUL, 0, None, None, 0;
    }

    method Fgets() returns (ok: bool, ghost line: string)
      requires Valid()
      modifies this`pos, buf
      ensures Valid() && ok == (old(pos) < |file|)
      ensures !ok ==> pos == old(pos) && buf[..] == old(buf[..])
      ensures ok ==> line == Ahead(file, old(pos)) && Holds(buf[..], line) && pos == old(pos) + |line| && |line| > 0
    {
      line := "";
      if pos == |file| {
        return false, line;
      }
      var n := Chunk(file[pos..]);
      line := file[pos..][..n];
      var last := buf[DEPS_BUF_SZ - 1];
      forall i | 0 <= i < n {
        buf[i] := file[pos + i];
      }
      buf[n] := NUL;
      pos := pos + n;
      assert buf[..n] == line;
      ok := true;
    }

    /** utils_chars_replace on the whole buffer */
    method ReplaceChars(c: char, d: char, ghost line: string)
      requires Valid() && c != NUL && d != NUL && Holds(buf[..], line)
      modifies buf
      ensures Valid()
      ensures Plain(line) ==> Holds(buf[..], Replace(line, c, d))
    {
      ghost var b := buf[..];
      var k := 0;
      while buf[k] != NUL
        invariant 0 <= k < DEPS_BUF_SZ && buf[DEPS_BUF_SZ - 1] == NUL
        invariant forall i | 0 <= i < k :: b[i] != NUL && buf[i] == if b[i] == c then d else b[i]
        invariant forall i | k <= i < DEPS_BUF_SZ :: buf[i] == b[i]
        decreases DEPS_BUF_SZ - k
      {
        if buf[k] == c {
          buf[k] := d;
        }
        k := k + 1;
      }
      if Plain(line) {
        ghost var n := |line|;
        assert b[n] == NUL && forall i | 0 <= i < n :: b[i] == line[i] && line[i] in line;
        assert k == n;
        assert buf[..n] == Replace(line, c, d);
      }
    }

    /** The scan for separators: ends the alias at the first one and reports the last one. */
    method Scan(ghost body: string) returns (ls: Option<nat>)
      requires Valid() && Stands(buf[..], body) && (alias == None <==> resource != None)
               && (resource.Some? ==> resource.value == 2)
      modifies buf, this`resource
      ensures Valid() && Scanned(old(buf[..]), body, old(alias.Some?), ls, resource, buf[..])
    {
      ghost var b, keyed := buf[..], alias.Some?;
      ls := None;
      var rp := 2;
      assert body[..0] == "";
      ScanRest(b, body, 0, keyed, ls, resource, buf[..]);
      while buf[rp] != NUL
        invariant Valid() && 2 <= rp <= 2 + |body| && Scanned(b, body[..rp - 2], keyed, ls, resource, buf[..])
        invariant buf[rp] == b[rp]
        decreases DEPS_BUF_SZ - rp
      {
        BodyChar(b, body, rp - 2);
        ls := ScanChar(rp, ls, b, body, keyed);
        rp := rp + 1;
        ScanRest(b, body, rp - 2, keyed, ls, resource, buf[..]);
      }
      BodyEnd(b, body, rp - 2);
      assert body[..rp - 2] == body;
    }

    method ScanChar(rp: nat, ls0: Option<nat>, ghost b: string, ghost body: string, ghost keyed: bool)
                    returns (ls: Option<nat>)
      requires Valid() && Stands(b, body) && 2 <= rp < 2 + |body| && |b| == DEPS_BUF_SZ && buf[rp] == body[rp - 2]
      requires Scanned(b, body[..rp - 2], keyed, ls0, resource, buf[..])
      modifies buf, this`resource
      ensures Valid() && Scanned(b, body[..rp - 1], keyed, ls, resource, buf[..])
    {
      ls := ls0;
      ScanStep(b, body, rp - 2, keyed, ls, resource, buf[..]);
      if buf[rp] == SEP {
        if resource == None {
          buf[rp] := NUL;
          resource := Some(rp + 1);
        }
        ls := Some(rp);
      }
    }

    /** Takes the line in the buffer apart; false when its number cannot be read. */
    method TakeApart(ghost body: string) returns (ok: bool)
      requires Valid() && Stands(buf[..], body)
      modifies buf, this`resource, this`alias, this`serial
      ensures Valid()
      ensures Delivers(buf[..], alias, resource, Split(body, Keyed(kind)))
      ensures var f := Split(body, Keyed(kind)); var numbered := Numbered(kind) && f.number.Some?;
              && ok == (numbered ==> Strtoll(f.number.value).Some?)
              && (ok ==> serial == if numbered then Strtoll(f.number.value).value else old(serial))
    {
      ghost var b := buf[..];
      if Keyed(kind) {
        alias, resource := Some(2), None;
      } else {
        alias, resource := None, Some(2);
      }
      var ls := Scan(body);
      Deliver(b, body, Keyed(kind), alias, ls, resource, buf[..]);
      if ls.Some? {
        Terminate(ls.value);
      }
      ok := TakeNumber(ls, Split(body, Keyed(kind)).number);
    }

    /** The number behind the last separator, for the kinds that have one. */
    method TakeNumber(ls: Option<nat>, ghost number: Option<string>) returns (ok: bool)
      requires Valid() && (ls.Some? <==> number.Some?)
      requires ls.Some? ==> ls.value + 1 < DEPS_BUF_SZ && CString(buf[..], ls.value + 1) == number.value
      modifies this`serial
      ensures var numbered := Numbered(kind) && number.Some?;
              && ok == (numbered ==> Strtoll(number.value).Some?)
              && (ok ==> serial == if numbered then Strtoll(number.value).value else old(serial))
    {
      if ls.Some? && (kind == FILE || kind == NODE_VALUE || kind == ALIAS) {
        ok := ReadSerial(ls.value + 1);
      } else {
        ok := true;
      }
    }

    /** *ls = '\\0' */
    method Terminate(at: nat)
      requires Valid() && at < DEPS_BUF_SZ
      modifies buf
      ensures Valid() && buf[..] == old(buf[..])[at := NUL]
    {
      buf[at] := NUL;
    }

    method ReadSerial(at: nat) returns (ok: bool)
      requires Valid() && at < DEPS_BUF_SZ
      modifies this`serial
      ensures ok == Strtoll(CString(buf[..], at)).Some?
      ensures ok ==> serial == Strtoll(CString(buf[..], at)).value
    {
      var n := Strtoll(CString(buf[..], at));
      if n == None {
        return false;
      }
      serial := n.value;
      ok := true;
    }

    /** deps_cur_next */
    method Next() returns (ok: bool)
      requires Valid()
      modifies this, buf
      ensures Valid() && file == old(file) && numRegistered == old(numRegistered)
      ensures pos == old(pos) + |Ahead(file, old(pos))|
      ensures old(pos) == |file| ==> !ok && serial == old(serial)
      ensures old(pos) < |file| && Plain(Shown(Ahead(file, old(pos)))) ==>
                var rec := Parse(Shown(Ahead(file, old(pos))), old(serial));
                ok == rec.Some? && (ok ==> Current() == rec.value)
    {
      ghost var line;
      ok, line := Fgets();
      if !ok {
        return;
      }
      HoldsShown(buf[..], line);
      ok := TakeLine(Shown(line));
    }

    /** _deps_add; false when the process ends because a path is too long. */
    method Add(kind0: char, flags0: char, resource: string, alias: string, serial0: int, world: World)
               returns (ok: bool)
      requires Valid()
      modifies this`file, this`numRegistered
      ensures Valid() && ok == Stamp(kind0, flags0, resource, alias, serial0, world).Some?
      ensures ok ==> file == old(file) + Line(Stamp(kind0, flags0, resource, alias, serial0, world).value)
      ensures ok ==> numRegistered == old(numRegistered) + 1
      ensures !ok ==> file == old(file) && numRegistered == old(numRegistered)
    {
      var kind, flags, al, res, serial;
      ok, kind, flags, al, res, serial := Prepare(kind0, flags0, resource, alias, serial0, world);
      if !ok {
        return;
      }
      if Keyed(kind) {
        file := file + ([kind, flags] + (al + [SEP] + res) + [SEP] + Print(serial) + "\n");
      } else {
        file := file + ([kind, flags] + res + [SEP] + Print(serial) + "\n");
      }
      numRegistered := numRegistered + 1;
    }

    /** path_normalize, in the unit's directory */
    method Normalize(path: string, cwd: string) returns (r: Option<string>)
      ensures r == Canonical(path, cwd)
    {
      r := Paths.NormalizeCwd(path, cwd);
    }

    /** What _deps_add makes of its arguments before it prints them. */
    method Prepare(kind0: char, flags0: char, resource: string, alias: string, serial0: int, world: World)
      returns (ok: bool, kind: char, flags: char, al: string, res: string, serial: int)
      ensures ok == Stamp(kind0, flags0, resource, alias, serial0, world).Some?
      ensures ok ==>
                var rec := Stamp(kind0, flags0, resource, alias, serial0, world).value;
                kind == rec.kind && flags == rec.flags && serial == rec.serial && res == Stored(rec)
                && (Keyed(kind) ==> al == Text(rec.alias))
    {
      kind, flags, serial, res, al, ok := kind0, flags0, serial0, resource, alias, true;
      if flags == NUL {
        flags := ' ';
      }
      if kind == FILE || kind == ALIAS || kind == FILE_OUTDATED || kind == FILE_NOT_EXISTS {
        var path := Normalize(resource, world.cwd);
        if path == None {
          ok := false;
          return;
        }
        res := path.value;
        if kind == ALIAS {
          path := Normalize(alias, world.cwd);
          if path == None {
            ok := false;
            return;
          }
          al := path.value;
        }
      }
      if kind == FILE {
        serial := world.MtimeOr(res, serial);
      } else if kind == ALIAS {
        serial := world.MtimeOr(al, serial);
      } else if Marked(kind) {
        res := Replace(Paths.Take(res, DEPS_BUF_SZ - 1), '\n', NL_MARK);
      } else if kind == FILE_OUTDATED {
        kind, serial := FILE, 0;
      } else if kind == FILE_NOT_EXISTS {
        serial := 0;
      }
    }

    method TakeLine(ghost line: string) returns (ok: bool)
      requires Valid() && Holds(buf[..], line)
      modifies buf, this`kind, this`flags, this`resource, this`alias, this`serial
      ensures Valid()
      ensures Plain(line) ==> var rec := Parse(line, old(serial)); ok == rec.Some? && (ok ==> Current() == rec.value)
    {
      if Plain(line) { HoldsHead(buf[..], line); }
      kind := buf[0];
      flags := buf[1];
      if Marked(kind) {
        ReplaceChars(NL_MARK, '\n', line);
      }
      ghost var body := CString(buf[..], 2);
      assert buf[2..][DEPS_BUF_SZ - 3] == NUL;
      BodyEnds(buf[..]);
      if Plain(line) {
        LineBody(buf[..], line);
      }
      ok := TakeApart(body);
    }
  }

  lemma HoldsShown(b: string, line: string)
    requires Holds(b, line)
    ensures Holds(b, Shown(line)) && NUL !in Shown(line)
  {
    var n := FirstOf(line, NUL);
    assert b[..n] == b[..|line|][..n];
    if n < |line| { assert b[..|line|][n] == NUL; }
  }

  lemma HoldsHead(b: string, line: string)
    requires Plain(line) && Holds(b, line)
    ensures b[0] == line[0] && b[1] == line[1]
  {
    assert b[..|line|][0] == b[0] && b[..|line|][1] == b[1];
  }

  /** Alias and resource stand where the cursor's fields point. */
  ghost predicate Delivers(now: string, alias: Option<nat>, resource: Option<nat>, f: Fields) {
    && (alias.Some? ==> alias.value <= |now|) && (resource.Some? ==> resource.value <= |now|)
    && StringAt(now, alias) == f.alias && StringAt(now, resource) == f.resource
  }

  lemma Deliver(b: string, body: string, keyed: bool, alias: Option<nat>, ls: Option<nat>, resource: Option<nat>,
                now: string)
    requires Stands(b, body) && Scanned(b, body, keyed, ls, resource, now) && alias == if keyed then Some(2) else None
    ensures ls.Some? <==> Split(body, keyed).number.Some?
    ensures ls == None ==> Delivers(now, alias, resource, Split(body, keyed))
    ensures ls.Some? ==>
              && ls.value + 1 < |b| && Delivers(now[ls.value := NUL], alias, resource, Split(body, keyed))
              && CString(now[ls.value := NUL], ls.value + 1) == Split(body, keyed).number.value
  {
    CutApart(b, keyed, body);
    var c := Cut(b, keyed, body);
    assert c == if ls.Some? then now[ls.value := NUL] else now;
    assert Dissected(c, keyed, body);
  }

  /** What the scan has found in `t`, and what it did to the buffer. */
  ghost predicate Scanned(b: string, t: string, keyed: bool, ls: Option<nat>, resource: Option<nat>, now: string)
  {
    && 2 + |t| < |b| && now == Opened(b, keyed, t)
    && ls == (if LastOf(t, SEP) < |t| then Some(2 + LastOf(t, SEP)) else None)
    && resource == if !keyed then Some(2) else if FirstOf(t, SEP) < |t| then Some(3 + FirstOf(t, SEP)) else None
  }

  lemma ScanRest(b: string, body: string, k: nat, keyed: bool, ls: Option<nat>, resource: Option<nat>, now: string)
    requires Stands(b, body) && k <= |body| && Scanned(b, body[..k], keyed, ls, resource, now)
    ensures |now| == |b| && now[2 + k] == b[2 + k]
  {
  }

  lemma ScanStep(b: string, body: string, k: nat, keyed: bool, ls: Option<nat>, resource: Option<nat>, now: string)
    requires Stands(b, body) && k < |body| && Scanned(b, body[..k], keyed, ls, resource, now)
    ensures body[k] != SEP ==> Scanned(b, body[..k + 1], keyed, ls, resource, now)
    ensures body[k] == SEP && resource != None ==> Scanned(b, body[..k + 1], keyed, Some(2 + k), resource, now)
    ensures body[k] == SEP && resource == None ==>
              Scanned(b, body[..k + 1], keyed, Some(2 + k), Some(3 + k), now[2 + k := NUL])
  {
    FirstMore(body, k, SEP);
    LastMore(body, k, SEP);
  }

  /** The scanned part of the buffer is the body of the line. */
  lemma LineBody(b: string, line: string)
    requires Plain(line) && Holds(b, if Marked(line[0]) then Replace(line, NL_MARK, '\n') else line)
    ensures CString(b, 2) == Body(line)
  {
    var shown := if Marked(line[0]) then Replace(line, NL_MARK, '\n') else line;
    assert NUL !in shown by {
      forall i | 0 <= i < |shown| ensures shown[i] != NUL { assert line[i] in line; }
    }
    HoldsString(b, shown, 2);
  }

  lemma BodyEnds(b: string)
    requires 2 <= |b| && NUL in b[2..]
    ensures 2 + |CString(b, 2)| < |b| && b[2 + |CString(b, 2)|] == NUL
    ensures forall i | 0 <= i < |CString(b, 2)| :: CString(b, 2)[i] == b[2 + i] && b[2 + i] != NUL
    ensures NUL !in CString(b, 2) && b[2..2 + |CString(b, 2)|] == CString(b, 2)
  {
    var k := FirstOf(b[2..], NUL);
    var i :| 0 <= i < |b[2..]| && b[2..][i] == NUL;
    assert k <= i;
  }
}
