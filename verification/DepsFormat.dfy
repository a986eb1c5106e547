/**
 One line of a dependency file (deps.c, deps.h): the text that is written for a record, and the
 record that is read from a text.
 */
module DepsFormat {
  import opened Options

  const FILE := 'f'
  const FILE_OUTDATED := 'o'
  const NODE_VALUE := 'v'
  const ENV := 'e'
  const SYS_ENV := 's'
  const ALIAS := 'a'
  const OUTDATED := 'x'
  const FILE_NOT_EXISTS := 'n'

  const SEP := 1 as char
  const NL_MARK := 2 as char
  const NUL := 0 as char

  datatype Record = Record(kind: char, flags: char, alias: Option<string>, resource: Option<string>, serial: int)

  /** Kinds whose first field is an alias or a key. */
  predicate Keyed(kind: char) {
    kind == ALIAS || kind == ENV || kind == SYS_ENV
  }

  /** Kinds whose value may hold line breaks. */
  predicate Marked(kind: char) {
    kind == NODE_VALUE || kind == ENV || kind == SYS_ENV
  }

  /** Kinds whose serial is read back. */
  predicate Numbered(kind: char) {
    kind == FILE || kind == NODE_VALUE || kind == ALIAS
  }

  // ---------------------------------------------------------------- characters

  function Replace(s: string, c: char, d: char): (r: string)
    ensures |r| == |s| && forall i | 0 <= i < |s| :: r[i] == if s[i] == c then d else s[i]
  {
    seq(|s|, i requires 0 <= i < |s| => if s[i] == c then d else s[i])
  }

  lemma ReplaceBack(s: string, c: char, d: char)
    requires d !in s
    ensures Replace(Replace(s, c, d), d, c) == s
  {
    forall i | 0 <= i < |s| ensures Replace(Replace(s, c, d), d, c)[i] == s[i] {
      assert s[i] in s;
    }
  }

  lemma ReplaceAdd(s: string, t: string, c: char, d: char)
    ensures Replace(s + t, c, d) == Replace(s, c, d) + Replace(t, c, d)
  {
  }

  /** Where `c` first and last occurs, or the length. */
  function FirstOf(s: string, c: char): (k: nat)
    ensures k <= |s| && (k < |s| ==> s[k] == c) && forall i | 0 <= i < k :: s[i] != c
  {
    if s == "" || s[0] == c then 0 else 1 + FirstOf(s[1..], c)
  }

  function LastOf(s: string, c: char): (k: nat)
    ensures k <= |s| && (k < |s| ==> s[k] == c && forall i | k < i < |s| :: s[i] != c)
    ensures k == |s| ==> c !in s
  {
    if s == "" then 0
    else if s[|s| - 1] == c then |s| - 1
    else var k := LastOf(s[..|s| - 1], c);
      assert k == |s| - 1 ==> forall i | 0 <= i < |s| :: s[i] != c by {
        if k == |s| - 1 {
          forall i | 0 <= i < |s| - 1 ensures s[i] != c { assert s[..|s| - 1][i] in s[..|s| - 1]; }
        }
      }
      if k == |s| - 1 then |s| else k
  }

  lemma FirstIs(x: string, c: char, y: string)
    requires c !in x
    ensures FirstOf(x + [c] + y, c) == |x|
  {
    var s := x + [c] + y;
    var k := FirstOf(s, c);
    assert forall i | 0 <= i < |x| :: s[i] == x[i] && x[i] in x;
    assert s[|x|] == c;
  }

  lemma LastIs(x: string, c: char, y: string)
    requires c !in y
    ensures LastOf(x + [c] + y, c) == |x|
  {
    var s := x + [c] + y;
    assert s[|x|] == c && c in s;
    forall i | |x| < i < |s| ensures s[i] != c {
      assert s[i] == y[i - |x| - 1] && y[i - |x| - 1] in y;
    }
    LastUnique(s, c, |x|);
  }

  lemma LastUnique(s: string, c: char, k: nat)
    requires k < |s| && s[k] == c && forall i | k < i < |s| :: s[i] != c
    ensures LastOf(s, c) == k
  {
    assert c in s;
  }

  // ---------------------------------------------------------------- numbers

  predicate Int64(n: int) {
    -0x8000_0000_0000_0000 <= n < 0x8000_0000_0000_0000
  }

  function Digit(n: nat): char
    requires n < 10
  {
    ('0' as int + n) as char
  }

  predicate IsDigit(c: char) {
    '0' <= c <= '9'
  }

  function PrintNat(n: nat): (s: string)
    ensures s != "" && forall i | 0 <= i < |s| :: IsDigit(s[i])
  {
    if n < 10 then [Digit(n)] else PrintNat(n / 10) + [Digit(n % 10)]
  }

  /** The decimal text of a signed number. */
  function Print(n: int): string {
    if n < 0 then "-" + PrintNat(0 - n) else PrintNat(n)
  }

  function Digits(s: string): (k: nat)
    ensures k <= |s| && (k < |s| ==> !IsDigit(s[k])) && forall i | 0 <= i < k :: IsDigit(s[i])
  {
    if s == "" || !IsDigit(s[0]) then 0 else 1 + Digits(s[1..])
  }

  function Value(s: string): nat
    requires forall i | 0 <= i < |s| :: IsDigit(s[i])
  {
    if s == "" then 0
    else
      var c := s[|s| - 1];
      assert IsDigit(c);
      10 * Value(s[..|s| - 1]) + (c as int - '0' as int)
  }

  predicate Space(c: char) {
    c == ' ' || 9 as char <= c <= 13 as char
  }

  function Spaces(s: string): (k: nat)
    ensures k <= |s|
  {
    if s == "" || !Space(s[0]) then 0 else 1 + Spaces(s[1..])
  }

  /** The digits after the sign, up to the end or a line break. */
  function Magnitude(t: string, negative: bool): Option<int> {
    var k := Digits(t);
    var n: int := if negative then 0 - Value(t[..k]) else Value(t[..k]);
    if k > 0 && (k == |t| || t[k] == '\n') && Int64(n) then Some(n) else None
  }

  /** utils_strtoll in base 10: the number may be followed by a line break; no text reads as 0. */
  function Strtoll(s: string): Option<int> {
    var p := Spaces(s);
    var t := s[p..];
    if s == "" || (s[0] == '\n'
    && Digits(if t != "" && (t[0] == '-' || t[0] == '+') then t[1..] else t) == 0) then Some(0)
    else if t != "" && t[0] == '-' then Magnitude(t[1..], true)
    else if t != "" && t[0] == '+' then Magnitude(t[1..], false)
    else Magnitude(t, false)
  }

  lemma {:induction false} ValueOfPrint(n: nat)
    ensures Value(PrintNat(n)) == n
  {
    if n >= 10 {
      ValueOfPrint(n / 10);
      var s := PrintNat(n);
      assert s[..|s| - 1] == PrintNat(n / 10);
    } else {
      assert PrintNat(n)[..0] == "";
    }
  }

  function Pow10(k: nat): (p: nat)
    ensures p > 0
  {
    if k == 0 then 1 else 10 * Pow10(k - 1)
  }

  /** The text is decimal: digit `k` from the right is that of the number, and there are no more than needed. */
  lemma {:induction false} DecimalDigits(n: nat, k: nat)
    requires k < |PrintNat(n)|
    ensures PrintNat(n)[|PrintNat(n)| - 1 - k] as int == '0' as int + n / Pow10(k) % 10
    ensures n < Pow10(|PrintNat(n)|) && (|PrintNat(n)| > 1 ==> n >= Pow10(|PrintNat(n)| - 1))
    decreases n
  {
    if n >= 10 {
      var s, t, m := PrintNat(n), PrintNat(n / 10), n / 10;
      assert s == t + [Digit(n % 10)] && n == 10 * m + n % 10;
      if k > 0 {
        DecimalDigits(m, k - 1);
        DivideTwice(n, Pow10(k - 1));
      } else {
        DecimalDigits(m, 0);
      }
    }
  }

  lemma DivideTwice(n: nat, p: nat)
    requires p > 0
    ensures n / (10 * p) == n / 10 / p
  {
    var m, q := n / 10, n / 10 / p;
    assert m == q * p + m % p && n == 10 * m + n % 10;
    assert n == q * (10 * p) + (10 * (m % p) + n % 10);
    assert 10 * (m % p) + n % 10 < 10 * p;
    Quotient(n, 10 * p, q, 10 * (m % p) + n % 10);
  }

  lemma Monotone(a: int, b: int, d: nat)
    ensures a <= b ==> a * d <= b * d
  {
  }

  lemma Quotient(n: nat, d: nat, q: nat, r: nat)
    requires d > 0 && n == q * d + r && r < d
    ensures n / d == q
  {
    assert n == (n / d) * d + n % d;
    Monotone(n / d + 1, q, d);
    Monotone(q + 1, n / d, d);
  }

  lemma DigitsIs(s: string, t: string)
    requires (forall i | 0 <= i < |s| :: IsDigit(s[i])) && (t == "" || !IsDigit(t[0]))
    ensures Digits(s + t) == |s|
  {
    var k := Digits(s + t);
    assert forall i | 0 <= i < |s| :: (s + t)[i] == s[i];
    assert t != "" ==> (s + t)[|s|] == t[0];
  }

  lemma MagnitudeOf(m: nat, negative: bool, end: string)
    requires Int64(if negative then 0 - m else m) && (end == "" || end == "\n")
    ensures Magnitude(PrintNat(m) + end, negative) == Some(if negative then 0 - m else m)
  {
    var d := PrintNat(m);
    ValueOfPrint(m);
    DigitsIs(d, end);
    assert (d + end)[..|d|] == d;
  }

  lemma StrtollMinus(t: string)
    ensures Strtoll("-" + t) == Magnitude(t, true)
  {
    var s := "-" + t;
    assert s[0..] == s && s[1..] == t;
  }

  lemma StrtollDigit(s: string)
    requires s != "" && IsDigit(s[0])
    ensures Strtoll(s) == Magnitude(s, false)
  {
    assert s[0..] == s;
  }

  /** A printed number is read back, with or without the line break. */
  lemma NumberReadBack(n: int, end: string)
    requires Int64(n) && (end == "" || end == "\n")
    ensures Strtoll(Print(n) + end) == Some(n)
  {
    var m: nat := if n < 0 then 0 - n else n;
    var t := PrintNat(m) + end;
    assert IsDigit(PrintNat(m)[0]) && t[0] == PrintNat(m)[0];
    MagnitudeOf(m, n < 0, end);
    if n < 0 {
      StrtollMinus(t);
      assert Print(n) + end == "-" + t;
    } else {
      StrtollDigit(t);
    }
  }

  lemma {:induction false} SpacesIs(sp: string, t: string)
    requires (forall i | 0 <= i < |sp| :: Space(sp[i])) && (t == "" || !Space(t[0]))
    ensures Spaces(sp + t) == |sp|
  {
    if sp == "" {
      assert sp + t == t;
    } else {
      assert (sp + t)[1..] == sp[1..] + t;
      SpacesIs(sp[1..], t);
    }
  }

  function Zeros(n: nat): (s: string)
    ensures |s| == n && forall i | 0 <= i < n :: s[i] == '0'
  {
    seq(n, _ => '0')
  }

  lemma {:induction false} LeadingZeros(n: nat, d: string)
    requires forall i | 0 <= i < |d| :: IsDigit(d[i])
    ensures Value(Zeros(n) + d) == Value(d)
    decreases |d|, n
  {
    var s := Zeros(n) + d;
    if d != "" {
      assert s[..|s| - 1] == Zeros(n) + d[..|d| - 1];
      LeadingZeros(n, d[..|d| - 1]);
    } else if n > 0 {
      assert s[..|s| - 1] == Zeros(n - 1) + d;
      LeadingZeros(n - 1, d);
    }
  }

  /** Digits, with zeros in front, and what follows them. */
  lemma MagnitudeIs(zeros: nat, m: nat, end: string, negative: bool)
    requires end == "" || !IsDigit(end[0])
    ensures var n := if negative then 0 - m else m;
            Magnitude(Zeros(zeros) + PrintNat(m) + end, negative)
            == if (end == "" || end[0] == '\n') && Int64(n) then Some(n) else None
  {
    var d := Zeros(zeros) + PrintNat(m);
    ValueOfPrint(m);
    LeadingZeros(zeros, PrintNat(m));
    DigitsIs(d, end);
    assert (d + end)[..|d|] == d;
    assert end != "" ==> (d + end)[|d|] == end[0];
  }

  lemma AfterSpaces(sp: string, t: string)
    requires (forall i | 0 <= i < |sp| :: Space(sp[i])) && t != "" && !Space(t[0])
    ensures (if t[0] == '-' || t[0] == '+' then Digits(t[1..]) else Digits(t)) > 0 ==>
              Strtoll(sp + t) == if t[0] == '-' then Magnitude(t[1..], true)
                                 else if t[0] == '+' then Magnitude(t[1..], false) else Magnitude(t, false)
    ensures (if t[0] == '-' || t[0] == '+' then Digits(t[1..]) else Digits(t)) == 0 ==>
              Strtoll(sp + t) == if sp != "" && sp[0] == '\n' then Some(0) else None
  {
    SpacesIs(sp, t);
    assert (sp + t)[|sp|..] == t;
    assert sp == "" ==> sp + t == t;
    assert sp != "" ==> (sp + t)[0] == sp[0];
  }

  lemma SignedRead(sp: string, sign: string, d: string)
    requires (forall i | 0 <= i < |sp| :: Space(sp[i])) && (sign == "" || sign == "+" || sign == "-")
    requires d != "" && IsDigit(d[0])
    ensures Strtoll(sp + (sign + d)) == Magnitude(d, sign == "-")
  {
    var t := sign + d;
    assert sign != "" ==> t[1..] == d;
    assert sign == "" ==> t == d;
    AfterSpaces(sp, t);
  }

  /**
   What the number reader takes: spaces, a sign, digits with or without zeros in front, up to the end or a line break,
   if the number has 64 bits.
   */
  lemma NumberRead(sp: string, sign: string, zeros: nat, m: nat, end: string)
    requires forall i | 0 <= i < |sp| :: sp[i] == ' ' || 9 as char <= sp[i] <= 13 as char
    requires (sign == "" || sign == "+" || sign == "-") && (end == "" || !('0' <= end[0] <= '9'))
    ensures var n := if sign == "-" then 0 - m else m;
            Strtoll(sp + (sign + (Zeros(zeros) + PrintNat(m) + end)))
            == if (end == "" || end[0] == '\n')
            && -0x8000_0000_0000_0000 <= n < 0x8000_0000_0000_0000 then Some(n) else None
  {
    var d := Zeros(zeros) + PrintNat(m);
    MagnitudeIs(zeros, m, end, sign == "-");
    assert IsDigit(d[0]) by { assert zeros == 0 ==> d[0] == PrintNat(m)[0]; }
    SignedRead(sp, sign, d + end);
  }

  /** Without digits it takes only the empty text, and one that begins with a line break, as 0. */
  lemma NoNumberRead(sp: string, sign: string, rest: string)
    requires forall i | 0 <= i < |sp| :: sp[i] == ' ' || 9 as char <= sp[i] <= 13 as char
    requires (sign == "+" || sign == "-" || sign == "") && (rest == "" || !('0' <= rest[0] <= '9'))
    requires sign == "" && rest != "" ==> !Space(rest[0]) && rest[0] != '+' && rest[0] != '-'
    ensures var s := sp + (sign + rest); Strtoll(s) == if s == "" || s[0] == '\n' then Some(0) else None
  {
    var t := sign + rest;
    if t == "" {
      assert sp + t == sp;
      SpacesIs(sp, "");
      assert sp + "" == sp && sp[|sp|..] == "";
    } else {
      assert sign != "" ==> t[1..] == rest;
      assert sign == "" ==> t == rest;
      AfterSpaces(sp, t);
      assert sp == "" ==> sp + t == t;
      assert sp != "" ==> (sp + t)[0] == sp[0];
    }
  }

  // ---------------------------------------------------------------- lines

  function Text(o: Option<string>): string {
    if o.Some? then o.value else ""
  }

  /** The value as written: line breaks of values are marked. */
  function Stored(rec: Record): string {
    if Marked(rec.kind) then Replace(Text(rec.resource), '\n', NL_MARK) else Text(rec.resource)
  }

  /** The line written for a record. */
  function Line(rec: Record): string {
    [rec.kind, rec.flags]
    + (if Keyed(rec.kind) then Text(rec.alias) + [SEP] + Stored(rec) else Stored(rec))
    + [SEP] + Print(rec.serial) + "\n"
  }

  datatype Fields = Fields(alias: Option<string>, resource: Option<string>, number: Option<string>)

  /** The first separator ends an alias, the last one ends the resource. */
  function Split(body: string, keyed: bool): Fields {
    SplitAt(body, keyed, FirstOf(body, SEP), LastOf(body, SEP))
  }

  function SplitAt(body: string, keyed: bool, a: nat, z: nat): Fields
    requires a <= |body| && z <= |body|
  {
    Fields(
      if keyed then Some(body[..a]) else None,
      if !keyed then Some(body[..z])
      else if a == |body| then None
      else if z <= a then Some(body[a + 1..])
      else Some(body[a + 1..z]),
      if z < |body| then Some(body[z + 1..]) else None)
  }

  function Body(line: string): string
    requires |line| >= 2
  {
    if Marked(line[0]) then Replace(line, NL_MARK, '\n')[2..] else line[2..]
  }

  /** What the reader makes of a line of two or more characters; None when the number is bad. */
  function Parse(line: string, serial: int): Option<Record>
    requires |line| >= 2
  {
    var kind, flags := line[0], line[1];
    var f := Split(Body(line), Keyed(kind));
    if f.number.Some? && Numbered(kind) then
      var n := Strtoll(f.number.value);
      if n.Some? then Some(Record(kind, flags, f.alias, f.resource, n.value)) else None
    else Some(Record(kind, flags, f.alias, f.resource, serial))
  }

  predicate Lacks(s: string, c: char) {
    c !in s
  }

  /** The fields a record of its kind has, with a serial of 64 bits. */
  predicate Typed(rec: Record) {
    rec.resource.Some? && (rec.alias.Some? <==> Keyed(rec.kind)) && Int64(rec.serial)
  }

  /** No key or alias holds a separator, and no text that is unmarked on reading holds a mark. */
  predicate Unmixed(rec: Record) {
    && Lacks(Text(rec.alias), SEP)
    && (Marked(rec.kind) ==> Lacks(Text(rec.resource), NL_MARK) && Lacks(Text(rec.alias), NL_MARK))
  }

  /** What is written stays on one line and ends at no terminator. */
  predicate OneLined(rec: Record) {
    && rec.kind != NUL && rec.kind != '\n' && rec.flags != NUL && rec.flags != '\n'
    && Lacks(Text(rec.alias), '\n') && Lacks(Text(rec.alias), NUL) && Lacks(Text(rec.resource), NUL)
    && (!Marked(rec.kind) ==> Lacks(Text(rec.resource), '\n'))
  }

  /** The records a line can carry. */
  predicate Writable(rec: Record) {
    Typed(rec) && Unmixed(rec) && OneLined(rec)
  }

  /** What is read back: everything, except a serial no reader of that kind asks for. */
  function ReadBack(rec: Record, serial: int): Record {
    if Numbered(rec.kind) then rec else rec.(serial := serial)
  }

  lemma PrintIsPlain(n: int)
    ensures Lacks(Print(n), SEP) && Lacks(Print(n), NL_MARK) && Lacks(Print(n), '\n') && Lacks(Print(n), NUL)
  {
  }

  lemma ReplaceNone(s: string, c: char, d: char)
    requires c !in s
    ensures Replace(s, c, d) == s
  {
  }

  lemma Unmark(x: string, f: string, v: string, t: string)
    requires |x| == 2 && Lacks(f, NL_MARK) && Lacks(v, NL_MARK) && Lacks(t, NL_MARK)
    ensures Replace(x + (f + (Replace(v, '\n', NL_MARK) + t)), NL_MARK, '\n')[2..] == f + (v + t)
  {
    var w := Replace(v, '\n', NL_MARK);
    ReplaceBack(v, '\n', NL_MARK);
    ReplaceNone(f, NL_MARK, '\n');
    ReplaceNone(t, NL_MARK, '\n');
    ReplaceAdd(x, f + (w + t), NL_MARK, '\n');
    ReplaceAdd(f, w + t, NL_MARK, '\n');
    ReplaceAdd(w, t, NL_MARK, '\n');
  }

  function Front(rec: Record): string {
    if Keyed(rec.kind) then Text(rec.alias) + [SEP] else ""
  }

  lemma LineParts(rec: Record)
    ensures Line(rec) == [rec.kind, rec.flags] + (Front(rec) + (Stored(rec) + ([SEP] + (Print(rec.serial) + "\n"))))
  {
  }

  lemma BodyOf(rec: Record)
    requires Typed(rec) && Unmixed(rec)
    ensures Body(Line(rec)) == Front(rec) + (rec.resource.value + ([SEP] + (Print(rec.serial) + "\n")))
  {
    LineParts(rec);
    PrintIsPlain(rec.serial);
    if Marked(rec.kind) {
      assert Lacks([SEP] + (Print(rec.serial) + "\n"), NL_MARK);
      Unmark([rec.kind, rec.flags], Front(rec), rec.resource.value, [SEP] + (Print(rec.serial) + "\n"));
    }
  }

  lemma SplitKeyed(al: string, res: string, number: string)
    requires SEP !in al && SEP !in number
    ensures Split((al + [SEP]) + (res + ([SEP] + number)), true) == Fields(Some(al), Some(res), Some(number))
  {
    var body := (al + [SEP]) + (res + ([SEP] + number));
    FirstIs(al, SEP, res + ([SEP] + number));
    assert body == al + [SEP] + (res + ([SEP] + number));
    var x := al + [SEP] + res;
    LastIs(x, SEP, number);
    assert body == x + [SEP] + number;
    assert body[|al| + 1..|x|] == res && body[..|al|] == al && body[|x| + 1..] == number;
  }

  lemma SplitPlain(res: string, number: string)
    requires SEP !in number
    ensures Split("" + (res + ([SEP] + number)), false) == Fields(None, Some(res), Some(number))
  {
    var body := "" + (res + ([SEP] + number));
    LastIs(res, SEP, number);
    assert body == res + [SEP] + number;
    assert body[..|res|] == res && body[|res| + 1..] == number;
  }

  /** One separator, or none. */
  lemma SplitFew(al: string, res: string)
    requires SEP !in al && SEP !in res
    ensures Split(al, true) == Fields(Some(al), None, None) && Split(al, false) == Fields(None, Some(al), None)
    ensures Split(al + [SEP] + res, true) == Fields(Some(al), Some(res), Some(res))
  {
    var body := al + [SEP] + res;
    FirstIs(al, SEP, res);
    LastIs(al, SEP, res);
    assert body[..|al|] == al && body[|al| + 1..] == res;
    NoneThere(al);
    assert al[..|al|] == al;
  }

  lemma NoneThere(s: string)
    requires SEP !in s
    ensures FirstOf(s, SEP) == |s| && LastOf(s, SEP) == |s|
  {
    forall i | 0 <= i < |s| ensures s[i] != SEP { assert s[i] in s; }
  }

  /** The text as it is read: marks in values are line breaks. */
  function Unmarked(kind: char, s: string): (r: string)
    ensures SEP !in s ==> SEP !in r
  {
    if kind == 'v' || kind == 'e' || kind == 's' then
      var r := Replace(s, NL_MARK, '\n');
      assert forall i | 0 <= i < |r| && r[i] == SEP :: s[i] in s;
      r
    else s
  }

  lemma UnmarkedAdd(kind: char, s: string, t: string)
    ensures Unmarked(kind, s + t) == Unmarked(kind, s) + Unmarked(kind, t)
    ensures Unmarked(kind, [SEP]) == [SEP]
  {
    ReplaceAdd(s, t, NL_MARK, '\n');
  }

  lemma BodyIs(kind: char, flags: char, text: string)
    ensures Body([kind, flags] + text) == Unmarked(kind, text)
  {
    var line := [kind, flags] + text;
    if Marked(kind) { ReplaceAdd([kind, flags], text, NL_MARK, '\n'); } else { assert line[2..] == text; }
  }

  /** What is read of a line, from the fields of its text. */
  lemma ParseIs(kind: char, flags: char, text: string, serial: int)
    ensures Parse([kind, flags] + text, serial) ==
              var f := Split(Unmarked(kind, text), Keyed(kind));
              if !(f.number.Some? && Numbered(kind)) then Some(Record(kind, flags, f.alias, f.resource, serial))
              else match Strtoll(f.number.value)
                case None => None
                case Some(n) => Some(Record(kind, flags, f.alias, f.resource, n))
  {
    BodyIs(kind, flags, text);
  }

  /**
   Any line with separators enough: the first one ends the alias of a keyed record, the last one its resource or that of
   any other record. Only some kinds have their number read, and a bad number ends the reading.
   */
  lemma LineTaken(kind: char, flags: char, al: string, res: string, tail: string, serial: int)
    requires 1 as char !in al && 1 as char !in tail
    ensures var keyed, numbered := kind == 'a' || kind == 'e' || kind == 's', kind == 'f' || kind == 'v' || kind == 'a';
            var a, r, n := Unmarked(kind, al), Unmarked(kind, res), Strtoll(Unmarked(kind, tail));
            Parse([kind, flags] + if keyed then (al + [SEP]) + (res + ([SEP] + tail)) else res + ([SEP] + tail), serial)
            == if numbered && n == None then None
               else Some(Record(kind, flags, if keyed then Some(a) else None, Some(r),
                                if numbered then n.value else serial))
  {
    var a, r, t := Unmarked(kind, al), Unmarked(kind, res), Unmarked(kind, tail);
    UnmarkedAdd(kind, [SEP], tail);
    UnmarkedAdd(kind, res, [SEP] + tail);
    if Keyed(kind) {
      UnmarkedAdd(kind, al, [SEP]);
      UnmarkedAdd(kind, al + [SEP], res + ([SEP] + tail));
      ParseIs(kind, flags, (al + [SEP]) + (res + ([SEP] + tail)), serial);
      SplitKeyed(a, r, t);
    } else {
      ParseIs(kind, flags, res + ([SEP] + tail), serial);
      SplitPlain(r, t);
      assert "" + (r + ([SEP] + t)) == r + ([SEP] + t);
    }
  }

  /** With one separator a keyed record shows the same text as resource and as number; with none there is neither. */
  lemma ShortLineTaken(kind: char, flags: char, al: string, res: string, serial: int)
    requires 1 as char !in al && 1 as char !in res && (kind == 'a' || kind == 'e' || kind == 's')
    ensures Parse([kind, flags] + al, serial) == Some(Record(kind, flags, Some(Unmarked(kind, al)), None, serial))
    ensures var a, r, n := Unmarked(kind, al), Unmarked(kind, res), Strtoll(Unmarked(kind, res));
            Parse([kind, flags] + (al + [SEP] + res), serial)
            == if kind == 'a' && n == None then None
               else Some(Record(kind, flags, Some(a), Some(r), if kind == 'a' then n.value else serial))
  {
    UnmarkedAdd(kind, al, [SEP]);
    UnmarkedAdd(kind, al + [SEP], res);
    ParseIs(kind, flags, al, serial);
    ParseIs(kind, flags, al + [SEP] + res, serial);
    SplitFew(Unmarked(kind, al), Unmarked(kind, res));
  }

  /** Any other record without a separator is all resource. */
  lemma BareLineTaken(kind: char, flags: char, res: string, serial: int)
    requires 1 as char !in res && kind != 'a' && kind != 'e' && kind != 's'
    ensures Parse([kind, flags] + res, serial) == Some(Record(kind, flags, None, Some(Unmarked(kind, res)), serial))
  {
    ParseIs(kind, flags, res, serial);
    SplitFew(Unmarked(kind, res), "");
  }

  /** The line of a record is read back as that record. */
  lemma LineReadBack(rec: Record, serial: int)
    requires Typed(rec) && Unmixed(rec)
    ensures |Line(rec)| >= 2 && Parse(Line(rec), serial) == Some(ReadBack(rec, serial))
  {
    var number := Print(rec.serial) + "\n";
    BodyOf(rec);
    PrintIsPlain(rec.serial);
    NumberReadBack(rec.serial, "\n");
    LineParts(rec);
    assert Line(rec)[0] == rec.kind && Line(rec)[1] == rec.flags;
    assert SEP !in number;
    if Keyed(rec.kind) {
      SplitKeyed(rec.alias.value, rec.resource.value, number);
    } else {
      SplitPlain(rec.resource.value, number);
    }
  }

  /**
   A key with a separator in it, or a value with a mark in it, does not come back: the codec is faithful
   exactly without them.
   */
  lemma FaithfulWhenUnmixed(rec: Record, serial: int)
    requires Typed(rec)
    ensures |Line(rec)| >= 2 && (Parse(Line(rec), serial) == Some(ReadBack(rec, serial)) <==> Unmixed(rec))
  {
    LineParts(rec);
    if Unmixed(rec) {
      LineReadBack(rec, serial);
    } else if Parse(Line(rec), serial) == Some(ReadBack(rec, serial)) {
      assert Line(rec)[0] == rec.kind;
      FieldsShown(Line(rec), serial);
    }
  }

  /** What is read holds no separator in its key and no mark in a marked text. */
  lemma FieldsShown(line: string, serial: int)
    requires |line| >= 2
    ensures Parse(line, serial).Some? ==> Unmixed(Parse(line, serial).value)
  {
    FieldsLack(Body(line), Keyed(line[0]), SEP, NL_MARK);
    if Marked(line[0]) { BodyUnmarked(line); }
  }

  lemma BodyUnmarked(line: string)
    requires |line| >= 2 && Marked(line[0])
    ensures Lacks(Body(line), NL_MARK)
  {
  }

  /** An alias never holds a separator, and no field a character the body does not hold. */
  lemma FieldsLack(body: string, keyed: bool, sep: char, c: char)
    requires sep == SEP
    ensures var f := Split(body, keyed);
            && Lacks(Text(f.alias), sep)
            && (Lacks(body, c) ==> Lacks(Text(f.alias), c) && Lacks(Text(f.resource), c))
  {
  }

  /** A written line is one line: it ends with its only line break and holds no terminator. */
  lemma OneLine(rec: Record)
    requires Writable(rec)
    ensures var line := Line(rec);
            |line| > 2 && line[|line| - 1] == '\n' && Lacks(line[..|line| - 1], '\n') && Lacks(line, NUL)
  {
    var line := Line(rec);
    PrintIsPlain(rec.serial);
    assert Lacks(Stored(rec), '\n') && Lacks(Stored(rec), NUL) by {
      forall i | 0 <= i < |Stored(rec)| ensures Stored(rec)[i] != '\n' && Stored(rec)[i] != NUL {
        assert Text(rec.resource)[i] in rec.resource.value;
      }
    }
    var front := [rec.kind, rec.flags]
      + (if Keyed(rec.kind) then Text(rec.alias) + [SEP] + Stored(rec) else Stored(rec)) + [SEP] + Print(rec.serial);
    assert line == front + "\n";
    assert line[..|line| - 1] == front;
    assert Lacks(front, '\n') && Lacks(front, NUL);
  }
}
