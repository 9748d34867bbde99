/**
 * The textual key paths under which uploaded files are listed, such as a.b[3].c, and a parser
 * that shows them to be unambiguous.
 */
module KeyPath {

  /** One step into a JSON container: a key of an object or an index of a list. */
  datatype Seg = Key(name: string) | Index(i: nat)

  type Path = seq<Seg>

  // ---------------------------------------------------------------------------
  // Decimal numbers
  // ---------------------------------------------------------------------------

  function Digit(d: nat): char
    requires d < 10
  {
    ('0' as int + d) as char
  }

  function Decimal(n: nat): string {
    if n < 10 then [Digit(n)] else Decimal(n / 10) + [Digit(n % 10)]
  }

  function ParseDecimal(s: string): int {
    if s == "" then 0 else ParseDecimal(s[..|s| - 1]) * 10 + (s[|s| - 1] as int - '0' as int)
  }

  lemma {:induction false} DecimalRoundTrip(n: nat)
    ensures ParseDecimal(Decimal(n)) == n
    ensures ']' !in Decimal(n)
  {
    if n < 10 {
      assert Decimal(n)[..0] == "";
    } else {
      DecimalRoundTrip(n / 10);
      assert Decimal(n)[..|Decimal(n)| - 1] == Decimal(n / 10);
    }
  }

  /** Numbers are written in the usual digits, the highest first and without leading zeros. */
  lemma DecimalIs(n: nat, d: nat)
    requires d < 10
    ensures Decimal(d) == ["0123456789"[d]]
    ensures n > 0 ==> Decimal(10 * n + d) == Decimal(n) + ["0123456789"[d]]
  {
    assert (10 * n + d) / 10 == n && (10 * n + d) % 10 == d;
  }

  // ---------------------------------------------------------------------------
  // Rendering, as the code builds it up, and parsing
  // ---------------------------------------------------------------------------

  function Extend(keyPath: string, seg: Seg): string {
    match seg
    case Key(k) => if keyPath != "" then keyPath + "." + k else k
    case Index(i) => keyPath + "[" + Decimal(i) + "]"
  }

  function Render(p: Path): string {
    if p == [] then "" else Extend(Render(p[..|p| - 1]), p[|p| - 1])
  }

  /** A key that cannot be mistaken for path syntax. */
  predicate PlainKey(k: string) {
    k != "" && '.' !in k && '[' !in k
  }

  predicate Plain(p: Path) {
    forall i :: 0 <= i < |p| && p[i].Key? ==> PlainKey(p[i].name)
  }

  /** The length of the part of s before the first of the given characters. */
  function Span(s: string, stops: set<char>): (n: nat)
    ensures n <= |s|
  {
    if s == "" || s[0] in stops then 0 else 1 + Span(s[1..], stops)
  }

  /** Reads steps that each start with a dot or a bracket. */
  function ParseMarked(s: string): Path
    decreases |s|
  {
    if s == "" then []
    else if s[0] == '.' then
      var n := Span(s[1..], {'.', '['});
      [Key(s[1..1 + n])] + ParseMarked(s[1 + n..])
    else
      var n := Span(s[1..], {']'});
      var number := ParseDecimal(s[1..1 + n]);
      [Index(if number >= 0 then number else 0)] + ParseMarked(s[if 2 + n <= |s| then 2 + n else |s|..])
  }

  /** Restores the dot that a leading key goes without. */
  function Dotted(keyPath: string): string {
    if keyPath == "" || keyPath[0] == '[' then keyPath else "." + keyPath
  }

  function Parse(keyPath: string): Path {
    ParseMarked(Dotted(keyPath))
  }

  function Mark(seg: Seg): string {
    match seg
    case Key(k) => "." + k
    case Index(i) => "[" + Decimal(i) + "]"
  }

  /** The rendering with a dot before every key. */
  function Marked(p: Path): string {
    if p == [] then "" else Mark(p[0]) + Marked(p[1..])
  }

  lemma Concat(a: string, b: string, c: string)
    ensures (a + b) + c == a + (b + c)
  {
  }

  lemma {:induction false} MarkedAppend(p: Path, seg: Seg)
    ensures Marked(p + [seg]) == Marked(p) + Mark(seg)
  {
    hide Mark;
    if p == [] {
      assert p + [seg] == [seg];
    } else {
      MarkedAppend(p[1..], seg);
      assert (p + [seg])[1..] == p[1..] + [seg];
      Concat(Mark(p[0]), Marked(p[1..]), Mark(seg));
    }
  }

  lemma ExtendDotted(keyPath: string, seg: Seg)
    requires seg.Key? ==> PlainKey(seg.name)
    ensures Extend(keyPath, seg) != ""
    ensures Dotted(Extend(keyPath, seg)) == Dotted(keyPath) + Mark(seg)
  {
    if keyPath == "" {
      if seg.Key? {
        assert seg.name[0] in seg.name;
      }
    } else {
      var m := Mark(seg);
      assert Extend(keyPath, seg) == keyPath + m;
      assert (keyPath + m)[0] == keyPath[0];
      assert "." + (keyPath + m) == ("." + keyPath) + m;
    }
  }

  lemma {:induction false} RenderIsMarked(p: Path)
    requires Plain(p)
    ensures Dotted(Render(p)) == Marked(p)
  {
    if p != [] {
      var rest, seg := p[..|p| - 1], p[|p| - 1];
      RenderIsMarked(rest);
      MarkedAppend(rest, seg);
      ExtendDotted(Render(rest), seg);
      assert p == rest + [seg];
    }
  }

  lemma {:induction false} SpanOf(k: string, rest: string, stops: set<char>)
    requires forall c :: c in k ==> c !in stops
    requires rest == "" || rest[0] in stops
    ensures Span(k + rest, stops) == |k|
  {
    if k == "" {
      assert k + rest == rest;
    } else {
      SpanOf(k[1..], rest, stops);
      assert (k + rest)[1..] == k[1..] + rest;
      assert k[0] in k;
    }
  }

  /** Where the next step begins, or the end. */
  predicate AtStep(s: string) {
    s == "" || s[0] == '.' || s[0] == '['
  }

  lemma ParseKey(k: string, tail: string)
    requires PlainKey(k) && AtStep(tail)
    ensures ParseMarked("." + k + tail) == [Key(k)] + ParseMarked(tail)
  {
    var s := "." + k + tail;
    assert s[1..] == k + tail;
    SpanOf(k, tail, {'.', '['});
    assert s[1..1 + |k|] == k;
    assert s[1 + |k|..] == tail;
  }

  lemma ParseIndex(i: nat, tail: string)
    ensures ParseMarked("[" + Decimal(i) + "]" + tail) == [Index(i)] + ParseMarked(tail)
  {
    var d := Decimal(i);
    var s := "[" + d + "]" + tail;
    DecimalRoundTrip(i);
    assert s[1..] == d + ("]" + tail);
    SpanOf(d, "]" + tail, {']'});
    assert s[1..1 + |d|] == d;
    assert s[2 + |d|..] == tail;
  }

  lemma {:induction false} MarkedRoundTrip(p: Path)
    requires Plain(p)
    ensures ParseMarked(Marked(p)) == p && AtStep(Marked(p))
  {
    if p != [] {
      var tail := Marked(p[1..]);
      MarkedRoundTrip(p[1..]);
      match p[0]
      case Key(k) => ParseKey(k, tail);
      case Index(i) => ParseIndex(i, tail);
    }
  }

  /** The rendering of a path of plain keys can be read back, so no two such paths share one. */
  lemma RoundTrip(p: Path)
    requires Plain(p)
    ensures Parse(Render(p)) == p
  {
    RenderIsMarked(p);
    MarkedRoundTrip(p);
  }

  lemma Injective(p: Path, q: Path)
    requires Plain(p) && Plain(q) && Render(p) == Render(q)
    ensures p == q
  {
    RoundTrip(p);
    RoundTrip(q);
  }

  // ---------------------------------------------------------------------------
  // Keys that can be mistaken for path syntax
  // ---------------------------------------------------------------------------

  /** A path of plain keys other than p has the same rendering. */
  ghost predicate Ambiguous(p: Path) {
    exists q :: Plain(q) && q != p && Render(q) == Render(p)
  }

  /** That is so exactly if what the parser reads is such a path. */
  lemma AmbiguousIff(p: Path)
    ensures Ambiguous(p) <==> var q := Parse(Render(p)); Plain(q) && q != p && Render(q) == Render(p)
  {
    if q :| Plain(q) && q != p && Render(q) == Render(p) {
      RoundTrip(q);
    }
  }

  lemma {:induction false} EmptyKeyVanishes(p: Path)
    ensures Render([Key("")] + p) == Render(p)
  {
    var longer := [Key("")] + p;
    if p == [] {
      assert longer[..0] == [] && Render([Key("")][..0]) == "";
    } else {
      assert longer[..|longer| - 1] == [Key("")] + p[..|p| - 1];
      EmptyKeyVanishes(p[..|p| - 1]);
    }
  }

  lemma RenderTwo(a: Seg, b: Seg)
    ensures Render([a, b]) == Extend(Extend("", a), b)
    ensures Render([a]) == Extend("", a)
  {
    assert [a, b][..1] == [a] && [a][..0] == [];
    assert Render([]) == "";
  }

  /** The kinds of ambiguous keys: one with a dot, */
  lemma DottedKey(a: string, b: string)
    requires PlainKey(a) && PlainKey(b)
    ensures Ambiguous([Key(a + "." + b)]) && Parse(a + "." + b) == [Key(a), Key(b)]
  {
    AnotherReading(a + "." + b, Key(a), Key(b));
  }

  /** one with an index in brackets, */
  lemma BracketedKey(a: string, i: nat)
    requires PlainKey(a)
    ensures Ambiguous([Key(a + "[" + Decimal(i) + "]")]) && Parse(a + "[" + Decimal(i) + "]") == [Key(a), Index(i)]
  {
    AnotherReading(a + "[" + Decimal(i) + "]", Key(a), Index(i));
  }

  /** and an empty one in front of a path. */
  lemma EmptyKey(p: Path)
    requires Plain(p)
    ensures Ambiguous([Key("")] + p) && Parse(Render([Key("")] + p)) == p
  {
    EmptyKeyVanishes(p);
    RoundTrip(p);
    assert |p| != |[Key("")] + p|;
  }

  lemma AnotherReading(k: string, a: Seg, b: Seg)
    requires Plain([a, b]) && Extend(Extend("", a), b) == k
    ensures Ambiguous([Key(k)]) && Parse(k) == [a, b]
  {
    RenderTwo(Key(k), b);
    RenderTwo(a, b);
    RoundTrip([a, b]);
    hide Render, Parse;
    assert |[a, b]| != |[Key(k)]|;
  }
}
