/** Locations in a manifest. A manifest is a tree, so a location is a path of parts: a
    `Name` selects a member of an object and an `Index` an element of an array. The path
    renders as a dotted, subscripted locator such as `.foo[42].'ba r'[1337]`, used in
    validation errors and progress output. */
module ManifestPath {

  /** Rust's `usize` on a 64-bit target. */
  type usize = n: nat | n < 0x1_0000_0000_0000_0000

  datatype Part = Name(name: string) | Index(index: usize)

  datatype Path = Path(parts: seq<Part>)

  /** `ops::Deref for Path`: the parts the path wraps. */
  function Deref(p: Path): seq<Part> {
    p.parts
  }

  /** `Path::new`: wraps the parts unchanged. */
  function New(parts: seq<Part>): (p: Path)
    ensures Deref(p) == parts
  {
    Path(parts)
  }

  function DigitChar(d: nat): (c: char)
    requires d < 10
    ensures '0' <= c <= '9' && c as int - '0' as int == d
  {
    "0123456789"[d]
  }

  /** `{}` of an unsigned integer: its decimal digits, most significant first, no leading zero. */
  function Decimal(n: nat): (s: string)
    ensures |s| >= 1
    ensures forall i :: 0 <= i < |s| ==> '0' <= s[i] <= '9'
    ensures s[0] == '0' ==> n == 0
    decreases n
  {
    if n < 10 then [DigitChar(n)] else Decimal(n / 10) + [DigitChar(n % 10)]
  }

  /** The number a string of decimal digits denotes: the inverse of Decimal. */
  function DecimalValue(s: string): nat
    requires forall i :: 0 <= i < |s| ==> '0' <= s[i] <= '9'
    decreases |s|
  {
    if s == [] then 0
    else DecimalValue(s[..|s| - 1]) * 10 + (s[|s| - 1] as int - '0' as int)
  }

  lemma {:induction false} DecimalRoundTrip(n: nat)
    ensures DecimalValue(Decimal(n)) == n
    decreases n
  {
    if n >= 10 {
      var s := Decimal(n);
      assert s[..|s| - 1] == Decimal(n / 10);
      DecimalRoundTrip(n / 10);
    }
  }

  /** Decimal never gives two numbers the same text. */
  lemma DecimalInjective(m: nat, n: nat)
    requires Decimal(m) == Decimal(n)
    ensures m == n
  {
    DecimalRoundTrip(m);
    DecimalRoundTrip(n);
  }

  /** What one part contributes to the locator. Only the space character causes quoting. */
  function RenderPart(part: Part): string {
    match part
    case Name(name) => if ' ' in name then ".'" + name + "'" else "." + name
    case Index(index) => "[" + Decimal(index) + "]"
  }

  /** The reference reading of a locator: the parts' texts, in order. */
  function Concat(parts: seq<Part>): string
    decreases |parts|
  {
    if parts == [] then "" else RenderPart(parts[0]) + Concat(parts[1..])
  }

  /** The `iter().fold` of `Display::fmt`: each part is written after what was written so far.
      Writing into the `String` of `format!` cannot fail, so the `and_then` chain always continues. */
  function Fold(written: string, parts: seq<Part>): string
    decreases |parts|
  {
    if parts == [] then written else Fold(written + RenderPart(parts[0]), parts[1..])
  }

  /** `Display::fmt for Path`. */
  function Render(p: Path): (r: string)
    ensures p.parts == [] ==> r == "."
    ensures p.parts != [] ==> r == Concat(p.parts)
  {
    if p.parts == [] then "."
    else
      FoldIsConcat("", p.parts);
      Fold("", p.parts)
  }

  /** `From<Path> for String`: `format!("{}", path)`. */
  function ToString(p: Path): (s: string)
    ensures s == Render(p)
    ensures |s| >= 1
  {
    RenderNonEmpty(p);
    Render(p)
  }

  lemma {:induction false} FoldIsConcat(written: string, parts: seq<Part>)
    ensures Fold(written, parts) == written + Concat(parts)
    decreases |parts|
  {
    if parts != [] {
      FoldIsConcat(written + RenderPart(parts[0]), parts[1..]);
    }
  }

  lemma {:induction false} ConcatAppend(xs: seq<Part>, ys: seq<Part>)
    ensures Concat(xs + ys) == Concat(xs) + Concat(ys)
    decreases |xs|
  {
    if xs == [] {
      assert xs + ys == ys;
    } else {
      assert (xs + ys)[0] == xs[0];
      assert (xs + ys)[1..] == xs[1..] + ys;
      ConcatAppend(xs[1..], ys);
    }
  }

  lemma RenderNonEmpty(p: Path)
    ensures |Render(p)| >= 1
  {
    if p.parts != [] {
      RenderStartsWithDotOrBracket(p);
    }
  }

  /** The rendering of a path is its parts' renderings, joined in order. */
  lemma RenderAppend(p: Path, q: Path)
    requires p.parts != [] && q.parts != []
    ensures Render(Path(p.parts + q.parts)) == Render(p) + Render(q)
  {
    ConcatAppend(p.parts, q.parts);
  }

  /** Every part's text starts with `.` (a name) or `[` (an index). */
  lemma RenderStartsWithDotOrBracket(p: Path)
    requires p.parts != []
    ensures |Render(p)| >= 1 && (Render(p)[0] == '.' || Render(p)[0] == '[')
  {
    var r := RenderPart(p.parts[0]);
    assert |r| >= 1 && (r[0] == '.' || r[0] == '[');
    assert Render(p) == r + Concat(p.parts[1..]);
  }

  lemma RenderEmpty()
    ensures Render(Path([])) == "."
  {
  }

  lemma RenderPlainName(name: string)
    requires ' ' !in name
    ensures Render(Path([Name(name)])) == "." + name
  {
    assert Concat([Name(name)]) == RenderPart(Name(name)) + Concat([]);
  }

  /** A name with a space is quoted; other whitespace, such as a tab, is not. */
  lemma RenderQuotedName(name: string)
    requires ' ' in name
    ensures Render(Path([Name(name)])) == ".'" + name + "'"
  {
    assert Concat([Name(name)]) == RenderPart(Name(name)) + Concat([]);
  }

  lemma RenderIndex(index: usize)
    ensures Render(Path([Index(index)])) == "[" + Decimal(index) + "]"
    ensures Render(Path([Index(index)]))[1..|Render(Path([Index(index)]))| - 1] == Decimal(index)
  {
    assert Concat([Index(index)]) == RenderPart(Index(index)) + Concat([]);
  }

  /** The locator does not identify the path: a name with a dot in it reads like two names,
      and the empty name reads like the empty path. */
  lemma RenderNotInjective()
    ensures Render(Path([Name("a.b")])) == Render(Path([Name("a"), Name("b")]))
    ensures Render(Path([Name("")])) == Render(Path([]))
  {
    DotSplitsName("a", "b", "a.b");
    EmptyNameIsRoot();
  }

  /** A plain name holding a dot renders like the two names on either side of the dot. */
  lemma DotSplitsName(a: string, b: string, ab: string)
    requires ' ' !in a && ' ' !in b && ab == a + "." + b
    ensures Render(Path([Name(ab)])) == Render(Path([Name(a), Name(b)]))
  {
    forall i | 0 <= i < |ab|
      ensures ab[i] != ' '
    {
      if i < |a| {
        assert ab[i] == a[i];
      } else if i > |a| {
        assert ab[i] == b[i - |a| - 1];
      }
    }
    RenderPlainName(ab);
    RenderTwo(Name(a), Name(b));
    Assoc(".", a, "." + b);
  }

  /** Proof helper: string concatenation regrouped. */
  lemma Assoc(x: string, y: string, z: string)
    ensures x + y + z == x + (y + z)
  {
  }

  /** The empty name renders like the empty path. */
  lemma EmptyNameIsRoot()
    ensures Render(Path([Name("")])) == Render(Path([]))
  {
    RenderPlainName("");
    assert "." + "" == ".";
  }

  /** Proof helpers: the digits and part texts of the test paths, one small fact at a time. */
  lemma DecimalSamples()
    ensures Decimal(42) == "42"
    ensures Decimal(1337) == "1337"
  {
    assert Decimal(4) == "4";
    assert Decimal(13) == Decimal(1) + "3";
    assert Decimal(133) == Decimal(13) + "3";
  }

  lemma ConcatOne(a: Part)
    ensures Concat([a]) == RenderPart(a)
  {
    assert Concat([a]) == RenderPart(a) + Concat([a][1..]);
  }

  /** Appending one part to a path appends that part's text. */
  lemma {:induction false} ConcatSnoc(parts: seq<Part>, a: Part)
    ensures Concat(parts + [a]) == Concat(parts) + RenderPart(a)
  {
    ConcatAppend(parts, [a]);
    ConcatOne(a);
  }

  /** How paths of one to four parts render, part by part. */
  lemma RenderOne(a: Part)
    ensures Render(Path([a])) == RenderPart(a)
  {
    ConcatOne(a);
  }

  lemma RenderTwo(a: Part, b: Part)
    ensures Render(Path([a, b])) == RenderPart(a) + RenderPart(b)
  {
    ConcatOne(a);
    ConcatSnoc([a], b);
    assert [a] + [b] == [a, b];
  }

  lemma RenderThree(a: Part, b: Part, c: Part)
    ensures Render(Path([a, b, c])) == RenderPart(a) + RenderPart(b) + RenderPart(c)
  {
    RenderTwo(a, b);
    ConcatSnoc([a, b], c);
    assert [a, b] + [c] == [a, b, c];
  }

  lemma RenderFour(a: Part, b: Part, c: Part, d: Part)
    ensures Render(Path([a, b, c, d])) == RenderPart(a) + RenderPart(b) + RenderPart(c) + RenderPart(d)
  {
    RenderThree(a, b, c);
    ConcatSnoc([a, b, c], d);
    assert [a, b, c] + [d] == [a, b, c, d];
  }

  lemma PlainSamples()
    ensures RenderPart(Name("foo")) == ".foo"
    ensures RenderPart(Name("bar")) == ".bar"
  {
    assert "foo"[0] != ' ' && "foo"[1] != ' ' && "foo"[2] != ' ';
    assert "bar"[0] != ' ' && "bar"[1] != ' ' && "bar"[2] != ' ';
  }

  lemma QuotedSamples()
    ensures RenderPart(Name("f oo")) == ".'f oo'"
    ensures RenderPart(Name("ba r")) == ".'ba r'"
  {
    assert "f oo"[1] == ' ' && "ba r"[2] == ' ';
  }

  lemma IndexSamples()
    ensures RenderPart(Index(42)) == "[42]"
    ensures RenderPart(Index(1337)) == "[1337]"
  {
    DecimalSamples();
  }

  lemma CaseFoo()
    ensures Render(Path([Name("foo")])) == ".foo"
  {
    PlainSamples();
    RenderOne(Name("foo"));
  }

  lemma CaseFooBar()
    ensures Render(Path([Name("foo"), Name("bar")])) == ".foo.bar"
  {
    assert ".foo" + ".bar" == ".foo.bar";
    PlainSamples();
    RenderTwo(Name("foo"), Name("bar"));
  }

  lemma CaseFooBarIndex()
    ensures Render(Path([Name("foo"), Name("bar"), Index(1337)])) == ".foo.bar[1337]"
  {
    assert ".foo" + ".bar" + "[1337]" == ".foo.bar[1337]";
    PlainSamples();
    IndexSamples();
    RenderThree(Name("foo"), Name("bar"), Index(1337));
  }

  lemma CaseInterleaved()
    ensures Render(Path([Name("foo"), Index(42), Name("bar"), Index(1337)])) == ".foo[42].bar[1337]"
  {
    assert ".foo" + "[42]" + ".bar" + "[1337]" == ".foo[42].bar[1337]";
    PlainSamples();
    IndexSamples();
    RenderFour(Name("foo"), Index(42), Name("bar"), Index(1337));
  }

  lemma CaseQuoted()
    ensures Render(Path([Name("f oo"), Index(42), Name("ba r"), Index(1337)])) == ".'f oo'[42].'ba r'[1337]"
  {
    QuotedText();
    QuotedSamples();
    IndexSamples();
    RenderFour(Name("f oo"), Index(42), Name("ba r"), Index(1337));
  }

  /** Proof helper: the quoted test locator, assembled from its parts. */
  lemma QuotedText()
    ensures ".'f oo'" + "[42]" + ".'ba r'" + "[1337]" == ".'f oo'[42].'ba r'[1337]"
  {
  }

  lemma CaseIndexIndex()
    ensures Render(Path([Index(42), Index(1337)])) == "[42][1337]"
  {
    assert "[42]" + "[1337]" == "[42][1337]";
    IndexSamples();
    RenderTwo(Index(42), Index(1337));
  }

  lemma CaseIndexName()
    ensures Render(Path([Index(42), Name("bar"), Index(1337)])) == "[42].bar[1337]"
  {
    assert "[42]" + ".bar" + "[1337]" == "[42].bar[1337]";
    PlainSamples();
    IndexSamples();
    RenderThree(Index(42), Name("bar"), Index(1337));
  }

  /** The plain cases of the module's tests. */
  lemma RenderPlainCases()
    ensures Render(Path([Name("foo")])) == ".foo"
    ensures Render(Path([Name("foo"), Name("bar")])) == ".foo.bar"
    ensures Render(Path([Name("foo"), Name("bar"), Index(1337)])) == ".foo.bar[1337]"
    ensures Render(Path([Name("foo"), Index(42), Name("bar"), Index(1337)])) == ".foo[42].bar[1337]"
  {
    CaseFoo();
    CaseFooBar();
    CaseFooBarIndex();
    CaseInterleaved();
  }

  /** The quoted case of the module's tests: both names hold a space. */
  lemma RenderQuotedCase()
    ensures Render(Path([Name("f oo"), Index(42), Name("ba r"), Index(1337)])) == ".'f oo'[42].'ba r'[1337]"
  {
    CaseQuoted();
  }

  /** The cases of the module's tests that start with an index: no leading dot is written. */
  lemma RenderDoubleIndexCases()
    ensures Render(Path([Index(42), Index(1337)])) == "[42][1337]"
    ensures Render(Path([Index(42), Name("bar"), Index(1337)])) == "[42].bar[1337]"
    ensures Render(Path([Name("foo"), Index(42), Name("bar"), Index(1337)])) == ".foo[42].bar[1337]"
  {
    CaseIndexIndex();
    CaseIndexName();
    CaseInterleaved();
  }
}
