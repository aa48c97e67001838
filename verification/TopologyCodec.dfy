/** Canonical base-URL paths and route identifiers of the model topology.
    A path is the byte string of its UTF-8 encoding. */
module TopologyCodec {
  import opened Sequences
  import opened Options
  import opened Bytes

  const SLASH: Byte := 47
  const PERCENT: Byte := 37
  const DOT: Byte := 46

  type Path = seq<Byte>
  type Segment = seq<Byte>

  // ------------------------------------------------------------------
  // Percent encoding
  // ------------------------------------------------------------------

  /** Letters, digits, '-', '.', '_' and '~'. */
  predicate Unreserved(b: Byte) {
    65 <= b <= 90 || 97 <= b <= 122 || 48 <= b <= 57 || b == 45 || b == 46 || b == 95 || b == 126
  }

  predicate IsHex(b: Byte) {
    48 <= b <= 57 || 65 <= b <= 70 || 97 <= b <= 102
  }

  function HexValue(b: Byte): (v: nat)
    requires IsHex(b)
    ensures v < 16
  {
    if b <= 57 then b - 48 else if b <= 70 then b - 55 else b - 87
  }

  function HexDigit(v: nat): (b: Byte)
    requires v < 16
    ensures IsHex(b) && HexValue(b) == v && b != SLASH
  {
    if v < 10 then 48 + v else 55 + v
  }

  /** A '%' not followed by two hex digits is kept as it is. */
  function Unquote(p: Path): Path {
    if p == [] then []
    else if p[0] == PERCENT && |p| >= 3 && IsHex(p[1]) && IsHex(p[2]) then
      var b: Byte := 16 * HexValue(p[1]) + HexValue(p[2]);
      [b] + Unquote(p[3..])
    else [p[0]] + Unquote(p[1..])
  }

  function QuoteByte(b: Byte): Path {
    if Unreserved(b) then [b] else [PERCENT, HexDigit(b / 16), HexDigit(b % 16)]
  }

  function Quote(s: Segment): Path {
    if s == [] then [] else QuoteByte(s[0]) + Quote(s[1..])
  }

  lemma UnquoteByte(b: Byte, rest: Path)
    ensures Unquote(QuoteByte(b) + rest) == [b] + Unquote(rest)
  {
    var p := QuoteByte(b) + rest;
    if Unreserved(b) {
      assert p[1..] == rest;
    } else {
      assert p[0] == PERCENT && p[3..] == rest;
      assert 16 * (b / 16) + b % 16 == b;
    }
  }

  /** Percent encoding is undone by decoding, in any context. */
  lemma {:induction false} UnquoteQuote(s: Segment, rest: Path)
    ensures Unquote(Quote(s) + rest) == s + Unquote(rest)
  {
    if s == [] {
      assert Quote(s) + rest == rest;
    } else {
      var b, tail := s[0], s[1..];
      Assoc(QuoteByte(b), Quote(tail), rest);
      UnquoteByte(b, Quote(tail) + rest);
      UnquoteQuote(tail, rest);
      SplitFirst(s);
      Assoc([b], tail, Unquote(rest));
    }
  }

  // ------------------------------------------------------------------
  // Segments
  // ------------------------------------------------------------------

  function Split(p: Path): (segments: seq<Segment>)
    ensures segments != []
  {
    if p == [] then [[]]
    else
      var rest := Split(p[1..]);
      if p[0] == SLASH then [[]] + rest else [[p[0]] + rest[0]] + rest[1..]
  }

  /** The segments, each preceded by a slash. */
  function Slashed(segments: seq<Segment>): Path {
    if segments == [] then [] else [SLASH] + segments[0] + Slashed(segments[1..])
  }

  lemma {:induction false} SplitSegment(s: Segment, rest: Path)
    requires SLASH !in s
    ensures Split(s + rest) == [s + Split(rest)[0]] + Split(rest)[1..]
  {
    if s == [] {
      assert s + rest == rest;
      assert [] + Split(rest)[0] == Split(rest)[0];
    } else {
      assert (s + rest)[1..] == s[1..] + rest;
      SplitSegment(s[1..], rest);
      assert [s[0]] + (s[1..] + Split(rest)[0]) == s + Split(rest)[0];
    }
  }

  lemma SplitOneSegment(s: Segment, tail: Path, t: seq<Segment>)
    requires SLASH !in s && Split(tail) == [[]] + t
    ensures Split([SLASH] + (s + tail)) == [[], s] + t
  {
    SplitSlash(s + tail);
    SplitSegment(s, tail);
    assert s + [] == s;
    assert ([[]] + t)[1..] == t;
  }

  /** Splitting undoes joining: every segment comes back, after an empty first one. */
  lemma {:induction false} SplitSlashed(segments: seq<Segment>, rest: Path)
    requires forall i | 0 <= i < |segments| :: SLASH !in segments[i]
    requires rest == [] || rest == [SLASH]
    ensures Split(Slashed(segments) + rest) == [[]] + (segments + Split(rest)[1..])
  {
    var more := Split(rest)[1..];
    if segments == [] {
      assert Slashed(segments) + rest == rest;
      SplitRest(rest);
      assert segments + more == more;
    } else {
      SplitSlashed(segments[1..], rest);
      SlashedStep(segments, rest);
      SplitOneSegment(segments[0], Slashed(segments[1..]) + rest, segments[1..] + more);
      ConsRegroup([], segments, more);
    }
  }

  lemma ConsRegroup<T>(x: T, s: seq<T>, more: seq<T>)
    requires s != []
    ensures [x, s[0]] + (s[1..] + more) == [x] + (s + more)
  {
  }

  lemma SplitRest(rest: Path)
    requires rest == [] || rest == [SLASH]
    ensures Split(rest) == if rest == [] then [[]] else [[], []]
  {
    if rest != [] {
      assert rest[1..] == [];
    }
  }

  lemma SplitSlash(p: Path)
    ensures Split([SLASH] + p) == [[]] + Split(p)
  {
    assert ([SLASH] + p)[1..] == p;
  }

  lemma {:induction false} SplitHasNoSlash(p: Path)
    ensures forall i | 0 <= i < |Split(p)| :: SLASH !in Split(p)[i]
  {
    if p == [] {
    } else {
      SplitHasNoSlash(p[1..]);
    }
  }

  // ------------------------------------------------------------------
  // Dot segments
  // ------------------------------------------------------------------

  predicate IsUp(s: Segment) { s == [DOT, DOT] }
  predicate IsNoise(s: Segment) { s == [] || s == [DOT] }
  predicate IsPlain(s: Segment) { !IsUp(s) && !IsNoise(s) }

  function PushSegment(stack: seq<Segment>, s: Segment): seq<Segment> {
    if IsUp(s) then (if stack == [] then [] else stack[..|stack| - 1])
    else if IsNoise(s) then stack
    else stack + [s]
  }

  function Resolve(segments: seq<Segment>): seq<Segment> {
    if segments == [] then []
    else PushSegment(Resolve(segments[..|segments| - 1]), segments[|segments| - 1])
  }

  /** The push/pop loop. */
  method ResolveSegments(raw: seq<Segment>) returns (stack: seq<Segment>)
    ensures stack == Resolve(raw)
    ensures forall i | 0 <= i < |stack| :: IsPlain(stack[i]) && stack[i] in raw
  {
    stack := [];
    for i := 0 to |raw|
      invariant stack == Resolve(raw[..i])
      invariant forall j | 0 <= j < |stack| :: IsPlain(stack[j]) && stack[j] in raw
    {
      assert raw[..i + 1][..i] == raw[..i];
      if raw[i] == [DOT, DOT] {
        if stack != [] {
          stack := stack[..|stack| - 1];
        }
      } else if raw[i] != [] && raw[i] != [DOT] {
        stack := stack + [raw[i]];
      }
    }
    assert raw[..|raw|] == raw;
  }

  lemma {:induction false} ResolvedArePlain(segments: seq<Segment>)
    ensures forall i | 0 <= i < |Resolve(segments)| :: IsPlain(Resolve(segments)[i]) && Resolve(segments)[i] in segments
  {
    if segments == [] {
    } else {
      ResolvedArePlain(segments[..|segments| - 1]);
    }
  }

  lemma ResolveAppend(a: seq<Segment>, s: Segment)
    ensures Resolve(a + [s]) == PushSegment(Resolve(a), s)
  {
    assert (a + [s])[..|a|] == a;
  }

  lemma {:induction false} ResolveSuffix(a: seq<Segment>, a': seq<Segment>, b: seq<Segment>)
    requires Resolve(a) == Resolve(a')
    ensures Resolve(a + b) == Resolve(a' + b)
  {
    if b == [] {
      assert a + b == a && a' + b == a';
    } else {
      var k := |b| - 1;
      ResolveSuffix(a, a', b[..k]);
      SplitLast(a, b);
      SplitLast(a', b);
      ResolveAppend(a + b[..k], b[k]);
      ResolveAppend(a' + b[..k], b[k]);
    }
  }

  /** The rewriting laws of dot segments. Together they fix what resolving means:
      noise vanishes, ".." cancels a plain segment on its left, and a leading ".."
      vanishes, wherever they stand; plain segments are left as they are. */
  lemma DotSegmentLaws(a: seq<Segment>, s: Segment, b: seq<Segment>)
    ensures IsNoise(s) ==> Resolve(a + [s] + b) == Resolve(a + b)
    ensures IsPlain(s) ==> Resolve(a + [s, [DOT, DOT]] + b) == Resolve(a + b)
    ensures Resolve([[DOT, DOT]] + b) == Resolve(b)
  {
    ResolveAppend(a, s);
    if IsNoise(s) {
      ResolveSuffix(a + [s], a, b);
    }
    if IsPlain(s) {
      assert a + [s, [DOT, DOT]] == a + [s] + [[DOT, DOT]];
      ResolveAppend(a + [s], [DOT, DOT]);
      var stack := Resolve(a);
      assert (stack + [s])[..|stack|] == stack;
      ResolveSuffix(a + [s, [DOT, DOT]], a, b);
    }
    ResolveAppend([], [DOT, DOT]);
    assert [] + [[DOT, DOT]] == [[DOT, DOT]];
    ResolveSuffix([[DOT, DOT]], [], b);
    assert [] + b == b;
  }

  lemma {:induction false} PlainIsResolved(segments: seq<Segment>)
    requires forall i | 0 <= i < |segments| :: IsPlain(segments[i])
    ensures Resolve(segments) == segments
  {
    if segments == [] {
    } else {
      var init, last := segments[..|segments| - 1], segments[|segments| - 1];
      assert IsPlain(last);
      PlainIsResolved(init);
      assert Resolve(segments) == PushSegment(init, last) == init + [last];
    }
  }

  // ------------------------------------------------------------------
  // The canonical path
  // ------------------------------------------------------------------

  /** What a path denotes: its resolved segments and whether it ends in a slash. */
  datatype Meaning = Meaning(segments: seq<Segment>, trailing: bool)

  function Decoded(path: Path): Path {
    Unquote(if path == [] then [SLASH] else path)
  }

  function EndsWithSlash(p: Path): bool {
    p != [] && p[|p| - 1] == SLASH
  }

  function MeaningOf(path: Path): Meaning {
    var d := Decoded(path);
    var segments := Resolve(Split(d));
    Meaning(segments, segments != [] && EndsWithSlash(d))
  }

  function QuoteAll(segments: seq<Segment>): seq<Path> {
    if segments == [] then [] else [Quote(segments[0])] + QuoteAll(segments[1..])
  }

  function Render(m: Meaning): Path {
    if m.segments == [] then [SLASH]
    else Slashed(QuoteAll(m.segments)) + if m.trailing then [SLASH] else []
  }

  /** The path part of the canonical base URL. */
  method CanonicalPath(path: Path) returns (out: Path)
    ensures out == Render(MeaningOf(path))
  {
    var decoded := Unquote(if path == [] then [SLASH] else path);
    var segments := ResolveSegments(Split(decoded));
    if segments == [] {
      out := [SLASH];
    } else {
      out := Slashed(QuoteAll(segments));
    }
    if EndsWithSlash(decoded) && out != [SLASH] {
      out := out + [SLASH];
    }
    if segments != [] {
      RenderedIsLong(segments);
      ResolvedArePlain(Split(decoded));
    }
  }

  lemma RenderedIsLong(segments: seq<Segment>)
    requires segments != [] && segments[0] != []
    ensures Slashed(QuoteAll(segments)) != [SLASH]
  {
    assert QuoteAll(segments)[0] == Quote(segments[0]);
    assert |Quote(segments[0])| >= 1;
  }

  /** A meaning a path can have: plain, slash-free segments. */
  ghost predicate Renderable(m: Meaning) {
    && (forall i | 0 <= i < |m.segments| :: IsPlain(m.segments[i]) && SLASH !in m.segments[i])
    && (m.segments == [] ==> !m.trailing)
  }

  lemma MeaningsAreRenderable(path: Path)
    ensures Renderable(MeaningOf(path))
  {
    var raw := Split(Decoded(path));
    ResolvedArePlain(raw);
    SplitHasNoSlash(Decoded(path));
  }

  lemma {:induction false} UnquoteSlashed(segments: seq<Segment>, rest: Path)
    requires rest == [] || rest == [SLASH]
    ensures Unquote(Slashed(QuoteAll(segments)) + rest) == Slashed(segments) + rest
  {
    if segments == [] {
      assert Slashed(QuoteAll(segments)) + rest == rest;
      assert rest != [] ==> rest[1..] == [];
      assert Slashed(segments) + rest == rest;
    } else {
      var q := QuoteAll(segments);
      assert q[0] == Quote(segments[0]) && q[1..] == QuoteAll(segments[1..]);
      var tail := Slashed(q[1..]) + rest;
      SlashedStep(q, rest);
      SlashedStep(segments, rest);
      UnquoteSlash(Quote(segments[0]) + tail);
      UnquoteQuote(segments[0], tail);
      UnquoteSlashed(segments[1..], rest);
    }
  }

  lemma UnquoteSlash(p: Path)
    ensures Unquote([SLASH] + p) == [SLASH] + Unquote(p)
  {
    assert ([SLASH] + p)[1..] == p;
  }

  lemma SlashedStep(segments: seq<Segment>, rest: Path)
    requires segments != []
    ensures Slashed(segments) + rest == [SLASH] + (segments[0] + (Slashed(segments[1..]) + rest))
  {
  }

  lemma {:induction false} SlashedEndsOpen(segments: seq<Segment>)
    requires segments != [] && forall i | 0 <= i < |segments| :: segments[i] != [] && SLASH !in segments[i]
    ensures Slashed(segments) != [] && Slashed(segments)[|Slashed(segments)| - 1] != SLASH
  {
    var p := Slashed(segments);
    if |segments| == 1 {
      assert segments[1..] == [];
      assert p == [SLASH] + segments[0];
      assert p[|p| - 1] == segments[0][|segments[0]| - 1];
    } else {
      SlashedEndsOpen(segments[1..]);
      var tail := Slashed(segments[1..]);
      assert p == ([SLASH] + segments[0]) + tail;
      assert p[|p| - 1] == tail[|tail| - 1];
    }
  }

  lemma RootRoundTrip()
    ensures MeaningOf([SLASH]) == Meaning([], false)
  {
    var empty: Segment := [];
    assert [SLASH][1..] == [];
    assert Unquote([SLASH]) == [SLASH];
    SplitRest([SLASH]);
    ResolveAppend([empty], empty);
    ResolveAppend([], empty);
    assert [empty] + [empty] == [empty, empty] && [] + [empty] == [empty];
  }

  lemma DecodedRendering(m: Meaning)
    requires Renderable(m) && m.segments != []
    ensures var rest: Path := if m.trailing then [SLASH] else [];
            Decoded(Render(m)) == Slashed(m.segments) + rest && EndsWithSlash(Slashed(m.segments) + rest) == m.trailing
  {
    var rest: Path := if m.trailing then [SLASH] else [];
    UnquoteSlashed(m.segments, rest);
    SlashedEndsOpen(m.segments);
  }

  /** Reading a rendered path gives back what was rendered. */
  lemma RenderRoundTrip(m: Meaning)
    requires Renderable(m)
    ensures MeaningOf(Render(m)) == m
  {
    if m.segments == [] {
      RootRoundTrip();
    } else {
      var rest: Path := if m.trailing then [SLASH] else [];
      DecodedRendering(m);
      SplitSlashed(m.segments, rest);
      ReadBack(m.segments, rest);
    }
  }

  lemma ReadBack(segments: seq<Segment>, rest: Path)
    requires forall i | 0 <= i < |segments| :: IsPlain(segments[i])
    requires rest == [] || rest == [SLASH]
    ensures Resolve([[]] + (segments + Split(rest)[1..])) == segments
  {
    var empty: Segment := [];
    PlainIsResolved(segments);
    LeadingEmpty(segments);
    SplitRest(rest);
    if rest == [] {
      assert segments + Split(rest)[1..] == segments;
    } else {
      assert Split(rest)[1..] == [empty];
      ResolveAppend([empty] + segments, empty);
      assert [empty] + (segments + [empty]) == ([empty] + segments) + [empty];
    }
  }

  lemma LeadingEmpty(segments: seq<Segment>)
    ensures Resolve([[]] + segments) == Resolve(segments)
  {
    var empty: Segment := [];
    DotSegmentLaws([], empty, segments);
    assert [] + [empty] == [empty];
    assert [] + segments == segments;
  }

  /** Canonicalisation preserves meaning and is idempotent. */
  lemma CanonicalIsIdempotent(path: Path)
    ensures MeaningOf(Render(MeaningOf(path))) == MeaningOf(path)
    ensures Render(MeaningOf(Render(MeaningOf(path)))) == Render(MeaningOf(path))
  {
    MeaningsAreRenderable(path);
    RenderRoundTrip(MeaningOf(path));
  }

  /** Two paths have the same canonical form exactly when they mean the same. */
  lemma CanonicalDecidesMeaning(p: Path, q: Path)
    ensures Render(MeaningOf(p)) == Render(MeaningOf(q)) <==> MeaningOf(p) == MeaningOf(q)
  {
    CanonicalIsIdempotent(p);
    CanonicalIsIdempotent(q);
  }

  lemma {:induction false} QuoteIsClean(s: Segment)
    ensures forall i | 0 <= i < |Quote(s)| :: Unreserved(Quote(s)[i]) || Quote(s)[i] == PERCENT
    ensures s != [] ==> Quote(s) != []
    ensures SLASH !in Quote(s)
  {
    if s == [] {
    } else {
      QuoteIsClean(s[1..]);
      var q := QuoteByte(s[0]);
      assert forall i | 0 <= i < |q| :: Unreserved(q[i]) || q[i] == PERCENT by {
        assert forall v: nat | v < 16 :: Unreserved(HexDigit(v));
      }
    }
  }

  lemma {:induction false} QuoteKeepsPlain(s: Segment)
    requires IsPlain(s)
    ensures IsPlain(Quote(s))
  {
    UnquoteQuote(s, []);
    assert Quote(s) + [] == Quote(s) && s + [] == s;
    assert Unquote([]) == [];
    assert [DOT, DOT][1..] == [DOT] && [DOT][1..] == [];
    assert Unquote([DOT]) == [DOT];
    assert Unquote([DOT, DOT]) == [DOT, DOT];
  }

  lemma {:induction false} QuoteAllSegments(segments: seq<Segment>)
    ensures |QuoteAll(segments)| == |segments|
    ensures forall i | 0 <= i < |segments| :: QuoteAll(segments)[i] == Quote(segments[i])
  {
    if segments == [] {
    } else {
      QuoteAllSegments(segments[1..]);
    }
  }

  /** The canonical path, as written, has no empty, "." or ".." segment: after its
      leading slash it splits into plain segments, plus one empty segment exactly
      when it ends in a slash. */
  lemma CanonicalHasNoDotSegments(path: Path)
    ensures var m := MeaningOf(path);
            m.segments != [] ==>
              && Split(Render(m)) == [[]] + (QuoteAll(m.segments) + if m.trailing then [[]] else [])
              && forall i | 0 <= i < |QuoteAll(m.segments)| :: IsPlain(QuoteAll(m.segments)[i])
  {
    var m := MeaningOf(path);
    MeaningsAreRenderable(path);
    QuoteAllSegments(m.segments);
    var q := QuoteAll(m.segments);
    forall i | 0 <= i < |q| ensures IsPlain(q[i]) && SLASH !in q[i] {
      QuoteKeepsPlain(m.segments[i]);
      QuoteIsClean(m.segments[i]);
    }
    var rest: Path := if m.trailing then [SLASH] else [];
    SplitSlashed(q, rest);
    assert [SLASH][1..] == [];
    assert Split(rest)[1..] == if m.trailing then [[]] else [];
  }

  lemma {:induction false} SlashedIsClean(segments: seq<Segment>)
    ensures forall b | b in Slashed(QuoteAll(segments)) :: Unreserved(b) || b == PERCENT || b == SLASH
  {
    if segments == [] {
    } else {
      var q := QuoteAll(segments);
      assert q[0] == Quote(segments[0]) && q[1..] == QuoteAll(segments[1..]);
      QuoteIsClean(segments[0]);
      SlashedIsClean(segments[1..]);
    }
  }

  /** The canonical path has only unreserved characters, escapes and slashes, so
      no later parse can find a query, a fragment or a host in it. */
  lemma CanonicalIsClean(path: Path)
    ensures forall b | b in Render(MeaningOf(path)) :: Unreserved(b) || b == PERCENT || b == SLASH
    ensures Render(MeaningOf(path))[0] == SLASH
  {
    SlashedIsClean(MeaningOf(path).segments);
  }

  // ------------------------------------------------------------------
  // What is kept, what is escaped
  // ------------------------------------------------------------------

  /** Unreserved characters are written as they are. */
  lemma {:induction false} UnreservedIsKept(s: Segment)
    requires forall i | 0 <= i < |s| :: Unreserved(s[i])
    ensures Quote(s) == s
  {
    if s == [] {
    } else {
      UnreservedIsKept(s[1..]);
      SplitFirst(s);
    }
  }

  const UPPER_HEX: Path := [48, 49, 50, 51, 52, 53, 54, 55, 56, 57, 65, 66, 67, 68, 69, 70]

  /** Every other byte is written as '%' and two upper-case hex digits. */
  lemma OthersAreEscaped(b: Byte, rest: Segment)
    requires !Unreserved(b)
    ensures Quote([b] + rest) == [PERCENT, UPPER_HEX[b / 16], UPPER_HEX[b % 16]] + Quote(rest)
  {
    assert ([b] + rest)[1..] == rest;
    UpperHex(b / 16);
    UpperHex(b % 16);
  }

  lemma UpperHex(v: nat)
    requires v < 16
    ensures HexDigit(v) == UPPER_HEX[v]
  {
  }

  /** The unreserved characters of section 2.3 of RFC 3986. */
  lemma UnreservedAre(b: Byte)
    ensures Unreserved(b) <==>
            'A' as int <= b <= 'Z' as int || 'a' as int <= b <= 'z' as int || '0' as int <= b <= '9' as int
            || b in {'-' as int, '.' as int, '_' as int, '~' as int}
  {
  }

  /** Reading accepts escapes in either case; a '%' without two hex digits stands for
      itself. */
  lemma EscapesRead(h: Byte, l: Byte, rest: Path)
    ensures IsHex(h) && IsHex(l) ==> Unquote([PERCENT, h, l] + rest) == [16 * HexValue(h) + HexValue(l)] + Unquote(rest)
    ensures !IsHex(h) || !IsHex(l) ==> Unquote([PERCENT, h, l] + rest) == [PERCENT] + Unquote([h, l] + rest)
    ensures Unquote([PERCENT]) == [PERCENT] && h != PERCENT ==> Unquote([PERCENT, h]) == [PERCENT, h]
  {
    var p := [PERCENT, h, l] + rest;
    assert p[3..] == rest && p[1..] == [h, l] + rest;
    assert [PERCENT][1..] == [] && [PERCENT, h][1..] == [h] && [h][1..] == [];
  }

  lemma HexReads(b: Byte)
    ensures IsHex(b) <==>
            || '0' as int <= b <= '9' as int
            || 'A' as int <= b <= 'F' as int
            || 'a' as int <= b <= 'f' as int
    ensures IsHex(b) && b <= '9' as int ==> HexValue(b) == b - '0' as int
    ensures IsHex(b) && '9' as int < b <= 'F' as int ==> HexValue(b) == b - 'A' as int + 10
    ensures IsHex(b) && 'F' as int < b ==> HexValue(b) == b - 'a' as int + 10
  {
  }

  lemma {:induction false} UnquotePlain(a: Path, rest: Path)
    requires PERCENT !in a
    ensures Unquote(a + rest) == a + Unquote(rest)
  {
    if a == [] {
      assert a + rest == rest;
    } else {
      assert (a + rest)[1..] == a[1..] + rest;
      UnquotePlain(a[1..], rest);
      SplitFirst(a);
      Assoc([a[0]], a[1..], Unquote(rest));
    }
  }

  /** An escaped slash separates segments like a plain one. */
  lemma EscapedSlashSeparates(a: Path, b: Path)
    requires PERCENT !in a
    ensures MeaningOf(a + ([PERCENT, 50, 70] + b)) == MeaningOf(a + ([SLASH] + b))
  {
    UnquotePlain(a, [PERCENT, 50, 70] + b);
    UnquotePlain(a, [SLASH] + b);
    EscapesRead(50, 70, b);
    UnquoteSlash(b);
  }

  /** The empty path means the root. */
  lemma EmptyIsRoot()
    ensures MeaningOf([]) == MeaningOf([SLASH]) == Meaning([], false)
  {
    RootRoundTrip();
  }

  // ------------------------------------------------------------------
  // Route identifiers
  // ------------------------------------------------------------------

  datatype RouteId = DefaultRoute | TaskRoute(name: string) | SemanticRoute(name: string)

  /** Unicode White_Space. */
  predicate IsSpace(c: char) {
    var n := c as int;
    || 9 <= n <= 13 || n in {0x20, 0x85, 0xA0, 0x1680, 0x2028, 0x2029, 0x202F, 0x205F, 0x3000}
    || 0x2000 <= n <= 0x200A
  }

  /** The twenty-five code points of the White_Space property. */
  lemma SpacesAre(c: char)
    ensures IsSpace(c) <==>
            c as int in {0x9, 0xA, 0xB, 0xC, 0xD, 0x20, 0x85, 0xA0, 0x1680, 0x2000, 0x2001, 0x2002, 0x2003, 0x2004,
                         0x2005, 0x2006, 0x2007, 0x2008, 0x2009, 0x200A, 0x2028, 0x2029, 0x202F, 0x205F, 0x3000}
  {
  }

  predicate ValidName(name: string) {
    name != "" && forall i | 0 <= i < |name| :: name[i] != ':' && !IsSpace(name[i])
  }

  predicate ValidRoute(r: RouteId) {
    r.DefaultRoute? || ValidName(r.name)
  }

  function EncodeRoute(r: RouteId): string {
    match r
    case DefaultRoute => "default"
    case TaskRoute(name) => "task:" + name
    case SemanticRoute(name) => "semantic:" + name
  }

  /** The position of the first colon, or the length if there is none. */
  function FirstColon(s: string): (k: nat)
    ensures k <= |s| && (k < |s| ==> s[k] == ':')
    ensures forall i | 0 <= i < k :: s[i] != ':'
  {
    if s == "" || s[0] == ':' then 0 else 1 + FirstColon(s[1..])
  }

  function DecodeRoute(value: string): Option<RouteId> {
    if value == "default" then Some(DefaultRoute)
    else
      var k := FirstColon(value);
      if k >= |value| - 1 then None
      else
        var kind, name := value[..k], value[k + 1..];
        if !ValidName(name) then None
        else if kind == "task" then Some(TaskRoute(name))
        else if kind == "semantic" then Some(SemanticRoute(name))
        else None
  }

  lemma ColonAt(tag: string, name: string)
    requires ':' !in tag
    ensures FirstColon(tag + ":" + name) == |tag|
    ensures (tag + ":" + name)[..|tag|] == tag && (tag + ":" + name)[|tag| + 1..] == name
  {
    var v := tag + ":" + name;
    assert v[|tag|] == ':';
    assert forall i | 0 <= i < |tag| :: v[i] == tag[i];
  }

  lemma TaggedDecodes(tag: string, name: string)
    requires ValidName(name) && (tag == "task" || tag == "semantic")
    ensures DecodeRoute(tag + ":" + name) == Some(if tag == "task" then TaskRoute(name) else SemanticRoute(name))
  {
    var v := tag + ":" + name;
    ColonAt(tag, name);
    assert v[|tag|] == ':' && ':' !in "default";
  }

  lemma EncodedDecodes(r: RouteId)
    requires ValidRoute(r)
    ensures DecodeRoute(EncodeRoute(r)) == Some(r)
  {
    match r {
      case DefaultRoute =>
      case TaskRoute(name) =>
        TaggedDecodes("task", name);
        assert "task:" == "task" + ":";
      case SemanticRoute(name) =>
        TaggedDecodes("semantic", name);
        assert "semantic:" == "semantic" + ":";
    }
  }

  lemma DecodedEncodes(value: string)
    requires DecodeRoute(value).Some?
    ensures ValidRoute(DecodeRoute(value).value) && EncodeRoute(DecodeRoute(value).value) == value
  {
    if value != "default" {
      var k := FirstColon(value);
      var name := value[k + 1..];
      assert value == value[..k] + ":" + name;
      if value[..k] == "task" {
        assert "task:" == "task" + ":";
      } else {
        assert "semantic:" == "semantic" + ":";
      }
    }
  }

  /** The wire form is a bijection: it decodes valid routes to themselves, and
      every accepted wire value is the encoding of the route it decodes to. */
  lemma RouteRoundTrip(r: RouteId, value: string)
    ensures ValidRoute(r) ==> DecodeRoute(EncodeRoute(r)) == Some(r)
    ensures DecodeRoute(value) == Some(r) ==> ValidRoute(r) && EncodeRoute(r) == value
  {
    if ValidRoute(r) {
      EncodedDecodes(r);
    }
    if DecodeRoute(value).Some? {
      DecodedEncodes(value);
    }
  }

  /** A tagged value is a route exactly if its name is not empty and holds neither a
      colon nor white space; nothing but "default" does without a tag. */
  lemma RouteAcceptedIff(tag: string, name: string)
    requires tag == "task" || tag == "semantic"
    ensures DecodeRoute(tag + ":" + name).Some? <==>
            name != "" && forall c | c in name :: c != ':' && !IsSpace(c)
  {
    var v := tag + ":" + name;
    ColonAt(tag, name);
    assert v[|tag|] == ':' && ':' !in "default";
    if ValidName(name) {
      TaggedDecodes(tag, name);
      assert forall c | c in name :: c != ':' && !IsSpace(c);
    } else if name != "" {
      var i :| 0 <= i < |name| && (name[i] == ':' || IsSpace(name[i]));
      assert name[i] in name;
    }
  }

  lemma UntaggedIsRefused(value: string)
    requires ':' !in value
    ensures DecodeRoute(value).Some? <==> value == "default"
  {
  }
}
