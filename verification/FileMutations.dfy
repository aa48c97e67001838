/** Mutation sets over project files: validation, canonical order and the
    rejection of two mutations that touch the same file. */
module FileMutations {
  import opened Options
  import opened Json
  import opened Bytes

  datatype NativePath = Text(text: string) | Raw(bytes: seq<Byte>)

  datatype PathToken = PathToken(display: string, native: NativePath)

  /** The key and scheme of a name, a target or a project. */
  datatype Identity = Identity(key: string, scheme: string)

  datatype ContentIdentity = ContentIdentity(digest: string, size: int)

  datatype FileVersion =
    | Absent(name: Identity)
    | Present(name: Identity, target: Identity, size: int, mtimeNs: int, digest: string, metadataDigest: string)

  type AbsentVersion = v: FileVersion | v.Absent? witness Absent(Identity("", ""))
  type PresentVersion = v: FileVersion | v.Present? witness Present(Identity("", ""), Identity("", ""), 0, 0, "", "")

  datatype EncodingSource = BOM | EXPLICIT | UTF8 | DETECTED | FALLBACK

  datatype EncodingDecision = EncodingDecision(charset: string, bom: seq<Byte>, source: EncodingSource,
                                               confidence: Option<real>)

  datatype FileSnapshot = FileSnapshot(
    requested: PathToken,
    target: PathToken,
    project: Identity,
    version: PresentVersion,
    artifact: ContentIdentity,
    metadata: ContentIdentity,
    encoding: Option<EncodingDecision>)

  datatype Mutation =
    | Create(requested: PathToken, target: PathToken, project: Identity, expected: AbsentVersion,
             after: ContentIdentity, metadata: ContentIdentity)
    | Replace(before: FileSnapshot, after: ContentIdentity)
    | Delete(before: FileSnapshot)
  {
    function Requested(): PathToken { if Create? then requested else before.requested }
    function Target(): PathToken { if Create? then target else before.target }
    function Project(): Identity { if Create? then project else before.project }
    function Expected(): FileVersion { if Create? then expected else before.version }
    function Kind(): string { if Create? then "create" else if Replace? then "replace" else "delete" }
  }

  datatype MutationSet = MutationSet(transaction: string, session: string, source: string, mutations: seq<Mutation>)

  // ------------------------------------------------------------------
  // Validation
  // ------------------------------------------------------------------

  predicate IsHex(c: char) {
    '0' <= c <= '9' || 'a' <= c <= 'f'
  }

  predicate IsDigest(s: string) {
    |s| == 64 && forall i | 0 <= i < |s| :: IsHex(s[i])
  }

  predicate IsSize(n: int) {
    0 <= n < 0x8000_0000_0000_0000
  }

  /** A SHA-256 digest in lower-case hex; a size that fits a signed 64-bit integer. */
  lemma DigestsAndSizes(s: string, n: int)
    ensures IsDigest(s) <==> |s| == 256 / 4 && forall c | c in s :: c in "0123456789abcdef"
    ensures IsSize(n) <==> 0 <= n <= 9_223_372_036_854_775_807
  {
    forall c ensures IsHex(c) <==> c in "0123456789abcdef" {
      HexDigits(c);
    }
  }

  lemma HexDigits(c: char)
    ensures IsHex(c) <==> c in "0123456789abcdef"
  {
    var hex := "0123456789abcdef";
    if '0' <= c <= '9' {
      assert hex[c as int - '0' as int] == c;
    } else if 'a' <= c <= 'f' {
      assert hex[c as int - 'a' as int + 10] == c;
    }
  }

  predicate PathOk(p: PathToken) {
    p.display != "" && if p.native.Text? then p.native.text != "" else p.native.bytes != []
  }

  predicate IdentityOk(i: Identity) {
    i.key != "" && i.scheme != ""
  }

  predicate BlobOk(c: ContentIdentity) {
    IsDigest(c.digest) && IsSize(c.size)
  }

  /** What every constructed snapshot satisfies. */
  predicate SnapshotOk(s: FileSnapshot) {
    s.artifact.digest == s.version.digest && s.artifact.size == s.version.size
    && s.metadata.digest == s.version.metadataDigest
  }

  predicate ScopeOk(m: Mutation) {
    && PathOk(m.Requested()) && PathOk(m.Target())
    && IdentityOk(m.Project()) && IdentityOk(m.Expected().name)
    && (m.Expected().Present? ==> IdentityOk(m.Expected().target))
    && match m
       case Create(requested, target, _, _, after, metadata) => requested == target && BlobOk(after) && BlobOk(metadata)
       case Replace(before, after) => BlobOk(before.artifact) && BlobOk(before.metadata) && BlobOk(after)
       case Delete(before) => BlobOk(before.artifact) && BlobOk(before.metadata)
  }

  /** Two mutations of one file: the same name entry, or the same existing target. */
  predicate Clash(a: Mutation, b: Mutation) {
    || a.Expected().name == b.Expected().name
    || (a.Expected().Present? && b.Expected().Present? && a.Expected().target == b.Expected().target)
  }

  predicate NoClash(ms: seq<Mutation>) {
    forall i, j | 0 <= i < j < |ms| :: !Clash(ms[i], ms[j])
  }

  // ------------------------------------------------------------------
  // The canonical order
  // ------------------------------------------------------------------

  predicate TextLess(a: string, b: string) {
    b != "" && (a == "" || a[0] < b[0] || (a[0] == b[0] && TextLess(a[1..], b[1..])))
  }

  predicate KeyLess(a: seq<string>, b: seq<string>) {
    b != [] && (a == [] || TextLess(a[0], b[0]) || (a[0] == b[0] && KeyLess(a[1..], b[1..])))
  }

  function SortKey(m: Mutation): (k: seq<string>)
    ensures |k| == 8
    ensures k[3] == m.Expected().name.scheme && k[4] == m.Expected().name.key
  {
    var v := m.Expected();
    [m.Project().scheme, m.Project().key, m.Requested().display, v.name.scheme, v.name.key,
     if v.Absent? then "" else v.target.scheme, if v.Absent? then "" else v.target.key, m.Kind()]
  }

  predicate Precedes(a: Mutation, b: Mutation) {
    KeyLess(SortKey(a), SortKey(b))
  }

  function Insert(s: seq<Mutation>, m: Mutation): seq<Mutation> {
    if s == [] then [m]
    else if Precedes(m, s[0]) then [m] + s
    else [s[0]] + Insert(s[1..], m)
  }

  /** Stable sort by key. */
  function Sorted(ms: seq<Mutation>): seq<Mutation> {
    if ms == [] then [] else Insert(Sorted(ms[..|ms| - 1]), ms[|ms| - 1])
  }

  predicate Increasing(s: seq<Mutation>) {
    forall i, j | 0 <= i < j < |s| :: Precedes(s[i], s[j])
  }

  predicate Ordered(s: seq<Mutation>) {
    forall i, j | 0 <= i < j < |s| :: !Precedes(s[j], s[i])
  }

  lemma {:induction false} TextLessTotal(a: string, b: string)
    ensures TextLess(a, b) || TextLess(b, a) <==> a != b
    ensures !(TextLess(a, b) && TextLess(b, a))
  {
    if a != "" && b != "" && a[0] == b[0] {
      TextLessTotal(a[1..], b[1..]);
      assert a == [a[0]] + a[1..] && b == [b[0]] + b[1..];
    }
  }

  lemma {:induction false} TextLessTransitive(a: string, b: string, c: string)
    requires TextLess(a, b) && TextLess(b, c)
    ensures TextLess(a, c)
  {
    if a != "" && a[0] == b[0] == c[0] {
      TextLessTransitive(a[1..], b[1..], c[1..]);
    }
  }

  lemma {:induction false} KeyLessTotal(a: seq<string>, b: seq<string>)
    ensures KeyLess(a, b) || KeyLess(b, a) <==> a != b
    ensures !(KeyLess(a, b) && KeyLess(b, a))
  {
    if a != [] && b != [] {
      TextLessTotal(a[0], b[0]);
      KeyLessTotal(a[1..], b[1..]);
      assert a == [a[0]] + a[1..] && b == [b[0]] + b[1..];
    }
  }

  lemma {:induction false} KeyLessTransitive(a: seq<string>, b: seq<string>, c: seq<string>)
    requires KeyLess(a, b) && KeyLess(b, c)
    ensures KeyLess(a, c)
  {
    if a == [] {
    } else {
      if a[0] == b[0] == c[0] {
        TextLessTotal(a[0], a[0]);
        KeyLessTransitive(a[1..], b[1..], c[1..]);
      } else if TextLess(a[0], b[0]) && TextLess(b[0], c[0]) {
        TextLessTransitive(a[0], b[0], c[0]);
      }
    }
  }

  /** `a` and `b` agree before position `i`, where `a` ends or has the smaller character. */
  predicate LessAt(a: string, b: string, i: nat) {
    && i <= |a| && i < |b| && a[..i] == b[..i]
    && (i == |a| || a[i] < b[i])
  }

  /** Texts compare by code point at their first difference, a proper prefix first. */
  lemma {:induction false} TextLessIff(a: string, b: string)
    ensures TextLess(a, b) <==> exists i: nat :: LessAt(a, b, i)
  {
    if a == "" || b == "" || a[0] != b[0] {
      if TextLess(a, b) {
        assert LessAt(a, b, 0);
      }
      if i: nat :| LessAt(a, b, i) {
        assert i > 0 ==> a[..i][0] == b[..i][0];
      }
    } else {
      TextLessIff(a[1..], b[1..]);
      if i: nat :| LessAt(a[1..], b[1..], i) {
        assert a[..i + 1] == [a[0]] + a[1..][..i] && b[..i + 1] == [b[0]] + b[1..][..i];
        assert LessAt(a, b, i + 1);
      }
      if i: nat :| LessAt(a, b, i) {
        assert i > 0;
        assert a[1..][..i - 1] == a[..i][1..] && b[1..][..i - 1] == b[..i][1..];
        assert LessAt(a[1..], b[1..], i - 1);
      }
    }
  }

  lemma KeyLessFrom(a: seq<string>, b: seq<string>, k: nat)
    requires k < |a| && k < |b|
    ensures KeyLess(a[k..], b[k..]) <==> TextLess(a[k], b[k]) || (a[k] == b[k] && KeyLess(a[k + 1..], b[k + 1..]))
  {
    assert a[k..][1..] == a[k + 1..] && b[k..][1..] == b[k + 1..];
  }

  /** Earlier by the first of five things that differs: the project's scheme, its key,
      the displayed path, the name's scheme, the name's key. */
  predicate EarlierFile(a: Mutation, b: Mutation) {
    var p, q, m, n := a.Project(), b.Project(), a.Expected().name, b.Expected().name;
    if p.scheme != q.scheme then TextLess(p.scheme, q.scheme)
    else if p.key != q.key then TextLess(p.key, q.key)
    else if a.Requested().display != b.Requested().display then TextLess(a.Requested().display, b.Requested().display)
    else if m.scheme != n.scheme then TextLess(m.scheme, n.scheme)
    else TextLess(m.key, n.key)
  }

  /** What the canonical order is, on mutations that can be in one set. */
  lemma OrderMeans(a: Mutation, b: Mutation)
    requires !Clash(a, b)
    ensures Precedes(a, b) <==> EarlierFile(a, b)
  {
    var x, y := SortKey(a), SortKey(b);
    assert x[0..] == x && y[0..] == y;
    KeyLessFrom(x, y, 0);
    KeyLessFrom(x, y, 1);
    KeyLessFrom(x, y, 2);
    KeyLessFrom(x, y, 3);
    KeyLessFrom(x, y, 4);
    forall k | 0 <= k < 5 ensures TextLess(x[k], y[k]) ==> x[k] != y[k] {
      TextLessTotal(x[k], y[k]);
    }
  }

  /** Not-after composes: the order on keys is total. */
  lemma NotAfter(a: Mutation, b: Mutation, c: Mutation)
    requires !Precedes(b, a) && !Precedes(c, b)
    ensures !Precedes(c, a)
  {
    var x, y, z := SortKey(a), SortKey(b), SortKey(c);
    KeyLessTotal(x, y);
    KeyLessTotal(y, z);
    KeyLessTotal(x, z);
    if x != y && y != z {
      KeyLessTransitive(x, y, z);
    }
  }

  lemma ConsMultiset(m: Mutation, s: seq<Mutation>)
    ensures multiset([m] + s) == multiset{m} + multiset(s)
  {
  }

  lemma {:induction false} InsertKeeps(s: seq<Mutation>, m: Mutation)
    ensures multiset(Insert(s, m)) == multiset(s) + multiset{m}
  {
    if s == [] || Precedes(m, s[0]) {
      ConsMultiset(m, s);
      assert s == [] ==> [m] + s == [m];
    } else {
      InsertKeeps(s[1..], m);
      ConsMultiset(s[0], Insert(s[1..], m));
      ConsMultiset(s[0], s[1..]);
      assert s == [s[0]] + s[1..];
    }
  }

  lemma FrontOrdered(m: Mutation, s: seq<Mutation>)
    requires Ordered(s) && forall x | x in s :: !Precedes(x, m)
    ensures Ordered([m] + s)
  {
  }

  lemma {:induction false} InsertOrdered(s: seq<Mutation>, m: Mutation)
    requires Ordered(s)
    ensures Ordered(Insert(s, m))
  {
    if s == [] {
    } else {
      KeyLessTotal(SortKey(m), SortKey(s[0]));
      if Precedes(m, s[0]) {
        forall x | x in s ensures !Precedes(x, m) {
          KeyLessTotal(SortKey(s[0]), SortKey(s[0]));
          NotAfter(m, s[0], x);
        }
        FrontOrdered(m, s);
      } else {
        var rest := Insert(s[1..], m);
        InsertOrdered(s[1..], m);
        InsertKeeps(s[1..], m);
        forall x | x in rest ensures !Precedes(x, s[0]) {
          assert x in multiset(rest);
          assert x == m || x in s[1..];
        }
        FrontOrdered(s[0], rest);
      }
    }
  }

  lemma LastMultiset(s: seq<Mutation>)
    requires s != []
    ensures multiset(s) == multiset(s[..|s| - 1]) + multiset{s[|s| - 1]}
  {
    assert s == s[..|s| - 1] + [s[|s| - 1]];
  }

  /** Sorting gives an ordered rearrangement of the same mutations. */
  lemma {:induction false} SortedCorrect(ms: seq<Mutation>)
    ensures multiset(Sorted(ms)) == multiset(ms) && Ordered(Sorted(ms))
  {
    if ms == [] {
    } else {
      var prefix, last := ms[..|ms| - 1], ms[|ms| - 1];
      SortedCorrect(prefix);
      InsertKeeps(Sorted(prefix), last);
      InsertOrdered(Sorted(prefix), last);
      LastMultiset(ms);
    }
  }

  // ------------------------------------------------------------------
  // Order does not matter
  // ------------------------------------------------------------------

  lemma TwiceCounts(s: seq<Mutation>, i: int, j: int)
    requires 0 <= i < j < |s| && s[i] == s[j]
    ensures multiset(s)[s[i]] >= 2
  {
    assert s == s[..j] + s[j..];
    assert s[..j][i] == s[i] && s[j..][0] == s[i];
    assert s[i] in multiset(s[..j]) && s[i] in multiset(s[j..]);
  }

  lemma {:induction false} CountsTwice(s: seq<Mutation>, m: Mutation) returns (i: int, j: int)
    requires multiset(s)[m] >= 2
    ensures 0 <= i < j < |s| && s[i] == m && s[j] == m
  {
    assert s == [s[0]] + s[1..];
    if s[0] == m {
      assert m in multiset(s[1..]);
      i := 0;
      j :| 1 <= j < |s| && s[j] == m;
    } else {
      i, j := CountsTwice(s[1..], m);
      i, j := i + 1, j + 1;
    }
  }

  lemma NoRepeat(s: seq<Mutation>, m: Mutation)
    requires NoClash(s)
    ensures multiset(s)[m] <= 1
  {
    if multiset(s)[m] >= 2 {
      var i, j := CountsTwice(s, m);
    }
  }

  lemma NoClashPermuted(a: seq<Mutation>, b: seq<Mutation>)
    requires multiset(a) == multiset(b) && NoClash(a)
    ensures NoClash(b)
  {
    forall i, j | 0 <= i < j < |b| ensures !Clash(b[i], b[j]) {
      NoRepeat(a, b[i]);
      if b[i] == b[j] {
        TwiceCounts(b, i, j);
      } else {
        assert b[i] in multiset(a) && b[j] in multiset(a);
        var k :| 0 <= k < |a| && a[k] == b[i];
        var l :| 0 <= l < |a| && a[l] == b[j];
        assert !Clash(a[if k < l then k else l], a[if k < l then l else k]);
      }
    }
  }

  /** Distinct names make the sort keys distinct. */
  lemma KeyHasName(a: Mutation, b: Mutation)
    ensures a.Expected().name != b.Expected().name ==> SortKey(a) != SortKey(b)
  {
    var x, y := SortKey(a), SortKey(b);
    assert x == y ==> x[3] == y[3] && x[4] == y[4];
  }

  lemma OrderedIsIncreasing(s: seq<Mutation>)
    requires Ordered(s) && NoClash(s)
    ensures Increasing(s)
  {
    forall i, j | 0 <= i < j < |s| ensures Precedes(s[i], s[j]) {
      assert !Clash(s[i], s[j]) && !Precedes(s[j], s[i]);
      KeyLessTotal(SortKey(s[i]), SortKey(s[j]));
      KeyHasName(s[i], s[j]);
    }
  }

  /** The head of an increasing sequence is before or equal to every member. */
  lemma HeadIsFirst(s: seq<Mutation>, m: Mutation)
    requires Increasing(s) && m in s
    ensures m == s[0] || Precedes(s[0], m)
  {
    var i :| 0 <= i < |s| && s[i] == m;
  }

  lemma TailMultiset(s: seq<Mutation>)
    requires s != []
    ensures multiset(s[1..]) == multiset(s) - multiset{s[0]}
  {
    assert s == [s[0]] + s[1..];
  }

  lemma {:induction false} IncreasingIsUnique(a: seq<Mutation>, b: seq<Mutation>)
    requires multiset(a) == multiset(b) && Increasing(a) && Increasing(b)
    ensures a == b
  {
    assert |a| == |multiset(a)| && |b| == |multiset(b)|;
    if a == [] {
    } else {
      assert a[0] in multiset(b) && b[0] in multiset(a);
      HeadIsFirst(a, b[0]);
      HeadIsFirst(b, a[0]);
      KeyLessTotal(SortKey(a[0]), SortKey(b[0]));
      TailMultiset(a);
      TailMultiset(b);
      IncreasingIsUnique(a[1..], b[1..]);
      assert a == [a[0]] + a[1..] && b == [b[0]] + b[1..];
    }
  }

  // ------------------------------------------------------------------
  // Construction
  // ------------------------------------------------------------------

  predicate Acceptable(raw: MutationSet) {
    && raw.transaction != "" && raw.session != "" && raw.source != "" && raw.mutations != []
    && (forall m | m in raw.mutations :: ScopeOk(m))
    && NoClash(raw.mutations)
  }

  /** What constructing a mutation set means, whatever order it was given in. */
  function Build(raw: MutationSet): Decoded<MutationSet> {
    if Acceptable(raw) then Good(raw.(mutations := Sorted(raw.mutations))) else Bad
  }

  /** A constructed set: acceptable, and strictly increasing by key. */
  predicate IsMutationSet(s: MutationSet) {
    Acceptable(s) && Increasing(s.mutations)
  }

  /** Construction canonicalises, and constructed sets are its fixpoints. */
  lemma BuildIsCanonical(raw: MutationSet)
    ensures Build(raw).Good? ==>
              IsMutationSet(Build(raw).value) && multiset(Build(raw).value.mutations) == multiset(raw.mutations)
    ensures IsMutationSet(raw) <==> Build(raw) == Good(raw)
  {
    var ms := raw.mutations;
    if Acceptable(raw) {
      SortedCorrect(ms);
      NoClashPermuted(ms, Sorted(ms));
      OrderedIsIncreasing(Sorted(ms));
      forall m | m in Sorted(ms) ensures ScopeOk(m) {
        assert m in multiset(ms);
      }
      assert Sorted(ms) != [] by {
        assert ms[0] in multiset(Sorted(ms));
      }
      if Increasing(ms) {
        IncreasingIsUnique(ms, Sorted(ms));
      }
    }
  }

  lemma AcceptablePermuted(raw: MutationSet, ms: seq<Mutation>)
    requires multiset(raw.mutations) == multiset(ms) && Acceptable(raw)
    ensures Acceptable(raw.(mutations := ms))
  {
    NoClashPermuted(raw.mutations, ms);
    forall m | m in ms ensures ScopeOk(m) {
      assert m in multiset(raw.mutations);
    }
    assert raw.mutations[0] in multiset(ms);
  }

  /** Any order of the same mutations gives the same set, or the same refusal. */
  lemma BuildIgnoresOrder(raw: MutationSet, ms: seq<Mutation>)
    requires multiset(raw.mutations) == multiset(ms)
    ensures Build(raw) == Build(raw.(mutations := ms))
  {
    var other := raw.(mutations := ms);
    assert other.(mutations := raw.mutations) == raw;
    if Acceptable(raw) {
      AcceptablePermuted(raw, ms);
      BuildIsCanonical(raw);
      BuildIsCanonical(other);
      IncreasingIsUnique(Build(raw).value.mutations, Build(other).value.mutations);
    } else if Acceptable(other) {
      AcceptablePermuted(other, raw.mutations);
    }
  }

  /** The loop over the sorted mutations, growing the sets of names and targets. */
  method ClashFree(canonical: seq<Mutation>) returns (ok: bool)
    ensures ok <==> NoClash(canonical)
  {
    var names: set<Identity>, targets: set<Identity> := {}, {};
    for n := 0 to |canonical|
      invariant NoClash(canonical[..n])
      invariant forall x :: x in names <==> exists i: nat | i < n :: canonical[i].Expected().name == x
      invariant forall x :: x in targets <==>
                  exists i: nat | i < n :: canonical[i].Expected().Present? && canonical[i].Expected().target == x
    {
      var m := canonical[n];
      var v := m.Expected();
      if v.name in names {
        return false;
      }
      if v.Present? && v.target in targets {
        return false;
      }
      names := names + {v.name};
      if v.Present? {
        targets := targets + {v.target};
      }
      forall i | 0 <= i < n ensures !Clash(canonical[i], m) {}
    }
    assert canonical[..|canonical|] == canonical;
    ok := true;
  }

  /** The constructor's validation and canonicalisation. */
  method Construct(raw: MutationSet) returns (r: Decoded<MutationSet>)
    ensures r == Build(raw)
  {
    if raw.transaction == "" || raw.session == "" || raw.source == "" || raw.mutations == [] {
      return Bad;
    }
    var ms := raw.mutations;
    for i := 0 to |ms|
      invariant forall j | 0 <= j < i :: ScopeOk(ms[j])
    {
      if !ScopeOk(ms[i]) {
        assert ms[i] in raw.mutations;
        return Bad;
      }
    }
    var canonical := Sorted(ms);
    SortedCorrect(ms);
    if NoClash(ms) {
      NoClashPermuted(ms, canonical);
    }
    var ok := ClashFree(canonical);
    if !ok {
      return Bad;
    }
    NoClashPermuted(canonical, ms);
    r := Good(raw.(mutations := canonical));
  }
}
