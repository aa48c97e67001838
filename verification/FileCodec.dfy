/** The strict JSON codec of mutation sets: every field set exact, every value
    checked, and the decoded list re-encoded and compared with the input. */
module FileCodec {
  import opened Options
  import opened Json
  import opened Bytes
  import B = Base64
  import opened FileMutations

  // ------------------------------------------------------------------
  // Leaves
  // ------------------------------------------------------------------

  function NonEmpty(d: Json): Decoded<string> {
    if d.JStr? && d.str != "" then Good(d.str) else Bad
  }

  function DigestFrom(d: Json): Decoded<string> {
    if d.JStr? && IsDigest(d.str) then Good(d.str) else Bad
  }

  function SizeFrom(d: Json): Decoded<int> {
    if d.JInt? && IsSize(d.whole) then Good(d.whole) else Bad
  }

  function BytesFrom(d: Json): Decoded<seq<Byte>> {
    if d.JStr? then B.Decode(d.str) else Bad
  }

  // ------------------------------------------------------------------
  // Paths, identities, blobs and versions
  // ------------------------------------------------------------------

  function NativeTo(n: NativePath): Json {
    match n
    case Text(text) => JObj(map[Kind := JStr("text"), Value := JStr(text)])
    case Raw(bytes) => JObj(map[Kind := JStr("bytes"), Value := JStr(B.Encode(bytes))])
  }

  function NativeFrom(d: Json): Decoded<NativePath> {
    if !HasFields(d, {Kind, Value}) then Bad
    else if d.fields[Kind] == JStr("bytes") then
      var bytes :- BytesFrom(d.fields[Value]);
      if bytes == [] then Bad else Good(Raw(bytes))
    else if d.fields[Kind] == JStr("text") then
      var text :- NonEmpty(d.fields[Value]);
      Good(Text(text))
    else Bad
  }

  function PathTo(p: PathToken): Json {
    JObj(map[Display := JStr(p.display), Native := NativeTo(p.native)])
  }

  function PathFrom(d: Json): Decoded<PathToken> {
    if !HasFields(d, {Display, Native}) then Bad
    else
      var display :- NonEmpty(d.fields[Display]);
      var native :- NativeFrom(d.fields[Native]);
      Good(PathToken(display, native))
  }

  function IdentityTo(i: Identity): Json {
    JObj(map[Key := JStr(i.key), Scheme := JStr(i.scheme)])
  }

  function IdentityFrom(d: Json): Decoded<Identity> {
    if !HasFields(d, {Key, Scheme}) then Bad
    else
      var key :- NonEmpty(d.fields[Key]);
      var scheme :- NonEmpty(d.fields[Scheme]);
      Good(Identity(key, scheme))
  }

  function BlobTo(c: ContentIdentity): Json {
    JObj(map[Digest := JStr(c.digest), Size := JInt(c.size)])
  }

  /** A null blob decodes to nothing, which every caller here refuses. */
  function BlobFrom(d: Json): Decoded<ContentIdentity> {
    if !HasFields(d, {Digest, Size}) then Bad
    else
      var digest :- DigestFrom(d.fields[Digest]);
      var size :- SizeFrom(d.fields[Size]);
      Good(ContentIdentity(digest, size))
  }

  function PresentRow(name: Json, target: Json, size: int, mtimeNs: int, digest: string, metadataDigest: string): Json {
    JObj(map[Kind := JStr("present"), NameId := name, TargetId := target, Size := JInt(size), MtimeNs := JInt(mtimeNs),
             Digest := JStr(digest), MetadataDigest := JStr(metadataDigest)])
  }

  function VersionTo(v: FileVersion): Json {
    match v
    case Absent(name) => JObj(map[Kind := JStr("absent"), NameId := IdentityTo(name)])
    case Present(name, target, size, mtimeNs, digest, metadataDigest) =>
      PresentRow(IdentityTo(name), IdentityTo(target), size, mtimeNs, digest, metadataDigest)
  }

  const PRESENT_FIELDS := {Kind, NameId, TargetId, Size, MtimeNs, Digest, MetadataDigest}

  function PresentFrom(d: Json): Decoded<FileVersion>
    requires HasFields(d, PRESENT_FIELDS)
  {
    var name :- IdentityFrom(d.fields[NameId]);
    var target :- IdentityFrom(d.fields[TargetId]);
    var size :- SizeFrom(d.fields[Size]);
    var digest :- DigestFrom(d.fields[Digest]);
    var metadataDigest :- DigestFrom(d.fields[MetadataDigest]);
    var mtime := d.fields[MtimeNs];
    if !mtime.JInt? || mtime.whole < 0 then Bad
    else Good(Present(name, target, size, mtime.whole, digest, metadataDigest))
  }

  function VersionFrom(d: Json): Decoded<FileVersion> {
    if !d.JObj? || Kind !in d.fields || !d.fields[Kind].JStr? then Bad
    else if d.fields[Kind].str == "absent" then
      if !HasFields(d, {Kind, NameId}) then Bad
      else
        var name :- IdentityFrom(d.fields[NameId]);
        Good(Absent(name))
    else if !HasFields(d, PRESENT_FIELDS) || d.fields[Kind].str != "present" then Bad
    else PresentFrom(d)
  }

  // ------------------------------------------------------------------
  // Encoding decisions and snapshots
  // ------------------------------------------------------------------

  function SourceText(s: EncodingSource): string {
    match s
    case BOM => "bom"
    case EXPLICIT => "explicit"
    case UTF8 => "utf8"
    case DETECTED => "detected"
    case FALLBACK => "fallback"
  }

  function SourceFrom(d: Json): Decoded<EncodingSource> {
    if d == JStr("bom") then Good(BOM)
    else if d == JStr("explicit") then Good(EXPLICIT)
    else if d == JStr("utf8") then Good(UTF8)
    else if d == JStr("detected") then Good(DETECTED)
    else if d == JStr("fallback") then Good(FALLBACK)
    else Bad
  }

  function ConfidenceTo(c: Option<real>): Json {
    if c.None? then JNull else JFloat(c.value)
  }

  /** Integers are accepted and widened; booleans are not. */
  function ConfidenceFrom(d: Json): Decoded<Option<real>> {
    if d.JNull? then Good(None)
    else if (d.JInt? || d.JFloat?) && 0.0 <= Number(d) <= 1.0 then Good(Some(Number(d)))
    else Bad
  }

  function EncodingRow(name: Json, bom: Json, source: Json, confidence: Json): Json {
    JObj(map[Label := name, Bom := bom, Source := source, Confidence := confidence])
  }

  function EncodingTo(e: Option<EncodingDecision>): Json {
    match e
    case None => JNull
    case Some(e) =>
      EncodingRow(JStr(e.charset), JStr(B.Encode(e.bom)), JStr(SourceText(e.source)), ConfidenceTo(e.confidence))
  }

  function EncodingFrom(d: Json): Decoded<Option<EncodingDecision>> {
    if d.JNull? then Good(None)
    else if !HasFields(d, {Label, Bom, Source, Confidence}) then Bad
    else
      var charset :- NonEmpty(d.fields[Label]);
      var bom :- BytesFrom(d.fields[Bom]);
      var source :- SourceFrom(d.fields[Source]);
      var confidence :- ConfidenceFrom(d.fields[Confidence]);
      Good(Some(EncodingDecision(charset, bom, source, confidence)))
  }

  const SNAPSHOT_FIELDS := {RequestedPath, TargetPath, Project, Version, Artifact, Metadata, Encoding}

  function SnapshotRow(requested: Json, target: Json, project: Json, version: Json, artifact: Json, metadata: Json,
                       encoding: Json): Json {
    JObj(map[RequestedPath := requested, TargetPath := target, Project := project, Version := version,
             Artifact := artifact, Metadata := metadata, Encoding := encoding])
  }

  function SnapshotTo(s: FileSnapshot): Json {
    SnapshotRow(PathTo(s.requested), PathTo(s.target), IdentityTo(s.project), VersionTo(s.version),
                BlobTo(s.artifact), BlobTo(s.metadata), EncodingTo(s.encoding))
  }

  function SnapshotFrom(d: Json): Decoded<FileSnapshot> {
    if !HasFields(d, SNAPSHOT_FIELDS) then Bad
    else
      var version :- VersionFrom(d.fields[Version]);
      if version.Absent? then Bad
      else
        var artifact :- BlobFrom(d.fields[Artifact]);
        var metadata :- BlobFrom(d.fields[Metadata]);
        var project :- IdentityFrom(d.fields[Project]);
        var requested :- PathFrom(d.fields[RequestedPath]);
        var target :- PathFrom(d.fields[TargetPath]);
        var encoding :- EncodingFrom(d.fields[Encoding]);
        var s := FileSnapshot(requested, target, project, version, artifact, metadata, encoding);
        if SnapshotOk(s) then Good(s) else Bad
  }

  // ------------------------------------------------------------------
  // Mutations and mutation sets
  // ------------------------------------------------------------------

  const CREATE_FIELDS := {Kind, RequestedPath, TargetPath, Project, ExpectedVersion, After, Metadata}

  function CreateRow(requested: Json, target: Json, project: Json, expected: Json, after: Json, metadata: Json): Json {
    JObj(map[Kind := JStr("create"), RequestedPath := requested, TargetPath := target, Project := project,
             ExpectedVersion := expected, After := after, Metadata := metadata])
  }

  function ReplaceRow(before: Json, after: Json): Json {
    JObj(map[Kind := JStr("replace"), Before := before, After := after])
  }

  function DeleteRow(before: Json): Json {
    JObj(map[Kind := JStr("delete"), Before := before])
  }

  function MutationTo(m: Mutation): Json {
    match m
    case Create(requested, target, project, expected, after, metadata) =>
      CreateRow(PathTo(requested), PathTo(target), IdentityTo(project), VersionTo(expected), BlobTo(after),
                BlobTo(metadata))
    case Replace(before, after) =>
      ReplaceRow(SnapshotTo(before), BlobTo(after))
    case Delete(before) =>
      DeleteRow(SnapshotTo(before))
  }

  function CreateFrom(d: Json): Decoded<Mutation>
    requires HasFields(d, CREATE_FIELDS)
  {
    var expected :- VersionFrom(d.fields[ExpectedVersion]);
    if expected.Present? then Bad
    else
      var after :- BlobFrom(d.fields[After]);
      var metadata :- BlobFrom(d.fields[Metadata]);
      var project :- IdentityFrom(d.fields[Project]);
      var requested :- PathFrom(d.fields[RequestedPath]);
      var target :- PathFrom(d.fields[TargetPath]);
      Good(Create(requested, target, project, expected, after, metadata))
  }

  function MutationFrom(d: Json): Decoded<Mutation> {
    if !d.JObj? || Kind !in d.fields then Bad
    else if d.fields[Kind] == JStr("create") then
      if HasFields(d, CREATE_FIELDS) then CreateFrom(d) else Bad
    else if d.fields[Kind] == JStr("replace") then
      if !HasFields(d, {Kind, Before, After}) then Bad
      else
        var before :- SnapshotFrom(d.fields[Before]);
        var after :- BlobFrom(d.fields[After]);
        Good(Replace(before, after))
    else if d.fields[Kind] == JStr("delete") then
      if !HasFields(d, {Kind, Before}) then Bad
      else
        var before :- SnapshotFrom(d.fields[Before]);
        Good(Delete(before))
    else Bad
  }

  function AllTo(ms: seq<Mutation>): seq<Json> {
    EncodeItems(MutationTo, ms)
  }

  function AllFrom(ds: seq<Json>): Decoded<seq<Mutation>> {
    DecodeItems(MutationFrom, ds)
  }

  const SET_FIELDS := {TransactionId, SessionId, Source, Recovery, Mutations}
  const ROLLBACK := "rollback_incomplete"

  function SetRow(transaction: string, session: string, source: string, mutations: Json): Json {
    JObj(map[TransactionId := JStr(transaction), SessionId := JStr(session), Source := JStr(source),
             Recovery := JStr(ROLLBACK), Mutations := mutations])
  }

  function SetTo(s: MutationSet): Json {
    SetRow(s.transaction, s.session, s.source, JList(AllTo(s.mutations)))
  }

  function SetFrom(d: Json): Decoded<MutationSet> {
    if !HasFields(d, SET_FIELDS) || d.fields[Recovery] != JStr(ROLLBACK) then Bad
    else
      var transaction :- NonEmpty(d.fields[TransactionId]);
      var session :- NonEmpty(d.fields[SessionId]);
      var source :- NonEmpty(d.fields[Source]);
      ItemsFrom(MutationSet(transaction, session, source, []), d.fields[Mutations])
  }

  /** Decode the list, construct the set, and insist that it re-encodes to the list. */
  function ItemsFrom(header: MutationSet, ms: Json): Decoded<MutationSet> {
    if !ms.JList? || ms.items == [] then Bad
    else
      var decoded :- AllFrom(ms.items);
      var built :- Build(header.(mutations := decoded));
      if PyEq(JList(AllTo(built.mutations)), ms) then Good(built) else Bad
  }

  // ------------------------------------------------------------------
  // What the codec can carry
  // ------------------------------------------------------------------

  predicate VersionOk(v: FileVersion) {
    && IdentityOk(v.name)
    && (v.Present? ==>
          && IdentityOk(v.target) && IsSize(v.size) && v.mtimeNs >= 0
          && IsDigest(v.digest) && IsDigest(v.metadataDigest))
  }

  predicate EncodingOk(e: Option<EncodingDecision>) {
    e.Some? ==> e.value.charset != "" && (e.value.confidence.Some? ==> 0.0 <= e.value.confidence.value <= 1.0)
  }

  /** The three things the constructors leave unchecked and the decoder requires. */
  predicate Codable(m: Mutation) {
    m.Create? || (m.before.version.mtimeNs >= 0 && EncodingOk(m.before.encoding))
  }

  predicate WellFormed(m: Mutation) {
    m.Create? || SnapshotOk(m.before)
  }

  // ------------------------------------------------------------------
  // Decoding undoes encoding
  // ------------------------------------------------------------------

  lemma PathRoundTrip(p: PathToken)
    requires PathOk(p)
    ensures PathFrom(PathTo(p)) == Good(p)
  {
    if p.native.Raw? {
      B.DecodeEncode(p.native.bytes);
    }
    assert NativeFrom(NativeTo(p.native)) == Good(p.native);
  }

  lemma VersionRoundTrip(v: FileVersion)
    requires VersionOk(v)
    ensures VersionFrom(VersionTo(v)) == Good(v)
  {
    assert IdentityFrom(IdentityTo(v.name)) == Good(v.name);
    if v.Present? {
      assert IdentityFrom(IdentityTo(v.target)) == Good(v.target);
    }
  }

  lemma SourceRoundTrip(source: EncodingSource)
    ensures SourceFrom(JStr(SourceText(source))) == Good(source)
  {
  }

  lemma EncodingFields(e: EncodingDecision, bom: Json, source: Json, confidence: Json)
    requires e.charset != "" && BytesFrom(bom) == Good(e.bom)
    requires SourceFrom(source) == Good(e.source) && ConfidenceFrom(confidence) == Good(e.confidence)
    ensures EncodingFrom(EncodingRow(JStr(e.charset), bom, source, confidence)) == Good(Some(e))
  {
  }

  lemma BytesRoundTrip(bytes: seq<Byte>)
    ensures BytesFrom(JStr(B.Encode(bytes))) == Good(bytes)
  {
    B.DecodeEncode(bytes);
  }

  lemma ConfidenceRoundTrip(c: Option<real>)
    requires c.Some? ==> 0.0 <= c.value <= 1.0
    ensures ConfidenceFrom(ConfidenceTo(c)) == Good(c)
  {
  }

  lemma EncodingRoundTrip(e: Option<EncodingDecision>)
    requires EncodingOk(e)
    ensures EncodingFrom(EncodingTo(e)) == Good(e)
  {
    if e.Some? {
      BytesRoundTrip(e.value.bom);
      SourceRoundTrip(e.value.source);
      ConfidenceRoundTrip(e.value.confidence);
      EncodingFields(e.value, JStr(B.Encode(e.value.bom)), JStr(SourceText(e.value.source)),
                     ConfidenceTo(e.value.confidence));
    }
  }

  lemma SnapshotDecodes(d: Json, s: FileSnapshot)
    requires SnapshotOk(s) && HasFields(d, SNAPSHOT_FIELDS)
    requires PathFrom(d.fields[RequestedPath]) == Good(s.requested) && PathFrom(d.fields[TargetPath]) == Good(s.target)
    requires IdentityFrom(d.fields[Project]) == Good(s.project) && VersionFrom(d.fields[Version]) == Good(s.version)
    requires BlobFrom(d.fields[Artifact]) == Good(s.artifact) && BlobFrom(d.fields[Metadata]) == Good(s.metadata)
    requires EncodingFrom(d.fields[Encoding]) == Good(s.encoding)
    ensures SnapshotFrom(d) == Good(s)
  {
  }

  lemma SnapshotFields(s: FileSnapshot, requested: Json, target: Json, project: Json, version: Json, artifact: Json,
                       metadata: Json, encoding: Json)
    requires SnapshotOk(s)
    requires PathFrom(requested) == Good(s.requested) && PathFrom(target) == Good(s.target)
    requires IdentityFrom(project) == Good(s.project) && VersionFrom(version) == Good(s.version)
    requires BlobFrom(artifact) == Good(s.artifact) && BlobFrom(metadata) == Good(s.metadata)
    requires EncodingFrom(encoding) == Good(s.encoding)
    ensures SnapshotFrom(SnapshotRow(requested, target, project, version, artifact, metadata, encoding)) == Good(s)
  {
    SnapshotRowHas(requested, target, project, version, artifact, metadata, encoding);
    SnapshotDecodes(SnapshotRow(requested, target, project, version, artifact, metadata, encoding), s);
  }

  lemma SnapshotRowHas(requested: Json, target: Json, project: Json, version: Json, artifact: Json, metadata: Json,
                       encoding: Json)
    ensures var row := SnapshotRow(requested, target, project, version, artifact, metadata, encoding);
            && HasFields(row, SNAPSHOT_FIELDS)
            && row.fields[RequestedPath] == requested && row.fields[TargetPath] == target
            && row.fields[Project] == project && row.fields[Version] == version
            && row.fields[Artifact] == artifact && row.fields[Metadata] == metadata && row.fields[Encoding] == encoding
  {
  }

  lemma BlobRoundTrip(c: ContentIdentity)
    requires BlobOk(c)
    ensures BlobFrom(BlobTo(c)) == Good(c)
  {
  }

  lemma IdentityRoundTrip(i: Identity)
    requires IdentityOk(i)
    ensures IdentityFrom(IdentityTo(i)) == Good(i)
  {
  }

  lemma SnapshotRoundTrip(s: FileSnapshot)
    requires SnapshotOk(s) && PathOk(s.requested) && PathOk(s.target) && IdentityOk(s.project)
    requires VersionOk(s.version) && BlobOk(s.artifact) && BlobOk(s.metadata) && EncodingOk(s.encoding)
    ensures SnapshotFrom(SnapshotTo(s)) == Good(s)
  {
    PathRoundTrip(s.requested);
    PathRoundTrip(s.target);
    IdentityRoundTrip(s.project);
    VersionRoundTrip(s.version);
    BlobRoundTrip(s.artifact);
    BlobRoundTrip(s.metadata);
    EncodingRoundTrip(s.encoding);
    SnapshotFields(s, PathTo(s.requested), PathTo(s.target), IdentityTo(s.project), VersionTo(s.version),
                   BlobTo(s.artifact), BlobTo(s.metadata), EncodingTo(s.encoding));
  }

  lemma CreateFields(m: Mutation, requested: Json, target: Json, project: Json, expected: Json, after: Json,
                     metadata: Json)
    requires m.Create?
    requires PathFrom(requested) == Good(m.requested) && PathFrom(target) == Good(m.target)
    requires IdentityFrom(project) == Good(m.project) && VersionFrom(expected) == Good(m.expected)
    requires BlobFrom(after) == Good(m.after) && BlobFrom(metadata) == Good(m.metadata)
    ensures MutationFrom(CreateRow(requested, target, project, expected, after, metadata)) == Good(m)
  {
    CreateRowHas(requested, target, project, expected, after, metadata);
    CreateDecodes(CreateRow(requested, target, project, expected, after, metadata), m);
  }

  lemma CreateDecodes(d: Json, m: Mutation)
    requires m.Create? && HasFields(d, CREATE_FIELDS) && d.fields[Kind] == JStr("create")
    requires PathFrom(d.fields[RequestedPath]) == Good(m.requested) && PathFrom(d.fields[TargetPath]) == Good(m.target)
    requires IdentityFrom(d.fields[Project]) == Good(m.project)
    requires VersionFrom(d.fields[ExpectedVersion]) == Good(m.expected)
    requires BlobFrom(d.fields[After]) == Good(m.after) && BlobFrom(d.fields[Metadata]) == Good(m.metadata)
    ensures MutationFrom(d) == Good(m)
  {
  }

  lemma ChangeFields(before: FileSnapshot, after: ContentIdentity, jsonBefore: Json, jsonAfter: Json)
    requires SnapshotFrom(jsonBefore) == Good(before) && BlobFrom(jsonAfter) == Good(after)
    ensures MutationFrom(ReplaceRow(jsonBefore, jsonAfter)) == Good(Replace(before, after))
    ensures MutationFrom(DeleteRow(jsonBefore)) == Good(Delete(before))
  {
  }

  lemma CreateRoundTrip(m: Mutation)
    requires m.Create? && ScopeOk(m)
    ensures MutationFrom(MutationTo(m)) == Good(m)
  {
    PathRoundTrip(m.requested);
    PathRoundTrip(m.target);
    IdentityRoundTrip(m.project);
    VersionRoundTrip(m.expected);
    BlobRoundTrip(m.after);
    BlobRoundTrip(m.metadata);
    CreateFields(m, PathTo(m.requested), PathTo(m.target), IdentityTo(m.project), VersionTo(m.expected),
                 BlobTo(m.after), BlobTo(m.metadata));
  }

  lemma MutationRoundTrip(m: Mutation)
    requires ScopeOk(m) && WellFormed(m) && Codable(m)
    ensures MutationFrom(MutationTo(m)) == Good(m)
  {
    match m {
      case Create(_, _, _, _, _, _) => CreateRoundTrip(m);
      case Replace(before, after) =>
        SnapshotRoundTrip(before);
        BlobRoundTrip(after);
        ChangeFields(before, after, SnapshotTo(before), BlobTo(after));
      case Delete(before) =>
        SnapshotRoundTrip(before);
        BlobRoundTrip(before.artifact);
        ChangeFields(before, before.artifact, SnapshotTo(before), BlobTo(before.artifact));
    }
  }

  lemma AllRoundTrip(ms: seq<Mutation>)
    requires forall m | m in ms :: ScopeOk(m) && WellFormed(m) && Codable(m)
    ensures AllFrom(AllTo(ms)) == Good(ms)
  {
    EncodeItemsAt(MutationTo, ms);
    DecodeItemsAt(MutationFrom, AllTo(ms));
    forall i | 0 <= i < |ms| ensures MutationFrom(AllTo(ms)[i]) == Good(ms[i]) {
      MutationRoundTrip(ms[i]);
    }
    assert AllFrom(AllTo(ms)).value == ms;
  }

  // ------------------------------------------------------------------
  // Encoding undoes decoding
  // ------------------------------------------------------------------

  lemma DecodedEncoding(d: Json)
    requires EncodingFrom(d).Good?
    ensures EncodingOk(EncodingFrom(d).value)
  {
  }

  lemma DecodedSnapshot(d: Json)
    requires SnapshotFrom(d).Good?
    ensures var s := SnapshotFrom(d).value; SnapshotOk(s) && s.version.mtimeNs >= 0 && EncodingOk(s.encoding)
  {
    DecodedEncoding(d.fields[Encoding]);
  }

  lemma DecodedMutation(d: Json)
    requires MutationFrom(d).Good?
    ensures WellFormed(MutationFrom(d).value) && Codable(MutationFrom(d).value)
  {
    if d.fields[Kind] != JStr("create") {
      DecodedSnapshot(d.fields[Before]);
    }
  }

  lemma DecodedAll(ds: seq<Json>)
    requires AllFrom(ds).Good?
    ensures forall m | m in AllFrom(ds).value :: WellFormed(m) && Codable(m)
  {
    DecodeItemsAt(MutationFrom, ds);
    var ms := AllFrom(ds).value;
    forall i | 0 <= i < |ms| ensures WellFormed(ms[i]) && Codable(ms[i]) {
      DecodedMutation(ds[i]);
    }
  }

  /** No confidence anywhere in the value is written as an integer. */
  predicate FloatConfidence(j: Json) {
    match j
    case JList(l) => forall i | 0 <= i < |l| :: FloatConfidence(l[i])
    case JObj(f) => (Confidence in f ==> !f[Confidence].JInt?)
                    && forall k {:trigger FloatConfidence(f[k])} | k in f :: FloatConfidence(f[k])
    case _ => true
  }

  lemma FieldEq(a: Json, b: Json, k: Field)
    requires a.JObj? && PyEq(a, b) && k in a.fields
    ensures k in b.fields && PyEq(a.fields[k], b.fields[k])
  {
  }

  lemma NativeExact(d: Json, n: NativePath)
    requires NativeFrom(d).Good? && PyEq(NativeTo(n), d)
    ensures NativeFrom(d) == Good(n) && NativeTo(n) == d
  {
    FieldEq(NativeTo(n), d, Kind);
    FieldEq(NativeTo(n), d, Value);
    if n.Raw? {
      B.DecodeEncode(n.bytes);
    }
    assert NativeTo(n).fields == d.fields;
  }

  lemma PathExact(d: Json, p: PathToken)
    requires PathFrom(d).Good? && PyEq(PathTo(p), d)
    ensures PathFrom(d) == Good(p) && PathTo(p) == d
  {
    FieldEq(PathTo(p), d, Display);
    FieldEq(PathTo(p), d, Native);
    NativeExact(d.fields[Native], p.native);
    assert PathTo(p).fields == d.fields;
  }

  lemma IdentityExact(d: Json, i: Identity)
    requires IdentityFrom(d).Good? && PyEq(IdentityTo(i), d)
    ensures IdentityFrom(d) == Good(i) && IdentityTo(i) == d
  {
    FieldEq(IdentityTo(i), d, Key);
    FieldEq(IdentityTo(i), d, Scheme);
    assert IdentityTo(i).fields == d.fields;
  }

  lemma BlobExact(d: Json, c: ContentIdentity)
    requires BlobFrom(d).Good? && PyEq(BlobTo(c), d)
    ensures BlobFrom(d) == Good(c) && BlobTo(c) == d
  {
    FieldEq(BlobTo(c), d, Digest);
    FieldEq(BlobTo(c), d, Size);
    assert BlobTo(c).fields == d.fields;
  }

  lemma AbsentExact(d: Json, v: FileVersion)
    requires VersionFrom(d).Good? && v.Absent? && PyEq(VersionTo(v), d)
    ensures VersionFrom(d) == Good(v) && VersionTo(v) == d
  {
    FieldEq(VersionTo(v), d, Kind);
    FieldEq(VersionTo(v), d, NameId);
    IdentityExact(d.fields[NameId], v.name);
    assert VersionTo(v).fields == d.fields;
  }

  lemma PresentRowEq(d: Json, name: Json, target: Json, v: FileVersion)
    requires v.Present? && PyEq(PresentRow(name, target, v.size, v.mtimeNs, v.digest, v.metadataDigest), d)
    ensures HasFields(d, PRESENT_FIELDS)
    ensures PyEq(name, d.fields[NameId]) && PyEq(target, d.fields[TargetId])
    ensures PyEq(JInt(v.size), d.fields[Size]) && PyEq(JInt(v.mtimeNs), d.fields[MtimeNs])
    ensures PyEq(JStr(v.digest), d.fields[Digest]) && PyEq(JStr(v.metadataDigest), d.fields[MetadataDigest])
    ensures d.fields[Kind] == JStr("present")
  {
    var row := PresentRow(name, target, v.size, v.mtimeNs, v.digest, v.metadataDigest);
    assert HasFields(row, PRESENT_FIELDS) && row.fields[NameId] == name && row.fields[TargetId] == target;
    FieldEq(row, d, Kind);
    FieldEq(row, d, NameId);
    FieldEq(row, d, TargetId);
    FieldEq(row, d, Size);
    FieldEq(row, d, MtimeNs);
    FieldEq(row, d, Digest);
    FieldEq(row, d, MetadataDigest);
  }

  lemma PresentRowIs(d: Json, v: FileVersion)
    requires v.Present? && HasFields(d, PRESENT_FIELDS) && d.fields[Kind] == JStr("present")
    requires d.fields[Size] == JInt(v.size) && d.fields[MtimeNs] == JInt(v.mtimeNs)
    requires d.fields[Digest] == JStr(v.digest) && d.fields[MetadataDigest] == JStr(v.metadataDigest)
    ensures d == PresentRow(d.fields[NameId], d.fields[TargetId], v.size, v.mtimeNs, v.digest, v.metadataDigest)
  {
    assert d.fields == PresentRow(d.fields[NameId], d.fields[TargetId], v.size, v.mtimeNs, v.digest,
                                  v.metadataDigest).fields;
  }

  lemma PresentParts(d: Json)
    requires VersionFrom(d).Good? && d.fields[Kind] == JStr("present")
    ensures HasFields(d, PRESENT_FIELDS)
    ensures IdentityFrom(d.fields[NameId]).Good? && IdentityFrom(d.fields[TargetId]).Good?
    ensures d.fields[Size].JInt? && d.fields[MtimeNs].JInt? && d.fields[Digest].JStr? && d.fields[MetadataDigest].JStr?
    ensures VersionFrom(d).value == Present(
              IdentityFrom(d.fields[NameId]).value, IdentityFrom(d.fields[TargetId]).value,
              d.fields[Size].whole, d.fields[MtimeNs].whole, d.fields[Digest].str, d.fields[MetadataDigest].str)
  {
  }

  lemma PresentExact(d: Json, v: FileVersion)
    requires VersionFrom(d).Good? && v.Present? && PyEq(VersionTo(v), d)
    ensures VersionFrom(d) == Good(v) && VersionTo(v) == d
  {
    PresentRowEq(d, IdentityTo(v.name), IdentityTo(v.target), v);
    PresentParts(d);
    IdentityExact(d.fields[NameId], v.name);
    IdentityExact(d.fields[TargetId], v.target);
    PresentRowIs(d, v);
  }

  lemma VersionExact(d: Json, v: FileVersion)
    requires VersionFrom(d).Good? && PyEq(VersionTo(v), d)
    ensures VersionFrom(d) == Good(v) && VersionTo(v) == d
  {
    if v.Absent? {
      AbsentExact(d, v);
    } else {
      PresentExact(d, v);
    }
  }

  lemma ConfidenceExact(d: Json, c: Option<real>)
    requires ConfidenceFrom(d).Good? && PyEq(ConfidenceTo(c), d)
    ensures ConfidenceFrom(d) == Good(c) && (ConfidenceTo(c) == d <==> !d.JInt?)
  {
  }

  lemma EncodingRowEq(d: Json, name: Json, bom: Json, source: Json, confidence: Json)
    requires PyEq(EncodingRow(name, bom, source, confidence), d)
    ensures HasFields(d, {Label, Bom, Source, Confidence})
    ensures PyEq(name, d.fields[Label]) && PyEq(bom, d.fields[Bom]) && PyEq(source, d.fields[Source])
    ensures PyEq(confidence, d.fields[Confidence])
  {
    var row := EncodingRow(name, bom, source, confidence);
    FieldEq(row, d, Label);
    FieldEq(row, d, Bom);
    FieldEq(row, d, Source);
    FieldEq(row, d, Confidence);
  }

  lemma EncodingExact(d: Json, e: Option<EncodingDecision>)
    requires EncodingFrom(d).Good? && PyEq(EncodingTo(e), d)
    ensures EncodingFrom(d) == Good(e) && (FloatConfidence(d) ==> EncodingTo(e) == d)
  {
    if e.Some? {
      var v := e.value;
      EncodingRowEq(d, JStr(v.charset), JStr(B.Encode(v.bom)), JStr(SourceText(v.source)), ConfidenceTo(v.confidence));
      B.DecodeEncode(v.bom);
      SourceRoundTrip(v.source);
      ConfidenceExact(d.fields[Confidence], v.confidence);
      assert !d.fields[Confidence].JInt? ==> EncodingTo(e).fields == d.fields;
    }
  }

  lemma SnapshotRowIs(d: Json)
    requires HasFields(d, SNAPSHOT_FIELDS)
    ensures d == SnapshotRow(d.fields[RequestedPath], d.fields[TargetPath], d.fields[Project], d.fields[Version],
                             d.fields[Artifact], d.fields[Metadata], d.fields[Encoding])
  {
    assert d.fields == SnapshotRow(d.fields[RequestedPath], d.fields[TargetPath], d.fields[Project], d.fields[Version],
                                   d.fields[Artifact], d.fields[Metadata], d.fields[Encoding]).fields;
  }

  lemma SnapshotRowEq(d: Json, requested: Json, target: Json, project: Json, version: Json, artifact: Json,
                      metadata: Json, encoding: Json)
    requires HasFields(d, SNAPSHOT_FIELDS)
    requires PyEq(SnapshotRow(requested, target, project, version, artifact, metadata, encoding), d)
    ensures PyEq(requested, d.fields[RequestedPath]) && PyEq(target, d.fields[TargetPath])
    ensures PyEq(project, d.fields[Project]) && PyEq(version, d.fields[Version])
    ensures PyEq(artifact, d.fields[Artifact]) && PyEq(metadata, d.fields[Metadata])
            && PyEq(encoding, d.fields[Encoding])
  {
    var row := SnapshotRow(requested, target, project, version, artifact, metadata, encoding);
    FieldEq(row, d, RequestedPath);
    FieldEq(row, d, TargetPath);
    FieldEq(row, d, Project);
    FieldEq(row, d, Version);
    FieldEq(row, d, Artifact);
    FieldEq(row, d, Metadata);
    FieldEq(row, d, Encoding);
  }

  /** The fields of an accepted snapshot are all accepted. */
  lemma SnapshotParts(d: Json)
    requires SnapshotFrom(d).Good?
    ensures HasFields(d, SNAPSHOT_FIELDS)
    ensures PathFrom(d.fields[RequestedPath]).Good? && PathFrom(d.fields[TargetPath]).Good?
    ensures IdentityFrom(d.fields[Project]).Good? && VersionFrom(d.fields[Version]).Good?
    ensures BlobFrom(d.fields[Artifact]).Good? && BlobFrom(d.fields[Metadata]).Good?
    ensures EncodingFrom(d.fields[Encoding]).Good?
    ensures SnapshotFrom(d).value == FileSnapshot(
              PathFrom(d.fields[RequestedPath]).value, PathFrom(d.fields[TargetPath]).value,
              IdentityFrom(d.fields[Project]).value, VersionFrom(d.fields[Version]).value,
              BlobFrom(d.fields[Artifact]).value, BlobFrom(d.fields[Metadata]).value,
              EncodingFrom(d.fields[Encoding]).value)
  {
  }

  lemma SnapshotFieldsExact(d: Json, s: FileSnapshot)
    requires HasFields(d, SNAPSHOT_FIELDS) && PyEq(SnapshotTo(s), d)
    requires PathFrom(d.fields[RequestedPath]).Good? && PathFrom(d.fields[TargetPath]).Good?
    requires IdentityFrom(d.fields[Project]).Good? && VersionFrom(d.fields[Version]).Good?
    requires BlobFrom(d.fields[Artifact]).Good? && BlobFrom(d.fields[Metadata]).Good?
    ensures PathFrom(d.fields[RequestedPath]) == Good(s.requested) && PathTo(s.requested) == d.fields[RequestedPath]
    ensures PathFrom(d.fields[TargetPath]) == Good(s.target) && PathTo(s.target) == d.fields[TargetPath]
    ensures IdentityFrom(d.fields[Project]) == Good(s.project) && IdentityTo(s.project) == d.fields[Project]
    ensures VersionFrom(d.fields[Version]) == Good(s.version) && VersionTo(s.version) == d.fields[Version]
    ensures BlobFrom(d.fields[Artifact]) == Good(s.artifact) && BlobTo(s.artifact) == d.fields[Artifact]
    ensures BlobFrom(d.fields[Metadata]) == Good(s.metadata) && BlobTo(s.metadata) == d.fields[Metadata]
    ensures PyEq(EncodingTo(s.encoding), d.fields[Encoding])
  {
    SnapshotRowEq(d, PathTo(s.requested), PathTo(s.target), IdentityTo(s.project), VersionTo(s.version),
                  BlobTo(s.artifact), BlobTo(s.metadata), EncodingTo(s.encoding));
    PathExact(d.fields[RequestedPath], s.requested);
    PathExact(d.fields[TargetPath], s.target);
    IdentityExact(d.fields[Project], s.project);
    VersionExact(d.fields[Version], s.version);
    BlobExact(d.fields[Artifact], s.artifact);
    BlobExact(d.fields[Metadata], s.metadata);
  }

  lemma SnapshotExact(d: Json, s: FileSnapshot)
    requires SnapshotFrom(d).Good? && PyEq(SnapshotTo(s), d)
    ensures SnapshotFrom(d) == Good(s) && (FloatConfidence(d) ==> SnapshotTo(s) == d)
  {
    SnapshotParts(d);
    SnapshotFieldsExact(d, s);
    EncodingExact(d.fields[Encoding], s.encoding);
    SnapshotRowIs(d);
    assert FloatConfidence(d) ==> FloatConfidence(d.fields[Encoding]);
  }

  lemma CreateRowIs(d: Json)
    requires HasFields(d, CREATE_FIELDS) && d.fields[Kind] == JStr("create")
    ensures d == CreateRow(d.fields[RequestedPath], d.fields[TargetPath], d.fields[Project],
                           d.fields[ExpectedVersion], d.fields[After], d.fields[Metadata])
  {
    assert d.fields == CreateRow(d.fields[RequestedPath], d.fields[TargetPath], d.fields[Project],
                                 d.fields[ExpectedVersion], d.fields[After], d.fields[Metadata]).fields;
  }

  lemma CreateRowEq(d: Json, requested: Json, target: Json, project: Json, expected: Json, after: Json, metadata: Json)
    requires PyEq(CreateRow(requested, target, project, expected, after, metadata), d)
    ensures HasFields(d, CREATE_FIELDS) && d.fields[Kind] == JStr("create")
    ensures PyEq(requested, d.fields[RequestedPath]) && PyEq(target, d.fields[TargetPath])
    ensures PyEq(project, d.fields[Project]) && PyEq(expected, d.fields[ExpectedVersion])
    ensures PyEq(after, d.fields[After]) && PyEq(metadata, d.fields[Metadata])
  {
    var row := CreateRow(requested, target, project, expected, after, metadata);
    assert HasFields(row, CREATE_FIELDS) && row.fields[RequestedPath] == requested && row.fields[TargetPath] == target;
    assert row.fields[Project] == project && row.fields[ExpectedVersion] == expected;
    FieldEq(row, d, Kind);
    FieldEq(row, d, RequestedPath);
    FieldEq(row, d, TargetPath);
    FieldEq(row, d, Project);
    FieldEq(row, d, ExpectedVersion);
    FieldEq(row, d, After);
    FieldEq(row, d, Metadata);
  }

  lemma CreateParts(d: Json)
    requires MutationFrom(d).Good? && d.fields[Kind] == JStr("create")
    ensures HasFields(d, CREATE_FIELDS)
    ensures PathFrom(d.fields[RequestedPath]).Good? && PathFrom(d.fields[TargetPath]).Good?
    ensures IdentityFrom(d.fields[Project]).Good? && VersionFrom(d.fields[ExpectedVersion]).Good?
    ensures BlobFrom(d.fields[After]).Good? && BlobFrom(d.fields[Metadata]).Good?
    ensures VersionFrom(d.fields[ExpectedVersion]).value.Absent?
    ensures MutationFrom(d).value == Create(
              PathFrom(d.fields[RequestedPath]).value, PathFrom(d.fields[TargetPath]).value,
              IdentityFrom(d.fields[Project]).value, VersionFrom(d.fields[ExpectedVersion]).value,
              BlobFrom(d.fields[After]).value, BlobFrom(d.fields[Metadata]).value)
  {
  }

  lemma CreateFieldsExact(d: Json, m: Mutation)
    requires m.Create? && HasFields(d, CREATE_FIELDS)
    requires PyEq(PathTo(m.requested), d.fields[RequestedPath]) && PyEq(PathTo(m.target), d.fields[TargetPath])
    requires PyEq(IdentityTo(m.project), d.fields[Project]) && PyEq(VersionTo(m.expected), d.fields[ExpectedVersion])
    requires PyEq(BlobTo(m.after), d.fields[After]) && PyEq(BlobTo(m.metadata), d.fields[Metadata])
    requires PathFrom(d.fields[RequestedPath]).Good? && PathFrom(d.fields[TargetPath]).Good?
    requires IdentityFrom(d.fields[Project]).Good? && VersionFrom(d.fields[ExpectedVersion]).Good?
    requires BlobFrom(d.fields[After]).Good? && BlobFrom(d.fields[Metadata]).Good?
    ensures PathFrom(d.fields[RequestedPath]) == Good(m.requested) && PathTo(m.requested) == d.fields[RequestedPath]
    ensures PathFrom(d.fields[TargetPath]) == Good(m.target) && PathTo(m.target) == d.fields[TargetPath]
    ensures IdentityFrom(d.fields[Project]) == Good(m.project) && IdentityTo(m.project) == d.fields[Project]
    ensures VersionFrom(d.fields[ExpectedVersion]) == Good(m.expected)
            && VersionTo(m.expected) == d.fields[ExpectedVersion]
    ensures BlobFrom(d.fields[After]) == Good(m.after) && BlobTo(m.after) == d.fields[After]
    ensures BlobFrom(d.fields[Metadata]) == Good(m.metadata) && BlobTo(m.metadata) == d.fields[Metadata]
  {
    PathExact(d.fields[RequestedPath], m.requested);
    PathExact(d.fields[TargetPath], m.target);
    IdentityExact(d.fields[Project], m.project);
    VersionExact(d.fields[ExpectedVersion], m.expected);
    BlobExact(d.fields[After], m.after);
    BlobExact(d.fields[Metadata], m.metadata);
  }

  lemma CreateExact(d: Json, m: Mutation)
    requires MutationFrom(d).Good? && m.Create? && PyEq(MutationTo(m), d)
    ensures MutationFrom(d) == Good(m) && MutationTo(m) == d
  {
    CreateRowEq(d, PathTo(m.requested), PathTo(m.target), IdentityTo(m.project), VersionTo(m.expected),
                BlobTo(m.after), BlobTo(m.metadata));
    CreateParts(d);
    CreateFieldsExact(d, m);
    CreateRowIs(d);
  }

  lemma ChangeRowEq(d: Json, before: Json, after: Json)
    ensures PyEq(ReplaceRow(before, after), d) ==>
              && HasFields(d, {Kind, Before, After}) && d.fields[Kind] == JStr("replace")
              && PyEq(before, d.fields[Before]) && PyEq(after, d.fields[After])
    ensures PyEq(DeleteRow(before), d) ==>
              HasFields(d, {Kind, Before}) && d.fields[Kind] == JStr("delete") && PyEq(before, d.fields[Before])
  {
    if PyEq(ReplaceRow(before, after), d) {
      FieldEq(ReplaceRow(before, after), d, Kind);
      FieldEq(ReplaceRow(before, after), d, Before);
      FieldEq(ReplaceRow(before, after), d, After);
    } else if PyEq(DeleteRow(before), d) {
      FieldEq(DeleteRow(before), d, Kind);
      FieldEq(DeleteRow(before), d, Before);
    }
  }

  lemma ChangeRowIs(d: Json)
    ensures HasFields(d, {Kind, Before, After}) && d.fields[Kind] == JStr("replace") ==>
            d == ReplaceRow(d.fields[Before], d.fields[After])
    ensures HasFields(d, {Kind, Before}) && d.fields[Kind] == JStr("delete") ==> d == DeleteRow(d.fields[Before])
  {
    if HasFields(d, {Kind, Before, After}) {
      assert d.fields == map[Kind := d.fields[Kind], Before := d.fields[Before], After := d.fields[After]];
    } else if HasFields(d, {Kind, Before}) {
      assert d.fields == map[Kind := d.fields[Kind], Before := d.fields[Before]];
    }
  }

  lemma ChangeParts(d: Json)
    requires MutationFrom(d).Good? && d.fields[Kind] != JStr("create")
    ensures Before in d.fields && SnapshotFrom(d.fields[Before]).Good?
    ensures d.fields[Kind] == JStr("replace") ==>
              && After in d.fields && BlobFrom(d.fields[After]).Good?
              && MutationFrom(d).value == Replace(SnapshotFrom(d.fields[Before]).value, BlobFrom(d.fields[After]).value)
    ensures d.fields[Kind] == JStr("delete") ==> MutationFrom(d).value == Delete(SnapshotFrom(d.fields[Before]).value)
  {
  }

  lemma ReplaceExact(d: Json, m: Mutation)
    requires MutationFrom(d).Good? && m.Replace? && PyEq(MutationTo(m), d)
    ensures MutationFrom(d) == Good(m) && (FloatConfidence(d) ==> MutationTo(m) == d)
  {
    ChangeRowEq(d, SnapshotTo(m.before), BlobTo(m.after));
    ChangeParts(d);
    SnapshotExact(d.fields[Before], m.before);
    BlobExact(d.fields[After], m.after);
    ChangeRowIs(d);
    assert FloatConfidence(d) ==> FloatConfidence(d.fields[Before]);
  }

  lemma DeleteExact(d: Json, m: Mutation)
    requires MutationFrom(d).Good? && m.Delete? && PyEq(MutationTo(m), d)
    ensures MutationFrom(d) == Good(m) && (FloatConfidence(d) ==> MutationTo(m) == d)
  {
    ChangeRowEq(d, SnapshotTo(m.before), JNull);
    ChangeParts(d);
    SnapshotExact(d.fields[Before], m.before);
    ChangeRowIs(d);
    assert FloatConfidence(d) ==> FloatConfidence(d.fields[Before]);
  }

  /** An accepted dictionary equal to a mutation's encoding is that mutation. */
  lemma MutationExact(d: Json, m: Mutation)
    requires MutationFrom(d).Good? && PyEq(MutationTo(m), d)
    ensures MutationFrom(d) == Good(m) && (FloatConfidence(d) ==> MutationTo(m) == d)
  {
    match m {
      case Create(_, _, _, _, _, _) => CreateExact(d, m);
      case Replace(_, _) => ReplaceExact(d, m);
      case Delete(_) => DeleteExact(d, m);
    }
  }

  /** A list equal to the encoding of some mutations decodes to just those. */
  lemma AllExact(ds: seq<Json>, ms: seq<Mutation>)
    requires AllFrom(ds).Good? && PyEq(JList(AllTo(ms)), JList(ds))
    ensures AllFrom(ds) == Good(ms)
    ensures FloatConfidence(JList(ds)) ==> AllTo(ms) == ds
  {
    EncodeItemsAt(MutationTo, ms);
    DecodeItemsAt(MutationFrom, ds);
    assert forall i | 0 <= i < |ds| :: PyEq(AllTo(ms)[i], ds[i]);
    forall i | 0 <= i < |ds|
      ensures MutationFrom(ds[i]) == Good(ms[i]) && (FloatConfidence(ds[i]) ==> MutationTo(ms[i]) == ds[i])
    {
      MutationExact(ds[i], ms[i]);
    }
    assert AllFrom(ds).value == ms;
  }

  // ------------------------------------------------------------------
  // Encodings write confidences as floats
  // ------------------------------------------------------------------

  lemma LeavesFloat(p: PathToken, i: Identity, c: ContentIdentity, e: Option<EncodingDecision>)
    ensures FloatConfidence(PathTo(p)) && FloatConfidence(IdentityTo(i))
    ensures FloatConfidence(BlobTo(c)) && FloatConfidence(EncodingTo(e))
  {
    assert FloatConfidence(NativeTo(p.native));
  }

  lemma VersionFloat(v: FileVersion)
    ensures FloatConfidence(VersionTo(v))
  {
    assert FloatConfidence(IdentityTo(v.name));
    if v.Present? {
      assert FloatConfidence(IdentityTo(v.target));
    }
  }

  lemma SnapshotFloat(s: FileSnapshot)
    ensures FloatConfidence(SnapshotTo(s))
  {
    LeavesFloat(s.requested, s.project, s.artifact, s.encoding);
    LeavesFloat(s.target, s.project, s.metadata, s.encoding);
    VersionFloat(s.version);
    SnapshotRowFloat(PathTo(s.requested), PathTo(s.target), IdentityTo(s.project), VersionTo(s.version),
                     BlobTo(s.artifact), BlobTo(s.metadata), EncodingTo(s.encoding));
  }

  lemma SnapshotRowFloat(requested: Json, target: Json, project: Json, version: Json, artifact: Json, metadata: Json,
                         encoding: Json)
    requires FloatConfidence(requested) && FloatConfidence(target) && FloatConfidence(project)
             && FloatConfidence(version)
    requires FloatConfidence(artifact) && FloatConfidence(metadata) && FloatConfidence(encoding)
    ensures FloatConfidence(SnapshotRow(requested, target, project, version, artifact, metadata, encoding))
  {
  }

  lemma CreateRowFloat(requested: Json, target: Json, project: Json, expected: Json, after: Json, metadata: Json)
    requires FloatConfidence(requested) && FloatConfidence(target) && FloatConfidence(project)
    requires FloatConfidence(expected) && FloatConfidence(after) && FloatConfidence(metadata)
    ensures FloatConfidence(CreateRow(requested, target, project, expected, after, metadata))
  {
  }

  lemma ChangeRowFloat(before: Json, after: Json)
    requires FloatConfidence(before) && FloatConfidence(after)
    ensures FloatConfidence(ReplaceRow(before, after)) && FloatConfidence(DeleteRow(before))
  {
  }

  lemma MutationFloat(m: Mutation)
    ensures FloatConfidence(MutationTo(m))
  {
    match m {
      case Create(requested, target, project, expected, after, metadata) =>
        LeavesFloat(requested, project, after, None);
        LeavesFloat(target, project, metadata, None);
        VersionFloat(expected);
        CreateRowFloat(PathTo(requested), PathTo(target), IdentityTo(project), VersionTo(expected), BlobTo(after),
                       BlobTo(metadata));
      case Replace(before, after) =>
        SnapshotFloat(before);
        LeavesFloat(before.target, before.project, after, None);
        ChangeRowFloat(SnapshotTo(before), BlobTo(after));
      case Delete(before) =>
        SnapshotFloat(before);
        ChangeRowFloat(SnapshotTo(before), JNull);
    }
  }

  lemma AllFloat(ms: seq<Mutation>)
    ensures FloatConfidence(JList(AllTo(ms)))
  {
    EncodeItemsAt(MutationTo, ms);
    forall i | 0 <= i < |ms| ensures FloatConfidence(AllTo(ms)[i]) {
      MutationFloat(ms[i]);
    }
  }

  // ------------------------------------------------------------------
  // The set codec
  // ------------------------------------------------------------------

  ghost predicate Storable(s: MutationSet) {
    IsMutationSet(s) && forall m | m in s.mutations :: WellFormed(m) && Codable(m)
  }

  /** What acceptance means, field by field. */
  lemma SetParts(d: Json, s: MutationSet)
    requires SetFrom(d) == Good(s)
    ensures HasFields(d, SET_FIELDS) && d.fields[Mutations].JList?
    ensures d == SetRow(s.transaction, s.session, s.source, d.fields[Mutations])
    ensures var ds := AllFrom(d.fields[Mutations].items);
            ds.Good? && Build(s.(mutations := ds.value)) == Good(s)
    ensures PyEq(JList(AllTo(s.mutations)), d.fields[Mutations])
  {
    assert d.fields == SetRow(s.transaction, s.session, s.source, d.fields[Mutations]).fields;
  }

  /** Everything accepted is a canonical, storable set whose encoding equals the
      input; the list was already in canonical order and its base64 canonical. */
  lemma EncodeDecodeSet(d: Json, s: MutationSet)
    requires SetFrom(d) == Good(s)
    ensures Storable(s) && AllFrom(d.fields[Mutations].items) == Good(s.mutations)
    ensures PyEq(SetTo(s), d)
    ensures SetTo(s) == d <==> FloatConfidence(d)
  {
    SetParts(d, s);
    var ds := d.fields[Mutations].items;
    AllExact(ds, s.mutations);
    DecodedAll(ds);
    BuildIsCanonical(s);
    SetRowEq(s.transaction, s.session, s.source, JList(AllTo(s.mutations)), JList(ds));
    AllFloat(s.mutations);
    SetRowFloat(s.transaction, s.session, s.source, JList(AllTo(s.mutations)));
    SetRowFloat(s.transaction, s.session, s.source, JList(ds));
  }

  lemma SetRowEq(transaction: string, session: string, source: string, a: Json, b: Json)
    requires PyEq(a, b)
    ensures PyEq(SetRow(transaction, session, source, a), SetRow(transaction, session, source, b))
  {
  }

  lemma SetRowFloat(transaction: string, session: string, source: string, a: Json)
    ensures FloatConfidence(SetRow(transaction, session, source, a)) <==> FloatConfidence(a)
  {
    var row := SetRow(transaction, session, source, a);
    assert row.fields[Mutations] == a;
    if FloatConfidence(row) {
      assert FloatConfidence(row.fields[Mutations]);
    }
  }

  lemma HeaderAccepted(s: MutationSet, ms: Json)
    requires s.transaction != "" && s.session != "" && s.source != ""
    ensures SetFrom(SetRow(s.transaction, s.session, s.source, ms)) == ItemsFrom(s.(mutations := []), ms)
  {
  }

  lemma ItemsAccepted(s: MutationSet, items: seq<Json>)
    requires items != [] && AllFrom(items) == Good(s.mutations)
    requires Build(s) == Good(s) && PyEq(JList(AllTo(s.mutations)), JList(items))
    ensures ItemsFrom(s.(mutations := []), JList(items)) == Good(s)
  {
    assert s.(mutations := []).(mutations := s.mutations) == s;
  }

  lemma SetRoundTrip(s: MutationSet)
    requires Storable(s)
    ensures SetFrom(SetTo(s)) == Good(s)
  {
    AllRoundTrip(s.mutations);
    BuildIsCanonical(s);
    PyEqReflexive(JList(AllTo(s.mutations)));
    EncodeItemsAt(MutationTo, s.mutations);
    ItemsAccepted(s, AllTo(s.mutations));
    HeaderAccepted(s, JList(AllTo(s.mutations)));
  }

  /** A set survives the round trip exactly when it is canonical, its snapshots
      are consistent, and it is codable. */
  lemma DecodeEncodeSet(s: MutationSet)
    ensures SetFrom(SetTo(s)) == Good(s) <==> Storable(s)
  {
    if SetFrom(SetTo(s)) == Good(s) {
      EncodeDecodeSet(SetTo(s), s);
    }
    if Storable(s) {
      SetRoundTrip(s);
    }
  }

  lemma SetRowParts(s: MutationSet, t: MutationSet, a: Json, b: Json)
    requires PyEq(SetRow(s.transaction, s.session, s.source, a), SetRow(t.transaction, t.session, t.source, b))
    ensures s.transaction == t.transaction && s.session == t.session && s.source == t.source && PyEq(a, b)
  {
    var x, y := SetRow(s.transaction, s.session, s.source, a), SetRow(t.transaction, t.session, t.source, b);
    FieldEq(x, y, TransactionId);
    FieldEq(x, y, SessionId);
    FieldEq(x, y, Source);
    FieldEq(x, y, Mutations);
  }

  /** The codec merges nothing: sets with equal encodings are equal. */
  lemma CodecIsInjective(s: MutationSet, t: MutationSet)
    requires Storable(s) && Storable(t) && PyEq(SetTo(s), SetTo(t))
    ensures s == t
  {
    SetRowParts(s, t, JList(AllTo(s.mutations)), JList(AllTo(t.mutations)));
    AllRoundTrip(t.mutations);
    AllExact(AllTo(t.mutations), s.mutations);
  }

  // ------------------------------------------------------------------
  // Construction and decoding check the same things
  // ------------------------------------------------------------------

  lemma PathChecked(p: PathToken)
    ensures PathFrom(PathTo(p)) == Good(p) <==> PathOk(p)
  {
    if p.native.Raw? {
      BytesRoundTrip(p.native.bytes);
    }
    if PathOk(p) {
      PathRoundTrip(p);
    }
  }

  lemma VersionChecked(v: FileVersion)
    ensures VersionFrom(VersionTo(v)) == Good(v) <==> VersionOk(v)
  {
    if VersionOk(v) {
      VersionRoundTrip(v);
    } else if v.Absent? {
      assert VersionTo(v).fields[NameId] == IdentityTo(v.name);
    } else {
      PresentHas(v);
    }
  }

  lemma PresentHas(v: FileVersion)
    requires v.Present?
    ensures var row := VersionTo(v);
            && HasFields(row, PRESENT_FIELDS) && row.fields[Kind] == JStr("present")
            && row.fields[NameId] == IdentityTo(v.name) && row.fields[TargetId] == IdentityTo(v.target)
            && row.fields[Size] == JInt(v.size) && row.fields[MtimeNs] == JInt(v.mtimeNs)
            && row.fields[Digest] == JStr(v.digest) && row.fields[MetadataDigest] == JStr(v.metadataDigest)
  {
  }

  lemma SnapshotChecked(s: FileSnapshot)
    requires SnapshotFrom(SnapshotTo(s)) == Good(s)
    ensures SnapshotOk(s) && PathOk(s.requested) && PathOk(s.target) && IdentityOk(s.project)
    ensures VersionOk(s.version) && BlobOk(s.artifact) && BlobOk(s.metadata)
  {
    SnapshotRowHas(PathTo(s.requested), PathTo(s.target), IdentityTo(s.project), VersionTo(s.version),
                   BlobTo(s.artifact), BlobTo(s.metadata), EncodingTo(s.encoding));
    SnapshotParts(SnapshotTo(s));
    PathChecked(s.requested);
    PathChecked(s.target);
    VersionChecked(s.version);
    BlobChecked(s.artifact);
    BlobChecked(s.metadata);
    IdentityChecked(s.project);
  }

  lemma BlobChecked(c: ContentIdentity)
    ensures BlobFrom(BlobTo(c)) == Good(c) <==> BlobOk(c)
  {
  }

  lemma IdentityChecked(i: Identity)
    ensures IdentityFrom(IdentityTo(i)) == Good(i) <==> IdentityOk(i)
  {
  }

  lemma CreateChecked(m: Mutation)
    requires m.Create? && MutationFrom(MutationTo(m)) == Good(m)
    ensures PathOk(m.requested) && PathOk(m.target) && IdentityOk(m.project) && IdentityOk(m.expected.name)
    ensures BlobOk(m.after) && BlobOk(m.metadata)
  {
    CreateRowHas(PathTo(m.requested), PathTo(m.target), IdentityTo(m.project), VersionTo(m.expected), BlobTo(m.after),
                 BlobTo(m.metadata));
    CreateParts(MutationTo(m));
    PathChecked(m.requested);
    PathChecked(m.target);
    VersionChecked(m.expected);
    BlobChecked(m.after);
    BlobChecked(m.metadata);
    IdentityChecked(m.project);
  }

  lemma CreateRowHas(requested: Json, target: Json, project: Json, expected: Json, after: Json, metadata: Json)
    ensures var row := CreateRow(requested, target, project, expected, after, metadata);
            && HasFields(row, CREATE_FIELDS) && row.fields[Kind] == JStr("create")
            && row.fields[RequestedPath] == requested && row.fields[TargetPath] == target
            && row.fields[Project] == project && row.fields[ExpectedVersion] == expected
            && row.fields[After] == after && row.fields[Metadata] == metadata
  {
  }

  lemma ChangeChecked(m: Mutation)
    requires !m.Create? && MutationFrom(MutationTo(m)) == Good(m)
    ensures SnapshotFrom(SnapshotTo(m.before)) == Good(m.before) && (m.Replace? ==> BlobOk(m.after))
  {
    ChangeRowHas(SnapshotTo(m.before), if m.Replace? then BlobTo(m.after) else JNull);
    ChangeParts(MutationTo(m));
    if m.Replace? {
      BlobChecked(m.after);
    }
  }

  lemma ChangeRowHas(before: Json, after: Json)
    ensures var row := ReplaceRow(before, after);
            row.fields[Kind] == JStr("replace") && row.fields[Before] == before && row.fields[After] == after
    ensures var row := DeleteRow(before); row.fields[Kind] == JStr("delete") && row.fields[Before] == before
  {
  }

  /** What the constructor of a set demands of a mutation, and what its parts and the
      codec demand besides, is exactly what the decoder checks, plus that a create has
      one path. */
  lemma ScopeIsWhatIsDecoded(m: Mutation)
    ensures ScopeOk(m) && WellFormed(m) && Codable(m) <==>
            MutationFrom(MutationTo(m)) == Good(m) && (m.Create? ==> m.requested == m.target)
  {
    if ScopeOk(m) && WellFormed(m) && Codable(m) {
      MutationRoundTrip(m);
    }
    if MutationFrom(MutationTo(m)) == Good(m) {
      DecodedMutation(MutationTo(m));
      if m.Create? {
        CreateChecked(m);
      } else {
        ChangeChecked(m);
        SnapshotChecked(m.before);
      }
    }
  }

  /** A confidence is absent or a number from 0 to 1, but not a truth value. */
  lemma ConfidenceAccepts(d: Json)
    ensures ConfidenceFrom(d).Good? <==> d.JNull? || (IsNumber(d) && !d.JBool? && 0.0 <= Number(d) <= 1.0)
    ensures ConfidenceFrom(JInt(1)) == ConfidenceFrom(JFloat(1.0)) == Good(Some(1.0))
  {
  }

  /** Decoders accept no other fields than those they read. */
  lemma NoExtraFields(d: Json)
    ensures NativeFrom(d).Good? ==> HasFields(d, {Kind, Value})
    ensures PathFrom(d).Good? ==> HasFields(d, {Display, Native})
    ensures IdentityFrom(d).Good? ==> HasFields(d, {Key, Scheme})
    ensures BlobFrom(d).Good? ==> HasFields(d, {Digest, Size})
    ensures EncodingFrom(d).Good? ==> d.JNull? || HasFields(d, {Label, Bom, Source, Confidence})
    ensures VersionFrom(d).Good? ==> HasFields(d, VersionTo(VersionFrom(d).value).fields.Keys)
  {
  }

  lemma NoExtraSnapshotFields(d: Json)
    requires SnapshotFrom(d).Good?
    ensures HasFields(d, SnapshotTo(SnapshotFrom(d).value).fields.Keys)
  {
    SnapshotParts(d);
  }

  lemma NoExtraMutationFields(d: Json)
    requires MutationFrom(d).Good?
    ensures HasFields(d, MutationTo(MutationFrom(d).value).fields.Keys)
  {
  }

  lemma NoExtraSetFields(d: Json)
    requires SetFrom(d).Good?
    ensures HasFields(d, SetTo(SetFrom(d).value).fields.Keys)
  {
    SetParts(d, SetFrom(d).value);
  }

  // ------------------------------------------------------------------
  // Names on the wire
  // ------------------------------------------------------------------

  /** Which field carries which part of the leaves. */
  lemma WireLeaves(p: PathToken, i: Identity, c: ContentIdentity, e: EncodingDecision)
    ensures PathTo(p).fields[Display] == JStr(p.display)
    ensures p.native.Text? ==> PathTo(p).fields[Native] == JObj(map[Kind := JStr("text"), Value := JStr(p.native.text)])
    ensures p.native.Raw? ==>
              PathTo(p).fields[Native] == JObj(map[Kind := JStr("bytes"), Value := JStr(B.Encode(p.native.bytes))])
    ensures IdentityTo(i).fields[Key] == JStr(i.key) && IdentityTo(i).fields[Scheme] == JStr(i.scheme)
    ensures BlobTo(c).fields[Digest] == JStr(c.digest) && BlobTo(c).fields[Size] == JInt(c.size)
    ensures EncodingTo(None) == JNull
    ensures EncodingTo(Some(e)).fields[Label] == JStr(e.charset)
    ensures EncodingTo(Some(e)).fields[Bom] == JStr(B.Encode(e.bom))
    ensures EncodingTo(Some(e)).fields[Confidence] ==
            if e.confidence.None? then JNull else JFloat(e.confidence.value)
  {
  }

  lemma WireSources()
    ensures SourceText(BOM) == "bom" && SourceText(EXPLICIT) == "explicit" && SourceText(UTF8) == "utf8"
    ensures SourceText(DETECTED) == "detected" && SourceText(FALLBACK) == "fallback"
    ensures forall e: EncodingDecision :: EncodingTo(Some(e)).fields[Source] == JStr(SourceText(e.source))
  {
  }

  /** Which field carries which part of a set. */
  lemma WireSets(s: MutationSet, i: nat)
    ensures SetTo(s).fields[TransactionId] == JStr(s.transaction) && SetTo(s).fields[SessionId] == JStr(s.session)
    ensures SetTo(s).fields[Source] == JStr(s.source) && SetTo(s).fields[Recovery] == JStr("rollback_incomplete")
    ensures SetTo(s).fields[Mutations].JList? && |SetTo(s).fields[Mutations].items| == |s.mutations|
    ensures i < |s.mutations| ==> SetTo(s).fields[Mutations].items[i] == MutationTo(s.mutations[i])
  {
    EncodeItemsAt(MutationTo, s.mutations);
    assert SetTo(s).fields[Mutations] == JList(AllTo(s.mutations));
  }

  lemma WireKinds(m: Mutation)
    ensures MutationTo(m).JObj? && Kind in MutationTo(m).fields && MutationTo(m).fields[Kind] == JStr(m.Kind())
    ensures m.Kind() == if m.Create? then "create" else if m.Replace? then "replace" else "delete"
  {
    if m.Create? {
      CreateRowHas(PathTo(m.requested), PathTo(m.target), IdentityTo(m.project), VersionTo(m.expected), BlobTo(m.after),
                   BlobTo(m.metadata));
    }
  }
}
