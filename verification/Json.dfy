/** JSON-shaped values as Python dictionaries, lists and scalars hold them. */
module Json {

  /** Dictionary keys: the names the file contracts use, and any other name. */
  datatype Field =
    | Display | Native | Kind | Value
    | Digest | Size | Key | Scheme
    | NameId | TargetId | MtimeNs | MetadataDigest
    | Label | Bom | Source | Confidence
    | RequestedPath | TargetPath | Project | Version | Artifact | Metadata | Encoding
    | ExpectedVersion | Before | After
    | TransactionId | SessionId | Recovery | Mutations
    | Other(name: string)

  datatype Json =
    | JNull
    | JBool(truth: bool)
    | JInt(whole: int)
    | JFloat(number: real)
    | JStr(str: string)
    | JList(items: seq<Json>)
    | JObj(fields: map<Field, Json>)

  predicate IsNumber(j: Json) {
    j.JBool? || j.JInt? || j.JFloat?
  }

  function Number(j: Json): real
    requires IsNumber(j)
  {
    match j
    case JBool(b) => if b then 1.0 else 0.0
    case JInt(n) => n as real
    case JFloat(r) => r
  }

  /** Python's `==`: numbers compare by value across types, containers item by item. */
  predicate PyEq(a: Json, b: Json) {
    match a
    case JNull => b.JNull?
    case JStr(s) => b.JStr? && s == b.str
    case JList(l) => b.JList? && |l| == |b.items| && forall i | 0 <= i < |l| :: PyEq(l[i], b.items[i])
    case JObj(f) => b.JObj? && f.Keys == b.fields.Keys
                    && forall k {:trigger PyEq(f[k], b.fields[k])} | k in f :: PyEq(f[k], b.fields[k])
    case _ => IsNumber(b) && Number(a) == Number(b)
  }

  lemma PyEqReflexive(a: Json)
    ensures PyEq(a, a)
  {
  }

  lemma {:induction false} PyEqSymmetric(a: Json, b: Json)
    requires PyEq(a, b)
    ensures PyEq(b, a)
  {
    match a {
      case JList(l) =>
        forall i | 0 <= i < |l| ensures PyEq(b.items[i], l[i]) {
          PyEqSymmetric(l[i], b.items[i]);
        }
      case JObj(f) =>
        forall k | k in b.fields ensures PyEq(b.fields[k], f[k]) {
          PyEqSymmetric(f[k], b.fields[k]);
        }
      case _ =>
    }
  }

  /** Numbers, and nothing else, compare across types: True is 1 is 1.0. */
  lemma NumbersCompareByValue(a: Json, b: Json)
    ensures IsNumber(a) ==> (PyEq(a, b) <==> IsNumber(b) && Number(a) == Number(b))
    ensures PyEq(JBool(true), JInt(1)) && PyEq(JInt(1), JFloat(1.0)) && !PyEq(JInt(1), JStr("1"))
    ensures !IsNumber(a) && !a.JList? && !a.JObj? ==> (PyEq(a, b) <==> a == b)
  {
  }

  /** `type(d) is dict` with exactly these keys. */
  predicate HasFields(d: Json, keys: set<Field>) {
    d.JObj? && d.fields.Keys == keys
  }

  /** A decoded value, or the exception every malformed input raises. */
  datatype Decoded<+T> = Good(value: T) | Bad
  {
    predicate IsFailure() { Bad? }
    function PropagateFailure<U>(): Decoded<U>
      requires IsFailure()
    {
      Bad
    }
    function Extract(): T
      requires !IsFailure()
    {
      value
    }
  }

  /** A list comprehension over an encoder. */
  function EncodeItems<T>(to: T -> Json, xs: seq<T>): seq<Json> {
    if xs == [] then [] else [to(xs[0])] + EncodeItems(to, xs[1..])
  }

  /** A list comprehension over a decoder: the first failure ends it. */
  function DecodeItems<T>(from: Json -> Decoded<T>, ds: seq<Json>): Decoded<seq<T>> {
    if ds == [] then Good([])
    else
      var x :- from(ds[0]);
      var rest :- DecodeItems(from, ds[1..]);
      Good([x] + rest)
  }

  lemma {:induction false} EncodeItemsAt<T>(to: T -> Json, xs: seq<T>)
    ensures |EncodeItems(to, xs)| == |xs| && forall i | 0 <= i < |xs| :: EncodeItems(to, xs)[i] == to(xs[i])
  {
    if xs == [] {
    } else {
      EncodeItemsAt(to, xs[1..]);
    }
  }

  /** Items that are all accepted decode one by one. */
  lemma {:induction false} DecodeItemsAt<T>(from: Json -> Decoded<T>, ds: seq<Json>)
    ensures DecodeItems(from, ds).Good? <==> forall i | 0 <= i < |ds| :: from(ds[i]).Good?
    ensures DecodeItems(from, ds).Good? ==>
              && |DecodeItems(from, ds).value| == |ds|
              && forall i | 0 <= i < |ds| :: from(ds[i]) == Good(DecodeItems(from, ds).value[i])
  {
    if ds == [] {
    } else {
      DecodeItemsAt(from, ds[1..]);
      assert forall i | 1 <= i < |ds| :: ds[i] == ds[1..][i - 1];
      assert forall i | 0 <= i < |ds| - 1 :: ds[1..][i] == ds[i + 1];
    }
  }
}
