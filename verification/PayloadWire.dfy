/** serialize_payload and deserialize_payload: payload values as wire entries and back. */
module PayloadWire {
  import opened Collections
  import opened Layout
  import opened Options
  import opened PayloadKeys
  import opened Payload
  import Codec = PayloadCodec

  type Bytes = seq<bv8>

  // ---- tensors ----

  datatype DType = Float32 | Float16 | BFloat16 | Float64 | Int64 | Int32 | Int16 | Int8 | UInt8 | Bool

  function Width(d: DType): (w: nat)
    ensures w in {1, 2, 4, 8}
  {
    match d
    case Float64 => 8
    case Int64 => 8
    case Float32 => 4
    case Int32 => 4
    case Float16 => 2
    case BFloat16 => 2
    case Int16 => 2
    case Int8 => 1
    case UInt8 => 1
    case Bool => 1
  }

  /** _dtype_to_name */
  function NameOf(d: DType): string {
    match d
    case Float32 => "float32"
    case Float16 => "float16"
    case BFloat16 => "bfloat16"
    case Float64 => "float64"
    case Int64 => "int64"
    case Int32 => "int32"
    case Int16 => "int16"
    case Int8 => "int8"
    case UInt8 => "uint8"
    case Bool => "bool"
  }

  /** np.dtype(name): numpy has no bfloat16. */
  function NumpyDType(name: string): Option<DType> {
    if name == "float32" then Some(Float32)
    else if name == "float16" then Some(Float16)
    else if name == "float64" then Some(Float64)
    else if name == "int64" then Some(Int64)
    else if name == "int32" then Some(Int32)
    else if name == "int16" then Some(Int16)
    else if name == "int8" then Some(Int8)
    else if name == "uint8" then Some(UInt8)
    else if name == "bool" then Some(Bool)
    else None
  }

  /** A tensor: its elements' bytes, element by element in row-major order. */
  datatype Tensor = Tensor(dtype: DType, shape: seq<nat>, elements: seq<Bytes>)

  function Product(shape: seq<nat>): nat {
    if shape == [] then 1 else shape[0] * Product(shape[1..])
  }

  lemma ProductsRegroup(a: nat, b: nat, c: nat)
    ensures a * (b * c) == a * b * c
  {
  }

  /** The number of elements of a shape: one for no dimensions, and multiplied up over any way to part the shape. */
  lemma {:induction false} ProductOfParts(a: seq<nat>, b: seq<nat>, n: nat)
    ensures Product([]) == 1 && Product([n]) == n && Product(a + b) == Product(a) * Product(b)
  {
    assert [n][1..] == [];
    if a == [] {
      assert a + b == b;
    } else {
      ProductOfParts(a[1..], b, n);
      assert (a + b)[1..] == a[1..] + b;
      ProductsRegroup(a[0], Product(a[1..]), Product(b));
    }
  }

  ghost predicate TensorOk(t: Tensor) {
    |t.elements| == Product(t.shape) && Uniform(t.elements, Width(t.dtype))
  }

  /** np.frombuffer: the elements of a buffer. */
  function Chunks(bytes: Bytes, width: nat): seq<Bytes>
    requires 0 < width
  {
    if |bytes| < width then [] else [bytes[..width]] + Chunks(bytes[width..], width)
  }

  lemma {:induction false} FlatIsWhole(elements: seq<Bytes>, width: nat)
    requires Uniform(elements, width) && width in {1, 2, 4, 8}
    ensures |Flat(elements)| % width == 0
  {
    if elements != [] {
      FlatIsWhole(elements[1..], width);
      assert |Flat(elements)| == width + |Flat(elements[1..])|;
    }
  }

  lemma ChunksOfConcat(first: Bytes, rest: Bytes, width: nat)
    requires |first| == width > 0
    ensures Chunks(first + rest, width) == [first] + Chunks(rest, width)
  {
    assert (first + rest)[..width] == first && (first + rest)[width..] == rest;
  }

  /** Cutting a tensor's bytes into elements undoes joining them. */
  lemma {:induction false} ChunksOfFlat(elements: seq<Bytes>, width: nat)
    requires Uniform(elements, width) && 0 < width
    ensures Chunks(Flat(elements), width) == elements
  {
    if elements != [] {
      ChunksOfFlat(elements[1..], width);
      ChunksOfConcat(elements[0], Flat(elements[1..]), width);
    }
  }

  /** A buffer of whole elements is the elements that it is cut into. */
  lemma {:induction false} FlatOfChunks(bytes: Bytes, width: nat, count: nat)
    requires 0 < width && |bytes| == count * width
    ensures Flat(Chunks(bytes, width)) == bytes && Uniform(Chunks(bytes, width), width)
    ensures |Chunks(bytes, width)| == count
    decreases count
  {
    if count > 0 {
      assert count * width == (count - 1) * width + width;
      FlatOfChunks(bytes[width..], width, count - 1);
      assert bytes == bytes[..width] + bytes[width..];
    }
  }

  // ---- entries ----

  /** A payload value: None, a tensor, a list, or any other value, which travels as a scalar. */
  datatype Item<X> = Nothing | ATensor(tensor: Tensor) | AList(items: seq<X>) | AScalar(scalar: X)

  datatype Entry<X> = Entry(tensorData: Option<Bytes>, tensorShape: Option<seq<nat>>, tensorDType: Option<string>,
                            listData: Option<seq<X>>, scalarData: Option<X>)

  datatype WireError = NotNumpy | UnknownDType | RaggedBuffer | ShapeMismatch

  function SerializeTensor<X>(t: Tensor): Result<Entry<X>, WireError> {
    if t.dtype == BFloat16 then Err(NotNumpy)
    else Ok(Entry(Some(Flat(t.elements)), Some(t.shape), Some(NameOf(t.dtype)), None, None))
  }

  /** _deserialize_tensor; without a shape the array stays flat. */
  function DeserializeTensor(data: Bytes, shape: Option<seq<nat>>, name: Option<string>): Result<Tensor, WireError> {
    var dtype := NumpyDType(if name == None || name.value == "" then "float32" else name.value);
    if dtype == None then Err(UnknownDType)
    else if |data| % Width(dtype.value) != 0 then Err(RaggedBuffer)
    else
      var elements := Chunks(data, Width(dtype.value));
      if shape == None then Ok(Tensor(dtype.value, [|elements|], elements))
      else if |elements| != Product(shape.value) then Err(ShapeMismatch)
      else Ok(Tensor(dtype.value, shape.value, elements))
  }

  /** Bytes, shape and dtype rebuild a tensor exactly when numpy can hold its dtype. */
  lemma TensorRoundTripIff<X>(t: Tensor)
    requires TensorOk(t)
    ensures SerializeTensor<X>(t).Ok? <==> t.dtype != BFloat16
    ensures t.dtype != BFloat16 ==>
              var e := SerializeTensor<X>(t).value;
              e.tensorData.Some? && DeserializeTensor(e.tensorData.value, e.tensorShape, e.tensorDType) == Ok(t)
  {
    FlatIsWhole(t.elements, Width(t.dtype));
    ChunksOfFlat(t.elements, Width(t.dtype));
  }

  /** What a dtype is called on the wire, and how many bytes an element of it takes there. */
  predicate OnWire(d: DType, name: string, width: nat) {
    || (d == Float64 && name == "float64" && width == 8)
    || (d == Float32 && name == "float32" && width == 4)
    || (d == Float16 && name == "float16" && width == 2)
    || (d == Int64 && name == "int64" && width == 8)
    || (d == Int32 && name == "int32" && width == 4)
    || (d == Int16 && name == "int16" && width == 2)
    || (d == Int8 && name == "int8" && width == 1)
    || (d == UInt8 && name == "uint8" && width == 1)
    || (d == Bool && name == "bool" && width == 1)
  }

  lemma NumpyDTypeIs(name: string, d: DType)
    ensures NumpyDType(name) == Some(d) <==> OnWire(d, name, Width(d))
  {
  }

  ghost predicate IsTensorEntry<X>(t: Tensor, e: Entry<X>, data: Bytes, name: string, width: nat) {
    && OnWire(t.dtype, name, width) && |data| == |t.elements| * width
    && e == Entry(Some(data), Some(t.shape), Some(name), None, None)
  }

  /** A tensor on the wire: its bytes, its shape, and the name of its dtype. */
  lemma TensorOnWire<X>(t: Tensor)
    requires TensorOk(t)
    ensures var r := SerializeTensor<X>(t);
            if t.dtype == BFloat16 then r == Err(NotNumpy)
            else r.Ok? && exists data, name, width :: IsTensorEntry(t, r.value, data, name, width)
  {
    FlatLength(t.elements, Width(t.dtype));
    if t.dtype != BFloat16 {
      var e := SerializeTensor<X>(t).value;
      assert IsTensorEntry(t, e, e.tensorData.value, e.tensorDType.value, Width(t.dtype));
    }
  }

  /** A tensor entry rebuilds exactly when numpy knows its dtype, float32 if it names none, and its bytes are the
      elements of its shape; without a shape, any number of elements, in one dimension. */
  lemma DeserializeTensorIs(data: Bytes, shape: Option<seq<nat>>, name: Option<string>, d: DType, width: nat)
    requires OnWire(d, if name == None || name == Some("") then "float32" else name.value, width)
    ensures var r, count := DeserializeTensor(data, shape, name), |data| / width;
            && (|data| % width != 0 ==> r == Err(RaggedBuffer))
            && (|data| % width == 0 && shape.Some? && Product(shape.value) != count ==> r == Err(ShapeMismatch))
            && (|data| % width == 0 && (shape.Some? ==> Product(shape.value) == count) ==>
                  && r.Ok? && r.value.dtype == d && Uniform(r.value.elements, width) && Flat(r.value.elements) == data
                  && r.value.shape == if shape.Some? then shape.value else [count])
  {
    NumpyDTypeIs(if name == None || name == Some("") then "float32" else name.value, d);
    if |data| % width == 0 {
      FlatOfChunks(data, width, |data| / width);
    }
  }

  lemma UnknownDTypeIff(data: Bytes, shape: Option<seq<nat>>, name: string)
    ensures DeserializeTensor(data, shape, Some(name)) == Err(UnknownDType) <==>
            name != "" && forall d, width :: !OnWire(d, name, width)
  {
    var text := if name == "" then "float32" else name;
    forall d, width | OnWire(d, text, width) ensures NumpyDType(text) == Some(d) {
      NumpyDTypeIs(text, d);
    }
    if NumpyDType(text).Some? {
      NumpyDTypeIs(text, NumpyDType(text).value);
    }
    assert OnWire(Float32, "float32", 4);
  }

  function ToEntry<X>(v: Item<X>): Result<Entry<X>, WireError>
    requires v != Nothing
  {
    match v
    case ATensor(t) => SerializeTensor(t)
    case AList(items) => Ok(Entry(None, None, None, Some(items), None))
    case AScalar(x) => Ok(Entry(None, None, None, None, Some(x)))
  }

  /** The value of an entry; Nothing when it has none of the three forms. */
  function FromEntry<X>(e: Entry<X>): Result<Item<X>, WireError> {
    if e.tensorData.Some? then
      var t := DeserializeTensor(e.tensorData.value, e.tensorShape, e.tensorDType);
      if t.Err? then Err(t.error) else Ok(ATensor(t.value))
    else if e.listData.Some? then Ok(AList(e.listData.value))
    else if e.scalarData.Some? then Ok(AScalar(e.scalarData.value))
    else Ok(Nothing)
  }

  /** A list and a scalar travel in a field of their own; of an entry, the tensor counts before the list, and the list
      before the scalar. */
  lemma EntryForms<X>(e: Entry<X>, t: Tensor, items: seq<X>, x: X)
    ensures ToEntry(AList(items)) == Ok(Entry(None, None, None, Some(items), None))
    ensures ToEntry(AScalar(x)) == Ok(Entry(None, None, None, None, Some(x)))
    ensures FromEntry(e) == Ok(ATensor(t)) <==>
            e.tensorData.Some? && DeserializeTensor(e.tensorData.value, e.tensorShape, e.tensorDType) == Ok(t)
    ensures FromEntry(e) == Ok(Nothing) <==> e.tensorData == None && e.listData == None && e.scalarData == None
    ensures FromEntry(e) == Ok(AScalar(x)) <==> e.tensorData == None && e.listData == None && e.scalarData == Some(x)
    ensures FromEntry(e) == Ok(AList(items)) <==> e.tensorData == None && e.listData == Some(items)
  {
  }

  predicate Sendable<X>(v: Item<X>) {
    v.ATensor? ==> v.tensor.dtype != BFloat16
  }

  ghost predicate ItemOk<X>(v: Item<X>) {
    v.ATensor? ==> TensorOk(v.tensor)
  }

  lemma EntryRoundTrip<X>(v: Item<X>)
    requires v != Nothing && ItemOk(v)
    ensures ToEntry(v).Ok? <==> Sendable(v)
    ensures Sendable(v) ==> FromEntry(ToEntry(v).value) == Ok(v)
  {
    if v.ATensor? {
      TensorRoundTripIff<X>(v.tensor);
    }
  }

  // ---- payloads ----

  type Wire<X> = map<string, Entry<X>>

  /** The flat map without its None values. */
  function WithoutNone<X>(flat: FlatMap<Item<X>>): FlatMap<Item<X>> {
    map k | k in flat && flat[k] != Nothing :: flat[k]
  }

  /** The wire entries of a flat map: one for each value that is not None. */
  ghost predicate IsWire<X>(flat: FlatMap<Item<X>>, wire: Wire<X>) {
    && wire.Keys == (set k | k in flat && flat[k] != Nothing)
    && forall k | k in wire :: Ok(wire[k]) == ToEntry(flat[k])
  }

  lemma WireOneMore<X>(f: FlatMap<Item<X>>, done: set<string>, key: string, wire: Wire<X>)
    requires IsWire(Restrict(f, done), wire) && key in f && key !in done
    ensures f[key] == Nothing ==> IsWire(Restrict(f, done + {key}), wire)
    ensures f[key] != Nothing && ToEntry(f[key]).Ok? ==>
            IsWire(Restrict(f, done + {key}), wire[key := ToEntry(f[key]).value])
  {
  }

  /** serialize_payload; None when nothing is left to send. */
  method SerializePayload<X>(p: Nested<Item<X>>)
    returns (r: Result<Option<Wire<X>>, WireError>, ghost flat: FlatMap<Item<X>>)
    requires PayloadOk(p)
    ensures Codec.IsFlatten(p, flat)
    ensures r.Ok? <==> forall k | k in flat :: Sendable(flat[k])
    ensures r.Err? ==> r.error == NotNumpy
    ensures r.Ok? && r.value.Some? ==> r.value.value != map[] && IsWire(flat, r.value.value)
    ensures r.Ok? && r.value == None ==> forall k | k in flat :: flat[k] == Nothing
  {
    var f := Codec.FlattenPayload(p);
    flat := f;
    var wire: Wire<X> := map[];
    var done: set<string> := {};
    while done < f.Keys
      invariant done <= f.Keys && IsWire(Restrict(f, done), wire) && forall k | k in done :: Sendable(f[k])
      decreases f.Keys - done
    {
      var key :| key in f && key !in done;
      WireOneMore(f, done, key, wire);
      if f[key] != Nothing {
        var e := ToEntry(f[key]);
        if e.Err? {
          return Err(e.error), flat;
        }
        wire := wire[key := e.value];
      }
      done := done + {key};
    }
    assert Restrict(f, done) == f;
    r := Ok(if wire == map[] then None else Some(wire));
  }

  /** The values of a wire's entries, without those that have none. */
  ghost predicate IsDecoded<X>(wire: Wire<X>, flat: FlatMap<Item<X>>) {
    && (forall k | k in flat :: k in wire && flat[k] != Nothing && FromEntry(wire[k]) == Ok(flat[k]))
    && forall k | k in wire && k !in flat :: FromEntry(wire[k]) == Ok(Nothing)
  }

  /** A payload, or an error from a tensor entry or from a key. */
  datatype Received<X> = Payload(p: Nested<Item<X>>) | BadTensor(tensorError: WireError) | BadKey(keyError: Codec.Error)

  /** deserialize_payload */
  method DeserializePayload<X>(wire: Wire<X>) returns (r: Received<X>, ghost flat: FlatMap<Item<X>>)
    ensures r.BadTensor? <==> exists k :: k in wire && FromEntry(wire[k]).Err?
    ensures !r.BadTensor? ==>
              && IsDecoded(wire, flat)
              && Codec.IsUnflatten(flat, if r.Payload? then Ok(r.p) else Err(r.keyError))
  {
    var f: FlatMap<Item<X>> := map[];
    flat := f;
    var done: set<string> := {};
    while done < wire.Keys
      invariant done <= wire.Keys && IsDecoded(Restrict(wire, done), f)
                && forall k | k in done :: FromEntry(wire[k]).Ok?
      decreases wire.Keys - done
    {
      var key :| key in wire && key !in done;
      var v := FromEntry(wire[key]);
      if v.Err? {
        return BadTensor(v.error), f;
      }
      if v.value != Nothing {
        f := f[key := v.value];
      }
      done := done + {key};
    }
    assert Restrict(wire, done) == wire;
    var u := Codec.UnflattenPayload(f);
    return if u.Ok? then Payload(u.value) else BadKey(u.error), f;
  }

  function DropNoneSubs<X>(subs: map<string, Sub<Item<X>>>): map<string, Sub<Item<X>>> {
    map q | q in subs && subs[q] != Leaf(Nothing) ::
      if subs[q].Layers? then Layers(map n | n in subs[q].layers && subs[q].layers[n] != Nothing :: subs[q].layers[n])
      else subs[q]
  }

  /** The payload without its None values. */
  function DropNone<X>(p: Nested<Item<X>>): Nested<Item<X>> {
    map c | c in p && p[c] != Plain(Nothing) :: if p[c].Category? then Category(DropNoneSubs(p[c].subs)) else p[c]
  }

  lemma DropNoneAt<X>(p: Nested<Item<X>>, path: Path)
    ensures Lookup(DropNone(p), path) == if Lookup(p, path) == Some(Nothing) then None else Lookup(p, path)
  {
  }

  ghost predicate ItemsOk<X>(flat: FlatMap<Item<X>>) {
    forall k | k in flat :: ItemOk(flat[k]) && Sendable(flat[k])
  }

  lemma DecodedIsFlat<X>(flat: FlatMap<Item<X>>, wire: Wire<X>, flat': FlatMap<Item<X>>)
    requires ItemsOk(flat) && IsWire(flat, wire) && IsDecoded(wire, flat')
    ensures flat' == WithoutNone(flat)
  {
    forall k | k in wire ensures k in flat' && flat'[k] == flat[k] {
      EntryRoundTrip(flat[k]);
    }
  }

  lemma FlatWithoutNone<X>(p: Nested<Item<X>>, flat: FlatMap<Item<X>>)
    requires PayloadOk(p) && Codec.NoDottedTop(p) && Codec.NoLayerSub(p) && Codec.IsFlatten(p, flat)
    ensures Codec.IsFlatten(DropNone(p), WithoutNone(flat))
  {
    Codec.FlattenUnambiguous(p, flat);
    forall path | Lookup(DropNone(p), path).Some? ensures KeyOf(path) in WithoutNone(flat) {
      DropNoneAt(p, path);
    }
    forall k | k in WithoutNone(flat) ensures Codec.FromEntry(DropNone(p), k, flat[k]) {
      DropNoneAt(p, PathOf(k).value);
    }
  }

  lemma DropNoneGood<X>(p: Nested<Item<X>>)
    requires PayloadOk(p) && Codec.NoDottedTop(p) && Codec.NoLayerSub(p)
    ensures PayloadOk(DropNone(p)) && Codec.NoDottedTop(DropNone(p)) && Codec.NoLayerSub(DropNone(p))
  {
  }

  /** What is sent is what arrives: without None values, empty categories and empty layer dicts. */
  lemma WireRoundTrip<X>(p: Nested<Item<X>>, flat: FlatMap<Item<X>>, wire: Wire<X>, flat': FlatMap<Item<X>>,
                         r: Result<Nested<Item<X>>, Codec.Error>)
    requires PayloadOk(p) && Codec.NoDottedTop(p) && Codec.NoLayerSub(p) && Codec.IsFlatten(p, flat) && ItemsOk(flat)
    requires IsWire(flat, wire) && IsDecoded(wire, flat') && Codec.IsUnflatten(flat', r)
    ensures r == Ok(Prune(DropNone(p)))
  {
    DecodedIsFlat(flat, wire, flat');
    FlatWithoutNone(p, flat);
    DropNoneGood(p);
    Codec.GoodPayloadReturns(DropNone(p), flat', r);
  }

  lemma AllNone<X>(flat: FlatMap<Item<X>>)
    ensures (forall k | k in flat :: flat[k] == Nothing) <==> WithoutNone(flat) == map[]
  {
    if WithoutNone(flat) == map[] {
      forall k | k in flat ensures flat[k] == Nothing {
        assert k !in WithoutNone(flat);
      }
    }
  }

  /** Nothing is sent exactly when nothing but None values and empty dicts is there. */
  lemma NothingSentIff<X>(p: Nested<Item<X>>, flat: FlatMap<Item<X>>)
    requires PayloadOk(p) && Codec.NoDottedTop(p) && Codec.NoLayerSub(p) && Codec.IsFlatten(p, flat)
    ensures (forall k | k in flat :: flat[k] == Nothing) <==> Prune(DropNone(p)) == map[]
  {
    AllNone(flat);
    FlatWithoutNone(p, flat);
    DropNoneGood(p);
    Codec.NothingFlattenedIff(DropNone(p), WithoutNone(flat));
  }
}
