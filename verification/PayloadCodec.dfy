/** flatten_payload and unflatten_payload, for dicts that yield their items in any order, and their round trips. */
module PayloadCodec {
  import opened Collections
  import opened Options
  import opened PayloadKeys
  import opened Payload

  /** The dicts that flattening expands, by name. */
  lemma ExpandedDicts<V>(p: Nested<V>)
    ensures PayloadOk(p) <==>
            forall c | c in p && p[c].Category? ::
              && c in {"hidden_states", "embed", "ids", "codes", "meta"}
              && forall q | q in p[c].subs && p[c].subs[q].Layers? :: c == "hidden_states" && q == "layers"
  {
    var named := {"hidden_states", "embed", "ids", "codes", "meta"};
    assert named == NESTED_KEYS;
  }

  // ---- flattening ----

  ghost predicate FromEntry<V>(p: Nested<V>, k: string, v: V) {
    exists path :: KeyOf(path) == k && Lookup(p, path) == Some(v)
  }

  /** flat is a flattening of p: every entry's key is there, and every key holds the value of an entry with that key. */
  ghost predicate IsFlatten<V>(p: Nested<V>, flat: FlatMap<V>) {
    && (forall path | Lookup(p, path).Some? :: KeyOf(path) in flat)
    && forall k | k in flat :: FromEntry(p, k, flat[k])
  }

  /** p' is p with one more entry. */
  ghost predicate OneMore<V>(p: Nested<V>, p': Nested<V>, path: Path, v: V) {
    Lookup(p, path) == None && forall x :: Lookup(p', x) == if x == path then Some(v) else Lookup(p, x)
  }

  lemma FlattenOneMore<V>(p: Nested<V>, p': Nested<V>, flat: FlatMap<V>, path: Path, v: V)
    requires IsFlatten(p, flat) && OneMore(p, p', path, v)
    ensures IsFlatten(p', flat[KeyOf(path) := v])
  {
    var flat' := flat[KeyOf(path) := v];
    forall k | k in flat' ensures FromEntry(p', k, flat'[k]) {
      if k == KeyOf(path) {
        assert Lookup(p', path) == Some(v);
      } else {
        assert FromEntry(p, k, flat[k]);
        var x :| KeyOf(x) == k && Lookup(p, x) == Some(flat[k]);
        assert Lookup(p', x) == Lookup(p, x);
      }
    }
  }

  lemma FlattenSame<V>(p: Nested<V>, p': Nested<V>, flat: FlatMap<V>)
    requires IsFlatten(p, flat) && SameEntries(p, p')
    ensures IsFlatten(p', flat)
  {
    forall k | k in flat ensures FromEntry(p', k, flat[k]) {
      assert FromEntry(p, k, flat[k]);
      var x :| KeyOf(x) == k && Lookup(p, x) == Some(flat[k]);
      assert Lookup(p', x) == Some(flat[k]);
    }
  }

  lemma PlainAdded<V>(before: Nested<V>, c: string, v: V)
    requires c !in before
    ensures OneMore(before, before[c := Plain(v)], Top(c), v)
  {
  }

  lemma EmptyCategoryAdded<V>(before: Nested<V>, c: string)
    requires c !in before
    ensures SameEntries(before, before[c := Category(map[])])
  {
  }

  lemma LeafAdded<V>(before: Nested<V>, c: string, subs: map<string, Sub<V>>, q: string, v: V)
    requires q !in subs
    ensures OneMore(before[c := Category(subs)], before[c := Category(subs[q := Leaf(v)])], In(c, q), v)
  {
  }

  lemma LayerAdded<V>(before: Nested<V>, subs: map<string, Sub<V>>, layers: map<int, V>, n: int, v: V)
    requires n !in layers
    ensures OneMore(before[HIDDEN_STATES := Category(subs[LAYERS := Layers(layers)])],
                    before[HIDDEN_STATES := Category(subs[LAYERS := Layers(layers[n := v])])], Layer(n), v)
  {
  }

  lemma EmptyLayersAdded<V>(before: Nested<V>, subs: map<string, Sub<V>>)
    requires LAYERS !in subs
    ensures SameEntries(before[HIDDEN_STATES := Category(subs)],
                        before[HIDDEN_STATES := Category(subs[LAYERS := Layers(map[])])])
  {
  }

  /** hidden_states["layers"] */
  method FlattenLayers<V>(layers: map<int, V>, ghost before: Nested<V>, ghost subs: map<string, Sub<V>>,
                          flat0: FlatMap<V>) returns (flat: FlatMap<V>)
    requires LAYERS !in subs && IsFlatten(before[HIDDEN_STATES := Category(subs[LAYERS := Layers(map[])])], flat0)
    ensures IsFlatten(before[HIDDEN_STATES := Category(subs[LAYERS := Layers(layers)])], flat)
  {
    flat := flat0;
    var done: set<int> := {};
    ghost var seen: map<int, V> := map[];
    while done < layers.Keys
      invariant done <= layers.Keys && seen == (map n | n in layers && n in done :: layers[n])
      invariant IsFlatten(before[HIDDEN_STATES := Category(subs[LAYERS := Layers(seen)])], flat)
      decreases layers.Keys - done
    {
      Outside(layers.Keys, done);
      var n :| n in layers.Keys && n !in done;
      done := done + {n};
      ghost var p := before[HIDDEN_STATES := Category(subs[LAYERS := Layers(seen)])];
      LayerAdded(before, subs, seen, n, layers[n]);
      FlattenOneMore(p, before[HIDDEN_STATES := Category(subs[LAYERS := Layers(seen[n := layers[n]])])], flat, Layer(n),
                     layers[n]);
      flat := flat[KeyOf(Layer(n)) := layers[n]];
      seen := seen[n := layers[n]];
    }
    assert seen == layers;
  }

  /** The values of one category. */
  method FlattenCategory<V>(key: string, subs: map<string, Sub<V>>, ghost before: Nested<V>,
                            flat0: FlatMap<V>) returns (flat: FlatMap<V>)
    requires key !in before && IsFlatten(before[key := Category(map[])], flat0)
    requires forall q | q in subs && subs[q].Layers? :: key == HIDDEN_STATES && q == LAYERS
    ensures IsFlatten(before[key := Category(subs)], flat)
  {
    flat := flat0;
    var done: set<string> := {};
    ghost var seen: map<string, Sub<V>> := map[];
    while done < subs.Keys
      invariant done <= subs.Keys && seen == Restrict(subs, done) && IsFlatten(before[key := Category(seen)], flat)
      decreases subs.Keys - done
    {
      var q :| q in subs && q !in done;
      done := done + {q};
      ghost var p := before[key := Category(seen)];
      if subs[q].Layers? {
        EmptyLayersAdded(before, seen);
        FlattenSame(p, before[key := Category(seen[q := Layers(map[])])], flat);
        flat := FlattenLayers(subs[q].layers, before, seen, flat);
      } else {
        LeafAdded(before, key, seen, q, subs[q].value);
        FlattenOneMore(p, before[key := Category(seen[q := subs[q]])], flat, In(key, q), subs[q].value);
        flat := flat[key + "." + q := subs[q].value];
      }
      seen := seen[q := subs[q]];
      assert seen == Restrict(subs, done);
    }
    assert Restrict(subs, done) == subs;
  }

  /** flatten_payload */
  method FlattenPayload<V>(p: Nested<V>) returns (flat: FlatMap<V>)
    requires PayloadOk(p)
    ensures IsFlatten(p, flat)
  {
    flat := map[];
    var done: set<string> := {};
    ghost var seen: Nested<V> := map[];
    while done < p.Keys
      invariant done <= p.Keys && seen == Restrict(p, done) && IsFlatten(seen, flat)
      decreases p.Keys - done
    {
      var key :| key in p && key !in done;
      done := done + {key};
      if p[key].Category? {
        EmptyCategoryAdded(seen, key);
        FlattenSame(seen, seen[key := Category(map[])], flat);
        flat := FlattenCategory(key, p[key].subs, seen, flat);
      } else {
        PlainAdded(seen, key, p[key].value);
        FlattenOneMore(seen, seen[key := p[key]], flat, Top(key), p[key].value);
        flat := flat[key := p[key].value];
      }
      seen := seen[key := p[key]];
      assert seen == Restrict(p, done);
    }
    assert Restrict(p, done) == p;
  }

  // ---- the flat map's keys, spelt out ----

  ghost predicate LeafAt<V>(p: Nested<V>, k: string, v: V, c: string, q: string) {
    k == c + "." + q && c in p && p[c].Category? && q in p[c].subs && p[c].subs[q] == Leaf(v)
  }

  ghost predicate LayerAt<V>(p: Nested<V>, k: string, v: V, n: int) {
    && k == "hidden_states.layer_" + PrintInt(n) && "hidden_states" in p && p["hidden_states"].Category?
    && "layers" in p["hidden_states"].subs && p["hidden_states"].subs["layers"].Layers?
    && n in p["hidden_states"].subs["layers"].layers && p["hidden_states"].subs["layers"].layers[n] == v
  }

  /** p has the value v under the key k: as it is, as category.qualifier, or as hidden_states.layer_ and a number. */
  ghost predicate ValueAt<V>(p: Nested<V>, k: string, v: V) {
    || (k in p && p[k] == Plain(v))
    || (exists c, q :: LeafAt(p, k, v, c, q))
    || exists n :: LayerAt(p, k, v, n)
  }

  lemma ValueAtIs<V>(p: Nested<V>, k: string, v: V)
    ensures ValueAt(p, k, v) <==> FromEntry(p, k, v)
  {
    if FromEntry(p, k, v) {
      var path :| KeyOf(path) == k && Lookup(p, path) == Some(v);
      match path
      case Top(key) =>
      case In(c, q) => assert LeafAt(p, k, v, c, q);
      case Layer(n) =>
        KeyTexts("", "", "", n);
        assert LayerAt(p, k, v, n);
    }
    if k in p && p[k] == Plain(v) {
      assert KeyOf(Top(k)) == k && Lookup(p, Top(k)) == Some(v);
    }
    forall c, q | LeafAt(p, k, v, c, q) ensures FromEntry(p, k, v) {
      assert KeyOf(In(c, q)) == k && Lookup(p, In(c, q)) == Some(v);
    }
    forall n | LayerAt(p, k, v, n) ensures FromEntry(p, k, v) {
      KeyTexts("", "", "", n);
      assert KeyOf(Layer(n)) == k && Lookup(p, Layer(n)) == Some(v);
    }
  }

  // ---- unflattening ----

  /** ValueError from int(), or TypeError from using a plain value as a dict. */
  datatype Error = BadLayerNumber | NotADict

  /** setdefault(category, {}) */
  function Subs<V>(p: Nested<V>, category: string): map<string, Sub<V>>
    requires category in p ==> p[category].Category?
  {
    if category in p then p[category].subs else map[]
  }

  /** One store of unflatten_payload. */
  function Put<V>(p: Nested<V>, path: Path, v: V): Result<Nested<V>, Error> {
    match path
    case Top(key) => Ok(p[key := Plain(v)])
    case In(category, qualifier) =>
      if category in p && p[category].Plain? then Err(NotADict)
      else Ok(p[category := Category(Subs(p, category)[qualifier := Leaf(v)])])
    case Layer(index) =>
      if HIDDEN_STATES in p && p[HIDDEN_STATES].Plain? then Err(NotADict)
      else
        var subs := Subs(p, HIDDEN_STATES);
        if LAYERS in subs && subs[LAYERS].Leaf? then Err(NotADict)
        else
          var layers := if LAYERS in subs then subs[LAYERS].layers else map[];
          Ok(p[HIDDEN_STATES := Category(subs[LAYERS := Layers(layers[index := v])])])
  }

  /** An entry at a leaves no dict for an entry at b to go into. */
  predicate Shadows(a: Path, b: Path) {
    || (a.Top? && b.In? && b.category == a.key)
    || (a.Top? && b.Layer? && a.key == HIDDEN_STATES)
    || (a.In? && b.Layer? && a == In(HIDDEN_STATES, LAYERS))
  }

  /** The two paths can both be entries of one payload. */
  predicate Compatible(a: Path, b: Path) {
    !Shadows(a, b) && !Shadows(b, a)
  }

  /** Every key reads, no two keys read the same, and no entry shadows another. */
  ghost predicate Unambiguous<V>(flat: FlatMap<V>) {
    && (forall k | k in flat :: PathOf(k).Some?)
    && forall k, l | k in flat && l in flat && k != l ::
          PathOf(k) != PathOf(l) && Compatible(PathOf(k).value, PathOf(l).value)
  }

  ghost predicate NoDottedTop<V>(p: Nested<V>) {
    forall c | c in p :: '.' !in c
  }

  ghost predicate NoLayerSub<V>(p: Nested<V>) {
    HIDDEN_STATES in p && p[HIDDEN_STATES].Category? ==> forall q | q in p[HIDDEN_STATES].subs :: !IsLayerName(q)
  }

  /** What unflatten_payload's results look like: nothing empty, no dotted key, no layer name left in hidden_states. */
  ghost predicate Shaped<V>(p: Nested<V>) {
    LayersPlaced(p) && Pruned(p) && NoDottedTop(p) && NoLayerSub(p)
  }

  /** p's entries are those that the keys of flat read as. */
  ghost predicate Holds<V>(flat: FlatMap<V>, p: Nested<V>) {
    && (forall k | k in flat :: PathOf(k).Some? && Lookup(p, PathOf(k).value) == Some(flat[k]))
    && forall path | Lookup(p, path).Some? :: exists k :: k in flat && PathOf(k) == Some(path)
  }

  ghost predicate KeyGives<V>(flat: FlatMap<V>, path: Path, v: V) {
    exists k :: k in flat && PathOf(k) == Some(path) && flat[k] == v
  }

  /** Every entry of p is one that some key of flat gives. */
  ghost predicate OnlyFrom<V>(flat: FlatMap<V>, p: Nested<V>) {
    forall path | Lookup(p, path).Some? :: KeyGives(flat, path, Lookup(p, path).value)
  }

  /** One item of the flat map: stored where its key says. A layer number is read once hidden_states is a dict. */
  function Store<V>(p: Nested<V>, key: string, v: V): Result<Nested<V>, Error> {
    if PathOf(key).Some? then Put(p, PathOf(key).value, v)
    else if HIDDEN_STATES in p && p[HIDDEN_STATES].Plain? then Err(NotADict)
    else Err(BadLayerNumber)
  }

  /** Some of flat's keys, one after the other. */
  ghost predicate IsOrder<V>(flat: FlatMap<V>, order: seq<string>) {
    (forall k | k in order :: k in flat) && forall i, j | 0 <= i < j < |order| :: order[i] != order[j]
  }

  /** The items stored one by one, up to the first that fails. */
  ghost function StoreAll<V>(flat: FlatMap<V>, order: seq<string>): Result<Nested<V>, Error>
    requires IsOrder(flat, order)
  {
    if order == [] then Ok(map[])
    else
      var before, key := StoreAll(flat, order[..|order| - 1]), order[|order| - 1];
      if before.Err? then before else Store(before.value, key, flat[key])
  }

  /** r is what storing flat's items leaves, in some order; all of them, unless one fails. */
  ghost predicate IsUnflatten<V>(flat: FlatMap<V>, r: Result<Nested<V>, Error>) {
    exists order :: IsOrder(flat, order) && r == StoreAll(flat, order) && (r.Ok? ==> forall k | k in flat :: k in order)
  }

  lemma PutShaped<V>(p: Nested<V>, path: Path, v: V)
    requires Shaped(p) && Readable(path)
    ensures Put(p, path, v).Ok? ==> Shaped(Put(p, path, v).value)
  {
    assert '.' !in HIDDEN_STATES && LAYERS[5] != LAYER_PREFIX[5];
    match path
    case Top(key) =>
    case In(category, qualifier) =>
      if Put(p, path, v).Ok? {
        var subs := Subs(p, category)[qualifier := Leaf(v)];
        assert qualifier in subs && forall q | q in subs && q != qualifier :: q in Subs(p, category);
      }
    case Layer(index) =>
      if Put(p, path, v).Ok? {
        var subs := Put(p, path, v).value[HIDDEN_STATES].subs;
        assert LAYERS in subs && index in subs[LAYERS].layers
            && forall q | q in subs && q != LAYERS :: q in Subs(p, HIDDEN_STATES);
      }
  }

  /** A store fails exactly when an entry shadows its path. Otherwise it leaves its value at its path, takes away the
      entries that its path shadows, and keeps every other entry. */
  lemma PutIs<V>(p: Nested<V>, path: Path, v: V)
    ensures Put(p, path, v).Err? <==> exists x :: Lookup(p, x).Some? && Shadows(x, path)
    ensures Put(p, path, v).Err? ==> Put(p, path, v).error == NotADict
    ensures Put(p, path, v).Ok? ==>
              forall x :: Lookup(Put(p, path, v).value, x) ==
                if x == path then Some(v) else if Shadows(path, x) then None else Lookup(p, x)
  {
    match path
    case Top(_) =>
    case In(c, _) => assert c in p && p[c].Plain? ==> Lookup(p, Top(c)).Some?;
    case Layer(_) =>
      assert HIDDEN_STATES in p && p[HIDDEN_STATES].Plain? ==> Lookup(p, Top(HIDDEN_STATES)).Some?;
      assert Put(p, path, v).Err? && HIDDEN_STATES in p && p[HIDDEN_STATES].Category? ==>
               Lookup(p, In(HIDDEN_STATES, LAYERS)).Some?;
  }

  lemma OnlyFromOneMore<V>(flat: FlatMap<V>, done: set<string>, key: string, p: Nested<V>)
    requires done <= flat.Keys && key in flat && PathOf(key).Some? && OnlyFrom(Restrict(flat, done), p)
    ensures var next := Put(p, PathOf(key).value, flat[key]);
            next.Ok? ==> OnlyFrom(Restrict(flat, done + {key}), next.value)
  {
    var path, next := PathOf(key).value, Put(p, PathOf(key).value, flat[key]);
    if next.Ok? {
      forall x | Lookup(next.value, x).Some?
        ensures KeyGives(Restrict(flat, done + {key}), x, Lookup(next.value, x).value)
      {
        PutIs(p, path, flat[key]);
        if x == path {
          assert key in Restrict(flat, done + {key});
        } else {
          var k :| k in Restrict(flat, done) && PathOf(k) == Some(x) && flat[k] == Lookup(p, x).value;
          assert k in Restrict(flat, done + {key});
        }
      }
    }
  }

  /** A store that no entry shadows and that shadows none adds or replaces exactly its own entry. */
  lemma PutAt<V>(p: Nested<V>, path: Path, v: V)
    requires forall x | Lookup(p, x).Some? :: x == path || Compatible(x, path)
    ensures Put(p, path, v).Ok?
    ensures forall x :: Lookup(Put(p, path, v).value, x) == if x == path then Some(v) else Lookup(p, x)
  {
    PutIs(p, path, v);
    assert !Shadows(path, path);
    assert forall x | Shadows(path, x) :: Lookup(p, x) == None;
  }

  lemma UnflattenOneMore<V>(flat: FlatMap<V>, done: set<string>, key: string, p: Nested<V>)
    requires Unambiguous(flat) && done <= flat.Keys && key in flat && key !in done
    requires Shaped(p) && Holds(Restrict(flat, done), p)
    ensures Put(p, PathOf(key).value, flat[key]).Ok?
    ensures Holds(Restrict(flat, done + {key}), Put(p, PathOf(key).value, flat[key]).value)
  {
    var path, before, after := PathOf(key).value, Restrict(flat, done), Restrict(flat, done + {key});
    forall x | Lookup(p, x).Some? ensures x != path && Compatible(x, path) {
      var k :| k in before && PathOf(k) == Some(x);
    }
    PutAt(p, path, flat[key]);
    var p' := Put(p, path, flat[key]).value;
    forall k | k in after ensures Lookup(p', PathOf(k).value) == Some(after[k]) {
      if k != key {
        assert k in before && PathOf(k) != PathOf(key);
      }
    }
    forall x | Lookup(p', x).Some? ensures exists k :: k in after && PathOf(k) == Some(x) {
      if x == path {
        assert key in after;
      } else {
        var k :| k in before && PathOf(k) == Some(x);
        assert k in after;
      }
    }
  }

  function Elements(order: seq<string>): set<string> {
    set k | k in order
  }

  /** What holds after the items of an order are stored. */
  lemma {:induction false} StoreAllIs<V>(flat: FlatMap<V>, order: seq<string>)
    requires IsOrder(flat, order)
    ensures var r := StoreAll(flat, order);
            && (r.Ok? ==> Shaped(r.value) && OnlyFrom(Restrict(flat, Elements(order)), r.value)
                          && forall k | k in order :: PathOf(k).Some?)
            && (Unambiguous(flat) ==> r.Ok? && Holds(Restrict(flat, Elements(order)), r.value))
    decreases |order|
  {
    if order != [] {
      var init, key := order[..|order| - 1], order[|order| - 1];
      StoreAllIs(flat, init);
      assert Elements(order) == Elements(init) + {key} && key !in Elements(init);
      var before := StoreAll(flat, init);
      if before.Ok? && PathOf(key).Some? {
        PathIsReadable(key);
        PutShaped(before.value, PathOf(key).value, flat[key]);
        OnlyFromOneMore(flat, Elements(init), key, before.value);
        if Unambiguous(flat) {
          UnflattenOneMore(flat, Elements(init), key, before.value);
        }
      }
    }
  }

  /** Whatever the order: a success means that every key was readable, and leaves a payload of the usual shape without
      an entry of its own; if the keys are unambiguous, it succeeds and leaves exactly their entries. */
  lemma UnflattenIs<V>(flat: FlatMap<V>, r: Result<Nested<V>, Error>)
    requires IsUnflatten(flat, r)
    ensures r.Ok? ==> Shaped(r.value) && OnlyFrom(flat, r.value) && forall k | k in flat :: PathOf(k).Some?
    ensures Unambiguous(flat) ==> r.Ok? && Holds(flat, r.value)
  {
    var order :| IsOrder(flat, order) && r == StoreAll(flat, order) && (r.Ok? ==> forall k | k in flat :: k in order);
    StoreAllIs(flat, order);
    if r.Ok? {
      assert Restrict(flat, Elements(order)) == flat;
    }
  }

  /** An order that fails has a first item whose store fails. */
  lemma {:induction false} FirstFailure<V>(flat: FlatMap<V>, order: seq<string>)
    returns (init: seq<string>, key: string)
    requires IsOrder(flat, order) && StoreAll(flat, order).Err?
    ensures IsOrder(flat, init) && key in flat && StoreAll(flat, init).Ok?
    ensures StoreAll(flat, order) == Store(StoreAll(flat, init).value, key, flat[key])
    decreases |order|
  {
    init, key := order[..|order| - 1], order[|order| - 1];
    if StoreAll(flat, init).Err? {
      init, key := FirstFailure(flat, init);
    }
  }

  lemma StoreShadowed<V>(p: Nested<V>, key: string, v: V) returns (x: Path)
    requires Store(p, key, v) == Err(NotADict)
    ensures Lookup(p, x).Some? && if PathOf(key).Some? then Shadows(x, PathOf(key).value) else x == Top("hidden_states")
  {
    if PathOf(key).Some? {
      PutIs(p, PathOf(key).value, v);
      x :| Lookup(p, x).Some? && Shadows(x, PathOf(key).value);
    } else {
      x := Top(HIDDEN_STATES);
    }
  }

  /** The value under k leaves no dict for the value under l to go into, by their texts. */
  predicate Blocks(k: string, l: string) {
    ('.' !in k && k + "." <= l) || (k == "hidden_states.layers" && "hidden_states.layer_" <= l)
  }

  lemma ShadowsIsBlocks(k: string, l: string)
    requires PathOf(k).Some?
    requires PathOf(l).Some? ==> Shadows(PathOf(k).value, PathOf(l).value)
    requires PathOf(l) == None ==> PathOf(k).value == Top(HIDDEN_STATES)
    ensures Blocks(k, l)
  {
    KeyOfPath(k);
    KeyOfPath(l);
  }

  /** What each error means: a layer key without a number, or a value in the place of a dict. */
  lemma UnflattenErrors<V>(flat: FlatMap<V>, r: Result<Nested<V>, Error>)
    requires IsUnflatten(flat, r)
    ensures r == Err(BadLayerNumber) ==>
              exists text :: "hidden_states.layer_" + text in flat && forall n :: !IsIntText(text, n)
    ensures r == Err(NotADict) ==> exists k, l :: k in flat && l in flat && Blocks(k, l)
  {
    if r.Err? {
      var order :| IsOrder(flat, order) && r == StoreAll(flat, order);
      var init, l := FirstFailure(flat, order);
      var p := StoreAll(flat, init).value;
      StoreAllIs(flat, init);
      if r.error == BadLayerNumber {
        var text := UnreadableKey(l);
      } else {
        var x := StoreShadowed(p, l, flat[l]);
        assert KeyGives(Restrict(flat, Elements(init)), x, Lookup(p, x).value);
        var k :| k in flat && PathOf(k) == Some(x);
        ShadowsIsBlocks(k, l);
      }
    }
  }

  /** unflatten_payload */
  method UnflattenPayload<V>(flat: FlatMap<V>) returns (r: Result<Nested<V>, Error>)
    ensures IsUnflatten(flat, r)
    ensures r.Ok? ==> Shaped(r.value) && OnlyFrom(flat, r.value) && forall k | k in flat :: PathOf(k).Some?
    ensures Unambiguous(flat) ==> r.Ok? && Holds(flat, r.value)
  {
    var p: Nested<V> := map[];
    var done: set<string> := {};
    ghost var order: seq<string> := [];
    while done < flat.Keys
      invariant done <= flat.Keys && done == Elements(order)
      invariant IsOrder(flat, order) && StoreAll(flat, order) == Ok(p)
      decreases flat.Keys - done
    {
      var key :| key in flat && key !in done;
      ghost var more := order + [key];
      assert more[..|order|] == order && IsOrder(flat, more) && Elements(more) == done + {key};
      var next := Store(p, key, flat[key]);
      if next.Err? {
        UnflattenIs(flat, next);
        return next;
      }
      p, order, done := next.value, more, done + {key};
    }
    UnflattenIs(flat, Ok(p));
    return Ok(p);
  }

  /** Where the values of an unambiguous map end up: under a key without a dot as it is; under "category.qualifier" in
      that category; under "hidden_states.layer_" and a number as that layer. */
  lemma UnflattenValues<V>(flat: FlatMap<V>, p: Nested<V>)
    requires Unambiguous(flat) && IsUnflatten(flat, Ok(p))
    ensures forall k | k in flat && '.' !in k :: k in p && p[k] == Plain(flat[k])
    ensures forall c: string, q | '.' !in c && c + "." + q in flat && !(c == "hidden_states" && "layer_" <= q) ::
              c in p && p[c].Category? && q in p[c].subs && p[c].subs[q] == Leaf(flat[c + "." + q])
    ensures forall text, n | "hidden_states.layer_" + text in flat && IsIntText(text, n) ::
              LayerAt(p, "hidden_states.layer_" + PrintInt(n), flat["hidden_states.layer_" + text], n)
  {
    UnflattenIs(flat, Ok(p));
    forall c: string, q | '.' !in c && c + "." + q in flat && !(c == "hidden_states" && "layer_" <= q)
      ensures c in p && p[c].Category? && q in p[c].subs && p[c].subs[q] == Leaf(flat[c + "." + q])
    {
      KeyReads(c, q);
      assert Lookup(p, In(c, q)) == Some(flat[c + "." + q]);
    }
    forall text, n | "hidden_states.layer_" + text in flat && IsIntText(text, n)
      ensures LayerAt(p, "hidden_states.layer_" + PrintInt(n), flat["hidden_states.layer_" + text], n)
    {
      LayerKeyReads(text);
      assert Lookup(p, Layer(n)) == Some(flat["hidden_states.layer_" + text]);
    }
  }

  function LayerAlone<V>(n: int, v: V): Nested<V> {
    map["hidden_states" := Category(map["layers" := Layers(map[n := v])])]
  }

  lemma LayerAloneAt<V>(n: int, v: V, x: Path)
    ensures Lookup(LayerAlone(n, v), x) == if x == Layer(n) then Some(v) else None
  {
  }

  lemma LayerAlonePruned<V>(n: int, v: V)
    ensures LayersPlaced(LayerAlone(n, v)) && Pruned(LayerAlone(n, v))
  {
    var p := LayerAlone(n, v);
    assert "layers" in p["hidden_states"].subs && n in p["hidden_states"].subs["layers"].layers;
  }

  lemma OneEntry<V>(key: string, path: Path, v: V, p: Nested<V>)
    requires PathOf(key) == Some(path) && Holds(map[key := v], p)
    ensures forall x :: Lookup(p, x) == if x == path then Some(v) else None
  {
  }

  /** A map with one layer key unflattens to that layer alone. */
  lemma OneLayer<V>(text: string, n: int, v: V, r: Result<Nested<V>, Error>)
    requires IsIntText(text, n) && IsUnflatten(map["hidden_states.layer_" + text := v], r)
    ensures r == Ok(map["hidden_states" := Category(map["layers" := Layers(map[n := v])])])
  {
    var key, p := "hidden_states.layer_" + text, LayerAlone(n, v);
    assert PathOf(key) == Some(Layer(n)) by { LayerKeyReads(text); }
    UnflattenIs(map[key := v], r);
    OneEntry(key, Layer(n), v, r.value);
    forall x ensures Lookup(r.value, x) == Lookup(p, x) {
      LayerAloneAt(n, v, x);
    }
    LayerAlonePruned(n, v);
    EntriesDetermine(r.value, p);
  }

  // ---- round trips ----

  /** A payload whose keys all read back as the entries they came from. */
  lemma EntriesReadable<V>(p: Nested<V>)
    requires PayloadOk(p) && NoDottedTop(p) && NoLayerSub(p)
    ensures forall path | Lookup(p, path).Some? :: PathOf(KeyOf(path)) == Some(path)
  {
    forall path | Lookup(p, path).Some? ensures PathOf(KeyOf(path)) == Some(path) {
      KeyReadsBackIff(path);
    }
  }

  lemma EntriesCompatible<V>(p: Nested<V>, a: Path, b: Path)
    requires Lookup(p, a).Some? && Lookup(p, b).Some?
    ensures Compatible(a, b)
  {
  }

  lemma FlattenUnambiguous<V>(p: Nested<V>, flat: FlatMap<V>)
    requires PayloadOk(p) && NoDottedTop(p) && NoLayerSub(p) && IsFlatten(p, flat)
    ensures Unambiguous(flat)
    ensures forall path | Lookup(p, path).Some? :: KeyOf(path) in flat && Lookup(p, path) == Some(flat[KeyOf(path)])
    ensures forall k | k in flat ::
              PathOf(k).Some? && KeyOf(PathOf(k).value) == k && Lookup(p, PathOf(k).value) == Some(flat[k])
  {
    EntriesReadable(p);
    forall k | k in flat
      ensures PathOf(k).Some? && KeyOf(PathOf(k).value) == k && Lookup(p, PathOf(k).value) == Some(flat[k]) {
      assert FromEntry(p, k, flat[k]);
      var x :| KeyOf(x) == k && Lookup(p, x) == Some(flat[k]);
      assert PathOf(k) == Some(x);
    }
    forall path | Lookup(p, path).Some? ensures Lookup(p, path) == Some(flat[KeyOf(path)]) {
      assert PathOf(KeyOf(path)) == Some(path);
    }
    forall k, l | k in flat && l in flat && k != l
      ensures PathOf(k) != PathOf(l) && Compatible(PathOf(k).value, PathOf(l).value) {
      EntriesCompatible(p, PathOf(k).value, PathOf(l).value);
    }
  }

  /** The keys of a flattening are those of p's values, each with a value that p has under it; with the value, when no
      top-level key has a dot and no key of hidden_states looks like a layer. */
  lemma FlattenKeys<V>(p: Nested<V>, flat: FlatMap<V>, k: string)
    requires IsFlatten(p, flat)
    ensures k in flat <==> exists v :: ValueAt(p, k, v)
    ensures k in flat ==> ValueAt(p, k, flat[k])
    ensures PayloadOk(p) && NoDottedTop(p) && NoLayerSub(p) ==> forall v | ValueAt(p, k, v) :: k in flat && flat[k] == v
  {
    if k in flat {
      assert FromEntry(p, k, flat[k]);
      ValueAtIs(p, k, flat[k]);
    }
    forall v | ValueAt(p, k, v)
      ensures k in flat && (PayloadOk(p) && NoDottedTop(p) && NoLayerSub(p) ==> flat[k] == v)
    {
      ValueAtIs(p, k, v);
      var path :| KeyOf(path) == k && Lookup(p, path) == Some(v);
      if PayloadOk(p) && NoDottedTop(p) && NoLayerSub(p) {
        FlattenUnambiguous(p, flat);
      }
    }
  }

  lemma SameAt<V>(p: Nested<V>, flat: FlatMap<V>, p': Nested<V>, path: Path)
    requires PayloadOk(p) && IsFlatten(p, flat) && NoDottedTop(p) && NoLayerSub(p) && Holds(flat, p')
    ensures Lookup(p', path) == Lookup(p, path)
  {
    FlattenUnambiguous(p, flat);
    EntriesReadable(p);
    if Lookup(p, path).Some? {
      assert KeyOf(path) in flat && PathOf(KeyOf(path)) == Some(path);
    }
    if Lookup(p', path).Some? {
      var k :| k in flat && PathOf(k) == Some(path);
      assert Lookup(p, path) == Some(flat[k]);
    }
  }

  lemma GoodPayloadReturns<V>(p: Nested<V>, flat: FlatMap<V>, r: Result<Nested<V>, Error>)
    requires PayloadOk(p) && IsFlatten(p, flat) && IsUnflatten(flat, r) && NoDottedTop(p) && NoLayerSub(p)
    ensures r == Ok(Prune(p))
  {
    UnflattenIs(flat, r);
    PruneKeepsEntries(p);
    FlattenUnambiguous(p, flat);
    forall path ensures Lookup(r.value, path) == Lookup(p, path) {
      SameAt(p, flat, r.value, path);
    }
    EntriesDetermine(r.value, Prune(p));
  }

  /** Nothing is flattened exactly when nothing but empty dicts is there. */
  lemma NothingFlattenedIff<V>(p: Nested<V>, flat: FlatMap<V>)
    requires PayloadOk(p) && IsFlatten(p, flat)
    ensures flat == map[] <==> Prune(p) == map[]
  {
    PruneKeepsEntries(p);
    if flat == map[] {
      EntriesDetermine(Prune(p), map[]);
    } else {
      var k :| k in flat;
      assert FromEntry(p, k, flat[k]);
      var path :| KeyOf(path) == k && Lookup(p, path) == Some(flat[k]);
      assert Lookup(Prune(p), path).Some?;
    }
  }

  lemma LayerNamesSurvivePruning<V>(p: Nested<V>)
    requires LayersPlaced(p) && NoLayerSub(Prune(p))
    ensures NoLayerSub(p)
  {
    assert LAYERS[5] != LAYER_PREFIX[5];
    if HIDDEN_STATES in p && p[HIDDEN_STATES].Category? {
      forall q | q in p[HIDDEN_STATES].subs ensures !IsLayerName(q) {
        if q != LAYERS {
          assert q in PruneSubs(p[HIDDEN_STATES].subs);
        }
      }
    }
  }

  lemma DotsSurvivePruning<V>(p: Nested<V>)
    requires PayloadOk(p) && NoDottedTop(Prune(p))
    ensures NoDottedTop(p)
  {
    forall c | c in p ensures '.' !in c {
      if p[c].Plain? {
        assert c in Prune(p);
      } else {
        assert c in NESTED_KEYS;
      }
    }
  }

  /** Unflattening a flattening returns the payload, without empty categories and empty layer dicts, exactly when no
      top-level key has a dot and no hidden_states key looks like a layer. */
  lemma FlattenRoundTripIff<V>(p: Nested<V>, flat: FlatMap<V>, r: Result<Nested<V>, Error>)
    requires PayloadOk(p) && IsFlatten(p, flat) && IsUnflatten(flat, r)
    ensures r == Ok(Prune(p)) <==> NoDottedTop(p) && NoLayerSub(p)
  {
    UnflattenIs(flat, r);
    if NoDottedTop(p) && NoLayerSub(p) {
      GoodPayloadReturns(p, flat, r);
    } else if r == Ok(Prune(p)) {
      DotsSurvivePruning(p);
      LayerNamesSurvivePruning(p);
    }
  }

  /** The dotted keys name categories that flattening expands. */
  ghost predicate KnownCategories<V>(flat: FlatMap<V>) {
    forall k | k in flat && PathOf(k).Some? && PathOf(k).value.In? :: PathOf(k).value.category in NESTED_KEYS
  }

  /** Layer numbers are written the way flattening writes them. */
  ghost predicate Canonical<V>(flat: FlatMap<V>) {
    forall k | k in flat :: PathOf(k).Some? && KeyOf(PathOf(k).value) == k
  }

  lemma UnflattenedIsPayload<V>(flat: FlatMap<V>, p: Nested<V>)
    requires KnownCategories(flat) && Shaped(p) && OnlyFrom(flat, p)
    ensures PayloadOk(p)
  {
    forall c | c in p && p[c].Category? ensures c in NESTED_KEYS {
      var q :| q in p[c].subs;
      match p[c].subs[q]
      case Leaf(v) =>
        assert Lookup(p, In(c, q)) == Some(v);
        assert KeyGives(flat, In(c, q), v);
      case Layers(_) =>
    }
  }

  /** The keys of an unambiguous map come back as their paths print. */
  lemma CanonicalReturns<V>(flat: FlatMap<V>, p: Nested<V>, flat': FlatMap<V>)
    requires Unambiguous(flat) && Canonical(flat) && PayloadOk(p) && Shaped(p) && Holds(flat, p) && OnlyFrom(flat, p)
    requires IsFlatten(p, flat')
    ensures flat' == flat
  {
    FlattenUnambiguous(p, flat');
    forall k | k in flat' ensures k in flat && flat[k] == flat'[k] {
      assert KeyGives(flat, PathOf(k).value, flat'[k]);
    }
  }

  /** Flattening what a flat map unflattens to gives the map back exactly when its keys are unambiguous and its layer
      numbers are canonical. In every other case unflattening raises, or some key or value is lost. */
  lemma UnflattenRoundTripIff<V>(flat: FlatMap<V>, r: Result<Nested<V>, Error>, flat': FlatMap<V>)
    requires KnownCategories(flat) && IsUnflatten(flat, r) && (r.Ok? ==> IsFlatten(r.value, flat'))
    ensures r.Ok? ==> PayloadOk(r.value)
    ensures r.Ok? && flat' == flat <==> Unambiguous(flat) && Canonical(flat)
  {
    UnflattenIs(flat, r);
    if r.Ok? {
      UnflattenedIsPayload(flat, r.value);
      FlattenUnambiguous(r.value, flat');
      if Unambiguous(flat) && Canonical(flat) {
        CanonicalReturns(flat, r.value, flat');
      }
    }
  }
}
