/** Nested payloads, their flat form, and the round trips between the two. V is the type of the values a payload holds:
    tensors, lists, scalars, and dicts in the places where the codec keeps a dict as it is. */
module Payload {
  import opened Collections
  import opened Options
  import opened PayloadKeys

  /** A category's value: any value, or the layer dict of hidden_states. */
  datatype Sub<V> = Leaf(value: V) | Layers(layers: map<int, V>)

  /** A top-level value: any value, or a category. */
  datatype Val<V> = Plain(value: V) | Category(subs: map<string, Sub<V>>)

  type Nested<V> = map<string, Val<V>>

  type FlatMap<V> = map<string, V>

  /** The value at a path. */
  function Lookup<V>(p: Nested<V>, path: Path): Option<V> {
    match path
    case Top(key) => if key in p && p[key].Plain? then Some(p[key].value) else None
    case In(category, qualifier) =>
      if category in p && p[category].Category? && qualifier in p[category].subs && p[category].subs[qualifier].Leaf?
      then Some(p[category].subs[qualifier].value) else None
    case Layer(index) =>
      if HIDDEN_STATES in p && p[HIDDEN_STATES].Category? && LAYERS in p[HIDDEN_STATES].subs
            && p[HIDDEN_STATES].subs[LAYERS].Layers?
         && index in p[HIDDEN_STATES].subs[LAYERS].layers
      then Some(p[HIDDEN_STATES].subs[LAYERS].layers[index]) else None
  }

  /** Layer dicts occur only as hidden_states["layers"]. */
  ghost predicate LayersPlaced<V>(p: Nested<V>) {
    forall c, q | c in p && p[c].Category? && q in p[c].subs && p[c].subs[q].Layers? ::
          c == HIDDEN_STATES && q == LAYERS
  }

  /** A payload as flatten_payload takes it: only the five categories are expanded; any other dict is a plain value. */
  ghost predicate PayloadOk<V>(p: Nested<V>) {
    LayersPlaced(p) && forall c | c in p && p[c].Category? :: c in NESTED_KEYS
  }

  /** No category and no layer dict is empty. */
  ghost predicate Pruned<V>(p: Nested<V>) {
    forall c | c in p && p[c].Category? ::
          p[c].subs != map[] && forall q | q in p[c].subs && p[c].subs[q].Layers? :: p[c].subs[q].layers != map[]
  }

  function PruneSubs<V>(subs: map<string, Sub<V>>): map<string, Sub<V>> {
    map q | q in subs && (subs[q].Layers? ==> subs[q].layers != map[]) :: subs[q]
  }

  /** The payload without empty layer dicts and without empty categories. */
  function Prune<V>(p: Nested<V>): Nested<V> {
    map c | c in p && (p[c].Category? ==> PruneSubs(p[c].subs) != map[]) ::
      if p[c].Category? then Category(PruneSubs(p[c].subs)) else p[c]
  }

  ghost predicate SameEntries<V>(p: Nested<V>, p': Nested<V>) {
    forall path :: Lookup(p, path) == Lookup(p', path)
  }

  lemma PruneAt<V>(p: Nested<V>, path: Path)
    ensures Lookup(Prune(p), path) == Lookup(p, path)
  {
    match path
    case Top(key) =>
    case In(category, qualifier) =>
      if Lookup(p, path).Some? {
        assert qualifier in PruneSubs(p[category].subs);
      }
    case Layer(index) =>
      if Lookup(p, path).Some? {
        assert LAYERS in PruneSubs(p[HIDDEN_STATES].subs);
      }
  }

  lemma PruneKeepsEntries<V>(p: Nested<V>)
    requires LayersPlaced(p)
    ensures LayersPlaced(Prune(p)) && Pruned(Prune(p)) && SameEntries(Prune(p), p)
  {
    forall path ensures Lookup(Prune(p), path) == Lookup(p, path) {
      PruneAt(p, path);
    }
  }

  lemma LayersAgree<V>(p: Nested<V>, p': Nested<V>)
    requires SameEntries(p, p')
    requires HIDDEN_STATES in p && p[HIDDEN_STATES].Category? && LAYERS in p[HIDDEN_STATES].subs
             && p[HIDDEN_STATES].subs[LAYERS].Layers?
    requires HIDDEN_STATES in p' && p'[HIDDEN_STATES].Category? && LAYERS in p'[HIDDEN_STATES].subs
             && p'[HIDDEN_STATES].subs[LAYERS].Layers?
    ensures p[HIDDEN_STATES].subs[LAYERS] == p'[HIDDEN_STATES].subs[LAYERS]
  {
    var l, l' := p[HIDDEN_STATES].subs[LAYERS].layers, p'[HIDDEN_STATES].subs[LAYERS].layers;
    forall n ensures (n in l <==> n in l') && (n in l ==> l[n] == l'[n]) {
      assert Lookup(p, Layer(n)) == Lookup(p', Layer(n));
    }
    assert l == l';
  }

  ghost predicate SubShown<V>(p: Nested<V>, p': Nested<V>, c: string, q: string)
    requires c in p && p[c].Category? && q in p[c].subs
  {
    c in p' && p'[c].Category? && q in p'[c].subs && (p[c].subs[q].Leaf? ==> p'[c].subs[q] == p[c].subs[q])
  }

  lemma SubShows<V>(p: Nested<V>, p': Nested<V>, c: string, q: string)
    requires LayersPlaced(p) && Pruned(p) && SameEntries(p, p') && c in p && p[c].Category? && q in p[c].subs
    ensures SubShown(p, p', c, q)
  {
    match p[c].subs[q]
    case Leaf(v) => assert Lookup(p, In(c, q)) == Lookup(p', In(c, q));
    case Layers(layers) =>
      Outside(layers.Keys, {});
      var n :| n in layers.Keys;
      assert Lookup(p, Layer(n)) == Lookup(p', Layer(n));
  }

  lemma KeyShows<V>(p: Nested<V>, p': Nested<V>, c: string)
    requires LayersPlaced(p) && LayersPlaced(p') && Pruned(p) && SameEntries(p, p') && c in p
    ensures c in p' && (p[c].Plain? ==> p'[c] == p[c])
    ensures p[c].Category? ==> p'[c].Category? && p[c].subs.Keys <= p'[c].subs.Keys
    ensures p[c].Category? ==> forall q | q in p[c].subs :: p[c].subs[q].Leaf? ==> p'[c].subs[q] == p[c].subs[q]
  {
    assert Lookup(p, Top(c)) == Lookup(p', Top(c));
    if p[c].Category? {
      forall q | q in p[c].subs ensures SubShown(p, p', c, q) {
        SubShows(p, p', c, q);
      }
    }
  }

  /** A pruned payload holds nothing that its entries do not show. */
  lemma EntriesDetermine<V>(p: Nested<V>, p': Nested<V>)
    requires LayersPlaced(p) && LayersPlaced(p') && Pruned(p) && Pruned(p') && SameEntries(p, p')
    ensures p == p'
  {
    forall c ensures c in p <==> c in p' {
      if c in p { KeyShows(p, p', c); }
      if c in p' { KeyShows(p', p, c); }
    }
    forall c | c in p ensures p[c] == p'[c] {
      KeyShows(p, p', c);
      KeyShows(p', p, c);
      if p[c].Category? {
        forall q | q in p[c].subs && p[c].subs[q].Layers? ensures p[c].subs[q] == p'[c].subs[q] {
          LayersAgree(p, p');
        }
        assert p[c].subs == p'[c].subs;
      }
    }
  }
}
