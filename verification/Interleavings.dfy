/** The programs of a grid, overlapping in time: their stores reach memory in any order that keeps each program's
    own. */
module Interleavings {
  import opened ExtReal
  import opened Layout
  import opened PagedCache
  import opened Kernels
  import opened Buffers
  import opened DecodePrograms

  /** A cell of the output or of a scratch buffer. */
  datatype Place = Out(cell: nat) | PartialM(cell: nat) | PartialL(cell: nat) | PartialAcc(cell: nat)

  /** One store of one program. */
  datatype Store = Store(place: Place, value: Ext)

  type Cells = map<Place, Ext>

  /** Memory after a sequence of stores. */
  function Replay(stores: seq<Store>, cells: Cells): Cells {
    if stores == [] then cells else Replay(stores[1..], cells[stores[0].place := stores[0].value])
  }

  predicate IsNext(program: seq<Store>, x: Store) {
    program != [] && program[0] == x
  }

  /** The stores are those of the programs, merged. */
  ghost predicate IsMerge(programs: seq<seq<Store>>, stores: seq<Store>)
    decreases |stores|
  {
    if stores == [] then forall p | 0 <= p < |programs| :: programs[p] == []
    else exists p ::
      && 0 <= p < |programs|
      && IsNext(programs[p], stores[0])
      && IsMerge(programs[p := programs[p][1..]], stores[1..])
  }

  ghost predicate StoredBy(programs: seq<seq<Store>>, x: Store) {
    exists p :: 0 <= p < |programs| && x in programs[p]
  }

  /** A merge holds the programs' stores and no others. */
  lemma {:induction false} MergeHolds(programs: seq<seq<Store>>, stores: seq<Store>, x: Store)
    requires IsMerge(programs, stores)
    ensures x in stores <==> StoredBy(programs, x)
    decreases |stores|
  {
    if stores != [] {
      var p :| 0 <= p < |programs| && IsNext(programs[p], stores[0])
            && IsMerge(programs[p := programs[p][1..]], stores[1..]);
      var rest := programs[p := programs[p][1..]];
      MergeHolds(rest, stores[1..], x);
      assert programs[p] == [stores[0]] + rest[p];
      if StoredBy(rest, x) {
        var q :| 0 <= q < |rest| && x in rest[q];
        assert x in programs[q];
      }
      if StoredBy(programs, x) && x != stores[0] {
        var q :| 0 <= q < |programs| && x in programs[q];
        assert x in rest[q];
      }
    }
  }

  /** A place ends up with the value of its stores, when they agree; any other keeps its value. */
  lemma {:induction false} ReplayAgreeing(stores: seq<Store>, cells: Cells, place: Place, v: Ext)
    requires place in cells && forall x | x in stores :: x.place == place ==> x.value == v
    ensures place in Replay(stores, cells)
    ensures Replay(stores, cells)[place] == if Store(place, v) in stores then v else cells[place]
  {
    if stores != [] {
      assert forall x | x in stores[1..] :: x in stores;
      ReplayAgreeing(stores[1..], cells[stores[0].place := stores[0].value], place, v);
      assert stores == [stores[0]] + stores[1..];
    }
  }

  /** After any merge of the programs, a place that they store one value into holds it, and a place that they do not
      store into keeps its value. */
  lemma MergeLeaves(programs: seq<seq<Store>>, stores: seq<Store>, cells: Cells, place: Place, v: Ext)
    requires IsMerge(programs, stores) && place in cells
    requires forall x | StoredBy(programs, x) :: x.place == place ==> x.value == v
    ensures place in Replay(stores, cells)
    ensures Replay(stores, cells)[place] == if StoredBy(programs, Store(place, v)) then v else cells[place]
  {
    forall x | x in stores ensures x.place == place ==> x.value == v {
      MergeHolds(programs, stores, x);
    }
    MergeHolds(programs, stores, Store(place, v));
    ReplayAgreeing(stores, cells, place, v);
  }

  lemma {:induction false} InFlat<T>(xs: seq<seq<T>>, x: T)
    ensures x in Flat(xs) <==> exists i :: 0 <= i < |xs| && x in xs[i]
  {
    if xs != [] {
      InFlat(xs[1..], x);
      if x in Flat(xs[1..]) {
        var i :| 0 <= i < |xs[1..]| && x in xs[1..][i];
        assert x in xs[i + 1];
      }
      if i :| 0 < i < |xs| && x in xs[i] {
        assert x in xs[1..][i - 1];
      }
    }
  }

  // ---- the grids that write the output ----

  /** What a program of such a grid has computed. */
  datatype Program = Program(b: nat, kv: nat, result: seq<seq<Ext>>)

  /** The masked stores of its result. */
  function HeadStores(s: Shape, p: Program): seq<Store>
    requires s.numQ == s.numKv * s.group && p.b < s.batch && p.kv < s.numKv
    requires s.group <= |p.result| && forall h | 0 <= h < s.group :: |p.result[h]| == s.headDim
  {
    Flat(seq(s.group, h requires 0 <= h < s.group =>
      seq(s.headDim, d requires 0 <= d < s.headDim => Store(Out(Cell(s, p.b, p.kv, h, d)), p.result[h][d]))))
  }

  lemma HeadStoresAre(s: Shape, p: Program, x: Store)
    requires s.numQ == s.numKv * s.group && p.b < s.batch && p.kv < s.numKv
    requires s.group <= |p.result| && forall h | 0 <= h < s.group :: |p.result[h]| == s.headDim
    ensures x in HeadStores(s, p) <==>
            exists h, d :: InGrid(s, p.b, p.kv, h, d) && x == Store(Out(Cell(s, p.b, p.kv, h, d)), p.result[h][d])
  {
    var rows := seq(s.group, h requires 0 <= h < s.group =>
      seq(s.headDim, d requires 0 <= d < s.headDim => Store(Out(Cell(s, p.b, p.kv, h, d)), p.result[h][d])));
    InFlat(rows, x);
    if x in HeadStores(s, p) {
      var h :| 0 <= h < |rows| && x in rows[h];
      var d :| 0 <= d < |rows[h]| && rows[h][d] == x;
      assert InGrid(s, p.b, p.kv, h, d);
    }
    if h, d :| InGrid(s, p.b, p.kv, h, d) && x == Store(Out(Cell(s, p.b, p.kv, h, d)), p.result[h][d]) {
      assert rows[h][d] == x;
    }
  }

  ghost predicate HasProgram(ps: seq<Program>, b: nat, kv: nat) {
    exists p :: p in ps && p.b == b && p.kv == kv
  }

  /** The programs of a grid that writes the output: one per row and key/value head, each with the attention its kernel
      computes if the row is live. The small kernel's live rows are the unguarded ones, which it attends to in full
      (SmallDecodeRow); the combine kernel's are the long ones, up to what the splits cover (CombineRow). */
  ghost predicate IsGrid(g: Launch, t: Tensors, live: nat -> bool, tokens: nat -> nat, ps: seq<Program>)
    requires Launchable(g, t)
  {
    && (forall p | p in ps ::
          && p.b < g.s.batch
          && p.kv < g.s.numKv
          && (live(p.b) ==> tokens(p.b) <= Len(t, p.b) && IsAttention(g, t, p.b, p.kv, tokens(p.b), p.result)))
    && forall b: nat, kv: nat | b < g.s.batch && kv < g.s.numKv :: HasProgram(ps, b, kv)
  }

  ghost function GridStores(g: Launch, t: Tensors, live: nat -> bool, tokens: nat -> nat,
                            ps: seq<Program>): (r: seq<seq<Store>>)
    requires Launchable(g, t) && IsGrid(g, t, live, tokens, ps)
    ensures |r| == |ps|
  {
    seq(|ps|, i requires 0 <= i < |ps| => assert ps[i] in ps; if live(ps[i].b) then HeadStores(g.s, ps[i]) else [])
  }

  lemma ResultStored(g: Launch, t: Tensors, n: nat, p: Program, x: Store)
    requires Launchable(g, t) && p.b < g.s.batch && p.kv < g.s.numKv && n <= Len(t, p.b)
    requires IsAttention(g, t, p.b, p.kv, n, p.result) && x in HeadStores(g.s, p)
    ensures exists h, d ::
              && InGrid(g.s, p.b, p.kv, h, d)
              && x == Store(Out(Cell(g.s, p.b, p.kv, h, d)), Output(g, t, p.b, p.kv, h, d, n))
  {
    HeadStoresAre(g.s, p, x);
    var h, d :| InGrid(g.s, p.b, p.kv, h, d) && x == Store(Out(Cell(g.s, p.b, p.kv, h, d)), p.result[h][d]);
    assert p.result[h][d] == Output(g, t, p.b, p.kv, h, d, n);
  }

  /** What the programs of a grid store is the attention of the live rows' heads. */
  lemma GridStoresAre(g: Launch, t: Tensors, live: nat -> bool, tokens: nat -> nat, ps: seq<Program>, x: Store)
    requires Launchable(g, t) && IsGrid(g, t, live, tokens, ps) && StoredBy(GridStores(g, t, live, tokens, ps), x)
    ensures exists b, kv, h, d :: InGrid(g.s, b, kv, h, d) && live(b) && tokens(b) <= Len(t, b)
                                  && x == Store(Out(Cell(g.s, b, kv, h, d)), Output(g, t, b, kv, h, d, tokens(b)))
  {
    var lists := GridStores(g, t, live, tokens, ps);
    var i :| 0 <= i < |lists| && x in lists[i];
    assert ps[i] in ps && live(ps[i].b);
    ResultStored(g, t, tokens(ps[i].b), ps[i], x);
  }

  lemma LiveHeadIsStored(g: Launch, t: Tensors, live: nat -> bool, tokens: nat -> nat, ps: seq<Program>, b: nat,
                         kv: nat, h: nat, d: nat)
    requires Launchable(g, t) && IsGrid(g, t, live, tokens, ps) && InGrid(g.s, b, kv, h, d) && live(b)
             && tokens(b) <= Len(t, b)
    ensures StoredBy(GridStores(g, t, live, tokens, ps),
                     Store(Out(Cell(g.s, b, kv, h, d)), Output(g, t, b, kv, h, d, tokens(b))))
  {
    var lists := GridStores(g, t, live, tokens, ps);
    assert HasProgram(ps, b, kv);
    var p :| p in ps && p.b == b && p.kv == kv;
    var i :| 0 <= i < |ps| && ps[i] == p;
    HeadStoresAre(g.s, p, Store(Out(Cell(g.s, b, kv, h, d)), p.result[h][d]));
    assert lists[i] == HeadStores(g.s, p);
  }

  /** However the stores of the grid's programs interleave, the output ends up the same: heads of live rows hold their
      attention, heads of other rows what they held. */
  lemma OutputGridInterleaves(g: Launch, t: Tensors, live: nat -> bool, tokens: nat -> nat, ps: seq<Program>,
                              stores: seq<Store>, cells: Cells, b: nat, kv: nat, h: nat, d: nat)
    requires Launchable(g, t) && IsGrid(g, t, live, tokens, ps) && InGrid(g.s, b, kv, h, d) && tokens(b) <= Len(t, b)
    requires IsMerge(GridStores(g, t, live, tokens, ps), stores) && Out(Cell(g.s, b, kv, h, d)) in cells
    ensures Out(Cell(g.s, b, kv, h, d)) in Replay(stores, cells)
    ensures Replay(stores, cells)[Out(Cell(g.s, b, kv, h, d))] ==
            if live(b) then Output(g, t, b, kv, h, d, tokens(b)) else cells[Out(Cell(g.s, b, kv, h, d))]
  {
    var lists, place, v := GridStores(g, t, live, tokens, ps), Out(Cell(g.s, b, kv, h, d)),
          Output(g, t, b, kv, h, d, tokens(b));
    forall x | StoredBy(lists, x) && x.place == place ensures x.value == v && live(b) {
      GridStoresAre(g, t, live, tokens, ps, x);
      var b', kv', h', d' :| InGrid(g.s, b', kv', h', d') && live(b') && tokens(b') <= Len(t, b')
                             && x == Store(Out(Cell(g.s, b', kv', h', d')), Output(g, t, b', kv', h', d', tokens(b')));
      CellInjective(g.s, b, kv, h, d, b', kv', h', d');
    }
    MergeLeaves(lists, stores, cells, place, v);
    if live(b) {
      LiveHeadIsStored(g, t, live, tokens, ps, b, kv, h, d);
    }
  }

  // ---- the grid that writes the scratch buffers ----

  /** What a program of the partial kernel has computed. */
  datatype Partial = Partial(k: nat, b: nat, kv: nat, r: Registers)

  predicate PartialOk(s: Shape, splits: nat, p: Partial) {
    && s.numQ == s.numKv * s.group && p.k < splits && p.b < s.batch && p.kv < s.numKv
    && s.group <= |p.r.m| && s.group <= |p.r.l| && s.group <= |p.r.acc|
        && forall h | 0 <= h < s.group :: |p.r.acc[h]| == s.headDim
  }

  /** The masked stores of its registers. */
  function PartialStores(s: Shape, splits: nat, p: Partial): seq<Store>
    requires PartialOk(s, splits, p)
  {
    seq(s.group, h requires 0 <= h < s.group => Store(PartialM(HeadCell(s, splits, p.k, p.b, p.kv, h)), p.r.m[h]))
    + seq(s.group, h requires 0 <= h < s.group => Store(PartialL(HeadCell(s, splits, p.k, p.b, p.kv, h)), p.r.l[h]))
    + Flat(seq(s.group, h requires 0 <= h < s.group =>
        seq(s.headDim, d requires 0 <= d < s.headDim =>
            Store(PartialAcc(AccCell(s, splits, p.k, p.b, p.kv, h, d)), p.r.acc[h][d]))))
  }

  /** x is one of the stores of a program's real lanes. */
  ghost predicate IsLaneStore(s: Shape, splits: nat, p: Partial, x: Store)
    requires PartialOk(s, splits, p)
  {
    || (exists h :: 0 <= h < s.group && x == Store(PartialM(HeadCell(s, splits, p.k, p.b, p.kv, h)), p.r.m[h]))
    || (exists h :: 0 <= h < s.group && x == Store(PartialL(HeadCell(s, splits, p.k, p.b, p.kv, h)), p.r.l[h]))
    || (exists h, d ::
          && InGrid(s, p.b, p.kv, h, d)
          && x == Store(PartialAcc(AccCell(s, splits, p.k, p.b, p.kv, h, d)), p.r.acc[h][d]))
  }

  lemma PartialStoresAre(s: Shape, splits: nat, p: Partial, x: Store)
    requires PartialOk(s, splits, p)
    ensures x in PartialStores(s, splits, p) <==> IsLaneStore(s, splits, p, x)
  {
    var ms := seq(s.group, h requires 0 <= h < s.group =>
                  Store(PartialM(HeadCell(s, splits, p.k, p.b, p.kv, h)), p.r.m[h]));
    var ls := seq(s.group, h requires 0 <= h < s.group =>
                  Store(PartialL(HeadCell(s, splits, p.k, p.b, p.kv, h)), p.r.l[h]));
    var rows := seq(s.group, h requires 0 <= h < s.group =>
        seq(s.headDim, d requires 0 <= d < s.headDim =>
            Store(PartialAcc(AccCell(s, splits, p.k, p.b, p.kv, h, d)), p.r.acc[h][d])));
    assert PartialStores(s, splits, p) == ms + ls + Flat(rows);
    InFlat(rows, x);
    if x in Flat(rows) {
      var h :| 0 <= h < |rows| && x in rows[h];
      var d :| 0 <= d < |rows[h]| && rows[h][d] == x;
      assert InGrid(s, p.b, p.kv, h, d);
    }
    if h, d :|
      && InGrid(s, p.b, p.kv, h, d)
      && x == Store(PartialAcc(AccCell(s, splits, p.k, p.b, p.kv, h, d)), p.r.acc[h][d])
    {
      assert rows[h][d] == x;
    }
    if h :| 0 <= h < s.group && x == Store(PartialM(HeadCell(s, splits, p.k, p.b, p.kv, h)), p.r.m[h]) {
      assert ms[h] == x;
    }
    if h :| 0 <= h < s.group && x == Store(PartialL(HeadCell(s, splits, p.k, p.b, p.kv, h)), p.r.l[h]) {
      assert ls[h] == x;
    }
  }

  /** One program per split, row and key/value head of the long rows; rows that are too short have none. */
  ghost predicate IsPartialGrid(s: Shape, splits: nat, ps: seq<Partial>) {
    && (forall p | p in ps :: PartialOk(s, splits, p))
    && forall i, j | 0 <= i < |ps| && 0 <= j < |ps| && i != j ::
          !(ps[i].k == ps[j].k && ps[i].b == ps[j].b && ps[i].kv == ps[j].kv)
  }

  ghost function PartialGridStores(s: Shape, splits: nat, ps: seq<Partial>): (r: seq<seq<Store>>)
    requires IsPartialGrid(s, splits, ps)
    ensures |r| == |ps|
  {
    seq(|ps|, i requires 0 <= i < |ps| => assert ps[i] in ps; PartialStores(s, splits, ps[i]))
  }

  /** A store of the grid into a cell of one program is that program's. */
  lemma OwnStore(s: Shape, splits: nat, ps: seq<Partial>, i: nat, x: Store)
    requires IsPartialGrid(s, splits, ps) && i < |ps| && StoredBy(PartialGridStores(s, splits, ps), x)
    ensures ps[i] in ps
    ensures forall h | 0 <= h < s.group && x.place == PartialM(HeadCell(s, splits, ps[i].k, ps[i].b, ps[i].kv, h)) ::
              x.value == ps[i].r.m[h]
    ensures forall h | 0 <= h < s.group && x.place == PartialL(HeadCell(s, splits, ps[i].k, ps[i].b, ps[i].kv, h)) ::
              x.value == ps[i].r.l[h]
    ensures forall h, d | InGrid(s, ps[i].b, ps[i].kv, h, d)
          && x.place == PartialAcc(AccCell(s, splits, ps[i].k, ps[i].b, ps[i].kv, h, d)) ::
              x.value == ps[i].r.acc[h][d]
  {
    var lists := PartialGridStores(s, splits, ps);
    var j :| 0 <= j < |lists| && x in lists[j];
    var p, q := ps[i], ps[j];
    assert p in ps && q in ps;
    PartialStoresAre(s, splits, q, x);
    forall h | 0 <= h < s.group && x.place == PartialM(HeadCell(s, splits, p.k, p.b, p.kv, h))
      ensures x.value == p.r.m[h] {
      var h' :| 0 <= h' < s.group && x == Store(PartialM(HeadCell(s, splits, q.k, q.b, q.kv, h')), q.r.m[h']);
      HeadCellInjective(s, splits, p.k, p.b, p.kv, h, q.k, q.b, q.kv, h');
    }
    forall h | 0 <= h < s.group && x.place == PartialL(HeadCell(s, splits, p.k, p.b, p.kv, h))
      ensures x.value == p.r.l[h] {
      var h' :| 0 <= h' < s.group && x == Store(PartialL(HeadCell(s, splits, q.k, q.b, q.kv, h')), q.r.l[h']);
      HeadCellInjective(s, splits, p.k, p.b, p.kv, h, q.k, q.b, q.kv, h');
    }
    forall h, d | InGrid(s, p.b, p.kv, h, d) && x.place == PartialAcc(AccCell(s, splits, p.k, p.b, p.kv, h, d))
      ensures x.value == p.r.acc[h][d] {
      var h', d' :| InGrid(s, q.b, q.kv, h', d')
            && x == Store(PartialAcc(AccCell(s, splits, q.k, q.b, q.kv, h', d')), q.r.acc[h'][d']);
      IndexInjective(HeadCell(s, splits, p.k, p.b, p.kv, h), d, HeadCell(s, splits, q.k, q.b, q.kv, h'), d', s.headDim);
      HeadCellInjective(s, splits, p.k, p.b, p.kv, h, q.k, q.b, q.kv, h');
    }
  }

  /** A scratch cell of split k of head (b, kv, h). */
  ghost predicate OfSplit(s: Shape, splits: nat, place: Place, k: nat, b: nat, kv: nat, h: nat, d: nat)
    requires k < splits && InGrid(s, b, kv, h, d)
  {
    || place == PartialM(HeadCell(s, splits, k, b, kv, h))
    || place == PartialL(HeadCell(s, splits, k, b, kv, h))
    || place == PartialAcc(AccCell(s, splits, k, b, kv, h, d))
  }

  /** A store of the grid into a scratch cell of some split comes from that split's own program. */
  lemma StoreHasProgram(s: Shape, splits: nat, ps: seq<Partial>, k: nat, b: nat, kv: nat, h: nat, d: nat, x: Store)
    requires IsPartialGrid(s, splits, ps) && k < splits && InGrid(s, b, kv, h, d)
    requires StoredBy(PartialGridStores(s, splits, ps), x) && OfSplit(s, splits, x.place, k, b, kv, h, d)
    ensures exists p :: p in ps && p.k == k && p.b == b && p.kv == kv
  {
    var lists := PartialGridStores(s, splits, ps);
    var j :| 0 <= j < |lists| && x in lists[j];
    var q := ps[j];
    assert q in ps;
    PartialStoresAre(s, splits, q, x);
    if h' :| 0 <= h' < s.group && x == Store(PartialM(HeadCell(s, splits, q.k, q.b, q.kv, h')), q.r.m[h']) {
      HeadCellInjective(s, splits, k, b, kv, h, q.k, q.b, q.kv, h');
    } else if h' :| 0 <= h' < s.group && x == Store(PartialL(HeadCell(s, splits, q.k, q.b, q.kv, h')), q.r.l[h']) {
      HeadCellInjective(s, splits, k, b, kv, h, q.k, q.b, q.kv, h');
    } else {
      var h', d' :| InGrid(s, q.b, q.kv, h', d')
                    && x == Store(PartialAcc(AccCell(s, splits, q.k, q.b, q.kv, h', d')), q.r.acc[h'][d']);
      IndexInjective(HeadCell(s, splits, k, b, kv, h), d, HeadCell(s, splits, q.k, q.b, q.kv, h'), d', s.headDim);
      HeadCellInjective(s, splits, k, b, kv, h, q.k, q.b, q.kv, h');
    }
  }

  /** However the partial kernel's stores interleave, the cells of a split without a program keep what they held. */
  lemma PartialGridKeeps(s: Shape, splits: nat, ps: seq<Partial>, stores: seq<Store>, cells: Cells, k: nat, b: nat,
                         kv: nat, h: nat, d: nat, place: Place)
    requires IsPartialGrid(s, splits, ps) && IsMerge(PartialGridStores(s, splits, ps), stores)
    requires k < splits && InGrid(s, b, kv, h, d) && forall p | p in ps :: !(p.k == k && p.b == b && p.kv == kv)
    requires OfSplit(s, splits, place, k, b, kv, h, d) && place in cells
    ensures place in Replay(stores, cells) && Replay(stores, cells)[place] == cells[place]
  {
    var lists := PartialGridStores(s, splits, ps);
    forall x | StoredBy(lists, x) ensures x.place != place {
      if x.place == place {
        StoreHasProgram(s, splits, ps, k, b, kv, h, d, x);
      }
    }
    MergeLeaves(lists, stores, cells, place, cells[place]);
  }

  /** However the partial kernel's stores interleave, every program's cells end up with its own registers. */
  lemma PartialGridInterleaves(s: Shape, splits: nat, ps: seq<Partial>, stores: seq<Store>, cells: Cells, i: nat,
                               h: nat, d: nat)
    requires IsPartialGrid(s, splits, ps) && IsMerge(PartialGridStores(s, splits, ps), stores) && i < |ps|
    requires ps[i] in ps && InGrid(s, ps[i].b, ps[i].kv, h, d)
    requires var head := HeadCell(s, splits, ps[i].k, ps[i].b, ps[i].kv, h);
             && PartialM(head) in cells && PartialL(head) in cells
             && PartialAcc(AccCell(s, splits, ps[i].k, ps[i].b, ps[i].kv, h, d)) in cells
    ensures var head, after := HeadCell(s, splits, ps[i].k, ps[i].b, ps[i].kv, h), Replay(stores, cells);
            && PartialM(head) in after && after[PartialM(head)] == ps[i].r.m[h]
            && PartialL(head) in after && after[PartialL(head)] == ps[i].r.l[h]
            && PartialAcc(AccCell(s, splits, ps[i].k, ps[i].b, ps[i].kv, h, d)) in after
            && after[PartialAcc(AccCell(s, splits, ps[i].k, ps[i].b, ps[i].kv, h, d))] == ps[i].r.acc[h][d]
  {
    var lists, p := PartialGridStores(s, splits, ps), ps[i];
    var head, acc := HeadCell(s, splits, p.k, p.b, p.kv, h), AccCell(s, splits, p.k, p.b, p.kv, h, d);
    forall x | StoredBy(lists, x)
      ensures (x.place == PartialM(head) ==> x.value == p.r.m[h]) && (x.place == PartialL(head) ==> x.value == p.r.l[h])
              && (x.place == PartialAcc(acc) ==> x.value == p.r.acc[h][d])
    {
      OwnStore(s, splits, ps, i, x);
    }
    assert lists[i] == PartialStores(s, splits, p);
    PartialStoresAre(s, splits, p, Store(PartialM(head), p.r.m[h]));
    PartialStoresAre(s, splits, p, Store(PartialL(head), p.r.l[h]));
    PartialStoresAre(s, splits, p, Store(PartialAcc(acc), p.r.acc[h][d]));
    MergeLeaves(lists, stores, cells, PartialM(head), p.r.m[h]);
    MergeLeaves(lists, stores, cells, PartialL(head), p.r.l[h]);
    MergeLeaves(lists, stores, cells, PartialAcc(acc), p.r.acc[h][d]);
  }

  /** So a split that its program summarised reads back as that summary, as the combine kernel needs it. */
  lemma SplitSurvives(g: Launch, t: Tensors, splits: nat, splitTokens: nat, ps: seq<Partial>, lanes: nat,
                      stores: seq<Store>, cells: Cells, i: nat, h: nat, d: nat)
    requires Launchable(g, t) && IsPartialGrid(g.s, splits, ps) && IsMerge(PartialGridStores(g.s, splits, ps), stores)
             && i < |ps|
    requires ps[i] in ps && InGrid(g.s, ps[i].b, ps[i].kv, h, d) && g.s.group <= lanes
             && Sized(ps[i].r, lanes, g.s.headDim)
    requires SplitBegin(t, splitTokens, ps[i].k, ps[i].b) <= SplitBegin(t, splitTokens, ps[i].k + 1, ps[i].b)
    requires Summarises(g, t, ps[i].b, ps[i].kv, SplitBegin(t, splitTokens, ps[i].k, ps[i].b),
                        SplitBegin(t, splitTokens, ps[i].k + 1, ps[i].b), ps[i].r, lanes)
    requires var head := HeadCell(g.s, splits, ps[i].k, ps[i].b, ps[i].kv, h);
             && PartialM(head) in cells && PartialL(head) in cells
             && PartialAcc(AccCell(g.s, splits, ps[i].k, ps[i].b, ps[i].kv, h, d)) in cells
    ensures var head, acc, after := HeadCell(g.s, splits, ps[i].k, ps[i].b, ps[i].kv, h),
          AccCell(g.s, splits, ps[i].k, ps[i].b, ps[i].kv, h, d), Replay(stores, cells);
            && PartialM(head) in after && PartialL(head) in after && PartialAcc(acc) in after
            && LaneSummarises(g, t, ps[i].b, ps[i].kv, h, d, SplitBegin(t, splitTokens, ps[i].k, ps[i].b),
                              SplitBegin(t, splitTokens, ps[i].k + 1, ps[i].b),
                              after[PartialM(head)], after[PartialL(head)], after[PartialAcc(acc)])
  {
    PartialGridInterleaves(g.s, splits, ps, stores, cells, i, h, d);
  }
}
