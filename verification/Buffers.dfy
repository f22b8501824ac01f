/** Where the programs of a launch store: the output buffer and the split-K scratch buffers. */
module Buffers {
  import opened ExtReal
  import opened Layout
  import opened PagedCache

  ghost predicate InGrid(s: Shape, b: int, kv: int, h: int, d: int) {
    && s.numQ == s.numKv * s.group
    && 0 <= b < s.batch && 0 <= kv < s.numKv && 0 <= h < s.group && 0 <= d < s.headDim
  }

  function OutSize(s: Shape): nat {
    s.batch * s.numQ * s.headDim
  }

  /** The output cell of head h of program (b, kv), dimension d. */
  function Cell(s: Shape, b: nat, kv: nat, h: nat, d: nat): (c: nat)
    requires InGrid(s, b, kv, h, d)
    ensures c < OutSize(s)
  {
    IndexBound(kv, s.numKv, s.group, h);
    IndexBound(b, s.batch, s.numQ, Index(kv, s.group, h));
    IndexBound(Index(b, s.numQ, Index(kv, s.group, h)), s.batch * s.numQ, s.headDim, d);
    Index(Index(b, s.numQ, Index(kv, s.group, h)), s.headDim, d)
  }

  /** Cell is the kernels' pointer arithmetic. */
  lemma CellIsOffset(s: Shape, b: nat, kv: nat, h: nat, d: nat)
    requires InGrid(s, b, kv, h, d)
    ensures Cell(s, b, kv, h, d) == b * s.numQ * s.headDim + (kv * s.group + h) * s.headDim + d
  {
    IndexValue(kv, s.group, h);
    HeadOffsetIsRowMajor(s, b, kv * s.group + h, d);
  }

  /** No two heads of the grid share an output cell. */
  lemma CellInjective(s: Shape, b: nat, kv: nat, h: nat, d: nat, b': nat, kv': nat, h': nat, d': nat)
    requires InGrid(s, b, kv, h, d) && InGrid(s, b', kv', h', d')
    requires Cell(s, b, kv, h, d) == Cell(s, b', kv', h', d')
    ensures b == b' && kv == kv' && h == h' && d == d'
  {
    IndexBound(kv, s.numKv, s.group, h);
    IndexBound(kv', s.numKv, s.group, h');
    IndexInjective(Index(b, s.numQ, Index(kv, s.group, h)), d, Index(b', s.numQ, Index(kv', s.group, h')), d',
                   s.headDim);
    IndexInjective(b, Index(kv, s.group, h), b', Index(kv', s.group, h'), s.numQ);
    IndexInjective(kv, h, kv', h', s.group);
  }

  /** By counting rows. */
  lemma {:induction false} SplitIndex(c: nat, n: nat, w: nat) returns (i: nat, j: nat)
    requires c < Index(n, w, 0)
    ensures i < n && j < w && Index(i, w, j) == c
    decreases n
  {
    if c < w {
      i, j := 0, c;
    } else {
      i, j := SplitIndex(c - w, n - 1, w);
      i := i + 1;
    }
  }

  lemma IndexSplit(c: nat, n: nat, w: nat) returns (i: nat, j: nat)
    requires c < n * w
    ensures i < n && j < w && Index(i, w, j) == c
  {
    IndexValue(n, w, 0);
    i, j := SplitIndex(c, n, w);
  }

  /** Every output cell belongs to a head of the grid. */
  lemma CellSurjective(s: Shape, c: nat) returns (b: nat, kv: nat, h: nat, d: nat)
    requires s.numQ == s.numKv * s.group && c < OutSize(s)
    ensures InGrid(s, b, kv, h, d) && Cell(s, b, kv, h, d) == c
  {
    var q: nat, kq: nat;
    q, d := IndexSplit(c, s.batch * s.numQ, s.headDim);
    b, kq := IndexSplit(q, s.batch, s.numQ);
    kv, h := IndexSplit(kq, s.numKv, s.group);
  }

  /** tl.store of a program's result, masked to its real heads: it changes its own cells and no other. */
  method StoreHeads(s: Shape, out: array<Ext>, b: nat, kv: nat, result: seq<seq<Ext>>)
    requires s.numQ == s.numKv * s.group && b < s.batch && kv < s.numKv && out.Length == OutSize(s)
    requires s.group <= |result| && forall h | 0 <= h < s.group :: |result[h]| == s.headDim
    modifies out
    ensures forall b', kv', h', d' | InGrid(s, b', kv', h', d') ::
              out[Cell(s, b', kv', h', d')] ==
                    if b' == b && kv' == kv then result[h'][d'] else old(out[Cell(s, b', kv', h', d')])
  {
    forall h, d, b', kv', h', d' | InGrid(s, b, kv, h, d) && InGrid(s, b', kv', h', d')
          && Cell(s, b, kv, h, d) == Cell(s, b', kv', h', d')
      ensures b == b' && kv == kv' && h == h' && d == d'
    {
      CellInjective(s, b, kv, h, d, b', kv', h', d');
    }
    forall h, d | 0 <= h < s.group && 0 <= d < s.headDim {
      out[Cell(s, b, kv, h, d)] := result[h][d];
    }
  }

  // ---- scratch ----

  /** The head cell of split k: the kernels' (split_id * BATCH_SIZE + batch_id) * NUM_Q_HEADS + q_head. */
  function HeadCell(s: Shape, splits: nat, k: nat, b: nat, kv: nat, h: nat): (c: nat)
    requires k < splits && s.numQ == s.numKv * s.group && b < s.batch && kv < s.numKv && h < s.group
    ensures c < splits * s.batch * s.numQ
  {
    IndexBound(kv, s.numKv, s.group, h);
    IndexBound(k, splits, s.batch, b);
    IndexBound(Index(k, s.batch, b), splits * s.batch, s.numQ, Index(kv, s.group, h));
    Index(Index(k, s.batch, b), s.numQ, Index(kv, s.group, h))
  }

  function AccCell(s: Shape, splits: nat, k: nat, b: nat, kv: nat, h: nat, d: nat): (c: nat)
    requires k < splits && InGrid(s, b, kv, h, d)
    ensures c < splits * s.batch * s.numQ * s.headDim
  {
    IndexBound(HeadCell(s, splits, k, b, kv, h), splits * s.batch * s.numQ, s.headDim, d);
    Index(HeadCell(s, splits, k, b, kv, h), s.headDim, d)
  }

  /** HeadCell and AccCell are the kernels' pointer arithmetic. */
  lemma ScratchCellsAreOffsets(s: Shape, splits: nat, k: nat, b: nat, kv: nat, h: nat, d: nat)
    requires k < splits && InGrid(s, b, kv, h, d)
    ensures HeadCell(s, splits, k, b, kv, h) == (k * s.batch + b) * s.numQ + (kv * s.group + h)
    ensures AccCell(s, splits, k, b, kv, h, d) == ((k * s.batch + b) * s.numQ + (kv * s.group + h)) * s.headDim + d
  {
    IndexValue(kv, s.group, h);
    IndexValue(k, s.batch, b);
    IndexValue(Index(k, s.batch, b), s.numQ, Index(kv, s.group, h));
    IndexValue(HeadCell(s, splits, k, b, kv, h), s.headDim, d);
  }

  lemma HeadCellInjective(s: Shape, splits: nat, k: nat, b: nat, kv: nat, h: nat, k': nat, b': nat, kv': nat, h': nat)
    requires s.numQ == s.numKv * s.group && k < splits && b < s.batch && kv < s.numKv && h < s.group
    requires k' < splits && b' < s.batch && kv' < s.numKv && h' < s.group
    requires HeadCell(s, splits, k, b, kv, h) == HeadCell(s, splits, k', b', kv', h')
    ensures k == k' && b == b' && kv == kv' && h == h'
  {
    IndexBound(kv, s.numKv, s.group, h);
    IndexBound(kv', s.numKv, s.group, h');
    IndexInjective(Index(k, s.batch, b), Index(kv, s.group, h), Index(k', s.batch, b'), Index(kv', s.group, h'),
                   s.numQ);
    IndexInjective(k, b, k', b', s.batch);
    IndexInjective(kv, h, kv', h', s.group);
  }

  /** The scratch buffers of one long launch. Their contents mean nothing until a program writes them. */
  datatype Scratch = Scratch(m: array<Ext>, l: array<Ext>, acc: array<Ext>)

  ghost predicate Fits(s: Shape, splits: nat, w: Scratch) {
    && w.m != w.l && w.m != w.acc && w.l != w.acc
    && w.m.Length == splits * s.batch * s.numQ && w.l.Length == splits * s.batch * s.numQ
    && w.acc.Length == splits * s.batch * s.numQ * s.headDim
  }

  /** tl.store of a program's registers into its split's scratch cells. */
  method StorePartial(s: Shape, splits: nat, w: Scratch, k: nat, b: nat, kv: nat, m: seq<Ext>, l: seq<Ext>,
                      acc: seq<seq<Ext>>)
    requires s.numQ == s.numKv * s.group && k < splits && b < s.batch && kv < s.numKv && Fits(s, splits, w)
    requires s.group <= |m| && s.group <= |l| && s.group <= |acc|
             && forall h | 0 <= h < s.group :: |acc[h]| == s.headDim
    modifies w.m, w.l, w.acc
    ensures forall k', b', kv', h' | 0 <= k' < splits && 0 <= b' < s.batch && 0 <= kv' < s.numKv && 0 <= h' < s.group ::
              var c := HeadCell(s, splits, k', b', kv', h');
              && w.m[c] == (if k' == k && b' == b && kv' == kv then m[h'] else old(w.m[c]))
              && w.l[c] == (if k' == k && b' == b && kv' == kv then l[h'] else old(w.l[c]))
    ensures forall k', b', kv', h', d' | 0 <= k' < splits && InGrid(s, b', kv', h', d') ::
              var c := AccCell(s, splits, k', b', kv', h', d');
              w.acc[c] == if k' == k && b' == b && kv' == kv then acc[h'][d'] else old(w.acc[c])
  {
    forall h, k', b', kv', h' | 0 <= h < s.group && 0 <= k' < splits && 0 <= b' < s.batch && 0 <= kv' < s.numKv
          && 0 <= h' < s.group
        && HeadCell(s, splits, k, b, kv, h) == HeadCell(s, splits, k', b', kv', h')
      ensures k == k' && b == b' && kv == kv' && h == h'
    {
      HeadCellInjective(s, splits, k, b, kv, h, k', b', kv', h');
    }
    forall h, d, k', b', kv', h', d' | InGrid(s, b, kv, h, d) && 0 <= k' < splits && InGrid(s, b', kv', h', d')
        && AccCell(s, splits, k, b, kv, h, d) == AccCell(s, splits, k', b', kv', h', d')
      ensures k == k' && b == b' && kv == kv' && h == h' && d == d'
    {
      IndexInjective(HeadCell(s, splits, k, b, kv, h), d, HeadCell(s, splits, k', b', kv', h'), d', s.headDim);
      HeadCellInjective(s, splits, k, b, kv, h, k', b', kv', h');
    }
    forall h | 0 <= h < s.group {
      w.m[HeadCell(s, splits, k, b, kv, h)] := m[h];
    }
    forall h | 0 <= h < s.group {
      w.l[HeadCell(s, splits, k, b, kv, h)] := l[h];
    }
    forall h, d | 0 <= h < s.group && 0 <= d < s.headDim {
      w.acc[AccCell(s, splits, k, b, kv, h, d)] := acc[h][d];
    }
  }
}
